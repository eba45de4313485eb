/** The event log of a run: numbering events as they are written, and reading them back page by page. */
module EventLog {
  import opened Wrappers

  datatype Event = Event(sequence: nat, kind: string)

  // ---------- Writing ----------

  type Actor = nat

  /** A transaction that holds the lock on the run's row, with the sequence it was given and the event it inserted. */
  datatype Transaction = Transaction(actor: Actor, sequence: nat, inserted: Option<Event>)

  /** What is committed, and the transaction that others wait for. */
  datatype Log = Log(eventSequence: nat, events: seq<Event>, holder: Option<Transaction>)

  /** The writes of `persistEvent`; any of them may be the last one before the transaction is rolled back. */
  datatype Write =
    | Increment(actor: Actor) | Insert(actor: Actor, kind: string) | Commit(actor: Actor) | Rollback(actor: Actor)

  predicate Holds(log: Log, actor: Actor) {
    log.holder.Some? && log.holder.value.actor == actor
  }

  /** A write whose turn it is not leaves the log alone: the database makes it wait. */
  function Written(log: Log, w: Write): Log {
    match w
    case Increment(a) =>
      if log.holder.None? then log.(holder := Some(Transaction(a, log.eventSequence + 1, None))) else log
    case Insert(a, kind) =>
      if Holds(log, a) && log.holder.value.inserted.None? then
        log.(holder := Some(log.holder.value.(inserted := Some(Event(log.holder.value.sequence, kind)))))
      else log
    case Commit(a) =>
      if Holds(log, a) && log.holder.value.inserted.Some? then
        Log(log.holder.value.sequence, log.events + [log.holder.value.inserted.value], None)
      else log
    case Rollback(a) =>
      if Holds(log, a) then log.(holder := None) else log
  }

  function WrittenAll(log: Log, writes: seq<Write>): Log {
    if writes == [] then log else Written(WrittenAll(log, writes[..|writes| - 1]), writes[|writes| - 1])
  }

  const EMPTY := Log(0, [], None)

  /** Numbered 1, 2, 3, … without gaps. */
  ghost predicate IsGapless(events: seq<Event>) {
    forall i :: 0 <= i < |events| ==> events[i].sequence == i + 1
  }

  ghost predicate LogInv(log: Log) {
    && IsGapless(log.events) && log.eventSequence == |log.events|
    && (log.holder.Some? ==>
          && log.holder.value.sequence == |log.events| + 1
          && (log.holder.value.inserted.Some? ==> log.holder.value.inserted.value.sequence == |log.events| + 1))
  }

  /** However transactions interleave and roll back, the committed events have no gaps and are only ever added to. */
  lemma {:induction false} LogIsGapless(writes: seq<Write>, n: nat)
    requires n <= |writes|
    ensures LogInv(WrittenAll(EMPTY, writes))
    ensures WrittenAll(EMPTY, writes[..n]).events <= WrittenAll(EMPTY, writes).events
    decreases |writes|
  {
    if n == |writes| {
      assert writes[..n] == writes;
    }
    if writes != [] {
      var front := writes[..|writes| - 1];
      LogIsGapless(front, if n == |writes| then n - 1 else n);
      assert n < |writes| ==> front[..n] == writes[..n];
    }
  }

  /** The write of a transaction that throws, if any. */
  datatype Failure = Never | AtIncrement | AtInsert | AtCommit

  class EventStore {
    var log: Log

    /** One call that nobody interrupts; the `catch` answers nothing for a transaction that threw. */
    method PersistEvent(actor: Actor, kind: string, failure: Failure) returns (sequence: Option<nat>)
      requires LogInv(log) && log.holder.None?
      modifies this
      ensures LogInv(log) && log.holder.None?
      ensures sequence.Some? <==> failure.Never?
      ensures sequence.Some? ==>
                sequence.value == |old(log).events| + 1 && log.events == old(log).events + [Event(sequence.value, kind)]
      ensures sequence.None? ==> log == old(log)
    {
      if failure.AtIncrement? {
        return None;
      }
      log := Written(log, Increment(actor));
      if failure.AtInsert? {
        log := Written(log, Rollback(actor));
        return None;
      }
      log := Written(log, Insert(actor, kind));
      if failure.AtCommit? {
        log := Written(log, Rollback(actor));
        return None;
      }
      sequence := Some(log.holder.value.sequence);
      log := Written(log, Commit(actor));
    }
  }

  // ---------- Reading ----------

  const PAGE_SIZE: nat := 500

  /** Sequences ascend, as in every log written by `persistEvent`. */
  ghost predicate IsAscending(events: seq<Event>) {
    forall i, j :: 0 <= i < j < |events| ==> events[i].sequence < events[j].sequence
  }

  /** Every event after `after`. */
  function Newer(events: seq<Event>, after: nat): seq<Event> {
    if events == [] then []
    else (if events[0].sequence > after then [events[0]] else []) + Newer(events[1..], after)
  }

  /** The query behind one page. */
  function Page(events: seq<Event>, after: nat): seq<Event> {
    var newer := Newer(events, after);
    if |newer| <= PAGE_SIZE then newer else newer[..PAGE_SIZE]
  }

  /** The log as each page finds it: it may grow between pages, but never without end. */
  ghost predicate IsGrowingLog(logs: nat -> seq<Event>, bound: nat) {
    && (forall n: nat :: IsAscending(logs(n)) && |logs(n)| <= bound)
    && (forall m: nat, n: nat :: m <= n ==> logs(m) <= logs(n))
  }

  lemma {:induction false} NewerOfNewest(events: seq<Event>, after: nat)
    requires forall i :: 0 <= i < |events| ==> events[i].sequence > after
    ensures Newer(events, after) == events
    decreases |events|
  {
    if events != [] { NewerOfNewest(events[1..], after); }
  }

  /** Everything from `k` on is newer than `after`, nothing before is. */
  ghost predicate IsSplit(events: seq<Event>, after: nat, k: nat) {
    && k <= |events|
    && (forall i :: 0 <= i < k ==> events[i].sequence <= after)
    && (forall i :: k <= i < |events| ==> events[i].sequence > after)
  }

  lemma {:induction false} HasSplit(events: seq<Event>, after: nat) returns (k: nat)
    requires IsAscending(events)
    ensures IsSplit(events, after, k)
    decreases |events|
  {
    if events == [] || events[|events| - 1].sequence <= after {
      k := |events|;
    } else {
      k := HasSplit(events[..|events| - 1], after);
    }
  }

  /** In an ascending log the newer events are the end of it. */
  lemma {:induction false} NewerIsEnd(events: seq<Event>, after: nat, k: nat)
    requires IsSplit(events, after, k)
    ensures Newer(events, after) == events[k..]
    decreases k
  {
    if k == 0 {
      NewerOfNewest(events, after);
    } else {
      NewerIsEnd(events[1..], after, k - 1);
    }
  }

  /** Growing the log only adds to the newer events. */
  lemma NewerGrows(events: seq<Event>, longer: seq<Event>, after: nat)
    requires events <= longer && IsAscending(longer)
    ensures Newer(events, after) <= Newer(longer, after)
  {
    var k := HasSplit(longer, after);
    var j := if k <= |events| then k else |events|;
    assert forall i :: 0 <= i < |events| ==> events[i] == longer[i];
    NewerIsEnd(longer, after, k);
    NewerIsEnd(events, after, j);
    assert events[j..] <= longer[k..];
  }

  /** Asking again from the last event received continues where the answer broke off. */
  lemma NewerContinues(events: seq<Event>, after: nat, c: nat)
    requires IsAscending(events) && 0 < c <= |Newer(events, after)|
    ensures Newer(events, Newer(events, after)[c - 1].sequence) == Newer(events, after)[c..]
  {
    var k := HasSplit(events, after);
    NewerIsEnd(events, after, k);
    assert Newer(events, after)[c - 1] == events[k + c - 1];
    NewerIsEnd(events, events[k + c - 1].sequence, k + c);
  }

  /** The answer so far, and the page that continues it. */
  lemma PageContinues(log: seq<Event>, before: seq<Event>, after: nat, collected: seq<Event>, cursor: nat)
    requires IsAscending(log) && before <= log && collected <= Newer(before, after)
    requires cursor == if collected == [] then after else collected[|collected| - 1].sequence
    ensures collected <= Newer(log, after) && Newer(log, cursor) == Newer(log, after)[|collected|..]
  {
    NewerGrows(before, log, after);
    if collected != [] { NewerContinues(log, after, |collected|); }
  }

  lemma PageIsPrefix(log: seq<Event>, cursor: nat)
    ensures Page(log, cursor) <= Newer(log, cursor) && |Page(log, cursor)| <= PAGE_SIZE
    ensures |Page(log, cursor)| < PAGE_SIZE ==> Page(log, cursor) == Newer(log, cursor)
  {
  }

  lemma {:induction false} NewerIsNoLonger(events: seq<Event>, after: nat)
    ensures |Newer(events, after)| <= |events|
    decreases |events|
  {
    if events != [] { NewerIsNoLonger(events[1..], after); }
  }

  lemma Joined(all: seq<Event>, front: seq<Event>, next: seq<Event>)
    requires front <= all && next <= all[|front|..]
    ensures front + next <= all
  {
    assert all == front + all[|front|..];
  }

  /** One more page: more of the answer, and all of it if the page is not full. */
  lemma PageAdds(log: seq<Event>, before: seq<Event>, after: nat, collected: seq<Event>, cursor: nat)
    requires IsAscending(log) && before <= log && collected <= Newer(before, after)
    requires cursor == if collected == [] then after else collected[|collected| - 1].sequence
    ensures var page := Page(log, cursor);
            && |page| <= PAGE_SIZE && collected + page <= Newer(log, after) && |collected + page| <= |log|
            && (|page| < PAGE_SIZE ==> collected + page == Newer(log, after))
  {
    PageContinues(log, before, after, collected, cursor);
    PageIsPrefix(log, cursor);
    NewerIsNoLonger(log, after);
    Joined(Newer(log, after), collected, Page(log, cursor));
  }

  /** Paging answers as one unlimited query would have at the moment of the last page. */
  method EventsAll(logs: nat -> seq<Event>, after: nat, ghost bound: nat) returns (collected: seq<Event>, pages: nat)
    requires IsGrowingLog(logs, bound)
    ensures pages >= 1 && collected == Newer(logs(pages - 1), after)
    ensures pages == |collected| / 500 + 1
  {
    collected, pages := [], 0;
    var cursor := after;
    ghost var before := logs(0);
    while true
      invariant |collected| == PAGE_SIZE * pages && before <= logs(pages) && |before| <= bound
      invariant collected <= Newer(before, after)
      invariant cursor == if collected == [] then after else collected[|collected| - 1].sequence
      decreases bound - |collected|
    {
      assert logs(pages) <= logs(pages + 1);
      PageAdds(logs(pages), before, after, collected, cursor);
      var page := Page(logs(pages), cursor);
      before := logs(pages);
      pages := pages + 1;
      if page == [] {
        break;
      }
      collected := collected + page;
      cursor := page[|page| - 1].sequence;
      if |page| < PAGE_SIZE {
        break;
      }
    }
  }

  lemma GaplessAscends(events: seq<Event>)
    requires IsGapless(events)
    ensures IsAscending(events)
  {
  }

  /** Of a gapless log that is a contiguous range, up to an event at least as late as the last one at the start. */
  lemma RecoveryIsContiguous(logs: nat -> seq<Event>, after: nat, bound: nat, n: nat)
    requires IsGrowingLog(logs, bound) && IsGapless(logs(n))
    ensures var r := Newer(logs(n), after);
            && (forall i :: 0 <= i < |r| ==> r[i].sequence == after + 1 + i)
            && after + |r| >= |logs(0)|
            && |r| == if after <= |logs(n)| then |logs(n)| - after else 0
  {
    assert logs(0) <= logs(n);
    var log := logs(n);
    NewerIsEnd(log, after, if after <= |log| then after else |log|);
  }

  // ---------- From the writes to the recovered events ----------

  /** The committed events after the first `k` writes. */
  function EventsAfter(writes: seq<Write>, k: nat): seq<Event> {
    WrittenAll(EMPTY, if k <= |writes| then writes[..k] else writes).events
  }

  /** The log as page `n` finds it, when it is read after the first `at(n)` writes. */
  function LogsOf(writes: seq<Write>, at: nat -> nat): nat -> seq<Event> {
    (n: nat) => EventsAfter(writes, at(n))
  }

  ghost predicate IsNonDecreasing(at: nat -> nat) {
    forall m: nat, n: nat :: m <= n ==> at(m) <= at(n)
  }

  lemma EventsAfterGrow(writes: seq<Write>, i: nat, k: nat)
    requires i <= k
    ensures IsGapless(EventsAfter(writes, i)) && EventsAfter(writes, i) <= EventsAfter(writes, k)
  {
    if k >= |writes| {
      LogIsGapless(writes, if i <= |writes| then i else |writes|);
      assert writes[..|writes|] == writes;
      LogIsGapless(if i <= |writes| then writes[..i] else writes, 0);
    } else {
      LogIsGapless(writes[..k], i);
      assert writes[..k][..i] == writes[..i];
      LogIsGapless(writes[..i], 0);
    }
  }

  lemma LogsOfWritesGrow(writes: seq<Write>, at: nat -> nat, m: nat, n: nat)
    requires IsNonDecreasing(at) && m <= n
    ensures var logs := LogsOf(writes, at);
            && IsGapless(logs(m)) && IsAscending(logs(m)) && logs(m) <= logs(n)
            && |logs(m)| <= |WrittenAll(EMPTY, writes).events|
  {
    assert at(m) <= at(n);
    EventsAfterGrow(writes, at(m), at(n));
    EventsAfterGrow(writes, at(m), at(m) + |writes|);
    assert writes[..|writes|] == writes;
    GaplessAscends(EventsAfter(writes, at(m)));
  }

  lemma LogsOfWritesAreGrowing(writes: seq<Write>, at: nat -> nat)
    requires IsNonDecreasing(at)
    ensures IsGrowingLog(LogsOf(writes, at), |WrittenAll(EMPTY, writes).events|)
  {
    var logs := LogsOf(writes, at);
    forall m: nat, n: nat | m <= n ensures logs(m) <= logs(n) { LogsOfWritesGrow(writes, at, m, n); }
    forall n: nat ensures IsAscending(logs(n)) && |logs(n)| <= |WrittenAll(EMPTY, writes).events| {
      LogsOfWritesGrow(writes, at, n, n);
    }
  }

  /**
   * Whatever transactions write while pages are read, the pages have the growing log that paging relies on, and
   * together they hold a contiguous range of events up to one at least as late as the last one at the start.
   */
  lemma RecoveryFromWrites(writes: seq<Write>, at: nat -> nat, after: nat, last: nat)
    requires IsNonDecreasing(at)
    ensures var logs := LogsOf(writes, at);
            && IsGrowingLog(logs, |WrittenAll(EMPTY, writes).events|)
            && (forall i :: 0 <= i < |Newer(logs(last), after)| ==> Newer(logs(last), after)[i].sequence == after + 1 + i)
            && after + |Newer(logs(last), after)| >= |logs(0)|
  {
    LogsOfWritesAreGrowing(writes, at);
    LogsOfWritesGrow(writes, at, last, last);
    RecoveryIsContiguous(LogsOf(writes, at), after, |WrittenAll(EMPTY, writes).events|, last);
  }
}
