/** Re-encrypting the secrets of a company under a new key, in batches that survive crashes and failed attempts. */
module SecretRotation {
  import opened Wrappers

  /** Ids stand for their rank in the order the database sorts them by. */
  type Id = nat
  type Time = nat

  datatype Secret = Secret(companyId: string, key: string, cipher: string, keyVersion: string, rotatedAt: Option<Time>)

  datatype JobStatus = PENDING | RUNNING | COMPLETED | FAILED

  datatype Job = Job(
    status: JobStatus, companyId: string, fromKeyVersion: string, toKeyVersion: string,
    totalSecrets: nat, processedSecrets: nat, lastProcessedSecretId: Option<Id>,
    startedAt: Option<Time>, finishedAt: Option<Time>)

  datatype AuditEvent = Rotated(secretId: Id, key: string, fromKeyVersion: string, toKeyVersion: string)

  datatype State = State(secrets: map<Id, Secret>, job: Job, audit: seq<AuditEvent>)

  /** Encryption takes a nonce, so encrypting twice need not give the same text. */
  datatype Crypto = Crypto(encrypt: (string, string, nat) -> string, decrypt: (string, string) -> Option<string>)

  ghost predicate TrustedCrypto(c: Crypto) {
    forall plain: string, version: string, nonce: nat ::
      c.decrypt(c.encrypt(plain, version, nonce), version) == Some(plain)
  }

  /**
   * What happens to one write: it is done, it throws, or the process dies. `After` means that it is done all the
   * same, and `Unrecorded` that the update in the `catch` throws as well.
   */
  datatype Weather =
    | Fair | Error | UnrecordedError | ErrorAfter | UnrecordedErrorAfter | Crash | CrashAfter

  /** `weather(0)` is met by the first update of the job, `weather(n)` by the nth pass of the loop. */
  datatype Env = Env(crypto: Crypto, nonce: Id -> nat, now: Time, weather: nat -> Weather)

  datatype Outcome = Returned | Thrown | Crashed

  const BATCH_SIZE: nat := 50

  // ---------- Queries ----------

  predicate IsDue(r: Secret, j: Job) {
    r.companyId == j.companyId && r.keyVersion == j.fromKeyVersion
  }

  function Remaining(s: State): set<Id> {
    set id | id in s.secrets && IsDue(s.secrets[id], s.job)
  }

  predicate IsAfter(id: Id, cursor: Option<Id>) {
    cursor.Some? ==> id > cursor.value
  }

  function DueAfter(s: State, cursor: Option<Id>): set<Id> {
    set id | id in s.secrets && IsDue(s.secrets[id], s.job) && IsAfter(id, cursor)
  }

  predicate IsLeast(m: Id, ids: set<Id>) {
    m in ids && forall x :: x in ids ==> m <= x
  }

  lemma {:induction false} HasLeast(ids: set<Id>) returns (m: Id)
    requires ids != {}
    ensures IsLeast(m, ids)
    decreases |ids|
  {
    var a :| a in ids;
    m := a;
    var rest := ids - {a};
    if rest != {} {
      var n := HasLeast(rest);
      if n < a { m := n; }
    }
    forall x | x in ids ensures m <= x { assert x == a || x in rest; }
  }

  lemma SomeLeast(ids: set<Id>)
    requires ids != {}
    ensures exists m :: IsLeast(m, ids)
  {
    var m := HasLeast(ids);
  }

  predicate IsAscending(ids: seq<Id>) {
    forall i, j :: 0 <= i < j < |ids| ==> ids[i] < ids[j]
  }

  /** The ids in ascending order. */
  function Ascending(ids: set<Id>): seq<Id>
    decreases |ids|
  {
    if ids == {} then []
    else
      SomeLeast(ids);
      var m :| IsLeast(m, ids);
      [m] + Ascending(ids - {m})
  }

  lemma {:induction false} AscendingLists(ids: set<Id>)
    ensures |Ascending(ids)| == |ids| && (forall x :: x in Ascending(ids) <==> x in ids) && IsAscending(Ascending(ids))
    decreases |ids|
  {
    if ids != {} {
      SomeLeast(ids);
      var m :| IsLeast(m, ids);
      var rest := Ascending(ids - {m});
      AscendingLists(ids - {m});
      assert Ascending(ids) == [m] + rest;
      forall i | 0 <= i < |rest| ensures m < rest[i] { assert rest[i] in ids - {m}; }
    }
  }

  lemma AfterThePrefix(all: seq<Id>, n: nat, x: Id)
    requires IsAscending(all) && 0 < n <= |all| && x in all && x !in all[..n]
    ensures x > all[n - 1]
  {
    assert all == all[..n] + all[n..];
    var i :| 0 <= i < |all[n..]| && all[n..][i] == x;
    assert all[n + i] == x;
  }

  /** The first due secrets after the cursor. */
  function Batch(s: State, cursor: Option<Id>): (r: seq<Id>) {
    var all := Ascending(DueAfter(s, cursor));
    if |all| <= BATCH_SIZE then all else all[..BATCH_SIZE]
  }

  lemma BatchIsFirst(s: State, cursor: Option<Id>)
    ensures var r := Batch(s, cursor);
            && (r == [] <==> DueAfter(s, cursor) == {}) && IsAscending(r)
            && (forall id :: id in r ==> id in DueAfter(s, cursor))
            && (forall id :: id in DueAfter(s, cursor) && id !in r ==> r != [] && id > r[|r| - 1])
  {
    var due := DueAfter(s, cursor);
    var all := Ascending(due);
    var r := Batch(s, cursor);
    AscendingLists(due);
    assert r == all[..|r|];
    forall id | id in r ensures id in due { assert id in all; }
    forall id | id in due && id !in r ensures r != [] && id > r[|r| - 1] {
      assert id in all;
      AfterThePrefix(all, |r|, id);
    }
  }

  /** Fifty at a time, in the order of their ids. */
  lemma BatchIsFull(s: State, cursor: Option<Id>)
    ensures |Batch(s, cursor)| == if |DueAfter(s, cursor)| < 50 then |DueAfter(s, cursor)| else 50
    ensures forall i, j :: 0 <= i < j < |Batch(s, cursor)| ==> Batch(s, cursor)[i] < Batch(s, cursor)[j]
  {
    AscendingLists(DueAfter(s, cursor));
  }

  // ---------- One attempt, as a function of the state ----------

  function Plaintext(c: Crypto, r: Secret): Option<string> {
    c.decrypt(r.cipher, r.keyVersion)
  }

  predicate AllDecrypt(c: Crypto, secrets: map<Id, Secret>, ids: seq<Id>) {
    forall id :: id in ids && id in secrets ==> Plaintext(c, secrets[id]).Some?
  }

  function Reencrypted(e: Env, id: Id, r: Secret, plain: string, to: string): Secret {
    r.(cipher := e.crypto.encrypt(plain, to, e.nonce(id)), keyVersion := to, rotatedAt := Some(e.now))
  }

  function RotateAll(e: Env, secrets: map<Id, Secret>, ids: seq<Id>, to: string): map<Id, Secret>
    requires AllDecrypt(e.crypto, secrets, ids)
  {
    map id | id in secrets ::
      if id in ids then Reencrypted(e, id, secrets[id], Plaintext(e.crypto, secrets[id]).value, to) else secrets[id]
  }

  function AuditOf(secrets: map<Id, Secret>, ids: seq<Id>, j: Job): seq<AuditEvent>
    requires forall id :: id in ids ==> id in secrets
  {
    seq(|ids|, i requires 0 <= i < |ids| =>
      assert ids[i] in ids; Rotated(ids[i], secrets[ids[i]].key, j.fromKeyVersion, j.toKeyVersion))
  }

  function Started(e: Env, s: State): State {
    s.(job := s.job.(status := RUNNING, startedAt := Some(s.job.startedAt.GetOr(e.now)), totalSecrets := |Remaining(s)|))
  }

  function Completed(e: Env, s: State): State {
    s.(job := s.job.(status := COMPLETED, finishedAt := Some(e.now)))
  }

  function Failed(e: Env, s: State): State {
    s.(job := s.job.(status := FAILED, finishedAt := Some(e.now)))
  }

  function Advanced(j: Job, ids: seq<Id>): Job
    requires ids != []
  {
    j.(processedSecrets := j.processedSecrets + |ids|, lastProcessedSecretId := Some(ids[|ids| - 1]))
  }

  /** What the transaction for a batch commits: the secrets, the progress of the job and the audit events together. */
  function Committed(e: Env, s: State, batch: seq<Id>): State
    requires batch != [] && (forall id :: id in batch ==> id in s.secrets) && AllDecrypt(e.crypto, s.secrets, batch)
  {
    State(RotateAll(e, s.secrets, batch, s.job.toKeyVersion), Advanced(s.job, batch),
          s.audit + AuditOf(s.secrets, batch, s.job))
  }

  /** A write that leads to `t`, or what the weather makes of it; an error is recorded by the `catch`, which may fail too. */
  function Settle(e: Env, w: Weather, s: State, t: State): (State, Outcome) {
    match w
    case Fair => (t, Returned)
    case Error => (Failed(e, s), Thrown)
    case UnrecordedError => (s, Thrown)
    case ErrorAfter => (Failed(e, t), Thrown)
    case UnrecordedErrorAfter => (t, Thrown)
    case Crash => (s, Crashed)
    case CrashAfter => (t, Crashed)
  }

  /** Every pass leaves fewer secrets ahead of the cursor, whatever the key versions are. */
  lemma PassShrinks(e: Env, s: State, batch: seq<Id>)
    requires batch == Batch(s, s.job.lastProcessedSecretId) && batch != [] && AllDecrypt(e.crypto, s.secrets, batch)
    ensures forall id :: id in batch ==> id in s.secrets
    ensures DueAfter(Committed(e, s, batch), Some(batch[|batch| - 1])) < DueAfter(s, s.job.lastProcessedSecretId)
  {
    BatchIsFirst(s, s.job.lastProcessedSecretId);
    var t := Committed(e, s, batch);
    var last := batch[|batch| - 1];
    assert last in batch;
    forall id | id in DueAfter(t, Some(last)) ensures id in DueAfter(s, s.job.lastProcessedSecretId) {
      assert id !in batch;
    }
    assert last !in DueAfter(t, Some(last));
  }

  /** The loop from its nth pass on. */
  function Passes(e: Env, s: State, n: nat): (State, Outcome)
    decreases |DueAfter(s, s.job.lastProcessedSecretId)|
  {
    var batch := Batch(s, s.job.lastProcessedSecretId);
    var w := e.weather(n);
    if batch == [] then Settle(e, w, s, Completed(e, s))
    else if !AllDecrypt(e.crypto, s.secrets, batch) then Settle(e, if w == Fair then Error else w, s, s)
    else
      PassShrinks(e, s, batch);
      var t := Committed(e, s, batch);
      SmallerSet(DueAfter(t, t.job.lastProcessedSecretId), DueAfter(s, s.job.lastProcessedSecretId));
      if w == Fair then Passes(e, t, n + 1) else Settle(e, w, s, t)
  }

  lemma SmallerSet<T>(a: set<T>, b: set<T>)
    requires a < b
    ensures |a| < |b|
  {
    var x :| x in b && x !in a;
    assert a <= b - {x};
    SubsetSize(a, b - {x});
  }

  lemma {:induction false} SubsetSize<T>(a: set<T>, b: set<T>)
    requires a <= b
    ensures |a| <= |b|
    decreases |a|
  {
    if a != {} {
      var x :| x in a;
      SubsetSize(a - {x}, b - {x});
    }
  }

  /** `process`: a completed job is left alone; the update that starts an attempt is outside the `try`. */
  function Attempt(e: Env, s: State): (State, Outcome) {
    if s.job.status == COMPLETED then (s, Returned)
    else
      match e.weather(0)
      case Fair => Passes(e, Started(e, s), 1)
      case CrashAfter => (Started(e, s), Crashed)
      case Crash => (s, Crashed)
      case Error | UnrecordedError => (s, Thrown)
      case ErrorAfter | UnrecordedErrorAfter => (Started(e, s), Thrown)
  }

  /** Any number of attempts, each in its own weather. */
  function Attempts(envs: seq<Env>, s: State): State {
    if envs == [] then s else Attempt(envs[|envs| - 1], Attempts(envs[..|envs| - 1], s)).0
  }

  // ---------- What every attempt keeps ----------

  /** No secret at or before the cursor is still due, so nothing is skipped by resuming at it. */
  ghost predicate Inv(s: State) {
    && s.job.fromKeyVersion != s.job.toKeyVersion
    && (forall id :: id in Remaining(s) ==> IsAfter(id, s.job.lastProcessedSecretId))
    && (s.job.status == COMPLETED ==> Remaining(s) == {})
  }

  ghost predicate SameJob(j: Job, k: Job) {
    j.companyId == k.companyId && j.fromKeyVersion == k.fromKeyVersion && j.toKeyVersion == k.toKeyVersion
  }

  /** `r` became `q` by re-encryption: same secret, same plaintext, the new key. */
  predicate IsRotation(c: Crypto, r: Secret, q: Secret, j: Job) {
    && IsDue(r, j) && q.keyVersion == j.toKeyVersion && q.companyId == r.companyId && q.key == r.key && q.rotatedAt.Some?
    && Plaintext(c, r).Some? && Plaintext(c, q) == Plaintext(c, r)
  }

  ghost predicate RowsKept(c: Crypto, s: State, t: State) {
    && t.secrets.Keys == s.secrets.Keys
    && forall id :: id in s.secrets ==>
         if id in Remaining(s) && id !in Remaining(t) then IsRotation(c, s.secrets[id], t.secrets[id], s.job)
         else t.secrets[id] == s.secrets[id]
  }

  /** Exactly the rotated secrets are audited, each once and as what it was. */
  ghost predicate AuditKept(s: State, t: State) {
    && |s.audit| <= |t.audit| && t.audit[..|s.audit|] == s.audit
    && (forall i :: |s.audit| <= i < |t.audit| ==>
          var a := t.audit[i];
          && a.secretId in Remaining(s) && a.secretId !in Remaining(t) && a.secretId in s.secrets
          && a == Rotated(a.secretId, s.secrets[a.secretId].key, s.job.fromKeyVersion, s.job.toKeyVersion))
    && (forall i, j :: |s.audit| <= i < j < |t.audit| ==> t.audit[i].secretId != t.audit[j].secretId)
    && |t.audit| - |s.audit| == |Remaining(s)| - |Remaining(t)|
  }

  /** From `s` to `t` some due secrets were rotated, counted and audited, and nothing else happened to any secret. */
  ghost predicate Progress(c: Crypto, s: State, t: State) {
    && SameJob(s.job, t.job)
    && Remaining(t) <= Remaining(s)
    && RowsKept(c, s, t) && AuditKept(s, t)
    && t.job.processedSecrets + |Remaining(t)| == s.job.processedSecrets + |Remaining(s)|
  }

  // ---------- One batch ----------

  function IdSet(ids: seq<Id>): set<Id> {
    set id | id in ids
  }

  lemma {:induction false} AscendingSize(ids: seq<Id>)
    requires IsAscending(ids)
    ensures |IdSet(ids)| == |ids|
    decreases |ids|
  {
    if ids != [] {
      var n := |ids| - 1;
      AscendingSize(ids[..n]);
      assert ids == ids[..n] + [ids[n]];
      assert ids[n] !in ids[..n];
      assert IdSet(ids) == IdSet(ids[..n]) + {ids[n]};
    }
  }

  lemma InvSeesAll(s: State)
    requires Inv(s)
    ensures DueAfter(s, s.job.lastProcessedSecretId) == Remaining(s)
  {
  }

  lemma BatchLeavesRemaining(e: Env, s: State, batch: seq<Id>)
    requires Inv(s) && batch == Batch(s, s.job.lastProcessedSecretId) && batch != []
    requires (forall id :: id in batch ==> id in s.secrets) && AllDecrypt(e.crypto, s.secrets, batch)
    ensures var t := Committed(e, s, batch);
            && Remaining(t) == Remaining(s) - IdSet(batch) && IdSet(batch) <= Remaining(s)
            && |Remaining(t)| == |Remaining(s)| - |batch|
  {
    BatchIsFirst(s, s.job.lastProcessedSecretId);
    AscendingSize(batch);
    var t := Committed(e, s, batch);
    assert Remaining(t) == Remaining(s) - IdSet(batch);
    assert Remaining(s) == Remaining(t) + IdSet(batch);
  }

  lemma CommitKeepsInv(e: Env, s: State, batch: seq<Id>)
    requires Inv(s) && s.job.status != COMPLETED && batch == Batch(s, s.job.lastProcessedSecretId) && batch != []
    requires (forall id :: id in batch ==> id in s.secrets) && AllDecrypt(e.crypto, s.secrets, batch)
    ensures Inv(Committed(e, s, batch))
  {
    BatchIsFirst(s, s.job.lastProcessedSecretId);
    BatchLeavesRemaining(e, s, batch);
    InvSeesAll(s);
  }

  lemma CommitKeepsRows(e: Env, s: State, batch: seq<Id>)
    requires TrustedCrypto(e.crypto)
    requires Inv(s) && batch == Batch(s, s.job.lastProcessedSecretId) && batch != []
    requires (forall id :: id in batch ==> id in s.secrets) && AllDecrypt(e.crypto, s.secrets, batch)
    ensures RowsKept(e.crypto, s, Committed(e, s, batch))
  {
    BatchLeavesRemaining(e, s, batch);
  }

  lemma CommitAudits(e: Env, s: State, batch: seq<Id>)
    requires batch != [] && (forall id :: id in batch ==> id in s.secrets) && AllDecrypt(e.crypto, s.secrets, batch)
    ensures var t := Committed(e, s, batch);
            && |t.audit| == |s.audit| + |batch| && t.audit[..|s.audit|] == s.audit
            && forall i :: |s.audit| <= i < |t.audit| ==>
                 && t.audit[i].secretId == batch[i - |s.audit|] && t.audit[i].secretId in s.secrets
                 && t.audit[i] == Rotated(t.audit[i].secretId, s.secrets[t.audit[i].secretId].key, s.job.fromKeyVersion,
                                          s.job.toKeyVersion)
  {
    forall i | 0 <= i < |batch| ensures batch[i] in s.secrets { assert batch[i] in batch; }
  }

  lemma AuditedOnce(s: State, t: State, batch: seq<Id>)
    requires |t.audit| == |s.audit| + |batch| && t.audit[..|s.audit|] == s.audit && IsAscending(batch)
    requires forall i :: |s.audit| <= i < |t.audit| ==>
               && t.audit[i].secretId == batch[i - |s.audit|] && t.audit[i].secretId in s.secrets
               && t.audit[i] == Rotated(t.audit[i].secretId, s.secrets[t.audit[i].secretId].key, s.job.fromKeyVersion,
                                        s.job.toKeyVersion)
    requires forall k :: 0 <= k < |batch| ==> batch[k] in Remaining(s) && batch[k] !in Remaining(t)
    requires |Remaining(t)| == |Remaining(s)| - |batch|
    ensures AuditKept(s, t)
  {
    hide Remaining;
  }

  lemma CommitKeepsAudit(e: Env, s: State, batch: seq<Id>)
    requires Inv(s) && batch == Batch(s, s.job.lastProcessedSecretId) && batch != []
    requires (forall id :: id in batch ==> id in s.secrets) && AllDecrypt(e.crypto, s.secrets, batch)
    ensures AuditKept(s, Committed(e, s, batch))
  {
    BatchLeavesRemaining(e, s, batch);
    BatchIsFirst(s, s.job.lastProcessedSecretId);
    CommitAudits(e, s, batch);
    hide Inv, Batch, Committed, AllDecrypt, Remaining, DueAfter, AuditKept, IsAscending;
    var t := Committed(e, s, batch);
    forall k | 0 <= k < |batch| ensures batch[k] in Remaining(s) && batch[k] !in Remaining(t) {
      assert batch[k] in IdSet(batch);
    }
    AuditedOnce(s, t, batch);
  }

  lemma CommitIsProgress(e: Env, s: State, batch: seq<Id>)
    requires TrustedCrypto(e.crypto)
    requires Inv(s) && batch == Batch(s, s.job.lastProcessedSecretId) && batch != []
    requires (forall id :: id in batch ==> id in s.secrets) && AllDecrypt(e.crypto, s.secrets, batch)
    ensures Progress(e.crypto, s, Committed(e, s, batch))
  {
    BatchLeavesRemaining(e, s, batch);
    CommitKeepsRows(e, s, batch);
    CommitKeepsAudit(e, s, batch);
  }

  // ---------- Progress adds up ----------

  lemma RowsAddUp(c: Crypto, s: State, t: State, u: State)
    requires SameJob(s.job, t.job) && Remaining(u) <= Remaining(t) <= Remaining(s)
    requires RowsKept(c, s, t) && RowsKept(c, t, u)
    ensures RowsKept(c, s, u)
  {
  }

  lemma AuditAddsUp(c: Crypto, s: State, t: State, u: State)
    requires Progress(c, s, t) && Progress(c, t, u)
    ensures AuditKept(s, u)
  {
    forall i | |s.audit| <= i < |u.audit|
      ensures var a := u.audit[i];
              && a.secretId in Remaining(s) && a.secretId !in Remaining(u) && a.secretId in s.secrets
              && a == Rotated(a.secretId, s.secrets[a.secretId].key, s.job.fromKeyVersion, s.job.toKeyVersion)
              && (i < |t.audit| <==> a.secretId !in Remaining(t))
    {
      if i < |t.audit| {
        assert u.audit[..|t.audit|][i] == t.audit[i];
      }
    }
    forall i, j | |s.audit| <= i < j < |u.audit| ensures u.audit[i].secretId != u.audit[j].secretId {
      if j < |t.audit| {
        assert u.audit[..|t.audit|][i] == t.audit[i] && u.audit[..|t.audit|][j] == t.audit[j];
      }
    }
    assert u.audit[..|s.audit|] == t.audit[..|s.audit|] by {
      assert u.audit[..|t.audit|][..|s.audit|] == u.audit[..|s.audit|];
    }
  }

  lemma ProgressAddsUp(c: Crypto, s: State, t: State, u: State)
    requires Progress(c, s, t) && Progress(c, t, u)
    ensures Progress(c, s, u)
  {
    RowsAddUp(c, s, t, u);
    AuditAddsUp(c, s, t, u);
  }

  /** Updates of the job that leave its progress alone. */
  lemma JobUpdateIsProgress(c: Crypto, s: State, t: State)
    requires t.secrets == s.secrets && t.audit == s.audit && SameJob(s.job, t.job)
    requires t.job.processedSecrets == s.job.processedSecrets && t.job.lastProcessedSecretId == s.job.lastProcessedSecretId
    ensures Progress(c, s, t) && Remaining(t) == Remaining(s)
    ensures Inv(s) && (t.job.status == COMPLETED ==> Remaining(s) == {}) ==> Inv(t)
  {
    assert Remaining(t) == Remaining(s);
  }

  // ---------- Attempts ----------

  lemma SettleKeeps(e: Env, w: Weather, s: State, t: State)
    requires TrustedCrypto(e.crypto) && Inv(s) && Inv(t) && Progress(e.crypto, s, t) && s.job.status != COMPLETED
    ensures var r := Settle(e, w, s, t).0; Inv(r) && Progress(e.crypto, s, r)
  {
    JobUpdateIsProgress(e.crypto, s, Failed(e, s));
    JobUpdateIsProgress(e.crypto, s, s);
    JobUpdateIsProgress(e.crypto, t, Failed(e, t));
    ProgressAddsUp(e.crypto, s, t, Failed(e, t));
  }

  lemma {:induction false} PassesKeep(e: Env, s: State, n: nat)
    requires TrustedCrypto(e.crypto) && Inv(s) && s.job.status != COMPLETED
    ensures var r := Passes(e, s, n).0; Inv(r) && Progress(e.crypto, s, r)
    decreases |DueAfter(s, s.job.lastProcessedSecretId)|
  {
    var batch := Batch(s, s.job.lastProcessedSecretId);
    var w := e.weather(n);
    JobUpdateIsProgress(e.crypto, s, s);
    BatchIsFirst(s, s.job.lastProcessedSecretId);
    InvSeesAll(s);
    if batch == [] {
      JobUpdateIsProgress(e.crypto, s, Completed(e, s));
      SettleKeeps(e, w, s, Completed(e, s));
    } else if !AllDecrypt(e.crypto, s.secrets, batch) {
      SettleKeeps(e, if w == Fair then Error else w, s, s);
    } else {
      PassShrinks(e, s, batch);
      var t := Committed(e, s, batch);
      SmallerSet(DueAfter(t, t.job.lastProcessedSecretId), DueAfter(s, s.job.lastProcessedSecretId));
      CommitKeepsInv(e, s, batch);
      CommitIsProgress(e, s, batch);
      if w == Fair {
        PassesKeep(e, t, n + 1);
        ProgressAddsUp(e.crypto, s, t, Passes(e, t, n + 1).0);
      } else {
        SettleKeeps(e, w, s, t);
      }
    }
  }

  lemma AttemptKeeps(e: Env, s: State)
    requires TrustedCrypto(e.crypto) && Inv(s)
    ensures var r := Attempt(e, s).0; Inv(r) && Progress(e.crypto, s, r)
  {
    JobUpdateIsProgress(e.crypto, s, s);
    if s.job.status != COMPLETED {
      JobUpdateIsProgress(e.crypto, s, Started(e, s));
      if e.weather(0) == Fair {
        PassesKeep(e, Started(e, s), 1);
        ProgressAddsUp(e.crypto, s, Started(e, s), Attempt(e, s).0);
      }
    }
  }

  /** However many attempts crash or fail, every plaintext survives, and what was rotated is counted and audited once. */
  lemma {:induction false} AttemptsKeep(c: Crypto, envs: seq<Env>, s: State)
    requires TrustedCrypto(c) && (forall e :: e in envs ==> e.crypto == c) && Inv(s)
    ensures var r := Attempts(envs, s); Inv(r) && Progress(c, s, r)
    decreases |envs|
  {
    if envs == [] {
      JobUpdateIsProgress(c, s, s);
    } else {
      var n := |envs| - 1;
      assert envs[n] in envs;
      AttemptsKeep(c, envs[..n], s);
      AttemptKeeps(envs[n], Attempts(envs[..n], s));
      ProgressAddsUp(c, s, Attempts(envs[..n], s), Attempts(envs, s));
    }
  }

  /** A job as it is created: nothing processed yet, and the key to rotate to differs from the old one. */
  predicate IsNewJob(j: Job) {
    j.status == PENDING && j.processedSecrets == 0 && j.lastProcessedSecretId.None? && j.fromKeyVersion != j.toKeyVersion
  }

  /** A completed job has rotated every secret that was due when it was created, across all its attempts. */
  lemma CompletedMeansRotated(c: Crypto, envs: seq<Env>, s: State)
    requires TrustedCrypto(c) && (forall e :: e in envs ==> e.crypto == c) && IsNewJob(s.job)
    requires Attempts(envs, s).job.status == COMPLETED
    ensures var r := Attempts(envs, s);
            && Remaining(r) == {} && r.job.processedSecrets == |Remaining(s)|
            && r.secrets.Keys == s.secrets.Keys
            && (forall id :: id in Remaining(s) ==> IsRotation(c, s.secrets[id], r.secrets[id], s.job))
            && (forall id :: id in s.secrets && id !in Remaining(s) ==> r.secrets[id] == s.secrets[id])
            && |r.audit| == |s.audit| + |Remaining(s)|
  {
    AttemptsKeep(c, envs, s);
  }

  /**
   * Told in the rows themselves: of a job's attempts, however they end, a secret of another company or under another
   * key notices nothing; one of the job's company under the old key is as it was, or has the new key and its plaintext.
   */
  lemma OnlyTheCompanysOldKeyIsReplaced(c: Crypto, envs: seq<Env>, s: State, id: Id)
    requires TrustedCrypto(c) && (forall e :: e in envs ==> e.crypto == c) && IsNewJob(s.job) && id in s.secrets
    ensures Attempts(envs, s).secrets.Keys == s.secrets.Keys
    ensures var before, after := s.secrets[id], Attempts(envs, s).secrets[id];
            if before.companyId == s.job.companyId && before.keyVersion == s.job.fromKeyVersion then
              || after == before
              || (&& after.keyVersion == s.job.toKeyVersion && after.rotatedAt.Some?
                  && after.companyId == before.companyId && after.key == before.key
                  && c.decrypt(before.cipher, before.keyVersion).Some?
                  && c.decrypt(after.cipher, after.keyVersion) == c.decrypt(before.cipher, before.keyVersion))
            else after == before
  {
    AttemptsKeep(c, envs, s);
  }

  /** The secrets of a company under a key. */
  function UnderKey(secrets: map<Id, Secret>, companyId: string, keyVersion: string): set<Id> {
    set id | id in secrets && secrets[id].companyId == companyId && secrets[id].keyVersion == keyVersion
  }

  /** A completed job leaves no secret of its company under the old key, and has counted and audited those there were. */
  lemma OldKeyIsGone(c: Crypto, envs: seq<Env>, s: State)
    requires TrustedCrypto(c) && (forall e :: e in envs ==> e.crypto == c) && IsNewJob(s.job)
    requires Attempts(envs, s).job.status == COMPLETED
    ensures var r := Attempts(envs, s);
            var due := UnderKey(s.secrets, s.job.companyId, s.job.fromKeyVersion);
            && UnderKey(r.secrets, s.job.companyId, s.job.fromKeyVersion) == {} && r.secrets.Keys == s.secrets.Keys
            && r.job.processedSecrets == |due| && |r.audit| == |s.audit| + |due|
            && (forall id :: id in due ==> r.secrets[id].keyVersion == s.job.toKeyVersion)
            && (forall i :: |s.audit| <= i < |r.audit| ==>
                  && r.audit[i].secretId in due
                  && r.audit[i].key == s.secrets[r.audit[i].secretId].key
                  && r.audit[i].fromKeyVersion == s.job.fromKeyVersion
                  && r.audit[i].toKeyVersion == s.job.toKeyVersion)
            && (forall i, j :: |s.audit| <= i < j < |r.audit| ==> r.audit[i].secretId != r.audit[j].secretId)
  {
    AttemptsKeep(c, envs, s);
    assert UnderKey(s.secrets, s.job.companyId, s.job.fromKeyVersion) == Remaining(s);
    assert SameJob(s.job, Attempts(envs, s).job);
    assert UnderKey(Attempts(envs, s).secrets, s.job.companyId, s.job.fromKeyVersion) == Remaining(Attempts(envs, s));
  }

  // ---------- When an attempt gets through ----------

  ghost predicate IsFair(e: Env) {
    forall n: nat :: e.weather(n) == Fair
  }

  ghost predicate AllReadable(c: Crypto, s: State) {
    forall id :: id in Remaining(s) ==> Plaintext(c, s.secrets[id]).Some?
  }

  lemma CommitKeepsReadability(e: Env, s: State, batch: seq<Id>)
    requires TrustedCrypto(e.crypto)
    requires Inv(s) && batch == Batch(s, s.job.lastProcessedSecretId) && batch != []
    requires (forall id :: id in batch ==> id in s.secrets) && AllDecrypt(e.crypto, s.secrets, batch)
    ensures AllReadable(e.crypto, s) <==> AllReadable(e.crypto, Committed(e, s, batch))
  {
    var t := Committed(e, s, batch);
    BatchLeavesRemaining(e, s, batch);
    CommitKeepsRows(e, s, batch);
    if AllReadable(e.crypto, t) {
      forall id | id in Remaining(s) ensures Plaintext(e.crypto, s.secrets[id]).Some? {
        assert id in IdSet(batch) || id in Remaining(t);
      }
    }
  }

  lemma NothingLeftIsReadable(c: Crypto, s: State)
    requires Inv(s) && Batch(s, s.job.lastProcessedSecretId) == []
    ensures AllReadable(c, s)
  {
    BatchIsFirst(s, s.job.lastProcessedSecretId);
    InvSeesAll(s);
  }

  lemma UnreadableBatch(c: Crypto, s: State)
    requires Inv(s) && var batch := Batch(s, s.job.lastProcessedSecretId);
                       (forall id :: id in batch ==> id in s.secrets) && !AllDecrypt(c, s.secrets, batch)
    ensures !AllReadable(c, s)
  {
    var batch := Batch(s, s.job.lastProcessedSecretId);
    BatchIsFirst(s, s.job.lastProcessedSecretId);
    InvSeesAll(s);
    var id :| id in batch && id in s.secrets && Plaintext(c, s.secrets[id]).None?;
    assert id in Remaining(s);
  }

  lemma BatchIsStored(s: State)
    ensures forall id :: id in Batch(s, s.job.lastProcessedSecretId) ==> id in s.secrets
  {
    BatchIsFirst(s, s.job.lastProcessedSecretId);
  }

  lemma {:induction false} FairPasses(e: Env, s: State, n: nat)
    requires TrustedCrypto(e.crypto) && IsFair(e) && Inv(s) && s.job.status != COMPLETED
    ensures Passes(e, s, n).1 == if AllReadable(e.crypto, s) then Returned else Thrown
    ensures Passes(e, s, n).0.job.status == if AllReadable(e.crypto, s) then COMPLETED else FAILED
    decreases |DueAfter(s, s.job.lastProcessedSecretId)|
  {
    assert e.weather(n) == Fair;
    hide Inv, AllReadable, IsFair, TrustedCrypto, DueAfter, Remaining, AllDecrypt, Batch;
    var batch := Batch(s, s.job.lastProcessedSecretId);
    BatchIsStored(s);
    if batch == [] {
      NothingLeftIsReadable(e.crypto, s);
    } else if !AllDecrypt(e.crypto, s.secrets, batch) {
      UnreadableBatch(e.crypto, s);
    } else {
      PassShrinks(e, s, batch);
      var t := Committed(e, s, batch);
      SmallerSet(DueAfter(t, t.job.lastProcessedSecretId), DueAfter(s, s.job.lastProcessedSecretId));
      CommitKeepsInv(e, s, batch);
      CommitKeepsReadability(e, s, batch);
      FairPasses(e, t, n + 1);
    }
  }

  /** Where no write fails, an attempt completes the job exactly if every secret still due can be decrypted. */
  lemma FairAttemptCompletesIff(e: Env, s: State)
    requires TrustedCrypto(e.crypto) && IsFair(e) && Inv(s)
    ensures Attempt(e, s).0.job.status == COMPLETED <==> AllReadable(e.crypto, s)
    ensures Attempt(e, s).1 == Returned <==> AllReadable(e.crypto, s)
    ensures !AllReadable(e.crypto, s) ==> Attempt(e, s).0.job.status == FAILED && Attempt(e, s).1 == Thrown
  {
    if s.job.status != COMPLETED {
      assert e.weather(0) == Fair;
      var t := Started(e, s);
      JobUpdateIsProgress(e.crypto, s, t);
      FairPasses(e, t, 1);
      assert AllReadable(e.crypto, t) <==> AllReadable(e.crypto, s);
    }
  }

  lemma ProgressKeepsReadability(c: Crypto, s: State, t: State)
    requires Progress(c, s, t)
    ensures AllReadable(c, s) <==> AllReadable(c, t)
  {
    if AllReadable(c, t) {
      forall id | id in Remaining(s) ensures Plaintext(c, s.secrets[id]).Some? {
        assert id in Remaining(t) ==> t.secrets[id] == s.secrets[id];
      }
    }
    if AllReadable(c, s) {
      forall id | id in Remaining(t) ensures Plaintext(c, t.secrets[id]).Some? {
        assert t.secrets[id] == s.secrets[id];
      }
    }
  }

  /** Whatever went wrong before, retrying completes the job exactly if every secret could be decrypted at the start. */
  lemma RetryCompletesIff(c: Crypto, envs: seq<Env>, e: Env, s: State)
    requires TrustedCrypto(c) && (forall f :: f in envs ==> f.crypto == c) && Inv(s)
    requires e.crypto == c && IsFair(e)
    ensures Attempt(e, Attempts(envs, s)).0.job.status == COMPLETED <==> AllReadable(c, s)
  {
    AttemptsKeep(c, envs, s);
    ProgressKeepsReadability(c, s, Attempts(envs, s));
    FairAttemptCompletesIff(e, Attempts(envs, s));
  }

  // ---------- The total shown beside the progress ----------

  lemma {:induction false} PassesKeepTotal(e: Env, s: State, n: nat)
    ensures Passes(e, s, n).0.job.totalSecrets == s.job.totalSecrets
    decreases |DueAfter(s, s.job.lastProcessedSecretId)|
  {
    var batch := Batch(s, s.job.lastProcessedSecretId);
    if batch != [] && AllDecrypt(e.crypto, s.secrets, batch) && e.weather(n) == Fair {
      PassShrinks(e, s, batch);
      var t := Committed(e, s, batch);
      SmallerSet(DueAfter(t, t.job.lastProcessedSecretId), DueAfter(s, s.job.lastProcessedSecretId));
      PassesKeepTotal(e, t, n + 1);
    }
  }

  /**
   * Each attempt overwrites the total with the number still due, while the progress keeps counting from before:
   * they agree at the end exactly if no earlier attempt had rotated anything.
   */
  lemma TotalMatchesIff(e: Env, s: State)
    requires TrustedCrypto(e.crypto) && Inv(s) && s.job.status != COMPLETED && Attempt(e, s).0.job.status == COMPLETED
    ensures var j := Attempt(e, s).0.job;
            && j.processedSecrets == s.job.processedSecrets + j.totalSecrets
            && (j.processedSecrets == j.totalSecrets <==> s.job.processedSecrets == 0)
  {
    AttemptKeeps(e, s);
    PassesKeepTotal(e, Started(e, s), 1);
  }
}
