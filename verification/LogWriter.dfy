/** The logs of a run: chunks of UTF-8 text under a cap on their total size. */
module LogWriter {
  import opened Wrappers
  import opened Utf8

  datatype Source = SYSTEM | DOCKER | TEST | ERROR

  datatype Chunk = Chunk(source: Source, sequence: nat, preview: Text, byteSize: nat, truncated: bool)

  datatype Limits = Limits(total: nat, preview: nat)

  datatype Message = Message(source: Source, text: Text)

  // ---------- Queries ----------

  function TotalBytes(chunks: seq<Chunk>): nat {
    if chunks == [] then 0 else TotalBytes(chunks[..|chunks| - 1]) + chunks[|chunks| - 1].byteSize
  }

  /** The chunk of a source with the highest sequence number. */
  function Latest(chunks: seq<Chunk>, source: Source): Option<Chunk> {
    if chunks == [] then None
    else
      var before := Latest(chunks[..|chunks| - 1], source);
      var last := chunks[|chunks| - 1];
      if last.source == source && (before.None? || last.sequence > before.value.sequence) then Some(last) else before
  }

  // ---------- Appending ----------

  /** The text, or what is left of it within `limit` bytes, and whether it was cut. */
  function TruncateText(t: Text, limit: nat): (Text, bool) {
    if ByteLength(t) <= limit then (t, false) else (Truncate(t, limit), true)
  }

  function NextSequence(chunks: seq<Chunk>, source: Source): nat {
    var latest := Latest(chunks, source);
    if latest.Some? then latest.value.sequence + 1 else 1
  }

  function NewChunk(chunks: seq<Chunk>, l: Limits, source: Source, t: Text, truncated: bool): Chunk {
    var preview := TruncateText(t, l.preview);
    Chunk(source, NextSequence(chunks, source), preview.0, ByteLength(t), truncated || preview.1)
  }

  predicate IsMarker(c: Option<Chunk>) {
    c.Some? && c.value.truncated && c.value.byteSize == 0
  }

  function Appended(chunks: seq<Chunk>, l: Limits, m: Message): seq<Chunk> {
    if TotalBytes(chunks) >= l.total then
      if IsMarker(Latest(chunks, m.source)) then chunks else chunks + [NewChunk(chunks, l, m.source, [], true)]
    else
      var limited := TruncateText(m.text, l.total - TotalBytes(chunks));
      chunks + [NewChunk(chunks, l, m.source, limited.0, limited.1)]
  }

  function AppendedAll(chunks: seq<Chunk>, l: Limits, messages: seq<Message>): seq<Chunk> {
    if messages == [] then chunks
    else Appended(AppendedAll(chunks, l, messages[..|messages| - 1]), l, messages[|messages| - 1])
  }

  class LogStore {
    var chunks: seq<Chunk>

    method CreateChunk(l: Limits, source: Source, t: Text, truncated: bool) returns (chunk: Chunk)
      modifies this
      ensures chunk == NewChunk(old(chunks), l, source, t, truncated) && chunks == old(chunks) + [chunk]
    {
      var latest := Latest(chunks, source);
      var preview := TruncateText(t, l.preview);
      chunk := Chunk(source, (if latest.Some? then latest.value.sequence else 0) + 1, preview.0, ByteLength(t),
                     truncated || preview.1);
      chunks := chunks + [chunk];
    }

    /** A zero-byte chunk that says the log was cut off here, unless the source ends in one already. */
    method CreateLimitMarker(l: Limits, source: Source) returns (marker: Option<Chunk>)
      modifies this
      ensures marker.Some? <==> !IsMarker(Latest(old(chunks), source))
      ensures marker.Some? ==> marker.value == NewChunk(old(chunks), l, source, [], true)
      ensures chunks == old(chunks) + if marker.Some? then [marker.value] else []
    {
      var latest := Latest(chunks, source);
      if latest.Some? && latest.value.truncated && latest.value.byteSize == 0 {
        return None;
      }
      var chunk := CreateChunk(l, source, [], true);
      return Some(chunk);
    }

    method Append(l: Limits, m: Message)
      modifies this
      ensures chunks == Appended(old(chunks), l, m)
    {
      var existing := TotalBytes(chunks);
      if existing >= l.total {
        var marker := CreateLimitMarker(l, m.source);
        return;
      }
      var available := l.total - existing;
      var raw := Encode(m.text);
      var limited := if |raw| > available then Decode(raw[..available]) else m.text;
      var chunk := CreateChunk(l, m.source, limited, |raw| > available);
    }
  }

  // ---------- The cap ----------

  function SentBytes(messages: seq<Message>): nat {
    if messages == [] then 0 else SentBytes(messages[..|messages| - 1]) + ByteLength(messages[|messages| - 1].text)
  }

  predicate AreAscii(messages: seq<Message>) {
    forall i :: 0 <= i < |messages| ==> IsAscii(messages[i].text)
  }

  lemma TotalExtends(chunks: seq<Chunk>, c: Chunk)
    ensures TotalBytes(chunks + [c]) == TotalBytes(chunks) + c.byteSize
  {
    assert (chunks + [c])[..|chunks|] == chunks;
  }

  lemma LimitedLength(t: Text, available: nat)
    ensures var size := ByteLength(TruncateText(t, available).0);
            if ByteLength(t) <= available then size == ByteLength(t)
            else available <= size <= available + 2 && (IsAscii(t) ==> size == available)
  {
    if ByteLength(t) > available {
      TruncatedLength(t, available);
      if IsAscii(t) { AsciiCut(t, available); }
    }
  }

  lemma TotalOfAppended(chunks: seq<Chunk>, l: Limits, m: Message)
    ensures var before, after := TotalBytes(chunks), TotalBytes(Appended(chunks, l, m));
            if before >= l.total then after == before
            else if before + ByteLength(m.text) <= l.total then after == before + ByteLength(m.text)
            else l.total <= after <= l.total + 2 && (IsAscii(m.text) ==> after == l.total)
  {
    var before := TotalBytes(chunks);
    if before >= l.total {
      TotalExtends(chunks, NewChunk(chunks, l, m.source, [], true));
    } else {
      var limited := TruncateText(m.text, l.total - before);
      TotalExtends(chunks, NewChunk(chunks, l, m.source, limited.0, limited.1));
      LimitedLength(m.text, l.total - before);
    }
  }

  /** Nothing is lost below the limit; above it the log ends at the limit or up to two bytes behind. */
  lemma {:induction false} LogIsCapped(l: Limits, messages: seq<Message>)
    ensures var total := TotalBytes(AppendedAll([], l, messages));
            && (SentBytes(messages) <= l.total ==> total == SentBytes(messages))
            && (SentBytes(messages) > l.total ==> l.total <= total <= l.total + 2)
            && (SentBytes(messages) > l.total && AreAscii(messages) ==> total == l.total)
    decreases |messages|
  {
    if messages != [] {
      var n := |messages| - 1;
      LogIsCapped(l, messages[..n]);
      TotalOfAppended(AppendedAll([], l, messages[..n]), l, messages[n]);
    }
  }

  // ---------- When a log passes its limit ----------

  /** Bytes of the code point that the limit goes through when message `k` is cut to fit. */
  function BytesBeforeCut(l: Limits, messages: seq<Message>, k: nat): nat
    requires k < |messages| && SentBytes(messages[..k]) <= l.total
  {
    CutBytes(messages[k].text, l.total - SentBytes(messages[..k]))
  }

  /** Message `k` is the one that no longer fits. */
  predicate IsCutAt(l: Limits, messages: seq<Message>, k: nat) {
    && k < |messages|
    && SentBytes(messages[..k]) < l.total < SentBytes(messages[..k]) + ByteLength(messages[k].text)
  }

  /** The limit goes through a code point of message `k`, one or two bytes into it. */
  predicate IsOvershotAt(l: Limits, messages: seq<Message>, k: nat) {
    IsCutAt(l, messages, k) && 0 < BytesBeforeCut(l, messages, k) < 3
  }

  lemma {:induction false} SentPrefix(messages: seq<Message>, j: nat, k: nat)
    requires j <= k <= |messages|
    ensures SentBytes(messages[..j]) <= SentBytes(messages[..k])
    decreases k
  {
    if j < k {
      SentPrefix(messages, j, k - 1);
      assert messages[..k][..k - 1] == messages[..k - 1];
    }
  }

  lemma SentAt(messages: seq<Message>, k: nat)
    requires k < |messages|
    ensures SentBytes(messages[..k + 1]) == SentBytes(messages[..k]) + ByteLength(messages[k].text)
  {
    assert messages[..k + 1][..k] == messages[..k];
  }

  /** One message is cut at most. */
  lemma CutOnce(l: Limits, messages: seq<Message>, j: nat, k: nat)
    requires IsCutAt(l, messages, j) && IsCutAt(l, messages, k)
    ensures j == k
  {
    SentAt(messages, j);
    SentAt(messages, k);
    if j < k { SentPrefix(messages, j + 1, k); }
    if k < j { SentPrefix(messages, k + 1, j); }
  }

  /** What a cut `cut` bytes into a code point adds to the limit. */
  function Overshoot(cut: nat): int {
    if cut == 0 then 0 else 3 - cut
  }

  lemma CutInFront(l: Limits, messages: seq<Message>, k: nat)
    requires IsCutAt(l, messages, k) && k < |messages| - 1
    ensures IsCutAt(l, messages[..|messages| - 1], k)
    ensures BytesBeforeCut(l, messages[..|messages| - 1], k) == BytesBeforeCut(l, messages, k)
  {
    assert messages[..|messages| - 1][..k] == messages[..k];
  }

  lemma {:induction false} SentPastLimit(l: Limits, messages: seq<Message>, k: nat)
    requires IsCutAt(l, messages, k)
    ensures SentBytes(messages) > l.total
  {
    SentAt(messages, k);
    SentPrefix(messages, k + 1, |messages|);
    assert messages[..|messages|] == messages;
  }

  lemma AppendedLast(l: Limits, messages: seq<Message>)
    requires messages != []
    ensures AppendedAll([], l, messages)
         == Appended(AppendedAll([], l, messages[..|messages| - 1]), l, messages[|messages| - 1])
  {
  }

  lemma TotalOfCut(chunks: seq<Chunk>, after: seq<Chunk>, l: Limits, m: Message, sent: nat)
    requires TotalBytes(chunks) == sent < l.total < sent + ByteLength(m.text) && after == Appended(chunks, l, m)
    ensures CutBytes(m.text, l.total - sent) <= 3
    ensures TotalBytes(after) == l.total + Overshoot(CutBytes(m.text, l.total - sent))
  {
    hide Encode, Decode, Latest, TotalBytes, CutBytes, WholePoints;
    var limited := TruncateText(m.text, l.total - sent);
    TotalExtends(chunks, NewChunk(chunks, l, m.source, limited.0, limited.1));
    TruncatedLength(m.text, l.total - sent);
  }

  lemma AllIsStored(l: Limits, messages: seq<Message>)
    requires SentBytes(messages) <= l.total
    ensures TotalBytes(AppendedAll([], l, messages)) == SentBytes(messages)
  {
    LogIsCapped(l, messages);
  }

  lemma TotalAtLastCut(l: Limits, messages: seq<Message>)
    requires messages != [] && IsCutAt(l, messages, |messages| - 1)
    ensures var cut := BytesBeforeCut(l, messages, |messages| - 1);
            cut <= 3 && TotalBytes(AppendedAll([], l, messages)) == l.total + Overshoot(cut)
  {
    hide Encode, Decode, TotalBytes, CutBytes, Appended, AppendedAll;
    var n := |messages| - 1;
    AllIsStored(l, messages[..n]);
    AppendedLast(l, messages);
    TotalOfCut(AppendedAll([], l, messages[..n]), AppendedAll([], l, messages), l, messages[n], SentBytes(messages[..n]));
  }

  lemma {:induction false} TotalAtCut(l: Limits, messages: seq<Message>, k: nat)
    requires IsCutAt(l, messages, k)
    ensures var cut := BytesBeforeCut(l, messages, k);
            cut <= 3 && TotalBytes(AppendedAll([], l, messages)) == l.total + Overshoot(cut)
    decreases |messages|
  {
    var n := |messages| - 1;
    if k == n {
      TotalAtLastCut(l, messages);
    } else {
      CutInFront(l, messages, k);
      TotalAtCut(l, messages[..n], k);
      SentPastLimit(l, messages[..n], k);
      LogIsCapped(l, messages[..n]);
      TotalOfAppended(AppendedAll([], l, messages[..n]), l, messages[n]);
    }
  }

  lemma {:induction false} OvershotLogIsCut(l: Limits, messages: seq<Message>) returns (k: nat)
    requires TotalBytes(AppendedAll([], l, messages)) > l.total
    ensures IsCutAt(l, messages, k)
    decreases |messages|
  {
    var n := |messages| - 1;
    var front := messages[..n];
    LogIsCapped(l, front);
    LogIsCapped(l, messages);
    TotalOfAppended(AppendedAll([], l, front), l, messages[n]);
    if TotalBytes(AppendedAll([], l, front)) > l.total {
      k := OvershotLogIsCut(l, front);
      assert front[..k] == messages[..k];
    } else {
      k := n;
      SentAt(messages, n);
    }
  }

  /**
   * A log ends behind its limit exactly if the limit goes through a code point of some message, one or two bytes
   * into it, and then by what U+FFFD takes more than those bytes. There is one such message at most.
   */
  lemma LogOvershootsIff(l: Limits, messages: seq<Message>)
    ensures TotalBytes(AppendedAll([], l, messages)) > l.total <==> exists k: nat :: IsOvershotAt(l, messages, k)
    ensures forall k: nat :: IsOvershotAt(l, messages, k) ==>
              TotalBytes(AppendedAll([], l, messages)) == l.total + 3 - BytesBeforeCut(l, messages, k)
    ensures forall j: nat, k: nat :: IsOvershotAt(l, messages, j) && IsOvershotAt(l, messages, k) ==> j == k
  {
    forall j: nat, k: nat | IsOvershotAt(l, messages, j) && IsOvershotAt(l, messages, k) ensures j == k {
      CutOnce(l, messages, j, k);
    }
    forall k: nat | IsOvershotAt(l, messages, k)
      ensures TotalBytes(AppendedAll([], l, messages)) == l.total + 3 - BytesBeforeCut(l, messages, k)
    {
      TotalAtCut(l, messages, k);
    }
    if TotalBytes(AppendedAll([], l, messages)) > l.total {
      var k := OvershotLogIsCut(l, messages);
      TotalAtCut(l, messages, k);
      assert IsOvershotAt(l, messages, k);
    }
  }

  /** The two bytes are really needed: one byte of room for the first byte of a code point. */
  lemma OvershootHappens()
    ensures TotalBytes(AppendedAll([], Limits(1, 16), [Message(DOCKER, [0xE9])])) == 3
  {
    var t: Text := [0xE9];
    var m := Message(DOCKER, t);
    assert AppendedAll([], Limits(1, 16), [m][..0]) == [];
    assert Encode(t) == EncodeOne(0xE9) + Encode([]);
    TruncatedLength(t, 1);
    assert WholePoints(t, 1) == 0;
    var limited := TruncateText(t, 1);
    TotalExtends([], NewChunk([], Limits(1, 16), DOCKER, limited.0, limited.1));
  }

  // ---------- Sequence numbers ----------

  function CountOf(chunks: seq<Chunk>, source: Source): nat {
    if chunks == [] then 0
    else CountOf(chunks[..|chunks| - 1], source) + if chunks[|chunks| - 1].source == source then 1 else 0
  }

  /** The chunks of each source are numbered from 1 without gaps, in the order they were written. */
  ghost predicate AreNumbered(chunks: seq<Chunk>) {
    forall i :: 0 <= i < |chunks| ==> chunks[i].sequence == CountOf(chunks[..i], chunks[i].source) + 1
  }

  lemma {:induction false} LatestOfNumbered(chunks: seq<Chunk>, source: Source)
    requires AreNumbered(chunks)
    ensures Latest(chunks, source).None? <==> CountOf(chunks, source) == 0
    ensures Latest(chunks, source).Some? ==>
              Latest(chunks, source).value.sequence == CountOf(chunks, source)
              && Latest(chunks, source).value.source == source
    decreases |chunks|
  {
    if chunks != [] {
      var front := chunks[..|chunks| - 1];
      assert forall i :: 0 <= i < |front| ==> front[..i] == chunks[..i];
      LatestOfNumbered(front, source);
    }
  }

  lemma NumberingExtends(chunks: seq<Chunk>, c: Chunk)
    requires AreNumbered(chunks) && c.sequence == NextSequence(chunks, c.source)
    ensures AreNumbered(chunks + [c]) && Latest(chunks + [c], c.source) == Some(c)
    ensures forall s :: s != c.source ==> Latest(chunks + [c], s) == Latest(chunks, s)
  {
    LatestOfNumbered(chunks, c.source);
    var longer := chunks + [c];
    assert longer[..|chunks|] == chunks;
    assert forall i :: 0 <= i < |chunks| ==> longer[..i] == chunks[..i];
  }

  lemma AppendKeepsNumbers(chunks: seq<Chunk>, l: Limits, m: Message)
    requires AreNumbered(chunks)
    ensures AreNumbered(Appended(chunks, l, m))
  {
    var r := Appended(chunks, l, m);
    if r != chunks { NumberingExtends(chunks, r[|chunks|]); }
  }

  lemma {:induction false} LogIsNumbered(chunks: seq<Chunk>, l: Limits, messages: seq<Message>)
    requires AreNumbered(chunks)
    ensures AreNumbered(AppendedAll(chunks, l, messages))
    decreases |messages|
  {
    if messages != [] {
      var n := |messages| - 1;
      LogIsNumbered(chunks, l, messages[..n]);
      AppendKeepsNumbers(AppendedAll(chunks, l, messages[..n]), l, messages[n]);
    }
  }

  // ---------- At the limit ----------

  predicate IsMentioned(source: Source, messages: seq<Message>) {
    exists i :: 0 <= i < |messages| && messages[i].source == source
  }

  predicate HasChunkOf(chunks: seq<Chunk>, source: Source) {
    exists i :: 0 <= i < |chunks| && chunks[i].source == source
  }

  /** What a full log can still gain: empty markers, one for a source. */
  predicate AreMarkers(extra: seq<Chunk>) {
    && (forall i :: 0 <= i < |extra| ==> extra[i].truncated && extra[i].byteSize == 0 && extra[i].preview == [])
    && (forall i, j :: 0 <= i < j < |extra| ==> extra[i].source != extra[j].source)
  }

  /** A source got a marker exactly if it wrote and did not end in one. */
  predicate IsClosedFor(source: Source, chunks: seq<Chunk>, extra: seq<Chunk>, messages: seq<Message>) {
    && (IsMarker(Latest(chunks + extra, source)) <==> IsMarker(Latest(chunks, source)) || IsMentioned(source, messages))
    && (HasChunkOf(extra, source) <==> IsMentioned(source, messages) && !IsMarker(Latest(chunks, source)))
  }

  /** `chunks + extra` is a full log some messages later. */
  ghost predicate IsClosed(chunks: seq<Chunk>, extra: seq<Chunk>, messages: seq<Message>) {
    && AreNumbered(chunks + extra) && TotalBytes(chunks + extra) == TotalBytes(chunks) && AreMarkers(extra)
    && forall s :: IsClosedFor(s, chunks, extra, messages)
  }

  lemma MentionExtends(s: Source, messages: seq<Message>, m: Message)
    ensures IsMentioned(s, messages + [m]) <==> IsMentioned(s, messages) || s == m.source
  {
    var longer := messages + [m];
    if IsMentioned(s, messages) {
      var i :| 0 <= i < |messages| && messages[i].source == s;
      assert longer[i].source == s;
    }
    if s == m.source { assert longer[|messages|].source == s; }
  }

  lemma ChunkExtends(s: Source, extra: seq<Chunk>, c: Chunk)
    ensures HasChunkOf(extra + [c], s) <==> HasChunkOf(extra, s) || s == c.source
  {
    var longer := extra + [c];
    if HasChunkOf(extra, s) {
      var i :| 0 <= i < |extra| && extra[i].source == s;
      assert longer[i].source == s;
    }
    if s == c.source { assert longer[|extra|].source == s; }
  }

  lemma MarkersExtend(extra: seq<Chunk>, c: Chunk)
    requires AreMarkers(extra) && !HasChunkOf(extra, c.source) && c.truncated && c.byteSize == 0 && c.preview == []
    ensures AreMarkers(extra + [c])
  {
    assert forall i :: 0 <= i < |extra| ==> extra[i].source != c.source;
  }

  lemma SourceStaysClosed(s: Source, chunks: seq<Chunk>, extra: seq<Chunk>, messages: seq<Message>, m: Message, c: Chunk)
    requires IsClosedFor(s, chunks, extra, messages)
    requires c.source == m.source && c.truncated && c.byteSize == 0 && !IsMarker(Latest(chunks + extra, c.source))
    requires Latest(chunks + extra + [c], s) == if s == c.source then Some(c) else Latest(chunks + extra, s)
    ensures IsClosedFor(s, chunks, extra + [c], messages + [m])
  {
    assert chunks + (extra + [c]) == chunks + extra + [c];
    MentionExtends(s, messages, m);
    ChunkExtends(s, extra, c);
  }

  lemma MarkerNumbers(chunks: seq<Chunk>, extra: seq<Chunk>, c: Chunk)
    requires AreNumbered(chunks + extra) && AreMarkers(extra) && !HasChunkOf(extra, c.source)
    requires c.truncated && c.byteSize == 0 && c.preview == [] && c.sequence == NextSequence(chunks + extra, c.source)
    ensures AreNumbered(chunks + (extra + [c])) && AreMarkers(extra + [c])
    ensures TotalBytes(chunks + (extra + [c])) == TotalBytes(chunks + extra)
    ensures forall s :: Latest(chunks + extra + [c], s) == if s == c.source then Some(c) else Latest(chunks + extra, s)
  {
    NumberingExtends(chunks + extra, c);
    TotalExtends(chunks + extra, c);
    MarkersExtend(extra, c);
    assert chunks + (extra + [c]) == chunks + extra + [c];
  }

  lemma MarkerCloses(chunks: seq<Chunk>, extra: seq<Chunk>, messages: seq<Message>, m: Message, c: Chunk)
    requires IsClosed(chunks, extra, messages) && c.source == m.source && !IsMarker(Latest(chunks + extra, m.source))
    requires c.truncated && c.byteSize == 0 && c.preview == [] && c.sequence == NextSequence(chunks + extra, c.source)
    ensures IsClosed(chunks, extra + [c], messages + [m])
  {
    assert IsClosedFor(c.source, chunks, extra, messages);
    MarkerNumbers(chunks, extra, c);
    forall s ensures IsClosedFor(s, chunks, extra + [c], messages + [m]) {
      SourceStaysClosed(s, chunks, extra, messages, m, c);
    }
  }

  /** One more message to a full log. */
  lemma ClosedStays(chunks: seq<Chunk>, extra: seq<Chunk>, l: Limits, messages: seq<Message>, m: Message)
    returns (more: seq<Chunk>)
    requires IsClosed(chunks, extra, messages) && TotalBytes(chunks) >= l.total
    ensures Appended(chunks + extra, l, m) == chunks + more && IsClosed(chunks, more, messages + [m])
  {
    hide IsMarker, Latest, NextSequence, AreNumbered, AreMarkers, TotalBytes;
    assert TotalBytes(chunks + extra) == TotalBytes(chunks);
    if IsMarker(Latest(chunks + extra, m.source)) {
      more := extra;
      forall s ensures IsClosedFor(s, chunks, extra, messages + [m]) {
        assert IsClosedFor(s, chunks, extra, messages);
        MentionExtends(s, messages, m);
      }
    } else {
      hide IsClosed;
      var c := NewChunk(chunks + extra, l, m.source, [], true);
      more := extra + [c];
      assert chunks + more == chunks + extra + [c];
      MarkerCloses(chunks, extra, messages, m, c);
    }
  }

  lemma ClosedAtFirst(chunks: seq<Chunk>)
    requires AreNumbered(chunks)
    ensures chunks + [] == chunks && IsClosed(chunks, [], [])
  {
    assert chunks + [] == chunks;
    assert forall s :: !HasChunkOf([], s) && !IsMentioned(s, []);
  }

  /** Once the limit is reached, each source that still writes gets one empty marker and nothing else is stored. */
  lemma {:induction false} FullLogOnlyGainsMarkers(chunks: seq<Chunk>, l: Limits, messages: seq<Message>)
    returns (extra: seq<Chunk>)
    requires AreNumbered(chunks) && TotalBytes(chunks) >= l.total
    ensures AppendedAll(chunks, l, messages) == chunks + extra && IsClosed(chunks, extra, messages)
    decreases |messages|
  {
    hide IsClosed, Appended, TotalBytes, AreNumbered;
    if messages == [] {
      extra := [];
      ClosedAtFirst(chunks);
    } else {
      var n := |messages| - 1;
      var before := FullLogOnlyGainsMarkers(chunks, l, messages[..n]);
      extra := ClosedStays(chunks, before, l, messages[..n], messages[n]);
      assert messages == messages[..n] + [messages[n]];
    }
  }

  // ---------- What the truncation flag says ----------

  predicate EndsInReplacement(t: Text) {
    t != [] && t[|t| - 1] == REPLACEMENT
  }

  /** A cut text is never longer, and of the same length only if its last code point was cut. */
  lemma CutIsNoLonger(t: Text, n: nat)
    requires n < ByteLength(t)
    ensures |Truncate(t, n)| <= |t| && (|Truncate(t, n)| == |t| ==> EndsInReplacement(Truncate(t, n)))
  {
    DecodeCut(t, n);
    WholePointsFit(t, n);
  }

  lemma FlagOfText(t: Text, limit: nat)
    ensures var r := TruncateText(t, limit);
            (!r.1 ==> r.0 == t) && |r.0| <= |t| && (r.1 && |r.0| == |t| ==> EndsInReplacement(r.0))
  {
    if ByteLength(t) > limit { CutIsNoLonger(t, limit); }
  }

  /** An unflagged chunk holds its message unchanged; a flagged one holds another text, unless it ends in U+FFFD anyway. */
  lemma FlagTellsTruncation(chunks: seq<Chunk>, l: Limits, m: Message)
    requires TotalBytes(chunks) < l.total
    ensures var r := Appended(chunks, l, m);
            && |r| == |chunks| + 1
            && (!r[|chunks|].truncated ==> r[|chunks|].preview == m.text)
            && (r[|chunks|].truncated && r[|chunks|].preview == m.text ==> EndsInReplacement(m.text))
  {
    FlagOfText(m.text, l.total - TotalBytes(chunks));
    FlagOfText(TruncateText(m.text, l.total - TotalBytes(chunks)).0, l.preview);
  }

  // ---------- A chunk, byte by byte ----------

  /** The whole code points within the first `n` bytes of a text, and U+FFFD for one they go through. */
  function FirstBytes(t: Text, n: nat): Text {
    if |Encode(t)| <= n then t else Decode(Encode(t)[..n])
  }

  /**
   * What is stored of a message that finds room: as much of it as fits, and a preview of that. The flag tells whether
   * either of the two was cut, the size is that of what was stored.
   */
  lemma StoredChunk(chunks: seq<Chunk>, l: Limits, m: Message)
    requires TotalBytes(chunks) < l.total && AreNumbered(chunks)
    ensures var room := l.total - TotalBytes(chunks);
            var stored := FirstBytes(m.text, room);
            var r := Appended(chunks, l, m);
            && |r| == |chunks| + 1 && r[..|chunks|] == chunks
            && r[|chunks|].source == m.source && r[|chunks|].sequence == CountOf(chunks, m.source) + 1
            && r[|chunks|].byteSize == |Encode(stored)| && r[|chunks|].preview == FirstBytes(stored, l.preview)
            && (r[|chunks|].truncated <==> |Encode(m.text)| > room || |Encode(stored)| > l.preview)
  {
    LatestOfNumbered(chunks, m.source);
  }

  /** Chunk `i` is the last one of its source. */
  predicate IsLastOf(chunks: seq<Chunk>, source: Source, i: nat) {
    i < |chunks| && chunks[i].source == source && forall j :: i < j < |chunks| ==> chunks[j].source != source
  }

  lemma {:induction false} LatestIsLast(chunks: seq<Chunk>, source: Source, i: nat)
    requires AreNumbered(chunks) && IsLastOf(chunks, source, i)
    ensures Latest(chunks, source) == Some(chunks[i])
    decreases |chunks|
  {
    var n := |chunks| - 1;
    assert forall k :: 0 <= k < n ==> chunks[..n][..k] == chunks[..k];
    assert AreNumbered(chunks[..n]);
    if i < n {
      LatestIsLast(chunks[..n], source, i);
    } else {
      LatestOfNumbered(chunks[..n], source);
    }
  }

  /** In a full log the last chunk of every source that has written since is empty and flagged. */
  lemma WritersEndInMarkers(chunks: seq<Chunk>, l: Limits, messages: seq<Message>, m: Message, i: nat)
    requires AreNumbered(chunks) && TotalBytes(chunks) >= l.total && m in messages
    requires IsLastOf(AppendedAll(chunks, l, messages), m.source, i)
    ensures AppendedAll(chunks, l, messages)[i].byteSize == 0 && AppendedAll(chunks, l, messages)[i].truncated
  {
    var extra := FullLogOnlyGainsMarkers(chunks, l, messages);
    var k :| 0 <= k < |messages| && messages[k] == m;
    assert IsMentioned(m.source, messages) && IsClosedFor(m.source, chunks, extra, messages);
    LatestIsLast(chunks + extra, m.source, i);
  }

  /** Nothing is added for a source whose last chunk was empty and flagged when the log was full. */
  lemma MarkersAreNotRepeated(chunks: seq<Chunk>, l: Limits, messages: seq<Message>, source: Source, i: nat)
    requires AreNumbered(chunks) && TotalBytes(chunks) >= l.total
    requires IsLastOf(chunks, source, i) && chunks[i].byteSize == 0 && chunks[i].truncated
    ensures chunks <= AppendedAll(chunks, l, messages)
    ensures forall j :: |chunks| <= j < |AppendedAll(chunks, l, messages)| ==>
              AppendedAll(chunks, l, messages)[j].source != source
  {
    var extra := FullLogOnlyGainsMarkers(chunks, l, messages);
    LatestIsLast(chunks, source, i);
    assert IsClosedFor(source, chunks, extra, messages);
    forall j | |chunks| <= j < |chunks + extra| ensures (chunks + extra)[j].source != source {
      assert extra[j - |chunks|] == (chunks + extra)[j];
    }
  }
}
