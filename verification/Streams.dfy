// Whole streams: however TCP splits a byte stream into recv chunks, the readers
// deliver the same messages and stop at the same byte.
module Streams {
  import opened Framing
  import opened Sequences

  function Concat(chunks: seq<seq<Byte>>): seq<Byte> {
    if chunks == [] then [] else chunks[0] + Concat(chunks[1..])
  }

  // The server's reader after the whole of s.
  function Read(s: seq<Byte>): Reader {
    Reader(Tail(s), Messages(s), |Tail(s)| >= MAX_MESSAGE_SIZE - 1)
  }

  function Feed(r: Reader, chunks: seq<seq<Byte>>): Reader
    decreases |chunks|
  {
    if chunks == [] then r else Feed(Take(r, chunks[0]), chunks[1..])
  }

  // Every chunk is what a successful recv may return: at least one byte, at most
  // what was asked for, and nothing once the connection was closed.
  ghost predicate Fits(r: Reader, chunks: seq<seq<Byte>>)
    decreases |chunks|
  {
    chunks == []
    || (!r.closed && 0 < |chunks[0]| <= MAX_MESSAGE_SIZE - |r.tail| - 1 && Fits(Take(r, chunks[0]), chunks[1..]))
  }

  lemma TakeIsRead(s: seq<Byte>, chunk: seq<Byte>)
    ensures Take(Read(s), chunk) == Read(s + chunk)
  {
    SplitIsIncremental(s, chunk);
  }

  // Feeding chunks is reading their concatenation.
  lemma {:induction false} FeedIsRead(s: seq<Byte>, chunks: seq<seq<Byte>>)
    ensures Feed(Read(s), chunks) == Read(s + Concat(chunks))
    decreases |chunks|
  {
    if chunks == [] {
      assert s + Concat(chunks) == s;
    } else {
      TakeIsRead(s, chunks[0]);
      FeedIsRead(s + chunks[0], chunks[1..]);
      Associates(s, chunks[0], Concat(chunks[1..]));
    }
  }

  // Within the first n bytes no unfinished line fills the buffer.
  ghost predicate Roomy(s: seq<Byte>, n: nat)
    requires n <= |s|
  {
    forall m :: 0 <= m < n ==> !Read(s[..m]).closed
  }

  // A legal chunk never steps over the byte at which the buffer is full.
  lemma OneChunkStaysRoomy(s: seq<Byte>, chunk: seq<Byte>)
    requires Roomy(s, |s|) && !Read(s).closed && |chunk| <= MAX_MESSAGE_SIZE - |Tail(s)| - 1
    ensures Roomy(s + chunk, |s + chunk|)
  {
    var all := s + chunk;
    forall m | 0 <= m < |all| ensures !Read(all[..m]).closed {
      if m < |s| {
        assert all[..m] == s[..m];
      } else {
        assert all[..m] == s + chunk[..m - |s|];
        SplitIsIncremental(s, chunk[..m - |s|]);
      }
    }
  }

  lemma {:induction false} LegalFeedStaysRoomy(s: seq<Byte>, chunks: seq<seq<Byte>>)
    requires Roomy(s, |s|) && Fits(Read(s), chunks)
    ensures Roomy(s + Concat(chunks), |s + Concat(chunks)|)
    decreases |chunks|
  {
    if chunks == [] {
      assert s + Concat(chunks) == s;
    } else {
      TakeIsRead(s, chunks[0]);
      OneChunkStaysRoomy(s, chunks[0]);
      LegalFeedStaysRoomy(s + chunks[0], chunks[1..]);
      Associates(s, chunks[0], Concat(chunks[1..]));
    }
  }

  // How much of s is consumed: all of it, or up to the byte that fills the buffer.
  ghost predicate StopsAfter(s: seq<Byte>, n: nat) {
    n <= |s| && Roomy(s, n) && (n < |s| ==> Read(s[..n]).closed)
  }

  lemma StopIsUnique(s: seq<Byte>, m: nat, n: nat)
    requires StopsAfter(s, m) && StopsAfter(s, n)
    ensures m == n
  {
  }

  // A legal chunking of s: its chunks are a prefix of s, and it ends only because
  // s ends or because the server closed the connection.
  ghost predicate Chunks(s: seq<Byte>, chunks: seq<seq<Byte>>) {
    && Fits(Read([]), chunks)
    && Concat(chunks) <= s
    && (Concat(chunks) == s || Feed(Read([]), chunks).closed)
  }

  lemma ChunkingStops(s: seq<Byte>, chunks: seq<seq<Byte>>)
    requires Chunks(s, chunks)
    ensures StopsAfter(s, |Concat(chunks)|)
    ensures Feed(Read([]), chunks) == Read(s[..|Concat(chunks)|])
  {
    var t := Concat(chunks);
    assert [] + t == t && s[..|t|] == t;
    FeedIsRead([], chunks);
    LegalFeedStaysRoomy([], chunks);
    assert forall m :: 0 <= m < |t| ==> s[..m] == t[..m];
  }

  // Chunk independence: same bytes consumed, same messages, same rest, same verdict.
  lemma ChunkIndependence(s: seq<Byte>, a: seq<seq<Byte>>, b: seq<seq<Byte>>)
    requires Chunks(s, a) && Chunks(s, b)
    ensures Concat(a) == Concat(b)
    ensures Feed(Read([]), a) == Feed(Read([]), b)
  {
    ChunkingStops(s, a);
    ChunkingStops(s, b);
    StopIsUnique(s, |Concat(a)|, |Concat(b)|);
    assert Concat(a) == s[..|Concat(a)|] && Concat(b) == s[..|Concat(b)|];
  }

  // ----- The overflow threshold -----

  // Without NUL, the tail is what follows the last newline.
  lemma {:induction false} TailIsSuffix(s: seq<Byte>)
    requires NUL !in s
    ensures var k := |s| - |Tail(s)|; s[k..] == Tail(s) && NL !in Tail(s) && (k > 0 ==> s[k - 1] == NL)
    decreases |s|
  {
    StopFacts(s);
    if HasLine(s) {
      var rest := s[Stop(s) + 1..];
      TailIsSuffix(rest);
      assert s[|s| - |Tail(s)|..] == rest[|rest| - |Tail(rest)|..];
    } else {
      assert s[0..] == s;
    }
  }

  // 16383 bytes of s from i on without a newline.
  ghost predicate RunAt(s: seq<Byte>, i: nat) {
    i + 16383 <= |s| && NL !in s[i..i + 16383]
  }

  // Some line of s reaches 16383 bytes.
  ghost predicate LongLine(s: seq<Byte>) {
    exists i: nat :: RunAt(s, i)
  }

  lemma FullBufferIsLongLine(s: seq<Byte>, n: nat)
    requires NUL !in s && n <= |s| && Read(s[..n]).closed
    ensures LongLine(s)
  {
    var t, i := s[..n], n - (MAX_MESSAGE_SIZE - 1);
    TailIsSuffix(t);
    var k := n - |Tail(t)|;
    assert s[i..n] == t[k..][i - k..];
    assert RunAt(s, i);
  }

  lemma LongLineFillsBuffer(s: seq<Byte>, i: nat)
    requires NUL !in s && RunAt(s, i)
    ensures Read(s[..i + MAX_MESSAGE_SIZE - 1]).closed
  {
    var m := i + MAX_MESSAGE_SIZE - 1;
    TailIsSuffix(s[..m]);
    var k := m - |Tail(s[..m])|;
    assert forall j :: i <= j < m ==> s[..m][j] == s[i..m][j - i];
    assert k <= i;
  }

  // The server closes a NUL-free stream exactly when a line reaches 16383 bytes.
  lemma OverflowIsLongLine(s: seq<Byte>, chunks: seq<seq<Byte>>)
    requires NUL !in s && Chunks(s, chunks)
    ensures Feed(Read([]), chunks).closed <==> LongLine(s)
  {
    ChunkingStops(s, chunks);
    var n := |Concat(chunks)|;
    if Read(s[..n]).closed {
      FullBufferIsLongLine(s, n);
    }
    if LongLine(s) {
      var i: nat :| RunAt(s, i);
      LongLineFillsBuffer(s, i);
      assert i + MAX_MESSAGE_SIZE - 1 >= n;
    }
  }

  // ----- The client reader and the batch splitter agree -----

  function ClientFeed(r: Reader, chunks: seq<seq<Byte>>): Reader
    decreases |chunks|
  {
    if chunks == [] then r else ClientFeed(ClientTake(r, chunks[0]), chunks[1..])
  }

  // On a stream whose unfinished lines always fit, the client's reader, under any
  // chunking, delivers what the server's would.
  lemma {:induction false} ClientAgrees(s: seq<Byte>, chunks: seq<seq<Byte>>)
    requires Roomy(s + Concat(chunks), |s + Concat(chunks)|) && !Read(s + Concat(chunks)).closed
    ensures ClientFeed(Read(s), chunks) == Read(s + Concat(chunks))
    decreases |chunks|
  {
    var all := s + Concat(chunks);
    if chunks == [] {
      assert all == s;
    } else {
      var t := s + chunks[0];
      assert t + Concat(chunks[1..]) == all;
      assert all[..|s|] == s && all[..|t|] == t;
      assert |s| == |all| ==> s == all;
      assert |t| == |all| ==> t == all;
      SplitIsIncremental(s, chunks[0]);
      ClientAgrees(t, chunks[1..]);
    }
  }

  // ----- The client reader on every stream -----

  const EMPTY := Reader([], [], false)

  // Every chunk is at least one byte and at most what the client asks for.
  ghost predicate ClientFits(r: Reader, chunks: seq<seq<Byte>>)
    decreases |chunks|
  {
    chunks == [] || (FitsClient(r, chunks[0]) && ClientFits(ClientTake(r, chunks[0]), chunks[1..]))
  }

  predicate FitsClient(r: Reader, chunk: seq<Byte>) {
    0 < |chunk| <= if |r.tail| < MAX_MESSAGE_SIZE - 1 then MAX_MESSAGE_SIZE - |r.tail| - 1 else MAX_MESSAGE_SIZE - 1
  }

  // The client reading one byte at a time.
  function Bytes(r: Reader, s: seq<Byte>): Reader {
    if s == [] then r else ClientTake(Bytes(r, s[..|s| - 1]), [s[|s| - 1]])
  }

  lemma {:induction false} BytesAppend(r: Reader, a: seq<Byte>, b: seq<Byte>)
    ensures Bytes(r, a + b) == Bytes(Bytes(r, a), b)
  {
    if b == [] {
      assert a + b == a;
    } else {
      assert (a + b)[..|a + b| - 1] == a + b[..|b| - 1];
      BytesAppend(r, a, b[..|b| - 1]);
    }
  }

  // A full buffer is dropped before the next byte.
  lemma FullIsEmpty(r: Reader, s: seq<Byte>)
    requires |r.tail| >= MAX_MESSAGE_SIZE - 1 && s != []
    ensures Bytes(r, s) == Bytes(Reader([], r.delivered, false), s)
  {
    var first := [s[0]];
    assert s == first + s[1..] && first[..0] == [];
    BytesAppend(r, first, s[1..]);
    BytesAppend(Reader([], r.delivered, false), first, s[1..]);
    assert ClientTake(r, first) == ClientTake(Reader([], r.delivered, false), first);
  }

  lemma OneByteMore(r: Reader, s: seq<Byte>, n: nat)
    requires n < |s|
    ensures s[..n + 1] == s[..n] + [s[n]] && Bytes(r, s[..n + 1]) == ClientTake(Bytes(r, s[..n]), [s[n]])
  {
    assert s[..n + 1][..n] == s[..n];
  }

  // One byte more on top of a tail that leaves room for it.
  lemma TakeOneMore(r: Reader, t: seq<Byte>, b: Byte)
    requires |r.tail| < MAX_MESSAGE_SIZE - 1 && |Tail(r.tail + t)| < MAX_MESSAGE_SIZE - 1
    ensures ClientTake(ClientTake(r, t), [b]) == ClientTake(r, t + [b])
  {
    SplitIsIncremental(r.tail + t, [b]);
    Associates(r.tail, t, [b]);
    Associates(r.delivered, Messages(r.tail + t), Messages(Tail(r.tail + t) + [b]));
  }

  // While the buffer has room, the bytes are one chunk.
  lemma {:induction false} RoomyBytes(r: Reader, s: seq<Byte>, n: nat)
    requires 0 < n <= |s| && |r.tail| < MAX_MESSAGE_SIZE - 1
    requires forall m :: 0 < m < n ==> |Tail(r.tail + s[..m])| < MAX_MESSAGE_SIZE - 1
    ensures Bytes(r, s[..n]) == ClientTake(r, s[..n])
  {
    OneByteMore(r, s, n - 1);
    if n > 1 {
      RoomyBytes(r, s, n - 1);
      TakeOneMore(r, s[..n - 1], s[n - 1]);
    } else {
      assert s[..0] == [] && [] + [s[0]] == [s[0]];
    }
  }

  lemma BytesUntilFull(d: seq<seq<Byte>>, s: seq<Byte>, n: nat)
    requires n <= |s| && Roomy(s, n)
    ensures Bytes(Reader([], d, false), s[..n]) == Reader(Tail(s[..n]), d + Messages(s[..n]), false)
  {
    assert forall m :: 0 <= m <= n ==> [] + s[..m] == s[..m];
    if n == 0 {
      assert s[..0] == [] && d + [] == d;
    } else {
      assert forall m :: 0 <= m < n ==> !Read(s[..m]).closed;
      RoomyBytes(Reader([], d, false), s, n);
    }
  }

  // A chunk within the room is its bytes.
  lemma ChunkIsBytes(r: Reader, chunk: seq<Byte>)
    requires FitsClient(r, chunk)
    ensures ClientTake(r, chunk) == Bytes(r, chunk)
  {
    var r0 := if |r.tail| >= MAX_MESSAGE_SIZE - 1 then Reader([], r.delivered, false) else r;
    if |r.tail| >= MAX_MESSAGE_SIZE - 1 {
      FullIsEmpty(r, chunk);
    }
    assert chunk[..|chunk|] == chunk;
    RoomyBytes(r0, chunk, |chunk|);
  }

  lemma {:induction false} ClientFeedIsBytes(r: Reader, chunks: seq<seq<Byte>>)
    requires ClientFits(r, chunks)
    ensures ClientFeed(r, chunks) == Bytes(r, Concat(chunks))
    decreases |chunks|
  {
    if chunks != [] {
      ChunkIsBytes(r, chunks[0]);
      ClientFeedIsBytes(ClientTake(r, chunks[0]), chunks[1..]);
      BytesAppend(r, chunks[0], Concat(chunks[1..]));
    }
  }

  // The first prefix of s that fills the buffer, or all of s.
  function StopPoint(s: seq<Byte>): (n: nat)
    ensures n <= |s|
  {
    if s == [] then 0
    else
      var n := StopPoint(s[..|s| - 1]);
      if n < |s| - 1 || Read(s[..n]).closed then n else |s|
  }

  lemma {:induction false} StopPointStops(s: seq<Byte>)
    ensures StopsAfter(s, StopPoint(s))
  {
    if s != [] {
      var t, n := s[..|s| - 1], StopPoint(s);
      StopPointStops(t);
      forall m | 0 <= m < n ensures !Read(s[..m]).closed {
        assert s[..m] == t[..m];
      }
      assert n < |s| ==> s[..n] == t[..n];
    }
  }

  // What fills the buffer fills it exactly.
  lemma FullBlock(s: seq<Byte>, n: nat)
    requires StopsAfter(s, n) && n < |s|
    ensures n > 0 && |Tail(s[..n])| == 16383
  {
    assert Tail([]) == [];
    assert n > 0 && s[..n] == s[..n - 1] + [s[n - 1]];
    assert !Read(s[..n - 1]).closed;
    SplitIsIncremental(s[..n - 1], [s[n - 1]]);
  }

  // What the client makes of s: up to a full buffer as the server does; then those
  // 16383 bytes are dropped and reading starts afresh.
  function Kept(s: seq<Byte>): Reader
    decreases |s|
  {
    var n := StopPoint(s);
    if n == |s| || n == 0 then Reader(Tail(s), Messages(s), false)
    else
      var rest := Kept(s[n..]);
      Reader(rest.tail, Messages(s[..n]) + rest.delivered, false)
  }

  lemma {:induction false} BytesAreKept(d: seq<seq<Byte>>, s: seq<Byte>)
    ensures Bytes(Reader([], d, false), s) == Kept(s).(delivered := d + Kept(s).delivered)
    decreases |s|
  {
    var n := StopPoint(s);
    StopPointStops(s);
    BytesUntilFull(d, s, n);
    if n == |s| {
      assert s[..n] == s;
    } else {
      FullBlock(s, n);
      assert s == s[..n] + s[n..];
      BytesAppend(Reader([], d, false), s[..n], s[n..]);
      FullIsEmpty(Reader(Tail(s[..n]), d + Messages(s[..n]), false), s[n..]);
      BytesAreKept(d + Messages(s[..n]), s[n..]);
      Associates(d, Messages(s[..n]), Kept(s[n..]).delivered);
    }
  }

  // On every stream, whatever TCP makes of it, the client delivers the same
  // messages and keeps the same tail.
  lemma ClientChunkIndependence(chunks: seq<seq<Byte>>)
    requires ClientFits(EMPTY, chunks)
    ensures ClientFeed(EMPTY, chunks) == Kept(Concat(chunks))
  {
    ClientFeedIsBytes(EMPTY, chunks);
    BytesAreKept([], Concat(chunks));
    assert [] + Kept(Concat(chunks)).delivered == Kept(Concat(chunks)).delivered;
  }

  // extract_messages byte by byte: the lines finished so far and the current one.
  function Scan(s: seq<Byte>): (seq<seq<Byte>>, seq<Byte>) {
    if s == [] then ([], [])
    else
      var (done, cur) := Scan(s[..|s| - 1]);
      var last := s[|s| - 1];
      if last == NL then (done + (if cur == [] then [] else [cur]), []) else (done, cur + [last])
  }

  // Without NUL, splitting at newlines only is what the two readers do.
  lemma {:induction false} ScanIsRead(s: seq<Byte>)
    requires NUL !in s
    ensures Scan(s) == (Messages(s), Tail(s))
  {
    if s != [] {
      var t, last := s[..|s| - 1], s[|s| - 1];
      ScanIsRead(t);
      assert s == t + [last] && last in s;
      OneMoreByte(t, last);
    }
  }

  // The readers' meaning, one byte at a time.
  lemma OneMoreByte(t: seq<Byte>, last: Byte)
    requires NUL !in t && last != NUL
    ensures last == NL ==> Messages(t + [last]) == Messages(t) + (if Tail(t) == [] then [] else [Tail(t)])
    ensures last == NL ==> Tail(t + [last]) == []
    ensures last != NL ==> Messages(t + [last]) == Messages(t) && Tail(t + [last]) == Tail(t) + [last]
  {
    SplitIsIncremental(t, [last]);
    TailIsSuffix(t);
    assert Plain(Tail(t)) by {
      assert t[|t| - |Tail(t)|..] == Tail(t);
    }
    if last == NL {
      ClosedLine(Tail(t));
    } else {
      OpenLine(Tail(t) + [last]);
      assert Messages(t) + [] == Messages(t);
    }
  }

  lemma OpenLine(line: seq<Byte>)
    requires Plain(line)
    ensures Messages(line) == [] && Tail(line) == line
  {
    StopFacts(line);
  }

  lemma ClosedLine(line: seq<Byte>)
    requires Plain(line)
    ensures Messages(line + [NL]) == (if line == [] then [] else [line]) && Tail(line + [NL]) == []
  {
    var s := line + [NL];
    StopsAt(s, |line|);
    assert s[..|line|] == line && s[|line| + 1..] == [];
  }

  function Newlines(s: seq<Byte>): nat {
    if s == [] then 0 else Newlines(s[..|s| - 1]) + if s[|s| - 1] == NL then 1 else 0
  }

  lemma {:induction false} NewlinesMonotone(s: seq<Byte>, i: nat)
    requires i <= |s|
    ensures Newlines(s[..i]) <= Newlines(s)
    ensures |Scan(s).0| <= Newlines(s)
    ensures Newlines(s[..i]) == Newlines(s) ==> Scan(s).0 == Scan(s[..i]).0
    decreases |s|
  {
    if i == |s| {
      assert s[..i] == s;
      if s != [] {
        NewlinesMonotone(s[..i - 1], i - 1);
      }
    } else {
      NewlinesMonotone(s[..|s| - 1], i);
      assert s[..|s| - 1][..i] == s[..i];
    }
  }

  // extract_messages on the first len bytes of a buffer: count, then collect.
  method ExtractMessages(buffer: array<Byte>, len: nat) returns (messages: seq<seq<Byte>>)
    requires len <= buffer.Length
    ensures messages == Scan(buffer[..len]).0
    ensures NUL !in buffer[..len] ==> messages == Messages(buffer[..len])
  {
    ghost var all := buffer[..len];
    if NUL !in all {
      ScanIsRead(all);
    }
    var numMessages := CountNewlines(buffer, len);
    messages := [];
    if numMessages == 0 {
      NewlinesMonotone(all, 0);
      return;
    }
    messages := CollectLines(buffer, len, numMessages);
  }

  method CollectLines(buffer: array<Byte>, len: nat, numMessages: nat) returns (messages: seq<seq<Byte>>)
    requires len <= buffer.Length && numMessages == Newlines(buffer[..len])
    ensures messages == Scan(buffer[..len]).0
  {
    ghost var all := buffer[..len];
    messages := [];
    var start, i := 0, 0;
    while i < len && |messages| < numMessages
      invariant 0 <= start <= i <= len
      invariant Scan(all[..i]) == (messages, buffer[start..i])
    {
      ScanStep(all, i);
      assert all[i] == buffer[i] && buffer[start..i + 1] == buffer[start..i] + [buffer[i]];
      assert messages + [] == messages;
      if buffer[i] == NL {
        if i > start {
          messages := messages + [buffer[start..i]];
        }
        start := i + 1;
        assert buffer[start..start] == [];
      }
      i := i + 1;
    }
    EnoughLines(all, i);
  }

  lemma ScanStep(s: seq<Byte>, i: nat)
    requires i < |s|
    ensures Scan(s[..i + 1]) == var (done, cur) := Scan(s[..i]);
              if s[i] == NL then (done + (if cur == [] then [] else [cur]), []) else (done, cur + [s[i]])
  {
    assert s[..i + 1][..i] == s[..i];
  }

  // Once as many lines were found as there are newlines, no further one follows.
  lemma EnoughLines(s: seq<Byte>, i: nat)
    requires i <= |s| && (i == |s| || |Scan(s[..i]).0| >= Newlines(s))
    ensures Scan(s[..i]).0 == Scan(s).0
  {
    NewlinesMonotone(s, i);
    NewlinesMonotone(s[..i], i);
    assert s[..i][..i] == s[..i];
    if i == |s| {
      assert s[..i] == s;
    }
  }

  method CountNewlines(buffer: array<Byte>, len: nat) returns (n: nat)
    requires len <= buffer.Length
    ensures n == Newlines(buffer[..len])
  {
    n := 0;
    for i := 0 to len
      invariant n == Newlines(buffer[..i])
    {
      assert buffer[..i + 1][..i] == buffer[..i];
      if buffer[i] == NL {
        n := n + 1;
      }
    }
  }
}
