// Newline framing: handle_client_read (server/src/server.c), client_process_messages
// (client/lib/client.c) and extract_messages (server/src/protocol.c).
module Framing {
  import opened Sequences

  type Byte = x: int | 0 <= x < 256

  const NUL: Byte := 0
  const NL: Byte := 10
  const MAX_MESSAGE_SIZE := 16384

  // ----- The meaning of a stream -----

  // Where a C string scan for a newline stops: the first newline or NUL, |s| if there is neither.
  function Stop(s: seq<Byte>): (k: nat)
    ensures k <= |s|
  {
    if s == [] || s[0] == NL || s[0] == NUL then 0 else 1 + Stop(s[1..])
  }

  lemma {:induction false} StopFacts(s: seq<Byte>)
    ensures Stop(s) < |s| ==> s[Stop(s)] == NL || s[Stop(s)] == NUL
    ensures forall i :: 0 <= i < Stop(s) ==> s[i] != NL && s[i] != NUL
  {
    if Stop(s) > 0 {
      StopFacts(s[1..]);
    }
  }

  predicate HasLine(s: seq<Byte>) {
    Stop(s) < |s| && s[Stop(s)] == NL
  }

  // The non-empty complete lines, in order.
  function Messages(s: seq<Byte>): seq<seq<Byte>>
    decreases |s|
  {
    if !HasLine(s) then []
    else
      var k := Stop(s);
      (if k > 0 then [s[..k]] else []) + Messages(s[k + 1..])
  }

  // The unfinished line.
  function Tail(s: seq<Byte>): (t: seq<Byte>)
    ensures |t| <= |s|
    decreases |s|
  {
    if !HasLine(s) then s else Tail(s[Stop(s) + 1..])
  }

  lemma StopOfPrefix(a: seq<Byte>, b: seq<Byte>)
    requires Stop(a) < |a|
    ensures Stop(a + b) == Stop(a)
  {
    StopFacts(a);
    assert forall i :: 0 <= i < |a| ==> (a + b)[i] == a[i];
    StopsAt(a + b, Stop(a));
  }

  lemma StopsAt(s: seq<Byte>, k: nat)
    requires k <= |s| && (k < |s| ==> s[k] == NL || s[k] == NUL)
    requires forall i :: 0 <= i < k ==> s[i] != NL && s[i] != NUL
    ensures Stop(s) == k
  {
    StopFacts(s);
  }

  // The first complete line of a is the first of a + b.
  lemma FirstLine(a: seq<Byte>, b: seq<Byte>)
    requires HasLine(a)
    ensures HasLine(a + b) && Stop(a + b) == Stop(a)
    ensures var k := Stop(a); (a + b)[..k] == a[..k] && (a + b)[k + 1..] == a[k + 1..] + b
  {
    StopOfPrefix(a, b);
    assert (a + b)[Stop(a)] == a[Stop(a)];
  }

  // Reading a and then b is reading b on top of a's unfinished line.
  lemma {:induction false} SplitIsIncremental(a: seq<Byte>, b: seq<Byte>)
    ensures Messages(a + b) == Messages(a) + Messages(Tail(a) + b)
    ensures Tail(a + b) == Tail(Tail(a) + b)
    decreases |a|
  {
    if HasLine(a) {
      var k := Stop(a);
      var rest := a[k + 1..];
      FirstLine(a, b);
      SplitIsIncremental(rest, b);
      Associates(if k > 0 then [a[..k]] else [], Messages(rest), Messages(Tail(rest) + b));
    }
  }

  // An independent reading of Messages and Tail for streams without NUL: the
  // stream is its lines, each closed by a newline, then the tail.
  function Joined(lines: seq<seq<Byte>>): seq<Byte> {
    if lines == [] then [] else lines[0] + [NL] + Joined(lines[1..])
  }

  function NonEmpty(lines: seq<seq<Byte>>): seq<seq<Byte>> {
    if lines == [] then [] else (if lines[0] == [] then [] else [lines[0]]) + NonEmpty(lines[1..])
  }

  predicate Plain(s: seq<Byte>) {
    NL !in s && NUL !in s
  }

  lemma {:induction false} SplitOfJoined(lines: seq<seq<Byte>>, rest: seq<Byte>)
    requires (forall l :: l in lines ==> Plain(l)) && Plain(rest)
    ensures Messages(Joined(lines) + rest) == NonEmpty(lines)
    ensures Tail(Joined(lines) + rest) == rest
  {
    if lines == [] {
      assert Joined(lines) + rest == rest;
      StopFacts(rest);
      assert !HasLine(rest);
    } else {
      var s := Joined(lines) + rest;
      var l := lines[0];
      assert l in lines;
      assert s == (l + [NL]) + (Joined(lines[1..]) + rest);
      assert (l + [NL])[|l|] == NL;
      forall i | 0 <= i < |l| ensures (l + [NL])[i] != NL && (l + [NL])[i] != NUL {
        assert (l + [NL])[i] == l[i] && l[i] in l;
      }
      StopsAt(l + [NL], |l|);
      StopOfPrefix(l + [NL], Joined(lines[1..]) + rest);
      assert s[..|l|] == l && s[|l| + 1..] == Joined(lines[1..]) + rest;
      SplitOfJoined(lines[1..], rest);
    }
  }

  // Every NUL-free stream has such a reading.
  lemma {:induction false} EveryStreamIsJoined(s: seq<Byte>) returns (lines: seq<seq<Byte>>)
    requires NUL !in s
    ensures forall l :: l in lines ==> Plain(l)
    ensures Plain(Tail(s)) && s == Joined(lines) + Tail(s)
    decreases |s|
  {
    var k := Stop(s);
    StopFacts(s);
    if HasLine(s) {
      var rest := EveryStreamIsJoined(s[k + 1..]);
      lines := [s[..k]] + rest;
      CutAt(s, k, rest, Tail(s[k + 1..]));
    } else {
      lines := [];
      assert k == |s|;
      assert Joined(lines) + Tail(s) == s;
    }
  }

  lemma CutAt(s: seq<Byte>, k: nat, rest: seq<seq<Byte>>, tail: seq<Byte>)
    requires k < |s| && s[k] == NL && s[k + 1..] == Joined(rest) + tail
    ensures s == Joined([s[..k]] + rest) + tail
  {
    assert ([s[..k]] + rest)[1..] == rest;
    assert s == s[..k] + [NL] + s[k + 1..];
  }

  // Delivering the first line leaves the messages of the rest to deliver.
  lemma OneLine(before: seq<seq<Byte>>, s: seq<Byte>)
    requires HasLine(s)
    ensures var k := Stop(s);
            before + (if k > 0 then [s[..k]] else []) + Messages(s[k + 1..]) == before + Messages(s)
  {
    Associates(before, if Stop(s) > 0 then [s[..Stop(s)]] else [], Messages(s[Stop(s) + 1..]));
  }

  // ----- One chunk -----

  datatype Reader = Reader(tail: seq<Byte>, delivered: seq<seq<Byte>>, closed: bool)

  // handle_client_read on one chunk.
  function Take(r: Reader, chunk: seq<Byte>): Reader {
    var all := r.tail + chunk;
    Reader(Tail(all), r.delivered + Messages(all), |Tail(all)| >= MAX_MESSAGE_SIZE - 1)
  }

  // client_process_messages on one chunk: a full buffer is dropped first.
  function ClientTake(r: Reader, chunk: seq<Byte>): Reader {
    var all := (if |r.tail| >= MAX_MESSAGE_SIZE - 1 then [] else r.tail) + chunk;
    Reader(Tail(all), r.delivered + Messages(all), false)
  }

  class LineBuffer {
    const buffer: array<Byte>
    var len: nat
    var delivered: seq<seq<Byte>>
    var closed: bool

    ghost predicate Valid()
      reads this, buffer
    {
      buffer.Length == MAX_MESSAGE_SIZE && len <= MAX_MESSAGE_SIZE - 1
    }

    ghost function View(): Reader
      requires Valid()
      reads this, buffer
    {
      Reader(buffer[..len], delivered, closed)
    }

    constructor ()
      ensures Valid() && View() == Reader([], [], false) && fresh(buffer)
    {
      buffer := new Byte[MAX_MESSAGE_SIZE](_ => NUL);
      len, delivered, closed := 0, [], false;
    }

    // strchr(buffer + from, '\n') on the terminated contents.
    method FindNewline(from: nat) returns (newline: int)
      requires Valid() && from <= len && buffer[len] == NUL
      ensures newline == if HasLine(buffer[from..len]) then from + Stop(buffer[from..len]) else -1
    {
      var i := from;
      while buffer[i] != NUL && buffer[i] != NL
        invariant from <= i <= len
        invariant forall j :: from <= j < i ==> buffer[j] != NUL && buffer[j] != NL
        decreases len - i
      {
        i := i + 1;
      }
      ghost var s := buffer[from..len];
      assert forall j :: 0 <= j < i - from ==> s[j] == buffer[from + j];
      assert i < len ==> s[i - from] == buffer[i];
      StopsAt(s, i - from);
      newline := if buffer[i] == NL then i else -1;
    }

    // memmove(buffer, buffer + start, n)
    method MoveDown(start: nat, n: nat)
      requires Valid() && start + n <= buffer.Length
      modifies buffer
      ensures buffer[..n] == old(buffer[start..start + n])
    {
      for i := 0 to n
        invariant forall j :: 0 <= j < i ==> buffer[j] == old(buffer[start + j])
        invariant forall j :: i <= j < buffer.Length ==> buffer[j] == old(buffer[j])
      {
        buffer[i] := buffer[start + i];
      }
      assert forall j :: 0 <= j < n ==> buffer[..n][j] == old(buffer[start..start + n])[j];
    }

    // What recv is asked for: never nothing, so a zero answer is the end of the stream.
    function Requested(): (n: int)
      requires Valid() && len < MAX_MESSAGE_SIZE - 1
      reads this, buffer
      ensures 1 <= n && len + n == MAX_MESSAGE_SIZE - 1
    {
      MAX_MESSAGE_SIZE - len - 1
    }

    // recv stores the chunk behind what is kept, and the contents are terminated.
    method Store(chunk: seq<Byte>)
      requires Valid() && len + |chunk| <= MAX_MESSAGE_SIZE - 1
      modifies this`len, buffer
      ensures Valid() && len == old(len) + |chunk|
      ensures buffer[..len] == old(buffer[..len]) + chunk && buffer[len] == NUL
    {
      for i := 0 to |chunk|
        invariant Valid() && len == old(len)
        invariant forall j :: 0 <= j < len ==> buffer[j] == old(buffer[j])
        invariant forall j :: 0 <= j < i ==> buffer[len + j] == chunk[j]
      {
        buffer[len + i] := chunk[i];
      }
      len := len + |chunk|;
      buffer[len] := NUL;
    }

    // One turn of the strchr loop: cut at the newline, deliver unless empty.
    method TakeLine(lineStart: nat, newline: nat, ghost rest: seq<Byte>)
      requires Valid() && lineStart <= newline < len && buffer[lineStart..len] == rest
      modifies this`delivered, buffer
      ensures buffer[newline + 1..len] == rest[newline - lineStart + 1..] && buffer[len] == old(buffer[len])
      ensures var k := newline - lineStart; delivered == old(delivered) + if k > 0 then [rest[..k]] else []
    {
      assert buffer[lineStart..newline] == rest[..newline - lineStart];
      if newline > lineStart {
        delivered := delivered + [buffer[lineStart..newline]];
      }
      buffer[newline] := NUL;
    }

    // The loop body: take one line, then look for the next newline.
    method NextLine(lineStart: nat, newline: int, ghost rest: seq<Byte>)
      returns (next: nat, newline': int, ghost rest': seq<Byte>)
      requires Valid() && lineStart <= len && buffer[len] == NUL && buffer[lineStart..len] == rest
      requires HasLine(rest) && newline == lineStart + Stop(rest)
      modifies this`delivered, buffer
      ensures lineStart < next <= len && buffer[len] == NUL && buffer[next..len] == rest'
      ensures newline' == if HasLine(rest') then next + Stop(rest') else -1
      ensures delivered + Messages(rest') == old(delivered) + Messages(rest) && Tail(rest') == Tail(rest)
    {
      OneLine(delivered, rest);
      TakeLine(lineStart, newline, rest);
      rest' := rest[newline - lineStart + 1..];
      next := newline + 1;
      newline' := FindNewline(next);
    }

    // The strchr loop: delivers every complete line and returns where the last one ends.
    method ScanLines() returns (lineStart: nat)
      requires Valid() && buffer[len] == NUL
      modifies this`delivered, buffer
      ensures lineStart <= len && buffer[len] == NUL
      ensures buffer[lineStart..len] == Tail(old(buffer[..len]))
      ensures delivered == old(delivered) + Messages(old(buffer[..len]))
    {
      ghost var all, rest := buffer[..len], buffer[..len];
      lineStart := 0;
      assert buffer[lineStart..len] == rest;
      var newline := FindNewline(lineStart);
      while newline != -1
        invariant lineStart <= len && buffer[len] == NUL
        invariant buffer[lineStart..len] == rest
        invariant newline == if HasLine(rest) then lineStart + Stop(rest) else -1
        invariant delivered + Messages(rest) == old(delivered) + Messages(all)
        invariant Tail(rest) == Tail(all)
        decreases len - lineStart
      {
        lineStart, newline, rest := NextLine(lineStart, newline, rest);
      }
    }

    // The strchr loop and the memmove, shared by both readers.
    method DeliverLines()
      requires Valid() && buffer[len] == NUL
      modifies this`len, this`delivered, buffer
      ensures Valid() && buffer[len] == NUL
      ensures buffer[..len] == Tail(old(buffer[..len]))
      ensures delivered == old(delivered) + Messages(old(buffer[..len]))
    {
      var lineStart := ScanLines();
      var remaining := len - lineStart;
      MoveDown(lineStart, remaining);
      len := remaining;
      buffer[len] := NUL;
    }

    // One successful recv of handle_client_read.
    method HandleClientRead(chunk: seq<Byte>)
      requires Valid() && !closed && len < MAX_MESSAGE_SIZE - 1 && |chunk| <= Requested()
      modifies this, buffer
      ensures Valid() && View() == Take(old(View()), chunk)
      ensures closed || len < MAX_MESSAGE_SIZE - 1
    {
      Store(chunk);
      DeliverLines();
      if len >= MAX_MESSAGE_SIZE - 1 {
        closed := true;
      }
    }

    // One successful recv of client_process_messages.
    method ClientProcessMessages(chunk: seq<Byte>)
      requires Valid() && !closed
      requires |chunk| <= if len < MAX_MESSAGE_SIZE - 1 then MAX_MESSAGE_SIZE - len - 1 else MAX_MESSAGE_SIZE - 1
      modifies this, buffer
      ensures Valid() && View() == ClientTake(old(View()), chunk)
    {
      var capacity := MAX_MESSAGE_SIZE - len - 1;
      if capacity <= 0 {
        len := 0;
        capacity := MAX_MESSAGE_SIZE - 1;
      }
      Store(chunk);
      DeliverLines();
    }
  }
}
