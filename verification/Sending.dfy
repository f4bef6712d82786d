// The sending sides: client_send and handle_client_write (server/src/server.c),
// and client_send_json (client/lib/client.c).
module Sending {
  import opened Framing
  import opened Sequences

  // One more message on the wire.
  lemma {:induction false} JoinedGrows(lines: seq<seq<Byte>>, line: seq<Byte>)
    ensures Joined(lines + [line]) == Joined(lines) + line + [NL]
  {
    if lines == [] {
      assert [] + [line] == [line] && [line][1..] == [];
    } else {
      assert (lines + [line])[1..] == lines[1..] + [line];
      JoinedGrows(lines[1..], line);
    }
  }

  // What one side sends is what the other delivers: the reader finds every message but
  // the empty ones, in order, and keeps nothing.
  lemma SentIsDelivered(lines: seq<seq<Byte>>)
    requires forall l :: l in lines ==> Plain(l)
    ensures Messages(Joined(lines)) == NonEmpty(lines) && Tail(Joined(lines)) == []
  {
    SplitOfJoined(lines, []);
    assert Joined(lines) + [] == Joined(lines);
  }

  // Bytes that go from what waits to what was sent.
  lemma Moved(sent: seq<Byte>, waiting: seq<Byte>, n: nat)
    requires n <= |waiting|
    ensures sent + waiting[..n] + waiting[n..] == sent + waiting
  {
    assert waiting == waiting[..n] + waiting[n..];
    Associates(sent, waiting[..n], waiting[n..]);
  }

  class SendBuffer {
    const buffer: array<Byte>
    var len: nat
    var offset: nat
    ghost var accepted: seq<seq<Byte>>
    ghost var sent: seq<Byte>

    // What the kernel took, then what waits in the buffer, is what was accepted.
    ghost predicate Valid()
      reads this, buffer
    {
      && buffer.Length == MAX_MESSAGE_SIZE
      && offset <= len <= MAX_MESSAGE_SIZE - 2
      && sent + buffer[offset..len] == Joined(accepted)
    }

    constructor ()
      ensures Valid() && accepted == [] && sent == [] && fresh(buffer)
    {
      buffer := new Byte[MAX_MESSAGE_SIZE](_ => NUL);
      len, offset, accepted, sent := 0, 0, [], [];
    }

    method ClientSend(json: seq<Byte>) returns (ok: bool)
      requires Valid()
      modifies this, buffer
      ensures Valid() && sent == old(sent)
      ensures ok <==> old(len) + |json| < MAX_MESSAGE_SIZE - 2
      ensures accepted == old(accepted) + if ok then [json] else []
    {
      if |json| >= MAX_MESSAGE_SIZE - len - 2 {
        return false;
      }
      Append(json);
      Append([NL]);
      buffer[len] := NUL;
      JoinedGrows(accepted, json);
      accepted := accepted + [json];
      return true;
    }

    // memcpy behind what is already there.
    method Append(bytes: seq<Byte>)
      requires buffer.Length == MAX_MESSAGE_SIZE && offset <= len && len + |bytes| < MAX_MESSAGE_SIZE
      modifies this`len, buffer
      ensures len == old(len) + |bytes| && buffer[offset..len] == old(buffer[offset..len]) + bytes
    {
      for i := 0 to |bytes|
        invariant len == old(len)
        invariant forall j :: offset <= j < len ==> buffer[j] == old(buffer[j])
        invariant forall j :: 0 <= j < i ==> buffer[len + j] == bytes[j]
      {
        buffer[len + i] := bytes[i];
      }
      len := len + |bytes|;
    }

    // One send: the kernel takes n of the waiting bytes.
    method SendOnce(n: nat)
      requires Valid() && n <= len - offset
      modifies this`sent, this`offset
      ensures Valid() && offset == old(offset) + n && old(sent) <= sent
    {
      ghost var waiting := buffer[offset..len];
      Moved(sent, waiting, n);
      sent := sent + buffer[offset..offset + n];
      offset := offset + n;
      assert sent == old(sent) + waiting[..n] && buffer[offset..len] == waiting[n..];
    }

    // The kernel takes takes[k] bytes in the k-th send; the list ends where send would block.
    method HandleClientWrite(takes: seq<nat>)
      requires Valid()
      modifies this
      ensures Valid() && accepted == old(accepted) && old(sent) <= sent
      ensures len == 0 <==> sent == Joined(accepted)
    {
      var k := 0;
      while len > offset && k < |takes|
        invariant Valid() && accepted == old(accepted) && len == old(len) && old(sent) <= sent
      {
        SendOnce(if takes[k] <= len - offset then takes[k] else len - offset);
        k := k + 1;
      }
      if offset >= len {
        len := 0;
        offset := 0;
      }
    }
  }

  datatype Attempt = Took(n: nat) | Again | Failed

  datatype SendResult = SentOk | GaveUp | Disconnected

  // How often send would have blocked, and how many bytes it was ready to take.
  function Agains(attempts: seq<Attempt>): nat {
    if attempts == [] then 0 else Agains(attempts[..|attempts| - 1]) + if attempts[|attempts| - 1].Again? then 1 else 0
  }

  function Takes(attempts: seq<Attempt>): nat {
    if attempts == [] then 0
    else
      var last := attempts[|attempts| - 1];
      Takes(attempts[..|attempts| - 1]) + if last.Took? then last.n else 0
  }

  lemma {:induction false} NeverLess(attempts: seq<Attempt>, k: nat)
    requires k <= |attempts|
    ensures Agains(attempts[..k]) <= Agains(attempts) && Takes(attempts[..k]) <= Takes(attempts)
  {
    if k == |attempts| {
      assert attempts[..k] == attempts;
    } else {
      NeverLess(attempts[..|attempts| - 1], k);
      assert attempts[..|attempts| - 1][..k] == attempts[..k];
    }
  }

  // client_send_json: sends json and a newline, in pieces; gives up after 100 retries
  // but stays connected.  attempts says what each send call returns; after it the
  // socket fails, which ends the connection.
  method ClientSendJson(json: seq<Byte>, attempts: seq<Attempt>) returns (r: SendResult, sent: seq<Byte>)
    ensures sent <= json + [NL]
    ensures r == SentOk <==> sent == json + [NL]
    ensures r == GaveUp ==> Agains(attempts) >= 100
    ensures Agains(attempts) < 100 && Failed !in attempts && Takes(attempts) > |json| ==> r == SentOk
  {
    var buffer := json + [NL];
    var total, retries, k := 0, 0, 0;
    sent := [];
    while total < |buffer| && retries < 100
      invariant total <= |buffer| && sent == buffer[..total] && k <= |attempts|
      invariant retries == Agains(attempts[..k])
      invariant total == if Takes(attempts[..k]) <= |buffer| then Takes(attempts[..k]) else |buffer|
      decreases |attempts| - k
    {
      assert k < |attempts| ==> attempts[..k + 1][..k] == attempts[..k];
      assert attempts[..|attempts|] == attempts;
      match if k < |attempts| then attempts[k] else Failed {
        case Again =>
          retries := retries + 1;
        case Failed =>
          return Disconnected, sent;
        case Took(n) =>
          total := if n <= |buffer| - total then total + n else |buffer|;
          sent := buffer[..total];
      }
      k := k + 1;
    }
    NeverLess(attempts, k);
    r := if total < |buffer| then GaveUp else SentOk;
  }

  // ----- Many calls on one connection -----

  // One call of client_send_json and the bytes it got out.
  datatype Call = Call(json: seq<Byte>, sent: seq<Byte>) {
    predicate Ok() {
      sent == json + [NL]
    }
  }

  // Calls as client_send_json makes them, for messages of one line.
  predicate Proper(calls: seq<Call>) {
    forall c :: c in calls ==> Plain(c.json) && c.sent <= c.json + [NL]
  }

  function Stream(calls: seq<Call>): seq<Byte> {
    if calls == [] then [] else calls[0].sent + Stream(calls[1..])
  }

  // The messages whose call succeeded.
  function Succeeded(calls: seq<Call>): seq<seq<Byte>> {
    if calls == [] then [] else (if calls[0].Ok() then [calls[0].json] else []) + Succeeded(calls[1..])
  }

  // The lines the stream really has, behind half a line `carry`: what a failed call got
  // out is glued to the front of the next message.
  function Lines(carry: seq<Byte>, calls: seq<Call>): seq<seq<Byte>>
    decreases |calls|
  {
    if calls == [] then []
    else if calls[0].Ok() then [carry + calls[0].json] + Lines([], calls[1..])
    else Lines(carry + calls[0].sent, calls[1..])
  }

  function Left(carry: seq<Byte>, calls: seq<Call>): seq<Byte>
    decreases |calls|
  {
    if calls == [] then carry
    else if calls[0].Ok() then Left([], calls[1..])
    else Left(carry + calls[0].sent, calls[1..])
  }

  // A failed call never gets its newline out.
  lemma HalfIsPlain(c: Call)
    requires Plain(c.json) && c.sent <= c.json + [NL] && !c.Ok()
    ensures Plain(c.sent) && c.sent <= c.json
  {
    assert c.sent < c.json + [NL];
    assert c.sent == c.json[..|c.sent|];
  }

  lemma {:induction false} StreamIsLines(carry: seq<Byte>, calls: seq<Call>)
    requires Plain(carry) && Proper(calls)
    ensures (forall l :: l in Lines(carry, calls) ==> Plain(l)) && Plain(Left(carry, calls))
    ensures carry + Stream(calls) == Joined(Lines(carry, calls)) + Left(carry, calls)
    decreases |calls|
  {
    if calls == [] {
      assert carry + [] == [] + carry;
    } else {
      var c := calls[0];
      assert c in calls && forall d :: d in calls[1..] ==> d in calls;
      if c.Ok() {
        StreamIsLines([], calls[1..]);
        GlueOk(carry, c, Stream(calls[1..]), Lines([], calls[1..]), Left([], calls[1..]));
      } else {
        HalfIsPlain(c);
        StreamIsLines(carry + c.sent, calls[1..]);
        Associates(carry, c.sent, Stream(calls[1..]));
      }
    }
  }

  lemma GlueOk(carry: seq<Byte>, c: Call, rest: seq<Byte>, lines: seq<seq<Byte>>, left: seq<Byte>)
    requires c.Ok() && [] + rest == Joined(lines) + left
    ensures carry + (c.sent + rest) == Joined([carry + c.json] + lines) + left
  {
    assert ([carry + c.json] + lines)[1..] == lines;
    assert rest == Joined(lines) + left;
    assert carry + (c.json + [NL] + rest) == carry + c.json + [NL] + Joined(lines) + left;
  }

  // No success after a failure that got something out.
  predicate Clean(calls: seq<Call>) {
    forall i, j :: 0 <= i < j < |calls| && !calls[i].Ok() && calls[i].sent != [] ==> !calls[j].Ok()
  }

  function Total(lines: seq<seq<Byte>>): nat {
    if lines == [] then 0 else |lines[0]| + Total(lines[1..])
  }

  lemma {:induction false} EmptyCostsNothing(lines: seq<seq<Byte>>)
    ensures Total(NonEmpty(lines)) == Total(lines)
  {
    if lines != [] {
      EmptyCostsNothing(lines[1..]);
      if lines[0] != [] {
        assert NonEmpty(lines)[1..] == NonEmpty(lines[1..]);
      } else {
        assert NonEmpty(lines) == NonEmpty(lines[1..]);
      }
    }
  }

  // Gluing only ever adds bytes, and adds some as soon as it happens.
  lemma {:induction false} GlueAdds(carry: seq<Byte>, calls: seq<Call>)
    ensures Total(Lines(carry, calls)) >= Total(Succeeded(calls))
    ensures carry != [] && (exists j :: 0 <= j < |calls| && calls[j].Ok()) ==>
              Total(Lines(carry, calls)) > Total(Succeeded(calls))
    decreases |calls|
  {
    if calls != [] {
      var rest := calls[1..];
      if calls[0].Ok() {
        GlueAdds([], rest);
        assert Succeeded(calls)[1..] == Succeeded(rest) && Lines(carry, calls)[1..] == Lines([], rest);
      } else {
        GlueAdds(carry + calls[0].sent, rest);
        assert Succeeded(calls) == Succeeded(rest);
        assert forall j :: 0 < j < |calls| ==> calls[j] == rest[j - 1];
      }
    }
  }

  lemma {:induction false} CleanIsNotGlued(calls: seq<Call>)
    requires Clean(calls)
    ensures Lines([], calls) == Succeeded(calls)
  {
    if calls != [] {
      var rest := calls[1..];
      assert forall j :: 0 < j < |calls| ==> calls[j] == rest[j - 1];
      assert Clean(rest) by {
        forall i, j | 0 <= i < j < |rest| && !rest[i].Ok() && rest[i].sent != [] ensures !rest[j].Ok() {
          assert rest[i] == calls[i + 1] && rest[j] == calls[j + 1];
        }
      }
      if calls[0].Ok() || calls[0].sent == [] {
        CleanIsNotGlued(rest);
        assert [] + calls[0].sent == calls[0].sent && [] + calls[0].json == calls[0].json;
      } else {
        NoneSucceeds([] + calls[0].sent, rest);
      }
    }
  }

  lemma {:induction false} NoneSucceeds(carry: seq<Byte>, calls: seq<Call>)
    requires forall j :: 0 <= j < |calls| ==> !calls[j].Ok()
    ensures Lines(carry, calls) == Succeeded(calls) == []
    decreases |calls|
  {
    if calls != [] {
      assert !calls[0].Ok();
      NoneSucceeds(carry + calls[0].sent, calls[1..]);
    }
  }

  lemma {:induction false} DirtyIsGlued(calls: seq<Call>)
    requires !Clean(calls)
    ensures Total(Lines([], calls)) > Total(Succeeded(calls))
  {
    var i, j :| 0 <= i < j < |calls| && !calls[i].Ok() && calls[i].sent != [] && calls[j].Ok();
    var rest := calls[1..];
    if calls[0].Ok() || calls[0].sent == [] {
      assert rest[i - 1] == calls[i] && rest[j - 1] == calls[j];
      DirtyIsGlued(rest);
      assert [] + calls[0].sent == calls[0].sent;
      if calls[0].Ok() {
        assert Succeeded(calls)[1..] == Succeeded(rest) && Lines([], calls)[1..] == Lines([], rest);
      } else {
        assert Succeeded(calls) == Succeeded(rest);
      }
    } else {
      assert rest[j - 1] == calls[j];
      GlueAdds([] + calls[0].sent, rest);
      assert Succeeded(calls) == Succeeded(rest);
    }
  }

  // The server is delivered exactly the messages whose call succeeded if and only if no
  // call succeeds after one that failed half-way on the same connection.
  lemma DeliveredAsReportedExactly(calls: seq<Call>)
    requires Proper(calls)
    ensures Messages(Stream(calls)) == NonEmpty(Succeeded(calls)) <==> Clean(calls)
  {
    StreamIsLines([], calls);
    assert [] + Stream(calls) == Stream(calls);
    SplitOfJoined(Lines([], calls), Left([], calls));
    if Clean(calls) {
      CleanIsNotGlued(calls);
    } else {
      DirtyIsGlued(calls);
      EmptyCostsNothing(Lines([], calls));
      EmptyCostsNothing(Succeeded(calls));
    }
  }
}
