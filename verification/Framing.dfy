/** Length-framed messages over a byte stream, networking/10_socket_patterns.cpp: a 4-byte
    big-endian length and then that many bytes. The operating system moves any positive number of
    bytes up to the request at each call, or fails. */
module Framing {
  import opened Options

  type byte = x: int | 0 <= x < 256

  const LIMIT := 1048576           // 1 << 20, the longest frame a receiver accepts
  const LENGTHS := 4294967296      // a length is a uint32_t

  // ---- the format ----

  function Pow256(k: nat): (r: nat)
    ensures r > 0
  {
    if k == 0 then 1 else 256 * Pow256(k - 1)
  }

  /** The k bytes of n in memory, most significant first: htonl. */
  function Big(n: nat, k: nat): (b: seq<byte>)
    ensures |b| == k
  {
    if k == 0 then [] else Big(n / 256, k - 1) + [n % 256]
  }

  /** And back: ntohl. */
  function Length(b: seq<byte>): (n: nat)
    ensures n < Pow256(|b|)
  {
    if b == [] then 0 else Length(b[..|b| - 1]) * 256 + b[|b| - 1]
  }

  lemma {:induction false} LengthOfBig(n: nat, k: nat)
    requires n < Pow256(k)
    ensures Length(Big(n, k)) == n
  {
    if k > 0 {
      LengthOfBig(n / 256, k - 1);
      assert Big(n, k)[..k - 1] == Big(n / 256, k - 1);
    }
  }

  lemma {:induction false} BigOfLength(b: seq<byte>)
    ensures Big(Length(b), |b|) == b
  {
    if b != [] {
      var front := b[..|b| - 1];
      BigOfLength(front);
      assert Length(b) / 256 == Length(front);
      assert b == front + [b[|b| - 1]];
    }
  }

  /** The four bytes on the wire: the length in base 256, most significant byte first. */
  lemma HeaderBytes(n: nat)
    requires n < LENGTHS
    ensures Big(n, 4) == [n / 16777216, n / 65536 % 256, n / 256 % 256, n % 256]
  {
    BigSplits(n, 3);
    BigSplits(n / 256, 2);
    BigSplits(n / 65536, 1);
    BigSplits(n / 16777216, 0);
  }

  lemma BigSplits(n: nat, k: nat)
    ensures Big(n, k + 1) == Big(n / 256, k) + [n % 256]
  {
  }

  /** And what a receiver makes of any four bytes. */
  lemma HeaderLength(a: byte, b: byte, c: byte, d: byte)
    ensures Length([a, b, c, d]) == a * 16777216 + b * 65536 + c * 256 + d
  {
    LengthSplits([a, b, c], d);
    LengthSplits([a, b], c);
    LengthSplits([a], b);
    LengthSplits([], a);
    assert [a, b, c, d] == [a, b, c] + [d] && [a, b, c] == [a, b] + [c];
    assert [a, b] == [a] + [b] && [a] == [] + [a];
  }

  lemma LengthSplits(front: seq<byte>, d: byte)
    ensures Length(front + [d]) == Length(front) * 256 + d
  {
    assert (front + [d])[..|front|] == front;
  }

  function Encode(p: seq<byte>): seq<byte>
    requires |p| < LENGTHS
  {
    Big(|p|, 4) + p
  }

  /** The first frame of a stream, if the receiver accepts one there, and what follows it. */
  function Parse(b: seq<byte>): Option<(seq<byte>, seq<byte>)> {
    if |b| < 4 then None else
    var n := Length(b[..4]);
    if n == 0 || n > LIMIT || |b| - 4 < n then None else Some((b[4..4 + n], b[4 + n..]))
  }

  /** A length that the receiver refuses, having read only that. */
  predicate Refused(b: seq<byte>) {
    |b| >= 4 && (Length(b[..4]) == 0 || Length(b[..4]) > LIMIT)
  }

  predicate Legal(p: seq<byte>) { 1 <= |p| <= LIMIT }

  /** What one side sends, the other receives, exactly when the length is within bounds; the sender
      checks nothing. */
  lemma ReceivedIffLegal(p: seq<byte>, rest: seq<byte>)
    requires |p| < LENGTHS
    ensures Parse(Encode(p) + rest) == if Legal(p) then Some((p, rest)) else None
  {
    var b := Encode(p) + rest;
    assert b[..4] == Big(|p|, 4);
    LengthOfBig(|p|, 4);
    assert |b| >= 4 + |p|;
    assert b[4..4 + |p|] == p;
    assert b[4 + |p|..] == rest;
  }

  lemma EncodedFrom(h: seq<byte>, p: seq<byte>)
    requires |h| == 4 && Length(h) == |p| < LENGTHS
    ensures Encode(p) == h + p
  {
    BigOfLength(h);
  }

  /** No other bytes are taken for a frame. */
  lemma ParsedWasEncoded(b: seq<byte>)
    ensures Parse(b).Some? ==> Legal(Parse(b).value.0) && b == Encode(Parse(b).value.0) + Parse(b).value.1
  {
    if Parse(b).Some? {
      var n := Length(b[..4]);
      EncodedFrom(b[..4], b[4..4 + n]);
    }
  }

  // ---- whole streams ----

  predicate AllLegal(ps: seq<seq<byte>>) { forall i :: 0 <= i < |ps| ==> Legal(ps[i]) }

  function EncodeAll(ps: seq<seq<byte>>): seq<byte>
    requires AllLegal(ps)
  {
    if ps == [] then [] else Encode(ps[0]) + EncodeAll(ps[1..])
  }

  lemma Associates(a: seq<byte>, b: seq<byte>, c: seq<byte>)
    ensures (a + b) + c == a + (b + c)
  {
  }

  lemma {:induction false} EncodeAllGrows(ps: seq<seq<byte>>, p: seq<byte>)
    requires AllLegal(ps) && Legal(p)
    ensures EncodeAll(ps + [p]) == EncodeAll(ps) + Encode(p)
  {
    if ps == [] {
      assert ps + [p] == [p] && [p][1..] == [];
    } else {
      var first, rest := Encode(ps[0]), ps[1..];
      assert (ps + [p])[0] == ps[0] && (ps + [p])[1..] == rest + [p];
      calc {
        EncodeAll(ps + [p]);
        first + EncodeAll(rest + [p]);
        { EncodeAllGrows(rest, p); }
        first + (EncodeAll(rest) + Encode(p));
        { Associates(first, EncodeAll(rest), Encode(p)); }
        EncodeAll(ps) + Encode(p);
      }
    }
  }

  /** The frames of a stream, and the bytes where no further frame can be read. */
  function Frames(b: seq<byte>): (r: (seq<seq<byte>>, seq<byte>))
    decreases |b|
  {
    match Parse(b)
    case None => ([], b)
    case Some((p, rest)) => var (ps, tail) := Frames(rest); ([p] + ps, tail)
  }

  /** Frames splits a stream into encoded payloads and a tail at which no frame starts. */
  lemma {:induction false} FramesSplit(b: seq<byte>)
    ensures AllLegal(Frames(b).0)
    ensures b == EncodeAll(Frames(b).0) + Frames(b).1
    ensures Parse(Frames(b).1) == None
    decreases |b|
  {
    ParsedWasEncoded(b);
    if Parse(b).Some? {
      FramesSplit(Parse(b).value.1);
      var (p, rest) := Parse(b).value;
      assert Frames(b).0 == [p] + Frames(rest).0;
      assert Frames(b).0[1..] == Frames(rest).0;
    }
  }

  /** It is the longest such split: however the stream is cut into payloads and a tail, those
      payloads are the first ones found, and the rest are found in the tail. */
  lemma {:induction false} FramesAreLongest(b: seq<byte>, ps: seq<seq<byte>>, tail: seq<byte>)
    requires AllLegal(ps) && b == EncodeAll(ps) + tail
    ensures Frames(b) == (ps + Frames(tail).0, Frames(tail).1)
    decreases |ps|
  {
    if ps == [] {
      assert b == tail && ps + Frames(tail).0 == Frames(tail).0;
    } else {
      var rest := EncodeAll(ps[1..]) + tail;
      assert Parse(b) == Some((ps[0], rest)) by {
        assert b == Encode(ps[0]) + rest;
        ReceivedIffLegal(ps[0], rest);
      }
      FramesAreLongest(rest, ps[1..], tail);
      assert ps + Frames(tail).0 == [ps[0]] + (ps[1..] + Frames(tail).0);
    }
  }

  // ---- what a run of send calls puts on the wire ----

  /** How many bytes were accepted, and which call comes next. */
  datatype Sending = Sending(sent: nat, next: nat)

  /** The send loop for len bytes, from call i on, when call j is answered with answer(j): a failure,
      or a number of bytes. */
  function Sends(answer: nat -> int, i: nat, len: nat): (r: Sending)
    ensures r.sent <= len && r.next >= i
    decreases len
  {
    if len == 0 then Sending(0, i)
    else if answer(i) <= 0 then Sending(0, i + 1)
    else
      var k := if answer(i) < len then answer(i) else len;
      var r := Sends(answer, i + 1, len - k);
      Sending(k + r.sent, r.next)
  }

  ghost predicate AllAccepted(answer: nat -> int, i: nat, j: nat) {
    forall c :: i <= c < j ==> answer(c) > 0
  }

  /** Everything is sent if and only if no call failed. */
  lemma {:induction false} SendsAllIff(answer: nat -> int, i: nat, len: nat)
    ensures Sends(answer, i, len).sent == len <==> AllAccepted(answer, i, Sends(answer, i, len).next)
    decreases len
  {
    if len > 0 {
      if answer(i) > 0 {
        SendsAllIff(answer, i + 1, len - (if answer(i) < len then answer(i) else len));
      } else {
        assert i < Sends(answer, i, len).next;
      }
    }
  }

  /** send_frame: the length, and only then the payload. */
  function FrameSends(answer: nat -> int, i: nat, p: seq<byte>): (r: Sending)
    ensures r.sent <= 4 + |p| && r.next >= i
  {
    var header := Sends(answer, i, 4);
    if header.sent < 4 then header else
    var body := Sends(answer, header.next, |p|);
    Sending(4 + body.sent, body.next)
  }

  lemma FrameSendsAllIff(answer: nat -> int, i: nat, p: seq<byte>)
    ensures FrameSends(answer, i, p).sent == 4 + |p| <==> AllAccepted(answer, i, FrameSends(answer, i, p).next)
  {
    SendsAllIff(answer, i, 4);
    var mid := Sends(answer, i, 4).next;
    SendsAllIff(answer, mid, |p|);
  }

  /** What send_frame for each of these leaves on the wire when nobody looks at its result. */
  function Replies(answer: nat -> int, i: nat, ps: seq<seq<byte>>): seq<byte>
    requires AllLegal(ps)
    decreases |ps|
  {
    if ps == [] then [] else
    var front, p := ps[..|ps| - 1], ps[|ps| - 1];
    Replies(answer, i, front) + Encode(p)[..FrameSends(answer, RepliesEnd(answer, i, front), p).sent]
  }

  function RepliesEnd(answer: nat -> int, i: nat, ps: seq<seq<byte>>): (j: nat)
    ensures j >= i
    decreases |ps|
  {
    if ps == [] then i else FrameSends(answer, RepliesEnd(answer, i, ps[..|ps| - 1]), ps[|ps| - 1]).next
  }

  lemma RepliesGrow(answer: nat -> int, i: nat, ps: seq<seq<byte>>, p: seq<byte>)
    requires AllLegal(ps) && Legal(p)
    ensures var r := FrameSends(answer, RepliesEnd(answer, i, ps), p);
            && Replies(answer, i, ps + [p]) == Replies(answer, i, ps) + Encode(p)[..r.sent]
            && RepliesEnd(answer, i, ps + [p]) == r.next
  {
    assert (ps + [p])[..|ps|] == ps;
  }

  lemma {:induction false} RepliesLength(answer: nat -> int, i: nat, ps: seq<seq<byte>>)
    requires AllLegal(ps)
    ensures |Replies(answer, i, ps)| <= |EncodeAll(ps)|
    ensures |Replies(answer, i, ps)| == |EncodeAll(ps)| <==> AllAccepted(answer, i, RepliesEnd(answer, i, ps))
    decreases |ps|
  {
    if ps != [] {
      var front, p := ps[..|ps| - 1], ps[|ps| - 1];
      var j := RepliesEnd(answer, i, front);
      RepliesLength(answer, i, front);
      FrameSendsAllIff(answer, j, p);
      assert ps == front + [p];
      EncodeAllGrows(front, p);
    }
  }

  lemma {:induction false} RepliesWhole(answer: nat -> int, i: nat, ps: seq<seq<byte>>)
    requires AllLegal(ps) && AllAccepted(answer, i, RepliesEnd(answer, i, ps))
    ensures Replies(answer, i, ps) == EncodeAll(ps)
    decreases |ps|
  {
    if ps != [] {
      var front, p := ps[..|ps| - 1], ps[|ps| - 1];
      var j := RepliesEnd(answer, i, front);
      FrameSendsAllIff(answer, j, p);
      RepliesWhole(answer, i, front);
      assert Encode(p)[..|Encode(p)|] == Encode(p);
      assert ps == front + [p];
      EncodeAllGrows(front, p);
    }
  }

  /** The wire holds the encoding if and only if the operating system refused none of the calls. */
  lemma RepliesIff(answer: nat -> int, i: nat, ps: seq<seq<byte>>)
    requires AllLegal(ps)
    ensures Replies(answer, i, ps) == EncodeAll(ps) <==> AllAccepted(answer, i, RepliesEnd(answer, i, ps))
  {
    RepliesLength(answer, i, ps);
    if AllAccepted(answer, i, RepliesEnd(answer, i, ps)) { RepliesWhole(answer, i, ps); }
  }

  /** The second of all send calls fails. */
  function FailsOnce(): nat -> int { (i: nat) => if i == 1 then 0 else 4 }

  lemma OneReply(answer: nat -> int, a: seq<byte>)
    requires Legal(a)
    ensures var r := FrameSends(answer, 0, a);
            Replies(answer, 0, [a]) == Encode(a)[..r.sent] && RepliesEnd(answer, 0, [a]) == r.next
  {
    RepliesGrow(answer, 0, [], a);
    assert [] + [a] == [a];
  }

  lemma TwoReplies(answer: nat -> int, a: seq<byte>, b: seq<byte>)
    requires Legal(a) && Legal(b)
    ensures var r := FrameSends(answer, 0, a);
            Replies(answer, 0, [a, b]) == Encode(a)[..r.sent] + Encode(b)[..FrameSends(answer, r.next, b).sent]
  {
    OneReply(answer, a);
    RepliesGrow(answer, 0, [a], b);
    assert [a] + [b] == [a, b];
  }

  lemma OneByteReplies(p: seq<byte>)
    requires |p| == 1
    ensures FrameSends(FailsOnce(), 0, p) == Sending(4, 2) && FrameSends(FailsOnce(), 2, p) == Sending(5, 4)
  {
    var f := FailsOnce();
    assert Sends(f, 0, 4) == Sending(4 + Sends(f, 1, 0).sent, Sends(f, 1, 0).next);
    assert Sends(f, 2, 4) == Sending(4 + Sends(f, 3, 0).sent, Sends(f, 3, 0).next);
    assert Sends(f, 3, 1) == Sending(1 + Sends(f, 4, 0).sent, Sends(f, 4, 0).next);
  }

  lemma OneInFourBytes()
    ensures Big(1, 4) == [0, 0, 0, 1]
  {
    assert Big(0, 1) == [0];
    assert Big(0, 2) == [0, 0];
    assert Big(0, 3) == [0, 0, 0];
  }

  lemma OneByteEncodings(p: seq<byte>)
    requires |p| == 1
    ensures Encode(p)[..4] == [0, 0, 0, 1] && Encode(p)[..5] == [0, 0, 0, 1] + p
  {
    OneInFourBytes();
  }

  /** An input at which the echo is not the encoding: two one-byte frames are read, one send call
      fails, the loop carries on, and the peer receives a 0 that nobody sent. */
  lemma EchoGarbles(a: seq<byte>, b: seq<byte>)
    requires |a| == 1 && |b| == 1
    ensures Parse(Replies(FailsOnce(), 0, [a, b])) == Some(([0], [0, 0, 1] + b))
  {
    TwoReplies(FailsOnce(), a, b);
    OneByteReplies(a);
    OneByteReplies(b);
    OneByteEncodings(a);
    OneByteEncodings(b);
    GarbledFrame([0, 0, 0, 1] + ([0, 0, 0, 1] + b), b);
  }

  lemma GarbledFrame(wire: seq<byte>, b: seq<byte>)
    requires |b| == 1 && wire == [0, 0, 0, 1] + ([0, 0, 0, 1] + b)
    ensures Parse(wire) == Some(([0], [0, 0, 1] + b))
  {
    OneByteEncodings([0]);
    assert Encode([0])[..5] == Encode([0]);
    assert wire == Encode([0]) + ([0, 0, 1] + b);
    ReceivedIffLegal([0], [0, 0, 1] + b);
  }

  lemma PrefixJoins(b: seq<byte>, i: nat, n: nat)
    requires i + n <= |b|
    ensures b[..i] + b[i..][..n] == b[..i + n]
  {
  }

  // ---- the socket ----

  class Socket {
    /** The operating system's answers to each send and to each recv call. */
    const onSend: nat -> int
    const onRecv: nat -> int
    var sends: nat
    var recvs: nat
    var inbox: seq<byte>     // bytes that will arrive before the peer closes
    var wire: seq<byte>      // bytes accepted for sending

    constructor (onSend: nat -> int, onRecv: nat -> int, inbox: seq<byte>)
      ensures this.onSend == onSend && this.onRecv == onRecv && this.inbox == inbox
      ensures sends == 0 && recvs == 0 && wire == []
    {
      this.onSend, this.onRecv, this.inbox := onSend, onRecv, inbox;
      sends, recvs, wire := 0, 0, [];
    }

    ghost predicate RecvsWork() { forall i: nat :: onRecv(i) > 0 }

    ghost predicate SendsWork() { forall i: nat :: onSend(i) > 0 }

    /** ::send: takes some prefix of the buffer, or fails. */
    method Send(p: seq<byte>) returns (n: int)
      requires p != []
      modifies this`sends, this`wire
      ensures sends == old(sends) + 1 && n == if onSend(old(sends)) < |p| then onSend(old(sends)) else |p|
      ensures wire == old(wire) + p[..if n > 0 then n else 0]
    {
      n := onSend(sends);
      sends := sends + 1;
      if n > |p| { n := |p|; }
      if n > 0 { wire := wire + p[..n]; }
    }

    /** ::recv: gives some bytes from the front, 0 at the end of the stream, or fails. */
    method Recv(rem: nat) returns (n: int, got: seq<byte>)
      requires rem > 0
      modifies this`recvs, this`inbox
      ensures n <= rem && |got| == (if n > 0 then n else 0) && old(inbox) == got + inbox
      ensures RecvsWork() && old(inbox) != [] ==> n > 0
    {
      n := onRecv(recvs);
      recvs := recvs + 1;
      if n > rem { n := rem; }
      if n > |inbox| { n := |inbox|; }
      got := inbox[..if n > 0 then n else 0];
      inbox := inbox[|got|..];
    }

    /** The send loop: the whole buffer, unless a call fails, and then a proper prefix. */
    method SendAll(buf: seq<byte>) returns (ok: bool)
      modifies this`sends, this`wire
      ensures var r := Sends(onSend, old(sends), |buf|);
              wire == old(wire) + buf[..r.sent] && sends == r.next && (ok <==> r.sent == |buf|)
    {
      var at := 0;
      ghost var all := Sends(onSend, sends, |buf|);
      while at < |buf|
        invariant at <= |buf| && wire == old(wire) + buf[..at]
        invariant var r := Sends(onSend, sends, |buf| - at); all.sent == at + r.sent && all.next == r.next
        decreases |buf| - at
      {
        var n := Send(buf[at..]);
        if n <= 0 { return false; }
        PrefixJoins(buf, at, n);
        at := at + n;
      }
      ok := true;
    }

    /** The receive loop: the whole request, unless the stream ends or a call fails. */
    method RecvAll(want: nat) returns (ok: bool, buf: seq<byte>)
      modifies this`recvs, this`inbox
      ensures |buf| <= want && old(inbox) == buf + inbox
      ensures ok <==> |buf| == want
      ensures RecvsWork() ==> (ok <==> |old(inbox)| >= want) && (!ok ==> inbox == [])
    {
      buf := [];
      while |buf| < want
        invariant |buf| <= want && old(inbox) == buf + inbox
        decreases want - |buf|
      {
        var n, got := Recv(want - |buf|);
        if n <= 0 { return false, buf; }
        buf := buf + got;
      }
      ok := true;
    }

    /** send_frame: the whole encoding if and only if no call failed, else a proper prefix. */
    method SendFrame(p: seq<byte>) returns (ok: bool)
      requires |p| < LENGTHS
      modifies this`sends, this`wire
      ensures var r := FrameSends(onSend, old(sends), p);
              && wire == old(wire) + Encode(p)[..r.sent] && sends == r.next && (ok <==> r.sent == |Encode(p)|)
      ensures ok <==> AllAccepted(onSend, old(sends), sends)
    {
      FrameSendsAllIff(onSend, sends, p);
      ghost var r := FrameSends(onSend, sends, p);
      ok := SendAll(Big(|p|, 4));
      if !ok {
        assert Encode(p)[..r.sent] == Big(|p|, 4)[..r.sent];
        return;
      }
      assert Big(|p|, 4)[..4] == Big(|p|, 4);
      ok := SendAll(p);
      assert Encode(p)[..r.sent] == Big(|p|, 4) + p[..r.sent - 4];
    }

    /** recv_frame: a message is the first frame of the stream, however it was cut up; without
        faults one is received if and only if there is one. */
    method RecvFrame() returns (msg: Option<seq<byte>>)
      modifies this`recvs, this`inbox
      ensures msg.Some? ==> Parse(old(inbox)) == Some((msg.value, inbox))
      ensures RecvsWork() ==> (msg.Some? <==> Parse(old(inbox)).Some?)
      ensures |inbox| <= |old(inbox)| && inbox == old(inbox)[|old(inbox)| - |inbox|..]
      ensures RecvsWork() && msg.None? ==>
                inbox == if Refused(old(inbox)) then old(inbox)[4..] else []
    {
      ghost var start := inbox;
      var ok, header := RecvAll(4);
      if !ok { return None; }
      assert start[..4] == header;
      assert start[4..] == inbox;
      var len := Length(header);
      if len == 0 || len > LIMIT { return None; }
      var all, body := RecvAll(len);
      assert start == header + body + inbox;
      if !all { return None; }
      assert start[4..4 + len] == body && start[4 + len..] == inbox;
      msg := Some(body);
    }
  }

  /** Since the wire was `before` and the next call was i, these payloads were sent. */
  ghost predicate Sent(answer: nat -> int, before: seq<byte>, i: nat, ps: seq<seq<byte>>, wire: seq<byte>, next: nat) {
    AllLegal(ps) && wire == before + Replies(answer, i, ps) && next == RepliesEnd(answer, i, ps)
  }

  lemma SentMore(answer: nat -> int, before: seq<byte>, i: nat, ps: seq<seq<byte>>, wire: seq<byte>, next: nat,
                 p: seq<byte>)
    requires Sent(answer, before, i, ps, wire, next) && Legal(p)
    ensures AllLegal(ps + [p])
    ensures var r := FrameSends(answer, next, p);
            Sent(answer, before, i, ps + [p], wire + Encode(p)[..r.sent], r.next)
  {
    RepliesGrow(answer, i, ps, p);
    Associates(before, Replies(answer, i, ps), Encode(p)[..FrameSends(answer, next, p).sent]);
  }

  /** One more payload, its result ignored. */
  method SendOne(s: Socket, p: seq<byte>, ghost before: seq<byte>, ghost i: nat, ghost ps: seq<seq<byte>>)
    requires Legal(p) && Sent(s.onSend, before, i, ps, s.wire, s.sends)
    modifies s`sends, s`wire
    ensures Sent(s.onSend, before, i, ps + [p], s.wire, s.sends)
  {
    SentMore(s.onSend, before, i, ps, s.wire, s.sends, p);
    var ok := s.SendFrame(p);
  }

  /** Sending a list of payloads and ignoring the results. */
  method SendFrames(s: Socket, ps: seq<seq<byte>>)
    requires AllLegal(ps)
    modifies s`sends, s`wire
    ensures Sent(s.onSend, old(s.wire), old(s.sends), ps, s.wire, s.sends)
  {
    for k := 0 to |ps|
      invariant Sent(s.onSend, old(s.wire), old(s.sends), ps[..k], s.wire, s.sends)
    {
      assert ps[..k + 1] == ps[..k] + [ps[k]];
      SendOne(s, ps[k], old(s.wire), old(s.sends), ps[..k]);
    }
    assert ps[..|ps|] == ps;
  }

  /** With a socket that never fails, that is their encoding. */
  method SendFramesWell(s: Socket, ps: seq<seq<byte>>)
    requires AllLegal(ps) && s.SendsWork() && s.wire == []
    modifies s`sends, s`wire
    ensures s.wire == EncodeAll(ps)
  {
    ghost var first := s.sends;
    SendFrames(s, ps);
    WholeIff(s.onSend, [], first, ps, s.wire, s.sends);
    assert [] + EncodeAll(ps) == EncodeAll(ps);
  }

  lemma NextFrame(ps: seq<seq<byte>>, i: nat, after: seq<byte>)
    requires AllLegal(ps) && i < |ps|
    ensures Parse(EncodeAll(ps[i..]) + after) == Some((ps[i], EncodeAll(ps[i + 1..]) + after))
  {
    var rest := EncodeAll(ps[i + 1..]) + after;
    assert ps[i..][1..] == ps[i + 1..];
    assert EncodeAll(ps[i..]) + after == Encode(ps[i]) + rest;
    ReceivedIffLegal(ps[i], rest);
  }

  /** The next of the frames that are on their way. */
  method RecvNext(s: Socket, ghost ps: seq<seq<byte>>, ghost i: nat, ghost after: seq<byte>) returns (p: seq<byte>)
    requires s.RecvsWork() && AllLegal(ps) && i < |ps| && s.inbox == EncodeAll(ps[i..]) + after
    modifies s`recvs, s`inbox
    ensures p == ps[i] && s.inbox == EncodeAll(ps[i + 1..]) + after
  {
    NextFrame(ps, i, after);
    var msg := s.RecvFrame();
    p := msg.value;
  }

  method RecvFrames(s: Socket, ghost ps: seq<seq<byte>>, k: nat, ghost after: seq<byte>) returns (got: seq<seq<byte>>)
    requires s.RecvsWork() && AllLegal(ps) && k == |ps| && s.inbox == EncodeAll(ps) + after
    modifies s`recvs, s`inbox
    ensures got == ps && s.inbox == after
  {
    got := [];
    assert ps[0..] == ps;
    for i := 0 to k
      invariant got == ps[..i] && s.inbox == EncodeAll(ps[i..]) + after
    {
      var p := RecvNext(s, ps, i, after);
      got := got + [p];
    }
    assert ps[k..] == [] && [] + after == after;
  }

  /** k sends and then k receives: the same payloads, however the bytes were cut up on either side,
      and the stream is left where the last frame ends. */
  method Transfer(sender: Socket, receiver: Socket, ps: seq<seq<byte>>, after: seq<byte>)
    returns (got: seq<seq<byte>>)
    requires sender != receiver && sender.SendsWork() && receiver.RecvsWork() && AllLegal(ps)
    requires sender.wire == [] && receiver.inbox == []
    modifies sender, receiver
    ensures got == ps && sender.wire == EncodeAll(ps) && receiver.inbox == after
  {
    SendFramesWell(sender, ps);
    receiver.inbox := sender.wire + after;
    got := RecvFrames(receiver, ps, |ps|, after);
  }

  /** Reading one frame of what is left. */
  lemma FramesMore(all: seq<seq<byte>>, got: seq<seq<byte>>, b: seq<byte>)
    requires all == got + Frames(b).0
    ensures Parse(b).None? ==> got == all
    ensures Parse(b).Some? ==> all == (got + [Parse(b).value.0]) + Frames(Parse(b).value.1).0
    ensures got <= all
  {
    if Parse(b).Some? {
      var (p, rest) := Parse(b).value;
      assert Frames(b).0 == [p] + Frames(rest).0;
      assert got + ([p] + Frames(rest).0) == (got + [p]) + Frames(rest).0;
    }
  }

  /** One round of the echo loop. */
  method EchoOne(s: Socket, ghost before: seq<byte>, ghost i: nat, ghost got: seq<seq<byte>>)
    returns (msg: Option<seq<byte>>)
    requires Sent(s.onSend, before, i, got, s.wire, s.sends)
    modifies s
    ensures msg.None? ==> Sent(s.onSend, before, i, got, s.wire, s.sends)
                          && (s.RecvsWork() ==> Parse(old(s.inbox)) == None)
    ensures msg.Some? ==> Sent(s.onSend, before, i, got + [msg.value], s.wire, s.sends)
                          && Parse(old(s.inbox)) == Some((msg.value, s.inbox))
  {
    ParsedWasEncoded(s.inbox);
    msg := s.RecvFrame();
    if msg.Some? { SendOne(s, msg.value, before, i, got); }
  }

  /** The echo loop of the server. What it reads is a prefix of the stream's frames, and all of them
      if no recv call fails. It ignores the result of send_frame, so its output is the encoding of
      what it read if and only if the operating system refused none of its send calls. */
  method Echo(s: Socket) returns (got: seq<seq<byte>>)
    modifies s
    ensures AllLegal(got) && got <= Frames(old(s.inbox)).0
    ensures s.RecvsWork() ==> got == Frames(old(s.inbox)).0
    ensures Sent(s.onSend, old(s.wire), old(s.sends), got, s.wire, s.sends)
    ensures s.wire == old(s.wire) + EncodeAll(got) <==> AllAccepted(s.onSend, old(s.sends), s.sends)
  {
    ghost var all := Frames(s.inbox).0;
    got := [];
    var more := true;
    while more
      invariant Sent(s.onSend, old(s.wire), old(s.sends), got, s.wire, s.sends)
      invariant more ==> all == got + Frames(s.inbox).0
      invariant !more ==> got <= all && (s.RecvsWork() ==> got == all)
      decreases more, |s.inbox|
    {
      FramesMore(all, got, s.inbox);
      var msg := EchoOne(s, old(s.wire), old(s.sends), got);
      if msg.None? {
        more := false;
      } else {
        got := got + [msg.value];
      }
    }
    WholeIff(s.onSend, old(s.wire), old(s.sends), got, s.wire, s.sends);
  }

  lemma WholeIff(answer: nat -> int, before: seq<byte>, i: nat, ps: seq<seq<byte>>, wire: seq<byte>, next: nat)
    requires Sent(answer, before, i, ps, wire, next)
    ensures wire == before + EncodeAll(ps) <==> AllAccepted(answer, i, next)
  {
    RepliesIff(answer, i, ps);
    assert wire == before + EncodeAll(ps) ==> wire[|before|..] == EncodeAll(ps);
    assert wire[|before|..] == Replies(answer, i, ps);
  }
}
