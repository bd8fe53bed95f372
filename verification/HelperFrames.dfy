/**
Frames of the privileged network helper on its byte stream
(internal/nethelper/helper.go): writing, reading, and what the reader makes of a
stream that was cut short.
*/
module HelperFrames {
  import opened Common
  import opened Words

  const MAX_PACKET := 65535
  const LIMIT := MAX_PACKET + 1
  const HEADER := 4

  // ----- Frames -----

  predicate Sendable(p: Bytes) { 0 < |p| <= LIMIT }

  function Encoded(p: Bytes): Bytes
    requires Sendable(p)
  {
    BigEndian(|p|, HEADER) + p
  }

  /** The first frame of a stream and what follows it; None on an end inside it or a length outside the limit. */
  function Decoded(s: Bytes, limit: nat): (r: Option<(Bytes, Bytes)>)
    ensures r.Some? ==> |r.value.1| < |s| && 0 < |r.value.0| <= limit
  {
    if |s| < 4 then None
    else
      var n := Number(s[..4]);
      if n == 0 || n > limit || |s| < 4 + n then None else Some((s[4..4 + n], s[4 + n..]))
  }

  ghost predicate AllSendable(frames: seq<Bytes>) { forall f :: f in frames ==> Sendable(f) }

  function Stream(frames: seq<Bytes>): Bytes
    requires forall f :: f in frames ==> Sendable(f)
  {
    if frames == [] then [] else Encoded(frames[0]) + Stream(frames[1..])
  }

  /** Frame after frame, up to the first failure. */
  function Frames(s: Bytes, limit: nat): (fs: seq<Bytes>)
    ensures forall f :: f in fs ==> 0 < |f| <= limit
    decreases |s|
  {
    match Decoded(s, limit)
    case None => []
    case Some((f, rest)) => [f] + Frames(rest, limit)
  }

  lemma LengthRestores(f: Bytes)
    requires Sendable(f)
    ensures Number(BigEndian(|f|, HEADER)) == |f|
  {
    assert Power(4) == 0x1_0000_0000;
    NumberOfBigEndian(|f|, HEADER);
  }

  lemma FirstFrame(f: Bytes, rest: Bytes)
    requires Sendable(f)
    ensures Decoded(Encoded(f) + rest, LIMIT) == Some((f, rest))
  {
    var s := Encoded(f) + rest;
    LengthRestores(f);
    assert s[..4] == BigEndian(|f|, HEADER) && s[4..4 + |f|] == f && s[4 + |f|..] == rest;
  }

  /** tail is what a failed write of frame f has put out. */
  predicate IsCut(tail: Bytes, f: Bytes) {
    Sendable(f) && |tail| < |Encoded(f)| && tail == Encoded(f)[..|tail|]
  }

  /** How a stream may end when a writer stops: nothing, or part of one more frame. */
  ghost predicate CutShort(tail: Bytes) {
    exists f :: IsCut(tail, f)
  }

  /** An encoding that ends early yields no frame. */
  lemma NoFrameInTail(tail: Bytes, k: nat)
    requires CutShort(tail) && k <= |tail|
    ensures Decoded(tail[..k], LIMIT) == None
  {
    var f :| IsCut(tail, f);
    if k >= HEADER {
      LengthRestores(f);
      assert tail[..k][..HEADER] == BigEndian(|f|, HEADER);
    }
  }

  lemma {:induction false} StreamExtends(frames: seq<Bytes>, f: Bytes)
    requires AllSendable(frames) && Sendable(f)
    ensures AllSendable(frames + [f]) && Stream(frames + [f]) == Stream(frames) + Encoded(f)
  {
    if frames == [] {
      assert Stream([f]) == Encoded(f) + Stream([f][1..]);
    } else {
      assert (frames + [f])[1..] == frames[1..] + [f];
      StreamExtends(frames[1..], f);
    }
  }

  lemma StreamSplits(frames: seq<Bytes>, tail: Bytes)
    requires AllSendable(frames) && frames != []
    ensures Stream(frames) + tail == Encoded(frames[0]) + (Stream(frames[1..]) + tail)
  {
    var first, rest := Encoded(frames[0]), Stream(frames[1..]);
    assert (first + rest) + tail == first + (rest + tail);
  }

  lemma NextFrame(frames: seq<Bytes>, rest: Bytes)
    requires AllSendable(frames) && frames != []
    ensures Decoded(Stream(frames) + rest, LIMIT) == Some((frames[0], Stream(frames[1..]) + rest))
  {
    StreamSplits(frames, rest);
    FirstFrame(frames[0], Stream(frames[1..]) + rest);
  }

  /** Whole frames are read as they were written, whatever follows them. */
  lemma {:induction false} StreamReadsOn(frames: seq<Bytes>, rest: Bytes)
    requires AllSendable(frames)
    ensures Frames(Stream(frames) + rest, LIMIT) == frames + Frames(rest, LIMIT)
    decreases |frames|
  {
    if frames == [] {
      assert Stream(frames) + rest == rest;
    } else {
      NextFrame(frames, rest);
      StreamReadsOn(frames[1..], rest);
      FirstOfAll(frames, Frames(rest, LIMIT));
    }
  }

  lemma FirstOfAll<T>(s: seq<T>, more: seq<T>)
    requires s != []
    ensures [s[0]] + (s[1..] + more) == s + more
  {
    assert s == [s[0]] + s[1..];
  }

  /** The frames written, and only they, are read back, even if one more was cut short. */
  lemma StreamReadsBack(frames: seq<Bytes>, tail: Bytes)
    requires AllSendable(frames) && CutShort(tail)
    ensures Frames(Stream(frames) + tail, LIMIT) == frames
  {
    StreamReadsOn(frames, tail);
    assert tail[..|tail|] == tail;
    NoFrameInTail(tail, |tail|);
  }

  /**
  Of a stream of whole frames and more, what has arrived reads as the first few, or
  as all and the start of the rest.
  */
  lemma ArrivedPart(frames: seq<Bytes>, rest: Bytes, k: nat)
    requires AllSendable(frames) && k <= |Stream(frames) + rest|
    ensures k < |Stream(frames)| ==> Frames((Stream(frames) + rest)[..k], LIMIT) <= frames
    ensures k >= |Stream(frames)| ==>
      Frames((Stream(frames) + rest)[..k], LIMIT) == frames + Frames(rest[..k - |Stream(frames)|], LIMIT)
  {
    if k >= |Stream(frames)| {
      UpTo(Stream(frames), rest, k);
      StreamReadsOn(frames, rest[..k - |Stream(frames)|]);
    } else {
      PartArrived(frames, rest, k);
    }
  }

  lemma UpTo<T>(a: seq<T>, b: seq<T>, k: nat)
    requires k <= |a + b|
    ensures k <= |a| ==> (a + b)[..k] == a[..k]
    ensures k >= |a| ==> (a + b)[..k] == a + b[..k - |a|]
  {}

  lemma {:induction false} PartArrived(frames: seq<Bytes>, rest: Bytes, k: nat)
    requires AllSendable(frames) && k < |Stream(frames)|
    ensures Frames((Stream(frames) + rest)[..k], LIMIT) <= frames
    decreases |frames|
  {
    hide Frames, Encoded;
    var first, more := Encoded(frames[0]), Stream(frames[1..]) + rest;
    StreamSplits(frames, rest);
    UpTo(first, more, k);
    if k < |first| {
      CutReadsNothing(frames[0], k);
    } else {
      ReadsFirst(frames[0], more[..k - |first|]);
      PartArrived(frames[1..], rest, k - |first|);
    }
  }

  lemma CutReadsNothing(f: Bytes, k: nat)
    requires Sendable(f) && k < |Encoded(f)|
    ensures Frames(Encoded(f)[..k], LIMIT) == []
  {
    var part := Encoded(f)[..k];
    assert IsCut(part, f) && part[..k] == part;
    NoFrameInTail(part, k);
  }

  lemma ReadsFirst(f: Bytes, more: Bytes)
    requires Sendable(f)
    ensures Frames(Encoded(f) + more, LIMIT) == [f] + Frames(more, LIMIT)
  {
    FirstFrame(f, more);
  }

  /** Whatever part of the stream has arrived, it reads as the first few of the frames written. */
  lemma PrefixReadsPrefix(frames: seq<Bytes>, tail: Bytes, k: nat)
    requires AllSendable(frames) && CutShort(tail) && k <= |Stream(frames) + tail|
    ensures Frames((Stream(frames) + tail)[..k], LIMIT) <= frames
  {
    ArrivedPart(frames, tail, k);
    if k >= |Stream(frames)| { NoFrameInTail(tail, k - |Stream(frames)|); }
  }

  /** One end of the connection: bytes not read yet, and bytes written. */
  class Conn {
    var inbound: Bytes
    var outbound: Bytes
    /** Failed or interrupted operations. */
    ghost var faults: nat

    constructor (inbound: Bytes)
      ensures this.inbound == inbound && outbound == [] && faults == 0
    {
      this.inbound, outbound, faults := inbound, [], 0;
    }

    /** Whether something outside ends the work here: an error of the device, or the user closing. */
    method Interrupted() returns (yes: bool)
      modifies this`faults
      ensures faults == if yes then old(faults) + 1 else old(faults)
    {
      yes := *;
      if yes { faults := faults + 1; }
    }

    /** io.Copy to the connection: on an error some of it may be out. */
    method Copy(b: Bytes) returns (ok: bool, ghost n: nat)
      modifies this`outbound, this`faults
      ensures n <= |b| && outbound == old(outbound) + b[..n] && (ok ==> n == |b|) && (!ok && b != [] ==> n < |b|)
      ensures faults == if ok then old(faults) else old(faults) + 1
    {
      var fault: bool := *;
      var cut: int := *;
      if fault && 0 <= cut < |b| {
        outbound, faults := outbound + b[..cut], faults + 1;
        return false, cut;
      }
      outbound := outbound + b;
      assert b[..|b|] == b;
      return true, |b|;
    }
  }

  method WriteFrame(c: Conn, p: Bytes) returns (ok: bool, ghost tail: Bytes)
    modifies c`outbound, c`faults
    ensures c.faults == old(c.faults) + (if ok || !Sendable(p) then 0 else 1) && (ok ==> Sendable(p))
    ensures ok ==> Sendable(p) && c.outbound == old(c.outbound) + Encoded(p) && tail == []
    ensures !ok && Sendable(p) ==> c.outbound == old(c.outbound) + tail && IsCut(tail, p)
    ensures !ok && !Sendable(p) ==> c.outbound == old(c.outbound) && tail == []
  {
    tail := [];
    if |p| == 0 || |p| > LIMIT { return false, tail; }
    ghost var n;
    ok, n := c.Copy(BigEndian(|p|, HEADER));
    if !ok {
      tail := BigEndian(|p|, HEADER)[..n];
      assert IsCut(tail, p);
      return;
    }
    assert BigEndian(|p|, HEADER)[..HEADER] == BigEndian(|p|, HEADER);
    ok, n := c.Copy(p);
    if !ok {
      tail := BigEndian(|p|, HEADER) + p[..n];
      assert IsCut(tail, p);
      return;
    }
    assert p[..|p|] == p;
  }

  method ReadFrame(c: Conn, limit: nat) returns (ok: bool, f: Bytes)
    modifies c`inbound
    ensures ok <==> Decoded(old(c.inbound), limit).Some?
    ensures ok ==> Decoded(old(c.inbound), limit) == Some((f, c.inbound))
  {
    if |c.inbound| < 4 { return false, []; }
    var n := Number(c.inbound[..4]);
    if n == 0 || n > limit { return false, []; }
    if |c.inbound| < 4 + n { return false, []; }
    f, c.inbound := c.inbound[4..4 + n], c.inbound[4 + n..];
    return true, f;
  }
}
