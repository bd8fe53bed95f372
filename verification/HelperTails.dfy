/**
What a partial frame does to a stream that another writer goes on with. The two
loops of the helper's bridge share one connection, and each ends only on its own
failure; the proxy's Write does not close the connection when a frame was cut
short. This module tells exactly which partial frames do no harm.
*/
module HelperTails {
  import opened Common
  import opened Words
  import opened HelperFrames

  const PACKET: Byte := 1
  const EVENT: Byte := 2

  /** An IPv4 header (RFC 791, section 3.1) that fits, describes the whole packet and names the two ends. */
  predicate ValidPacket(p: Bytes, source: Bytes, destination: Bytes) {
    && |p| >= 20 && p[0] / 16 == 4 && 20 <= p[0] % 16 * 4 <= |p|
    && p[2] as int * 256 + p[3] as int == |p|
    && p[12..16] == source && p[16..20] == destination
  }

  /** Who writes frames: the two loops of the helper's bridge, and the proxy. */
  datatype Writer = DeviceLoop(local: Bytes, peer: Bytes) | EventLoop | ProxyWriter {
    predicate Proper() { DeviceLoop? ==> |local| == |peer| == 4 }

    predicate Sends(f: Bytes) {
      && Sendable(f)
      && match this
         case DeviceLoop(local, peer) => f[0] == PACKET && ValidPacket(f[1..], local, peer)
         case EventLoop => |f| == 5 && f[0] == EVENT
         case ProxyWriter => f[0] == PACKET
    }

    ghost predicate Cuts(tail: Bytes) { exists f :: Sends(f) && IsCut(tail, f) }

    /** later and then part of one more frame is what this writer may put out. */
    ghost predicate Continues(later: seq<Bytes>, tail: Bytes) {
      && (forall f :: f in later ==> Sends(f))
      && (tail == [] || Cuts(tail))
    }
  }

  /** The stream behind a partial frame. */
  function Behind(tail: Bytes, later: seq<Bytes>, tail2: Bytes): Bytes
    requires AllSendable(later)
  {
    tail + (Stream(later) + tail2)
  }

  /** However the other writer goes on and however much of it arrives, only whole frames of it are read. */
  ghost predicate Survives(tail: Bytes, other: Writer) {
    forall later, tail2, k: nat :: other.Continues(later, tail2) ==> ReadsOnlyLater(tail, later, tail2, k)
  }

  ghost predicate ReadsOnlyLater(tail: Bytes, later: seq<Bytes>, tail2: Bytes, k: nat) {
    && AllSendable(later)
    && (k <= |Behind(tail, later, tail2)| ==> Frames(Behind(tail, later, tail2)[..k], LIMIT) <= later)
  }

  /** The partial frame ends before any byte of its header that the reader could take for a length. */
  predicate Harmless(tail: Bytes, other: Writer) {
    tail == [] || tail == [0, 0, 0] || (other.EventLoop? && (tail == [0] || tail == [0, 0]))
  }

  /**
  A stream survives a partial frame, whatever the other writer sends, exactly if the
  fragment is harmless: nothing, three zero bytes, or up to three before events.
  */
  lemma SurvivesIff(tail: Bytes, other: Writer)
    requires CutShort(tail) && other.Proper()
    ensures Survives(tail, other) <==> Harmless(tail, other)
  {
    if Harmless(tail, other) {
      forall later, tail2, k: nat | other.Continues(later, tail2) ensures ReadsOnlyLater(tail, later, tail2, k) {
        HarmlessReadsLater(tail, other, later, tail2, k);
      }
    } else {
      HarmfulSpoils(tail, other);
    }
  }

  // ----- Harmless fragments -----

  lemma Digits(n: nat)
    requires n <= LIMIT
    ensures n / 65536 <= 1 && (n / 65536 == 1 ==> n == LIMIT)
    ensures ((n / 65536) * 256 + n / 256 % 256) * 256 + n % 256 == n
  {}

  lemma LengthBytes(n: nat)
    requires n <= LIMIT
    ensures BigEndian(n, HEADER) == [0, n / 65536, n / 256 % 256, n % 256]
  {
    hide BigEndian, Number;
    Digits(n);
    var a: Byte, b: Byte, c: Byte := n / 65536, n / 256 % 256, n % 256;
    FourBytes(0, a, b, c);
    BigEndianOfNumber([0, a, b, c]);
  }

  /** The header of a frame is [0, a, b, c]. */
  lemma HeaderBytes(f: Bytes)
    requires Sendable(f)
    ensures Encoded(f)[..HEADER] == BigEndian(|f|, HEADER)
    ensures |f| / 65536 <= 1 && (|f| / 65536 == 1 ==> |f| == LIMIT)
    ensures var n := |f|; BigEndian(n, HEADER) == [0, n / 65536, n / 256 % 256, n % 256]
  {
    hide BigEndian;
    Digits(|f|);
    LengthBytes(|f|);
    var e := Encoded(f);
    assert e[..HEADER] == BigEndian(|f|, HEADER);
  }

  /** What the other writer puts out begins with the header of one of its frames, or a part of it. */
  lemma BeginsWithHeader(other: Writer, later: seq<Bytes>, tail2: Bytes) returns (g: Bytes)
    requires other.Continues(later, tail2) && Stream(later) + tail2 != []
    ensures other.Sends(g)
    ensures var t := Stream(later) + tail2; forall i :: 0 <= i < |t| && i < HEADER ==> t[i] == BigEndian(|g|, HEADER)[i]
  {
    if later != [] {
      g := later[0];
      StreamSplits(later, tail2);
    } else {
      g :| other.Sends(g) && IsCut(tail2, g);
      assert Stream(later) + tail2 == tail2;
      forall i | 0 <= i < |tail2| && i < HEADER ensures tail2[i] == BigEndian(|g|, HEADER)[i] {
        assert Encoded(g)[..|tail2|][i] == BigEndian(|g|, HEADER)[i];
      }
    }
  }

  lemma ZeroHeader(s: Bytes)
    requires |s| >= HEADER ==> s[0] == s[1] == s[2] == s[3] == 0
    ensures Frames(s, LIMIT) == []
  {
    if |s| >= HEADER {
      assert s[..4] == [0, 0, 0, 0];
      FourBytes(0, 0, 0, 0);
    }
  }

  lemma HarmlessReadsLater(tail: Bytes, other: Writer, later: seq<Bytes>, tail2: Bytes, k: nat)
    requires Harmless(tail, other) && other.Continues(later, tail2)
    ensures ReadsOnlyLater(tail, later, tail2, k)
  {
    var t := Stream(later) + tail2;
    var s := Behind(tail, later, tail2);
    if k <= |s| {
      if tail == [] {
        assert s == t;
        if tail2 == [] { assert IsCut([], [PACKET]); }
        PrefixReadsPrefix(later, tail2, k);
      } else if k >= HEADER {
        var g := BeginsWithHeader(other, later, tail2);
        HeaderBytes(g);
        forall i | |tail| <= i < HEADER ensures s[i] == BigEndian(|g|, HEADER)[i - |tail|] {}
        ZeroHeader(s[..k]);
      }
    }
  }

  // ----- The others -----

  function Copies(g: Bytes, n: nat): seq<Bytes> { seq(n, _ => g) }

  lemma {:induction false} CopiesAreLong(g: Bytes, n: nat)
    requires Sendable(g)
    ensures AllSendable(Copies(g, n)) && |Stream(Copies(g, n))| >= n
    decreases n
  {
    if n > 0 {
      assert Copies(g, n)[1..] == Copies(g, n - 1);
      CopiesAreLong(g, n - 1);
    }
  }

  /** What is read behind the fragment is not what was written behind it. */
  lemma Spoils(tail: Bytes, other: Writer, later: seq<Bytes>, length: nat)
    requires later != [] && other.Continues(later, []) && 0 < length <= LIMIT
    requires var s := Behind(tail, later, []);
      |s| >= 4 + length && Number(s[..4]) == length && s[4..4 + length] != later[0]
    ensures !Survives(tail, other)
  {
    var s := Behind(tail, later, []);
    assert s[..|s|] == s;
    assert Frames(s, LIMIT)[0] != later[0];
    assert !ReadsOnlyLater(tail, later, [], |s|);
  }

  /** The smallest packet of n bytes between the two ends. */
  function PacketOf(local: Bytes, peer: Bytes, n: nat): (p: Bytes)
    requires |local| == |peer| == 4 && 20 <= n <= MAX_PACKET
    ensures |p| == n && ValidPacket(p, local, peer)
  {
    var header: Bytes := [69, 0, n / 256, n % 256, 0, 0, 0, 0, 0, 0, 0, 0];
    var p := header + local + peer + seq(n - 20, _ => 0 as Byte);
    assert p[12..16] == local && p[16..20] == peer;
    p
  }

  /** A frame of n bytes that the writer may send. */
  function FrameOf(w: Writer, n: nat): (f: Bytes)
    requires w.Proper() && if w.EventLoop? then n == 5 else 21 <= n <= LIMIT
    ensures |f| == n && w.Sends(f) && (w.EventLoop? ==> f[4] == 255)
  {
    match w
    case EventLoop => [EVENT, 255, 255, 255, 255]
    case DeviceLoop(local, peer) =>
      var p := PacketOf(local, peer, n - 1);
      assert ([PACKET] + p)[1..] == p;
      [PACKET] + p
    case ProxyWriter => [PACKET] + PacketOf([0, 0, 0, 0], [0, 0, 0, 0], n - 1)
  }

  /** The header that the reader sees after fewer than four bytes of another one. */
  lemma MixedHeader(tail: Bytes, g: Bytes, later: seq<Bytes>)
    requires Sendable(g) && AllSendable(later) && later != [] && later[0] == g && |tail| < HEADER
    ensures var s := Behind(tail, later, []);
      |s| >= HEADER && s[..HEADER] == tail + BigEndian(|g|, HEADER)[..HEADER - |tail|]
  {
    hide Stream, BigEndian;
    StreamSplits(later, []);
    HeaderBytes(g);
    assert |Encoded(g)| >= HEADER;
    hide Encoded;
    MixedPrefix(tail, Encoded(g), Stream(later[1..]) + [], HEADER);
  }

  lemma MixedPrefix<T>(tail: seq<T>, first: seq<T>, more: seq<T>, n: nat)
    requires |tail| < n <= |first|
    ensures (tail + (first + more))[..n] == tail + first[..n][..n - |tail|]
  {
    UpTo(tail, first + more, n);
    UpTo(first, more, n - |tail|);
    assert first[..n][..n - |tail|] == first[..n - |tail|];
  }

  function Repeated(tail: Bytes, g: Bytes): Bytes
    requires Sendable(g)
  {
    CopiesAreLong(g, HEADER + LIMIT);
    Behind(tail, Copies(g, HEADER + LIMIT), [])
  }

  /** A length that is not that of the frames behind swallows some of them. */
  lemma Swallows(tail: Bytes, other: Writer, g: Bytes, length: nat)
    requires other.Sends(g) && 0 < length <= LIMIT && length != |g|
    requires Number(Repeated(tail, g)[..HEADER]) == length
    ensures !Survives(tail, other)
  {
    CopiesAreLong(g, HEADER + LIMIT);
    Spoils(tail, other, Copies(g, HEADER + LIMIT), length);
  }

  /** A partial frame that an event completes does not become that event. */
  lemma CompletedByEvent(tail: Bytes, f: Bytes, g: Bytes)
    requires IsCut(tail, f) && |tail| >= HEADER && |f| == 5
    requires EventLoop.Sends(g) && g[4] == 255
    ensures !Survives(tail, EventLoop)
  {
    HeaderBytes(f);
    HeaderBytes(g);
    var s := Behind(tail, [g], []);
    StreamSplits([g], []);
    assert s == tail + Encoded(g);
    assert s[..4] == tail[..4] == BigEndian(5, HEADER);
    LengthRestores(f);
    var i := 8 - |tail|;
    assert s[8] == Encoded(g)[i];
    assert s[4..9][4] == s[8];
    if i < 4 { assert s[8] == BigEndian(5, HEADER)[i]; }
    Spoils(tail, EventLoop, [g], 5);
  }

  /** A whole header, and some of the frame perhaps. */
  lemma LongFragmentSpoils(tail: Bytes, f: Bytes, other: Writer)
    requires IsCut(tail, f) && |tail| >= HEADER && other.Proper()
    ensures !Survives(tail, other)
  {
    var g := FrameOf(other, if other.EventLoop? then 5 else if |f| == 21 then 22 else 21);
    if other.EventLoop? && |f| == 5 {
      CompletedByEvent(tail, f, g);
    } else {
      LengthRestores(f);
      assert Repeated(tail, g)[..HEADER] == BigEndian(|f|, HEADER);
      Swallows(tail, other, g, |f|);
    }
  }

  /** The second and third byte of a header, or the second alone. */
  lemma PartOfLengthBound(tail: Bytes, f: Bytes)
    requires IsCut(tail, f) && (|tail| == 2 || |tail| == 3)
    ensures tail[0] == 0 && tail[1] as int * 256 + (if |tail| == 2 then 0 else tail[2]) <= LIMIT / 256
  {
    HeaderBytes(f);
    assert tail == BigEndian(|f|, HEADER)[..|tail|];
  }

  /** Behind part of a header the length of a small frame adds zero bytes only. */
  lemma SmallHeaderBehind(tail: Bytes, f: Bytes, g: Bytes)
    requires IsCut(tail, f) && (|tail| == 2 || |tail| == 3) && 0 < |g| < 256
    ensures Repeated(tail, g)[..HEADER] == [0, tail[1], if |tail| == 2 then 0 else tail[2], 0]
  {
    HeaderBytes(g);
    CopiesAreLong(g, HEADER + LIMIT);
    PartOfLengthBound(tail, f);
    MixedHeader(tail, g, Copies(g, HEADER + LIMIT));
  }

  /** Part of a header of which some byte is not zero. */
  lemma PartOfLength(tail: Bytes, f: Bytes, other: Writer)
    requires IsCut(tail, f) && other.Proper()
    requires (|tail| == 2 || |tail| == 3) && (tail[1] != 0 || tail[|tail| - 1] != 0)
    ensures !Survives(tail, other)
  {
    var g := FrameOf(other, if other.EventLoop? then 5 else 21);
    PartOfLengthBound(tail, f);
    SmallHeaderBehind(tail, f, g);
    var b := if |tail| == 2 then 0 else tail[2];
    FourBytes(0, tail[1], b, 0);
    Swallows(tail, other, g, (tail[1] as int * 256 + b) * 256);
  }

  /** The header mixed from the fragment and that of the next frame is too small for it. */
  lemma TooShort(tail: Bytes, other: Writer, g: Bytes, c: Byte)
    requires other.Sends(g) && |tail| < HEADER && c > 0 && |g| > 6 >= c
    requires tail + BigEndian(|g|, HEADER)[..HEADER - |tail|] == [0, 0, 0, c]
    ensures !Survives(tail, other)
  {
    MixedHeader(tail, g, [g]);
    FourBytes(0, 0, 0, c);
    StreamSplits([g], []);
    Spoils(tail, other, [g], c);
  }

  /** One or two zero bytes turn the length of a large packet into a small one. */
  lemma ZeroesBeforePacket(tail: Bytes, other: Writer)
    requires other.Proper() && !other.EventLoop? && (tail == [0] || tail == [0, 0])
    ensures !Survives(tail, other)
  {
    if |tail| == 1 {
      var g := FrameOf(other, 1536);
      HeaderBytes(g);
      assert BigEndian(1536, HEADER)[..3] == [0, 0, 6];
      TooShort(tail, other, g, 6);
    } else {
      var g := FrameOf(other, LIMIT);
      HeaderBytes(g);
      assert BigEndian(LIMIT, HEADER)[..2] == [0, 1];
      TooShort(tail, other, g, 1);
    }
  }

  lemma HarmfulSpoils(tail: Bytes, other: Writer)
    requires CutShort(tail) && other.Proper() && !Harmless(tail, other)
    ensures !Survives(tail, other)
  {
    var f :| IsCut(tail, f);
    if |tail| >= HEADER {
      LongFragmentSpoils(tail, f, other);
    } else {
      HeaderBytes(f);
      assert tail == BigEndian(|f|, HEADER)[..|tail|];
      if |tail| >= 2 && (tail[1] != 0 || tail[|tail| - 1] != 0) {
        PartOfLength(tail, f, other);
      } else {
        ZeroesBeforePacket(tail, other);
      }
    }
  }
}
