/**
Both directions of the privileged network helper's bridge (internal/nethelper/helper.go),
between a device and the unprivileged side: two loops that write on one connection,
and the proxy that reads it and writes back.
*/
module HelperBridge {
  import opened Common
  import opened Words
  import opened HelperFrames
  import opened HelperTails

  // ----- What the two loops put on the wire -----

  /**
  Whole frames; after the first failed send part of one more; and then what the
  writer that is left adds, up to its own failure.
  */
  datatype Wire = Wire(frames: seq<Bytes>, tail: Bytes, later: seq<Bytes>, tail2: Bytes, left: Option<Writer>) {
    ghost predicate Ok() {
      && AllSendable(frames) && AllSendable(later)
      && match left
         case None => tail == [] && later == [] && tail2 == []
         case Some(w) => w.Proper() && CutShort(tail) && w.Continues(later, tail2)
    }

    ghost function Written(): Bytes
      requires Ok()
    {
      Stream(frames) + Behind(tail, later, tail2)
    }

    function Sent(): seq<Bytes> { frames + later }

    /** Nothing follows a partial frame, or it is one that does no harm. */
    predicate Intact() { left.Some? ==> (later == [] && tail2 == []) || Harmless(tail, left.value) }

    predicate MaySend(w: Writer) { left == None || (left == Some(w) && tail2 == []) }
  }

  ghost predicate ReadsSent(w: Wire, k: nat) {
    w.Ok() && (k <= |w.Written()| ==> Frames(w.Written()[..k], LIMIT) <= w.Sent())
  }

  lemma PrefixExtends<T>(a: seq<T>, b: seq<T>, c: seq<T>)
    requires a <= b
    ensures a <= b + c
  {
    assert (b + c)[..|a|] == a;
  }

  lemma PrefixOfSum<T>(a: seq<T>, b: seq<T>, c: seq<T>)
    ensures a + b <= a + c <==> b <= c
  {
    assert (a + c)[|a|..] == c;
    if a + b <= a + c {
      assert b == (a + c)[..|a| + |b|][|a|..];
    }
  }

  /** Once all of the first frames have arrived, only what is behind them matters. */
  lemma OnlyBehindMatters(w: Wire, k: nat)
    requires w.Ok() && k <= |Behind(w.tail, w.later, w.tail2)|
    ensures ReadsSent(w, |Stream(w.frames)| + k) <==> Frames(Behind(w.tail, w.later, w.tail2)[..k], LIMIT) <= w.later
  {
    hide Stream, Frames, Encoded, CutShort, Writer.Continues;
    var n, behind := |Stream(w.frames)|, Behind(w.tail, w.later, w.tail2);
    ArrivedPart(w.frames, behind, n + k);
    assert n + k - n == k;
    PrefixOfSum(w.frames, Frames(behind[..k], LIMIT), w.later);
  }

  /** Of an intact wire only whole frames are read, in order, however much of it has arrived. */
  lemma IntactReadsSent(w: Wire, k: nat)
    requires w.Ok() && w.Intact()
    ensures ReadsSent(w, k)
  {
    hide Stream, Frames, Encoded, CutShort, Writer.Continues;
    if k <= |w.Written()| {
      var n := |Stream(w.frames)|;
      if k < n {
        ArrivedPart(w.frames, Behind(w.tail, w.later, w.tail2), k);
        PrefixExtends(Frames(w.Written()[..k], LIMIT), w.frames, w.later);
      } else {
        BehindReadsLater(w, k - n);
        OnlyBehindMatters(w, k - n);
      }
    }
  }

  lemma BehindReadsLater(w: Wire, k: nat)
    requires w.Ok() && w.Intact() && k <= |Behind(w.tail, w.later, w.tail2)|
    ensures Frames(Behind(w.tail, w.later, w.tail2)[..k], LIMIT) <= w.later
  {
    if w.left.Some? {
      if Harmless(w.tail, w.left.value) {
        HarmlessReadsLater(w.tail, w.left.value, w.later, w.tail2, k);
      } else {
        assert Behind(w.tail, w.later, w.tail2) == w.tail;
        NoFrameInTail(w.tail, k);
      }
    }
  }

  /** However the other writer goes on after the partial frame, and however much of it arrives. */
  ghost predicate WireSurvives(frames: seq<Bytes>, tail: Bytes, other: Writer) {
    forall later, tail2, k: nat :: other.Continues(later, tail2) ==>
      ReadsSent(Wire(frames, tail, later, tail2, Some(other)), k)
  }

  /**
  After a partial frame, what is read is a prefix of what was sent, however the
  other writer goes on, exactly if the partial frame is harmless.
  */
  lemma WireSurvivesIff(frames: seq<Bytes>, tail: Bytes, other: Writer)
    requires AllSendable(frames) && CutShort(tail) && other.Proper()
    ensures WireSurvives(frames, tail, other) <==> Harmless(tail, other)
  {
    if Harmless(tail, other) {
      forall later, tail2, k: nat | other.Continues(later, tail2)
        ensures ReadsSent(Wire(frames, tail, later, tail2, Some(other)), k)
      {
        IntactReadsSent(Wire(frames, tail, later, tail2, Some(other)), k);
      }
    } else {
      SurvivesIff(tail, other);
      var later, tail2, k: nat :| other.Continues(later, tail2) && !ReadsOnlyLater(tail, later, tail2, k);
      OnlyBehindMatters(Wire(frames, tail, later, tail2, Some(other)), k);
    }
  }

  /** The event takes the place of the bytes missing from the frame. */
  lemma CompletedFrame(f: Bytes, e: Bytes)
    requires Sendable(f) && EventLoop.Sends(e) && |f| >= 9
    ensures Frames(Encoded(f)[..|f| - 5] + Encoded(e), LIMIT) == [f[..|f| - 9] + Encoded(e)]
  {
    var s, x := Encoded(f)[..|f| - 5] + Encoded(e), f[..|f| - 9] + Encoded(e);
    assert s == BigEndian(|f|, HEADER) + x;
    FirstFrame(x, []);
    assert s == Encoded(x) + [];
    assert Frames([], LIMIT) == [];
  }

  /** A packet whose last nine bytes are missing when an event follows: the reader takes the event for them. */
  lemma SpoiledPacket(f: Bytes, e: Bytes, local: Bytes, peer: Bytes) returns (w: Wire)
    requires |local| == |peer| == 4 && DeviceLoop(local, peer).Sends(f) && EventLoop.Sends(e)
    requires |f| >= 30 && f[|f| - 9..] != Encoded(e)
    ensures w == Wire([], Encoded(f)[..|f| - 5], [e], [], Some(EventLoop)) && w.Ok()
    ensures var p := f[1..|f| - 9] + Encoded(e);
      Sorted(Frames(w.Written(), LIMIT)).0 == [p] && p != f[1..] && !ReadsSent(w, |w.Written()|)
  {
    hide ValidPacket;
    var tail := Encoded(f)[..|f| - 5];
    w := Wire([], tail, [e], [], Some(EventLoop));
    assert IsCut(tail, f);
    StreamSplits([e], []);
    assert w.Written() == tail + Encoded(e);
    CompletedFrame(f, e);
    EventInPacket(f, e);
    assert w.Written()[..|w.Written()|] == w.Written();
  }

  lemma EventInPacket(f: Bytes, e: Bytes)
    requires EventLoop.Sends(e) && |f| >= 30 && f[0] == PACKET && f[|f| - 9..] != Encoded(e)
    ensures var p := f[1..|f| - 9] + Encoded(e); p != f[1..] && ItemOf(f[..|f| - 9] + Encoded(e)) == APacket(p)
  {
    var n, x, p := |f| - 9, f[..|f| - 9] + Encoded(e), f[1..|f| - 9] + Encoded(e);
    assert |Encoded(e)| == 9;
    assert p[n - 1..] == Encoded(e) && f[1..][n - 1..] == f[n..];
    assert x[0] == PACKET && x[1..] == p;
  }

  // ----- Packets -----

  function ValidOnes(ps: seq<Bytes>, source: Bytes, destination: Bytes): seq<Bytes> {
    if ps == [] then [] else
      var before, last := ValidOnes(ps[..|ps| - 1], source, destination), ps[|ps| - 1];
      if ValidPacket(last, source, destination) then before + [last] else before
  }

  lemma {:induction false} ValidOnesGrow(ps: seq<Bytes>, more: seq<Bytes>, source: Bytes, destination: Bytes)
    ensures ValidOnes(ps, source, destination) <= ValidOnes(ps + more, source, destination)
    decreases |more|
  {
    if more == [] {
      assert ps + more == ps;
    } else {
      ValidOnesGrow(ps, more[..|more| - 1], source, destination);
      assert (ps + more)[..|ps + more| - 1] == ps + more[..|more| - 1];
    }
  }

  /** uint32(e) of each event. */
  function Codes(events: seq<int>): (codes: seq<nat>)
    ensures |codes| == |events|
  {
    seq(|events|, i requires 0 <= i < |events| => events[i] % 0x1_0000_0000)
  }

  /** What proxy.receive does with a frame. */
  datatype Item = APacket(p: Bytes) | AnEvent(code: nat) | Bad

  function ItemOf(f: Bytes): Item {
    if f == [] then Bad
    else if f[0] == PACKET then (if |f| < 21 then Bad else APacket(f[1..]))
    else if f[0] == EVENT then (if |f| != 5 then Bad else AnEvent(Number(f[1..])))
    else Bad
  }

  /** The packets and the events in a list of frames, up to the first bad one. */
  function Sorted(frames: seq<Bytes>): (seq<Bytes>, seq<nat>) {
    if frames == [] then ([], [])
    else
      var (packets, events) := Sorted(frames[1..]);
      match ItemOf(frames[0])
      case APacket(p) => ([p] + packets, events)
      case AnEvent(e) => (packets, [e] + events)
      case Bad => ([], [])
  }

  ghost predicate AllGood(frames: seq<Bytes>) {
    forall f :: f in frames ==> Sendable(f) && !ItemOf(f).Bad?
  }

  lemma {:induction false} SortedExtends(frames: seq<Bytes>, f: Bytes)
    requires AllGood(frames) && Sendable(f) && !ItemOf(f).Bad?
    ensures AllGood(frames + [f])
    ensures Sorted(frames + [f]).0 == Sorted(frames).0 + (if ItemOf(f).APacket? then [ItemOf(f).p] else [])
    ensures Sorted(frames + [f]).1 == Sorted(frames).1 + (if ItemOf(f).AnEvent? then [ItemOf(f).code] else [])
  {
    if frames == [] {
      assert Sorted([f][1..]) == ([], []);
    } else {
      assert (frames + [f])[1..] == frames[1..] + [f] && (frames + [f])[0] == frames[0];
      assert frames[0] in frames;
      SortedExtends(frames[1..], f);
    }
  }

  lemma {:induction false} SortedPrefix(frames: seq<Bytes>, n: nat)
    requires AllGood(frames) && n <= |frames|
    ensures Sorted(frames[..n]).0 <= Sorted(frames).0 && Sorted(frames[..n]).1 <= Sorted(frames).1
  {
    if n > 0 {
      SortedPrefix(frames[1..], n - 1);
      assert frames[..n][1..] == frames[1..][..n - 1];
      assert ItemOf(frames[0]) == ItemOf(frames[..n][0]);
      assert frames[0] in frames;
    }
  }

  lemma DeviceFrame(p: Bytes, local: Bytes, peer: Bytes)
    requires |p| <= MAX_PACKET && ValidPacket(p, local, peer)
    ensures DeviceLoop(local, peer).Sends([PACKET] + p) && ItemOf([PACKET] + p) == APacket(p)
  {
    assert ([PACKET] + p)[1..] == p;
  }

  lemma EventFrame(e: int)
    ensures var f := [EVENT] + BigEndian(e % 0x1_0000_0000, HEADER);
      EventLoop.Sends(f) && ItemOf(f) == AnEvent(e % 0x1_0000_0000)
  {
    var n := e % 0x1_0000_0000;
    assert Power(4) == 0x1_0000_0000;
    NumberOfBigEndian(n, HEADER);
    assert ([EVENT] + BigEndian(n, HEADER))[1..] == BigEndian(n, HEADER);
  }

  // ----- From the device to the unprivileged side -----

  lemma WireGrows(w: Wire, writer: Writer, frame: Bytes) returns (w': Wire)
    requires w.Ok() && w.MaySend(writer) && writer.Sends(frame)
    ensures w' == if w.left == None then w.(frames := w.frames + [frame]) else w.(later := w.later + [frame])
    ensures w'.Ok() && w'.Written() == w.Written() + Encoded(frame) && w'.Sent() == w.Sent() + [frame]
  {
    if w.left == None {
      w' := w.(frames := w.frames + [frame]);
      StreamExtends(w.frames, frame);
      assert Behind([], [], []) == [];
    } else {
      w' := FragmentGrows(w, writer, frame);
    }
  }

  lemma FragmentGrows(w: Wire, writer: Writer, frame: Bytes) returns (w': Wire)
    requires w.Ok() && w.MaySend(writer) && writer.Sends(frame) && w.left != None
    ensures w' == w.(later := w.later + [frame])
    ensures w'.Ok() && w'.Written() == w.Written() + Encoded(frame) && w'.Sent() == w.Sent() + [frame]
  {
    w' := w.(later := w.later + [frame]);
    StreamExtends(w.later, frame);
  }

  lemma WireCut(w: Wire, writer: Writer, other: Writer, frame: Bytes, cut: Bytes) returns (w': Wire)
    requires w.Ok() && w.MaySend(writer) && writer.Sends(frame) && IsCut(cut, frame) && other.Proper()
    ensures w' == if w.left == None then w.(tail := cut, left := Some(other)) else w.(tail2 := cut)
    ensures w'.Ok() && w'.Written() == w.Written() + cut && w'.Sent() == w.Sent()
  {
    if w.left == None {
      w' := w.(tail := cut, left := Some(other));
    } else {
      w' := w.(tail2 := cut);
      assert writer.Cuts(cut);
    }
  }

  /** One frame under writeMu. */
  method Send(c: Conn, frame: Bytes, ghost w: Wire, ghost writer: Writer, ghost other: Writer, ghost base: Bytes)
    returns (ok: bool, ghost w': Wire)
    requires w.Ok() && c.outbound == base + w.Written()
    requires w.MaySend(writer) && Sendable(frame) && writer.Sends(frame) && other.Proper()
    modifies c`outbound, c`faults
    ensures w'.Ok() && c.outbound == base + w'.Written()
    ensures c.faults == old(c.faults) + (if ok then 0 else 1)
    ensures w'.Sent() == if ok then w.Sent() + [frame] else w.Sent()
    ensures ok ==> w'.left == w.left && w'.tail2 == w.tail2
    ensures !ok ==> w'.left == (if w.left == None then Some(other) else w.left)
    ensures !ok && w.left == None ==> w'.tail2 == []
  {
    hide Stream, Frames, CutShort, Writer.Continues, Writer.Sends, Wire.Written;
    ghost var tail;
    ok, tail := WriteFrame(c, frame);
    if ok {
      w' := WireGrows(w, writer, frame);
    } else {
      w' := WireCut(w, writer, other, frame, tail);
    }
  }

  /** What the loops of bridge have to show for the packets and events they have taken. */
  ghost predicate Carries(w: Wire, packets: seq<Bytes>, events: seq<int>, local: Bytes, peer: Bytes) {
    && w.Ok() && AllGood(w.Sent())
    && Sorted(w.Sent()) == (ValidOnes(packets, local, peer), Codes(events))
  }

  /** A loop still runs: no send failed before, or the other loop's did. */
  predicate Running(w: Wire, device: bool, events: bool, local: Bytes, peer: Bytes) {
    && (device ==> w.MaySend(DeviceLoop(local, peer)))
    && (events ==> w.MaySend(EventLoop))
    && (device && events ==> w.left == None)
  }

  lemma PacketCarried(w: Wire, w': Wire, packets: seq<Bytes>, i: nat, taken: seq<int>, local: Bytes, peer: Bytes)
    requires i < |packets| && ValidPacket(packets[i], local, peer) && |packets[i]| <= MAX_PACKET
    requires Carries(w, packets[..i], taken, local, peer) && w'.Ok() && w'.Sent() == w.Sent() + [[PACKET] + packets[i]]
    ensures Carries(w', packets[..i + 1], taken, local, peer)
  {
    hide Stream, Frames, CutShort, Writer.Continues, Sorted;
    assert packets[..i + 1][..i] == packets[..i];
    DeviceFrame(packets[i], local, peer);
    SortedExtends(w.Sent(), [PACKET] + packets[i]);
    assert Codes(taken) + [] == Codes(taken);
  }

  lemma EventCarried(w: Wire, w': Wire, taken: seq<Bytes>, events: seq<int>, j: nat, local: Bytes, peer: Bytes)
    requires j < |events| && Carries(w, taken, events[..j], local, peer) && w'.Ok()
    requires w'.Sent() == w.Sent() + [[EVENT] + BigEndian(events[j] % 0x1_0000_0000, HEADER)]
    ensures Carries(w', taken, events[..j + 1], local, peer)
  {
    hide Stream, Frames, CutShort, Writer.Continues, Sorted, ValidOnes;
    EventFrame(events[j]);
    SortedExtends(w.Sent(), [EVENT] + BigEndian(events[j] % 0x1_0000_0000, HEADER));
    assert Codes(events[..j + 1]) == Codes(events[..j]) + [events[j] % 0x1_0000_0000];
    assert ValidOnes(taken, local, peer) + [] == ValidOnes(taken, local, peer);
  }

  /** The next packet of the device loop: a valid one goes out as a frame, another is skipped. */
  method DeviceTurn(c: Conn, packets: seq<Bytes>, i: nat, ghost taken: seq<int>, local: Bytes, peer: Bytes,
                    ghost w: Wire, ghost running: bool, ghost base: Bytes)
    returns (ok: bool, ghost w': Wire)
    requires i < |packets| && |local| == |peer| == 4
    requires Carries(w, packets[..i], taken, local, peer) && c.outbound == base + w.Written()
    requires Running(w, true, running, local, peer)
    modifies c`outbound, c`faults
    ensures Carries(w', packets[..if ok then i + 1 else i], taken, local, peer) && c.outbound == base + w'.Written()
    ensures Running(w', ok, running, local, peer)
    ensures c.faults == old(c.faults) + (if ok then 0 else 1)
  {
    hide Stream, Frames, CutShort, Writer.Continues, Wire.Written, Wire.Ok, Sorted, AllGood;
    var p := packets[i];
    assert packets[..i + 1][..i] == packets[..i] && packets[..i + 1][i] == p;
    if !ValidPacket(p, local, peer) { return true, w; }
    DeviceFrame(p, local, peer);
    ok, w' := Send(c, [PACKET] + p, w, DeviceLoop(local, peer), EventLoop, base);
    if ok { PacketCarried(w, w', packets, i, taken, local, peer); }
  }

  /** The next event of the event loop. */
  method EventTurn(c: Conn, events: seq<int>, j: nat, ghost taken: seq<Bytes>, ghost local: Bytes, ghost peer: Bytes,
                   ghost w: Wire, ghost running: bool, ghost base: Bytes)
    returns (ok: bool, ghost w': Wire)
    requires j < |events| && |local| == |peer| == 4
    requires Carries(w, taken, events[..j], local, peer) && c.outbound == base + w.Written()
    requires Running(w, running, true, local, peer)
    modifies c`outbound, c`faults
    ensures Carries(w', taken, events[..if ok then j + 1 else j], local, peer) && c.outbound == base + w'.Written()
    ensures Running(w', running, ok, local, peer)
    ensures c.faults == old(c.faults) + (if ok then 0 else 1)
  {
    hide Stream, Frames, CutShort, Writer.Continues, Wire.Written, Wire.Ok, Sorted, AllGood;
    var done := c.Interrupted();
    if done { return false, w; }
    var e := events[j];
    var frame := [EVENT] + BigEndian(e % 0x1_0000_0000, HEADER);
    EventFrame(e);
    ok, w' := Send(c, frame, w, EventLoop, DeviceLoop(local, peer), base);
    if ok { EventCarried(w, w', taken, events, j, local, peer); }
  }

  /**
  The two loops of bridge that write on the connection, in any interleaving. Each
  ends on its own failure only, so the other one may go on behind a partial frame;
  `device` and `event` say which has not failed.
  */
  method BridgeOut(c: Conn, packets: seq<Bytes>, events: seq<int>, local: Bytes, peer: Bytes)
    returns (ghost w: Wire, ghost device: bool, ghost event: bool)
    requires |local| == |peer| == 4
    modifies c`outbound, c`faults
    ensures w.Ok() && AllGood(w.Sent()) && c.outbound == old(c.outbound) + w.Written()
    ensures Sorted(w.Sent()).0 <= ValidOnes(packets, local, peer) && Sorted(w.Sent()).1 <= Codes(events)
    ensures c.faults == old(c.faults) + (if device then 0 else 1) + (if event then 0 else 1)
    ensures device ==> Sorted(w.Sent()).0 == ValidOnes(packets, local, peer)
    ensures event ==> Sorted(w.Sent()).1 == Codes(events)
    ensures device && event ==> w.left == None
  {
    hide Stream, Frames, CutShort, Writer.Continues, Sorted, AllGood, ValidOnes;
    w := Wire([], [], [], [], None);
    var i, j, deviceRuns, eventRuns := 0, 0, true, true;
    device, event := true, true;
    NothingYet(local, peer);
    while (deviceRuns && i < |packets|) || (eventRuns && j < |events|)
      invariant i <= |packets| && j <= |events| && device == deviceRuns && event == eventRuns
      invariant Carries(w, packets[..i], events[..j], local, peer) && c.outbound == old(c.outbound) + w.Written()
      invariant Running(w, device, event, local, peer)
      invariant c.faults == old(c.faults) + (if device then 0 else 1) + (if event then 0 else 1)
      decreases |packets| - i + |events| - j + (if device then 1 else 0) + (if event then 1 else 0)
    {
      var turn: bool := *;
      if deviceRuns && i < |packets| && (turn || !eventRuns || j == |events|) {
        deviceRuns, w := DeviceTurn(c, packets, i, events[..j], local, peer, w, event, old(c.outbound));
        device := deviceRuns;
        i := if deviceRuns then i + 1 else i;
      } else {
        eventRuns, w := EventTurn(c, events, j, packets[..i], local, peer, w, device, old(c.outbound));
        event := eventRuns;
        j := if eventRuns then j + 1 else j;
      }
    }
    ValidOnesGrow(packets[..i], packets[i..], local, peer);
    assert packets[..i] + packets[i..] == packets;
    assert Codes(events[..j]) == Codes(events)[..j];
    if device { assert packets[..i] == packets; }
    if event { assert events[..j] == events; }
  }

  lemma NothingYet(local: Bytes, peer: Bytes)
    ensures Carries(Wire([], [], [], [], None), [], [], local, peer) && Wire([], [], [], [], None).Written() == []
  {
    assert Stream([]) == [] && Behind([], [], []) == [];
  }

  /** What is still to come from s, after what has been received already. */
  function WithRest(packets: seq<Bytes>, events: seq<nat>, s: Bytes): (seq<Bytes>, seq<nat>) {
    var rest := Sorted(Frames(s, LIMIT));
    (packets + rest.0, events + rest.1)
  }

  lemma NextItem(packets: seq<Bytes>, events: seq<nat>, s: Bytes)
    ensures WithRest(packets, events, s) ==
      match Decoded(s, LIMIT)
      case None => (packets, events)
      case Some((f, rest)) =>
        match ItemOf(f)
        case APacket(p) => WithRest(packets + [p], events, rest)
        case AnEvent(e) => WithRest(packets, events + [e], rest)
        case Bad => (packets, events)
  {
    assert packets + [] == packets && events + [] == events;
    match Decoded(s, LIMIT)
    case None =>
    case Some((f, rest)) =>
      var fs := Frames(rest, LIMIT);
      assert ([f] + fs)[1..] == fs;
      match ItemOf(f)
      case APacket(p) => assert packets + ([p] + Sorted(fs).0) == packets + [p] + Sorted(fs).0;
      case AnEvent(e) => assert events + ([e] + Sorted(fs).1) == events + [e] + Sorted(fs).1;
      case Bad =>
  }

  /** proxy.receive, until the stream fails, a bad frame comes or the proxy is closed. */
  method Receive(c: Conn) returns (packets: seq<Bytes>, events: seq<nat>, closed: bool)
    modifies c`inbound, c`faults
    ensures c.faults >= old(c.faults) && (closed <==> c.faults > old(c.faults))
    ensures packets <= Sorted(Frames(old(c.inbound), LIMIT)).0 && events <= Sorted(Frames(old(c.inbound), LIMIT)).1
    ensures !closed ==> (packets, events) == Sorted(Frames(old(c.inbound), LIMIT))
  {
    packets, events, closed := [], [], false;
    ghost var all := WithRest([], [], c.inbound);
    assert [] + Sorted(Frames(c.inbound, LIMIT)).0 == Sorted(Frames(c.inbound, LIMIT)).0;
    assert [] + Sorted(Frames(c.inbound, LIMIT)).1 == Sorted(Frames(c.inbound, LIMIT)).1;
    while true
      invariant !closed && all == WithRest(packets, events, c.inbound) && c.faults == old(c.faults)
      decreases |c.inbound|
    {
      closed := c.Interrupted();
      if closed { return; }
      NextItem(packets, events, c.inbound);
      var ok, f := ReadFrame(c, LIMIT);
      if !ok { return; }
      match ItemOf(f)
      case APacket(p) => packets := packets + [p];
      case AnEvent(e) => events := events + [e];
      case Bad => return;
    }
  }

  /** Of an intact wire, the part that arrived holds the first packets and events; the whole holds all of them. */
  lemma ArrivesInOrder(w: Wire, k: nat)
    requires w.Ok() && AllGood(w.Sent()) && w.Intact() && k <= |w.Written()|
    ensures var got := Sorted(Frames(w.Written()[..k], LIMIT));
      got.0 <= Sorted(w.Sent()).0 && got.1 <= Sorted(w.Sent()).1
    ensures k == |w.Written()| && w.left == None ==> Frames(w.Written()[..k], LIMIT) == w.Sent()
  {
    hide Stream, Frames, Sorted, AllGood, Writer.Continues, CutShort;
    IntactReadsSent(w, k);
    var got := Frames(w.Written()[..k], LIMIT);
    assert got == w.Sent()[..|got|];
    SortedPrefix(w.Sent(), |got|);
    if k == |w.Written()| && w.left == None {
      AllIsRead(w.frames);
      assert w.Written()[..k] == w.Written();
    }
  }

  lemma AllIsRead(frames: seq<Bytes>)
    requires AllSendable(frames)
    ensures Frames(Stream(frames) + Behind([], [], []), LIMIT) == frames
  {
    assert IsCut([], [PACKET]) && Behind([], [], []) == [];
    StreamReadsBack(frames, []);
  }

  /**
  Valid device packets and events come out of the proxy identical and in order: all
  of them if everything arrived, else the first ones, if the wire is intact. Without
  faults it always is; after a partial frame, exactly if the frame is harmless or
  nothing was sent behind it.
  */
  method DeviceToProxy(helper: Conn, proxy: Conn, packetsRead: seq<Bytes>, events: seq<int>,
                       local: Bytes, peer: Bytes, arrived: nat)
    returns (packets: seq<Bytes>, codes: seq<nat>, ghost w: Wire)
    requires helper != proxy && |local| == |peer| == 4
    modifies helper`outbound, helper`faults, proxy`inbound, proxy`faults
    ensures w.Ok() && helper.outbound == old(helper.outbound) + w.Written()
    ensures Sorted(w.Sent()).0 <= ValidOnes(packetsRead, local, peer) && Sorted(w.Sent()).1 <= Codes(events)
    ensures w.Intact() ==> packets <= ValidOnes(packetsRead, local, peer) && codes <= Codes(events)
    ensures helper.faults == old(helper.faults) ==> w.Intact()
    ensures helper.faults == old(helper.faults) && proxy.faults == old(proxy.faults) && arrived >= |w.Written()| ==>
      packets == ValidOnes(packetsRead, local, peer) && codes == Codes(events)
  {
    hide Stream, Frames, Sorted, AllGood, ValidOnes, Writer.Continues, CutShort;
    var start := |helper.outbound|;
    ghost var device, event;
    w, device, event := BridgeOut(helper, packetsRead, events, local, peer);
    var written := helper.outbound[start..];
    assert written == w.Written();
    var k := if arrived < |written| then arrived else |written|;
    proxy.inbound := written[..k];
    if w.Intact() { ArrivesInOrder(w, k); }
    var closed;
    packets, codes, closed := Receive(proxy);
  }

  datatype ReadResult = Delivered(p: Bytes) | ShortBuffer | InvalidBuffers | NothingLeft

  /** proxy.Read on a queue of received packets: one that does not fit the buffer is dropped. */
  method ProxyRead(queue: seq<Bytes>, length: nat, offset: int) returns (r: ReadResult, queue': seq<Bytes>)
    ensures r.InvalidBuffers? <==> !(0 <= offset <= length)
    ensures r.NothingLeft? ==> queue == [] == queue'
    ensures r.InvalidBuffers? ==> queue' == queue
    ensures r.Delivered? || r.ShortBuffer? ==> queue != [] && queue' == queue[1..]
    ensures r.Delivered? ==> r.p == queue[0] && |r.p| <= length - offset
    ensures r.ShortBuffer? ==> |queue[0]| > length - offset
  {
    if offset < 0 || offset > length { return InvalidBuffers, queue; }
    if queue == [] { return NothingLeft, queue; }
    if |queue[0]| > length - offset { return ShortBuffer, queue[1..]; }
    return Delivered(queue[0]), queue[1..];
  }

  /** Reading on with a buffer that takes the largest packet yields every packet, in order. */
  method ReadThrough(queue: seq<Bytes>, length: nat, offset: int) returns (out: seq<Bytes>)
    requires 0 <= offset <= length && forall p :: p in queue ==> |p| <= length - offset
    ensures out == queue
  {
    out := [];
    var left := queue;
    while left != []
      invariant out + left == queue && forall p :: p in left ==> |p| <= length - offset
      decreases |left|
    {
      var r;
      r, left := ProxyRead(left, length, offset);
      out := out + [r.p];
    }
  }

  // ----- From the unprivileged side to the device -----

  function PacketFrames(ps: seq<Bytes>): (fs: seq<Bytes>)
    ensures |fs| == |ps| && forall i :: 0 <= i < |ps| ==> fs[i] == [PACKET] + ps[i]
  {
    seq(|ps|, i requires 0 <= i < |ps| => [PACKET] + ps[i])
  }

  /** What one call of proxy.Write has put out: whole packets, and part of one more after an error. */
  datatype Chunk = Chunk(packets: seq<Bytes>, tail: Bytes) {
    ghost predicate Ok() { AllSendable(PacketFrames(packets)) && CutShort(tail) }

    ghost function Written(): Bytes
      requires Ok()
    {
      Stream(PacketFrames(packets)) + tail
    }
  }

  ghost predicate AllOk(chunks: seq<Chunk>) { forall chunk :: chunk in chunks ==> chunk.Ok() }

  ghost function ChunkBytes(chunks: seq<Chunk>): Bytes
    requires AllOk(chunks)
  {
    if chunks == [] then [] else chunks[0].Written() + ChunkBytes(chunks[1..])
  }

  function ChunkPackets(chunks: seq<Chunk>): seq<Bytes> {
    if chunks == [] then [] else chunks[0].packets + ChunkPackets(chunks[1..])
  }

  /** Nothing follows the first partial frame, or it is one that does no harm. */
  ghost predicate Unspoilt(chunks: seq<Chunk>)
    requires AllOk(chunks)
  {
    chunks == [] || ChunkBytes(chunks[1..]) == [] || chunks[0].tail == [0, 0, 0]
    || (chunks[0].tail == [] && Unspoilt(chunks[1..]))
  }

  lemma PacketFramesJoin(ps: seq<Bytes>, qs: seq<Bytes>)
    ensures PacketFrames(ps + qs) == PacketFrames(ps) + PacketFrames(qs)
  {}

  lemma {:induction false} ChunksBeginWithZero(chunks: seq<Chunk>)
    requires AllOk(chunks) && ChunkBytes(chunks) != []
    ensures ChunkBytes(chunks)[0] == 0
  {
    var frames, tail := PacketFrames(chunks[0].packets), chunks[0].tail;
    assert chunks[0].Ok();
    if frames != [] {
      StreamSplits(frames, tail);
      HeaderBytes(frames[0]);
      assert Encoded(frames[0])[..HEADER][0] == 0;
    } else if tail != [] {
      var f :| IsCut(tail, f);
      HeaderBytes(f);
      assert Encoded(f)[..HEADER][0] == 0;
    } else {
      assert Stream([]) + [] == [];
      ChunksBeginWithZero(chunks[1..]);
    }
  }

  /** However much has arrived, the frames read are those of the packets reported as written, or the first of them. */
  lemma {:induction false} ChunksReadInOrder(chunks: seq<Chunk>, k: nat)
    requires AllOk(chunks) && Unspoilt(chunks) && k <= |ChunkBytes(chunks)|
    ensures Frames(ChunkBytes(chunks)[..k], LIMIT) <= PacketFrames(ChunkPackets(chunks))
    decreases |chunks|, 1
  {
    hide Stream, CutShort, IsCut, Encoded;
    if chunks != [] {
      var frames, tail, more := PacketFrames(chunks[0].packets), chunks[0].tail, ChunkBytes(chunks[1..]);
      assert chunks[0].Ok();
      var n := |Stream(frames)|;
      assert ChunkBytes(chunks) == Stream(frames) + (tail + more);
      ArrivedPart(frames, tail + more, k);
      PacketFramesJoin(chunks[0].packets, ChunkPackets(chunks[1..]));
      if k < n {
        PrefixExtends(Frames(ChunkBytes(chunks)[..k], LIMIT), frames, PacketFrames(ChunkPackets(chunks[1..])));
      } else {
        BehindFirstChunk(chunks, k - n);
        PrefixOfSum(frames, Frames((tail + more)[..k - n], LIMIT), PacketFrames(ChunkPackets(chunks[1..])));
      }
    }
  }

  lemma {:induction false} BehindFirstChunk(chunks: seq<Chunk>, k: nat)
    requires chunks != [] && AllOk(chunks) && Unspoilt(chunks) && k <= |chunks[0].tail + ChunkBytes(chunks[1..])|
    ensures Frames((chunks[0].tail + ChunkBytes(chunks[1..]))[..k], LIMIT) <= PacketFrames(ChunkPackets(chunks[1..]))
    decreases |chunks|, 0
  {
    hide Stream, IsCut, Encoded;
    var tail, more := chunks[0].tail, ChunkBytes(chunks[1..]);
    assert chunks[0].Ok();
    if more == [] {
      assert tail + more == tail;
      NoFrameInTail(tail, k);
    } else if tail == [0, 0, 0] {
      ChunksBeginWithZero(chunks[1..]);
      ZeroHeader((tail + more)[..k]);
    } else {
      assert tail + more == more;
      ChunksReadInOrder(chunks[1..], k);
    }
  }

  /** Without partial frames, everything is read once it has arrived. */
  lemma {:induction false} WholeChunksReadBack(chunks: seq<Chunk>)
    requires AllOk(chunks) && forall chunk :: chunk in chunks ==> chunk.tail == []
    ensures Unspoilt(chunks) && Frames(ChunkBytes(chunks), LIMIT) == PacketFrames(ChunkPackets(chunks))
  {
    hide Stream, CutShort, IsCut, Encoded;
    if chunks != [] {
      var frames, more := PacketFrames(chunks[0].packets), ChunkBytes(chunks[1..]);
      assert chunks[0] in chunks;
      assert ChunkBytes(chunks) == Stream(frames) + more;
      StreamReadsOn(frames, more);
      PacketFramesJoin(chunks[0].packets, ChunkPackets(chunks[1..]));
      WholeChunksReadBack(chunks[1..]);
    }
  }

  lemma {:induction false} ChunkBytesExtend(chunks: seq<Chunk>, chunk: Chunk)
    requires AllOk(chunks) && chunk.Ok()
    ensures AllOk(chunks + [chunk]) && ChunkBytes(chunks + [chunk]) == ChunkBytes(chunks) + chunk.Written()
  {
    hide Chunk.Ok, Chunk.Written, Stream;
    if chunks == [] {
      assert ChunkBytes([chunk]) == chunk.Written() + [];
    } else {
      assert (chunks + [chunk])[1..] == chunks[1..] + [chunk];
      ChunkBytesExtend(chunks[1..], chunk);
    }
  }

  predicate PacketFrame(f: Bytes, source: Bytes, destination: Bytes) {
    |f| >= 2 && f[0] == PACKET && ValidPacket(f[1..], source, destination)
  }

  /** The packets in the frames before the first that holds no valid one. */
  function ValidPrefix(frames: seq<Bytes>, source: Bytes, destination: Bytes): (ps: seq<Bytes>)
    ensures forall p :: p in ps ==> ValidPacket(p, source, destination)
    ensures |ps| <= |frames| && forall i :: 0 <= i < |ps| ==> frames[i] == [PACKET] + ps[i]
    ensures |ps| < |frames| ==> !PacketFrame(frames[|ps|], source, destination)
  {
    if frames == [] || !PacketFrame(frames[0], source, destination) then []
    else
      assert frames[0] == [PACKET] + frames[0][1..];
      [frames[0][1..]] + ValidPrefix(frames[1..], source, destination)
  }

  /** The packets that a stream still holds for the device. */
  function ToCome(s: Bytes, source: Bytes, destination: Bytes): seq<Bytes> {
    ValidPrefix(Frames(s, LIMIT), source, destination)
  }

  lemma NextToCome(s: Bytes, source: Bytes, destination: Bytes)
    ensures var d := Decoded(s, LIMIT);
      if d.Some? && PacketFrame(d.value.0, source, destination)
      then ToCome(s, source, destination) == [d.value.0[1..]] + ToCome(d.value.1, source, destination)
      else ToCome(s, source, destination) == []
  {
    hide ValidPacket;
    var d := Decoded(s, LIMIT);
    if d.Some? {
      var more := Frames(d.value.1, LIMIT);
      assert Frames(s, LIMIT) == [d.value.0] + more && ([d.value.0] + more)[1..] == more;
    }
  }

  /** The connection loop of bridge: packets are written until the first frame that is not a valid one from the peer. */
  method ToDevice(c: Conn, local: Bytes, peer: Bytes) returns (written: seq<Bytes>, failed: bool)
    modifies c`inbound, c`faults
    ensures c.faults >= old(c.faults) && (failed <==> c.faults > old(c.faults))
    ensures written <= ToCome(old(c.inbound), peer, local)
    ensures !failed ==> written == ToCome(old(c.inbound), peer, local)
    ensures forall p :: p in written ==> ValidPacket(p, peer, local)
  {
    hide ToCome, Frames, ValidPacket, Encoded, Stream;
    written, failed := [], false;
    ghost var all := ToCome(c.inbound, peer, local);
    while true
      invariant c.faults == old(c.faults) && forall p :: p in written ==> ValidPacket(p, peer, local)
      invariant !failed && all == written + ToCome(c.inbound, peer, local)
      decreases |c.inbound|
    {
      NextToCome(c.inbound, peer, local);
      var ok, f := ReadFrame(c, LIMIT);
      if !ok { return; }
      if |f| < 2 || f[0] != PACKET || !ValidPacket(f[1..], peer, local) { return; }
      failed := c.Interrupted();
      if failed { return; }
      written := written + [f[1..]];
    }
  }

  /** proxy.Write of several packets: how many are out, and what of them and the next one. */
  method ProxyWrite(c: Conn, ps: seq<Bytes>) returns (n: nat, ghost chunk: Chunk)
    modifies c`outbound, c`faults
    ensures n <= |ps| && c.faults >= old(c.faults)
    ensures c.faults == old(c.faults) + (if n < |ps| && |ps[n]| <= MAX_PACKET then 1 else 0)
    ensures c.faults > old(c.faults) ==> n < |ps| && IsCut(chunk.tail, [PACKET] + ps[n])
    ensures n < |ps| && c.faults == old(c.faults) ==> |ps[n]| > MAX_PACKET
    ensures chunk.Ok() && chunk.packets == ps[..n] && (c.faults == old(c.faults) ==> chunk.tail == [])
    ensures c.outbound == old(c.outbound) + chunk.Written()
  {
    hide IsCut, CutShort, Encoded, PacketFrames, Stream;
    n := 0;
    chunk := NoChunk();
    while n < |ps|
      invariant n <= |ps| && chunk.Ok() && chunk.packets == ps[..n] && chunk.tail == []
      invariant c.faults == old(c.faults) && c.outbound == old(c.outbound) + chunk.Written()
    {
      if |ps[n]| > MAX_PACKET { break; }
      var ok;
      ghost var tail;
      ok, tail := WriteFrame(c, [PACKET] + ps[n]);
      if !ok {
        chunk := ChunkCut(chunk, [PACKET] + ps[n], tail);
        return;
      }
      chunk := ChunkGrows(chunk, ps[n]);
      n := n + 1;
      assert ps[..n] == ps[..n - 1] + [ps[n - 1]];
    }
  }

  lemma NoChunk() returns (chunk: Chunk)
    ensures chunk == Chunk([], []) && chunk.Ok() && chunk.Written() == []
  {
    chunk := Chunk([], []);
    assert IsCut([], [PACKET]) && Stream(PacketFrames([])) == [];
  }

  lemma ChunkCut(chunk: Chunk, f: Bytes, tail: Bytes) returns (chunk': Chunk)
    requires chunk.Ok() && chunk.tail == [] && IsCut(tail, f)
    ensures chunk' == chunk.(tail := tail) && chunk'.Ok() && chunk'.Written() == chunk.Written() + tail
  {
    chunk' := chunk.(tail := tail);
  }

  lemma ChunkGrows(chunk: Chunk, p: Bytes) returns (chunk': Chunk)
    requires chunk.Ok() && chunk.tail == [] && |p| <= MAX_PACKET
    ensures chunk' == Chunk(chunk.packets + [p], []) && chunk'.Ok()
    ensures chunk'.Written() == chunk.Written() + Encoded([PACKET] + p)
  {
    chunk' := Chunk(chunk.packets + [p], []);
    StreamExtends(PacketFrames(chunk.packets), [PACKET] + p);
    PacketFramesJoin(chunk.packets, [p]);
    assert PacketFrames([p]) == [[PACKET] + p];
  }

  lemma NothingCalled(calls: seq<seq<Bytes>>)
    ensures ChunkBytes([]) == [] && Called(calls[..0], [], [], 0)
  {}

  /** Each call reported the number of packets its chunk has whole. */
  predicate Reports(calls: seq<seq<Bytes>>, counts: seq<nat>, chunks: seq<Chunk>) {
    && |counts| == |chunks| == |calls|
    && forall i :: 0 <= i < |calls| ==> counts[i] <= |calls[i]| && chunks[i].packets == calls[i][..counts[i]]
  }

  /** A call that did not write all its packets met one that is too large. */
  predicate StoppedBySize(calls: seq<seq<Bytes>>, counts: seq<nat>)
    requires |counts| == |calls|
  {
    forall i :: 0 <= i < |calls| && counts[i] < |calls[i]| ==> |calls[i][counts[i]]| > MAX_PACKET
  }

  /** How many calls stopped short for another reason than size. */
  function Failures(calls: seq<seq<Bytes>>, counts: seq<nat>): nat
    requires |counts| == |calls|
  {
    if calls == [] then 0 else
      var i := |calls| - 1;
      var failed := counts[i] < |calls[i]| && |calls[i][counts[i]]| <= MAX_PACKET;
      Failures(calls[..i], counts[..i]) + (if failed then 1 else 0)
  }

  /** What so many calls, with so many failures among them, have reported and put out. */
  ghost predicate Called(calls: seq<seq<Bytes>>, counts: seq<nat>, chunks: seq<Chunk>, failures: int) {
    && Reports(calls, counts, chunks) && failures == Failures(calls, counts)
    && (failures == 0 ==> StoppedBySize(calls, counts) && forall chunk :: chunk in chunks ==> chunk.tail == [])
  }

  lemma OneMoreCall(calls: seq<seq<Bytes>>, counts: seq<nat>, chunks: seq<Chunk>, failures: int, n: nat, chunk: Chunk)
    requires |counts| < |calls| && Called(calls[..|counts|], counts, chunks, failures)
    requires n <= |calls[|counts|]| && chunk.packets == calls[|counts|][..n]
    requires var failed := n < |calls[|counts|]| && |calls[|counts|][n]| <= MAX_PACKET; !failed ==> chunk.tail == []
    ensures var failed := n < |calls[|counts|]| && |calls[|counts|][n]| <= MAX_PACKET;
      Called(calls[..|counts| + 1], counts + [n], chunks + [chunk], failures + if failed then 1 else 0)
  {
    var k := |counts|;
    assert (counts + [n])[..k] == counts && calls[..k + 1][..k] == calls[..k];
    assert forall i :: 0 <= i < k ==> calls[..k + 1][i] == calls[..k][i];
  }

  /** Calls of proxy.Write one after another; an error of one does not close the connection. */
  method ProxyWrites(c: Conn, calls: seq<seq<Bytes>>) returns (counts: seq<nat>, ghost chunks: seq<Chunk>)
    modifies c`outbound, c`faults
    ensures AllOk(chunks) && Reports(calls, counts, chunks)
    ensures c.faults == old(c.faults) + Failures(calls, counts)
    ensures c.outbound == old(c.outbound) + ChunkBytes(chunks)
    ensures c.faults == old(c.faults) ==> forall chunk :: chunk in chunks ==> chunk.tail == []
    ensures c.faults == old(c.faults) ==> StoppedBySize(calls, counts)
  {
    counts, chunks := [], [];
    NothingCalled(calls);
    hide Stream, CutShort, Chunk.Written, Chunk.Ok, ChunkBytes, Failures, IsCut, Reports, StoppedBySize, Called;
    while |counts| < |calls|
      invariant |counts| <= |calls| && AllOk(chunks)
      invariant Called(calls[..|counts|], counts, chunks, c.faults - old(c.faults))
      invariant c.outbound == old(c.outbound) + ChunkBytes(chunks)
    {
      ghost var out;
      counts, chunks, out := NextCall(c, calls, counts, chunks, c.faults - old(c.faults));
    }
    assert calls[..|calls|] == calls;
    CalledMeans(calls, counts, chunks, c.faults - old(c.faults));
  }

  method NextCall(c: Conn, calls: seq<seq<Bytes>>, counts: seq<nat>, ghost chunks: seq<Chunk>, ghost failures: int)
    returns (counts': seq<nat>, ghost chunks': seq<Chunk>, ghost out: Bytes)
    requires |counts| < |calls| && AllOk(chunks) && Called(calls[..|counts|], counts, chunks, failures)
    modifies c`outbound, c`faults
    ensures |counts'| == |counts| + 1 && AllOk(chunks')
    ensures Called(calls[..|counts'|], counts', chunks', failures + c.faults - old(c.faults))
    ensures c.outbound == old(c.outbound) + out && ChunkBytes(chunks') == ChunkBytes(chunks) + out
  {
    hide Stream, CutShort, Chunk.Written, Chunk.Ok, ChunkBytes, IsCut, Called;
    ghost var chunk;
    var n;
    n, chunk := ProxyWrite(c, calls[|counts|]);
    ChunkBytesExtend(chunks, chunk);
    OneMoreCall(calls, counts, chunks, failures, n, chunk);
    counts', chunks', out := counts + [n], chunks + [chunk], chunk.Written();
  }

  lemma CalledMeans(calls: seq<seq<Bytes>>, counts: seq<nat>, chunks: seq<Chunk>, failures: int)
    requires Called(calls, counts, chunks, failures)
    ensures Reports(calls, counts, chunks) && failures == Failures(calls, counts)
    ensures failures == 0 ==> StoppedBySize(calls, counts) && forall chunk :: chunk in chunks ==> chunk.tail == []
  {}

  /**
  What reaches the device is what the user side was told is written, in order, or the
  first part of it, unless something follows a harmful partial frame; and only valid
  packets reach it in any case. Without faults all of it does.
  */
  method ProxyToDevice(proxy: Conn, helper: Conn, calls: seq<seq<Bytes>>, local: Bytes, peer: Bytes, arrived: nat)
    returns (counts: seq<nat>, written: seq<Bytes>, ghost chunks: seq<Chunk>)
    requires proxy != helper
    modifies proxy`outbound, proxy`faults, helper`inbound, helper`faults
    ensures AllOk(chunks) && Reports(calls, counts, chunks)
    ensures proxy.outbound == old(proxy.outbound) + ChunkBytes(chunks)
    ensures forall p :: p in written ==> ValidPacket(p, peer, local)
    ensures Unspoilt(chunks) ==> written <= ChunkPackets(chunks)
    ensures proxy.faults == old(proxy.faults) ==> Unspoilt(chunks)
    ensures proxy.faults == old(proxy.faults) ==> StoppedBySize(calls, counts)
    ensures
      && (forall p :: p in ChunkPackets(chunks) ==> ValidPacket(p, peer, local))
      && proxy.faults == old(proxy.faults) && helper.faults == old(helper.faults) && arrived >= |ChunkBytes(chunks)|
      ==> written == ChunkPackets(chunks)
  {
    hide Stream, CutShort, Chunk.Written, Unspoilt, Chunk.Ok, ChunkBytes, ValidPacket, Frames;
    var start := |proxy.outbound|;
    counts, chunks := ProxyWrites(proxy, calls);
    var out := proxy.outbound[start..];
    assert out == ChunkBytes(chunks);
    var k := if arrived < |out| then arrived else |out|;
    if proxy.faults == old(proxy.faults) { WholeChunksReadBack(chunks); }
    if Unspoilt(chunks) {
      ChunksReadInOrder(chunks, k);
      PrefixOfPackets(Frames(out[..k], LIMIT), ChunkPackets(chunks), peer, local);
    }
    assert out[..|out|] == out;
    helper.inbound := out[..k];
    var failed;
    written, failed := ToDevice(helper, local, peer);
  }

  /** The first frames of valid packets hold just these packets. */
  lemma PrefixOfPackets(frames: seq<Bytes>, ps: seq<Bytes>, source: Bytes, destination: Bytes)
    requires frames <= PacketFrames(ps)
    ensures ValidPrefix(frames, source, destination) <= ps
    ensures frames == PacketFrames(ps) && (forall p :: p in ps ==> ValidPacket(p, source, destination)) ==>
      ValidPrefix(frames, source, destination) == ps
  {
    var valid := ValidPrefix(frames, source, destination);
    forall i | 0 <= i < |valid| ensures valid[i] == ps[i] {
      assert ([PACKET] + valid[i])[1..] == valid[i] && ([PACKET] + ps[i])[1..] == ps[i];
    }
    assert valid == ps[..|valid|];
    if |valid| < |frames| {
      var p := ps[|valid|];
      assert frames[|valid|] == [PACKET] + p && ([PACKET] + p)[1..] == p && p in ps;
      assert !ValidPacket(p, source, destination);
    }
  }
}
