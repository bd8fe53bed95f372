/**
Sends, arriving packets, receive callbacks, Open, Close and Shutdown running at once
(internal/transport/bind.go).  A process stands between two operations that others
can see: one channel operation, one atomic addition, one load or store of a flag.
*/
module BindTrafficRuns {
  import opened Common
  import opened BindTraffic

  datatype Way = Outward | Inward

  datatype Proc =
    // enqueue
    | EnqCheck(entry: Entry) | EnqPut(entry: Entry)
    // the write of sendOne
    | SendWrite(packet: Bytes)
    // recordSent and recordReceived, for the i-th packet sent or admitted
    | AddTotal(way: Way, i: nat) | AddPath(way: Way, i: nat)
    // the receive callback of a generation
    | RecvCheck(gen: nat, room: nat) | RecvSelect(gen: nat, room: nat) | RecvHold(gen: nat, room: nat, i: nat)
    | RecvGive(gen: nat, i: nat)
    // Close
    | CloseTake | CloseMark(gen: nat)
    // Shutdown
    | ShutStop | ShutTake | ShutMark(taken: Option<nat>) | ShutChannel

  /** Packets sent or admitted, their counters, and which of the packets each counter has got so far. */
  datatype Side = Side(log: seq<Entry>, total: nat, direct: nat, relay: nat, totalled: set<nat>, pathed: set<nat>)

  datatype World = World(
    sent: Side, received: Side,
    /** How many admitted packets have left the queue, and what became of those. */
    taken: nat, delivered: seq<nat>, discarded: set<nat>,
    /** The open receive generation; how many there have been; which are closed. */
    active: Option<nat>, gens: nat, closed: set<nat>,
    shutCalled: bool, stopped: bool, shutdown: bool, channelClosed: bool,
    nextId: nat, procs: map<nat, Proc>)

  const NONE := Side([], 0, 0, 0, {}, {})
  const INITIAL := World(NONE, NONE, 0, [], {}, None, 0, {}, false, false, false, false, 0, map[])

  // ----- Steps -----

  /** The i-th packet is added to the total. */
  function Totalled(s: Side, i: nat): Side {
    if i < |s.log| then s.(total := s.total + |s.log[i].packet|, totalled := s.totalled + {i}) else s
  }

  /** The i-th packet is added to the counter of its path. */
  function Pathed(s: Side, i: nat): Side {
    if i >= |s.log| then s
    else if s.log[i].path.Direct? then s.(direct := s.direct + |s.log[i].packet|, pathed := s.pathed + {i})
    else s.(relay := s.relay + |s.log[i].packet|, pathed := s.pathed + {i})
  }

  function NextReceived(w: World, p: Proc): Side {
    match p
    case EnqPut(e) =>
      if |w.received.log| - w.taken < QUEUE_DEPTH then w.received.(log := w.received.log + [e]) else w.received
    case AddTotal(Inward, i) => Totalled(w.received, i)
    case AddPath(Inward, i) => Pathed(w.received, i)
    case _ => w.received
  }

  function NextSent(w: World, p: Proc, ok: bool, path: TrafficPath): Side {
    match p
    case SendWrite(packet) => if ok then w.sent.(log := w.sent.log + [Entry(path, packet)]) else w.sent
    case AddTotal(Outward, i) => Totalled(w.sent, i)
    case AddPath(Outward, i) => Pathed(w.sent, i)
    case _ => w.sent
  }

  /** Whether the callback takes a packet in its select; `ok` decides if it could return as well. */
  predicate Takes(w: World, p: Proc, ok: bool) {
    p.RecvSelect? && ok && w.taken < |w.received.log|
  }

  /** Whether the callback will hand out the packet it has taken: the generation is not closed, and the packet fits. */
  predicate Passes(w: World, p: Proc) {
    p.RecvHold? && p.gen !in w.closed && !w.stopped && p.i < |w.received.log| && |w.received.log[p.i].packet| <= p.room
  }

  function Closes(p: Proc): set<nat> {
    match p
    case CloseMark(g) => {g}
    case ShutMark(Some(g)) => {g}
    case _ => {}
  }

  /** Where the process stands next; `ok`: the write succeeds, or the select takes a packet if there is one. */
  function NextProc(w: World, p: Proc, ok: bool): Option<Proc> {
    match p
    case EnqCheck(e) => if 0 < |e.packet| <= MAX_PACKET_SIZE && !w.stopped then Some(EnqPut(e)) else None
    case EnqPut(_) =>
      if |w.received.log| - w.taken < QUEUE_DEPTH then Some(AddTotal(Inward, |w.received.log|)) else None
    case SendWrite(_) => if ok then Some(AddTotal(Outward, |w.sent.log|)) else None
    case AddTotal(way, i) => Some(AddPath(way, i))
    case AddPath(_, _) => None
    case RecvCheck(g, room) => if g in w.closed || w.stopped then None else Some(RecvSelect(g, room))
    case RecvSelect(g, room) =>
      if Takes(w, p, ok) then Some(RecvHold(g, room, w.taken))
      else if g in w.closed || w.channelClosed then None else Some(p)
    case RecvHold(g, _, i) => if Passes(w, p) then Some(RecvGive(g, i)) else None
    case RecvGive(_, _) => None
    case CloseTake => if w.active.Some? then Some(CloseMark(w.active.value)) else None
    case CloseMark(_) => None
    case ShutStop => Some(ShutTake)
    case ShutTake => Some(ShutMark(w.active))
    case ShutMark(_) => Some(ShutChannel)
    case ShutChannel => None
  }

  function NextProcs(procs: map<nat, Proc>, id: nat, next: Option<Proc>): map<nat, Proc> {
    if next.Some? then procs[id := next.value] else procs - {id}
  }

  /** The step of a process, but for where it stands next. */
  function Effect(w: World, p: Proc, ok: bool, path: TrafficPath): World {
    World(NextSent(w, p, ok, path), NextReceived(w, p),
          if Takes(w, p, ok) then w.taken + 1 else w.taken,
          if p.RecvGive? then w.delivered + [p.i] else w.delivered,
          if p.RecvHold? && !Passes(w, p) then w.discarded + {p.i} else w.discarded,
          if p.CloseTake? || p.ShutTake? then None else w.active, w.gens, w.closed + Closes(p),
          w.shutCalled, w.stopped || p.ShutStop?, w.shutdown || p.ShutTake?, w.channelClosed || p.ShutChannel?,
          w.nextId, w.procs)
  }

  datatype Action = Call(start: Proc) | Open | Run(id: nat, ok: bool, path: TrafficPath)

  predicate Receives(p: Proc, g: nat) {
    (p.RecvCheck? || p.RecvSelect? || p.RecvHold? || p.RecvGive?) && p.gen == g
  }

  predicate Enabled(w: World, a: Action) {
    match a
    case Call(EnqCheck(_)) => true
    // Send has checked the size.
    case Call(SendWrite(packet)) => 0 < |packet| <= MAX_PACKET_SIZE
    // WireGuard calls each receive function from one goroutine.
    case Call(RecvCheck(g, _)) => g < w.gens && forall id :: id in w.procs ==> !Receives(w.procs[id], g)
    case Call(CloseTake) => true
    // stopOnce
    case Call(ShutStop) => !w.shutCalled
    case Call(_) => false
    case Open => true
    case Run(id, _, _) => id in w.procs
  }

  function Step(w: World, a: Action): World
    requires Enabled(w, a)
  {
    match a
    case Call(start) =>
      w.(procs := w.procs[w.nextId := start], nextId := w.nextId + 1, shutCalled := w.shutCalled || start.ShutStop?)
    case Open =>
      if w.active.None? && !w.shutdown then w.(active := Some(w.gens), gens := w.gens + 1) else w
    case Run(id, ok, path) =>
      var next := NextProc(w, w.procs[id], ok);
      Effect(w, w.procs[id], ok, path).(procs := NextProcs(w.procs, id, next))
  }

  ghost predicate Possible(w: World, run: seq<Action>)
    decreases |run|
  {
    run == [] || (Enabled(w, run[0]) && Possible(Step(w, run[0]), run[1..]))
  }

  ghost function After(w: World, run: seq<Action>): World
    requires Possible(w, run)
    decreases |run|
  {
    if run == [] then w else After(Step(w, run[0]), run[1..])
  }

  // ----- Counting -----

  function SumOf(log: seq<Entry>, counted: set<nat>): nat {
    if log == [] then 0
    else
      var n := |log| - 1;
      SumOf(log[..n], counted) + (if n in counted then |log[n].packet| else 0)
  }

  function SumOn(log: seq<Entry>, counted: set<nat>, path: TrafficPath): nat {
    if log == [] then 0
    else
      var n := |log| - 1;
      SumOn(log[..n], counted, path) + (if n in counted && log[n].path == path then |log[n].packet| else 0)
  }

  function SizeOn(log: seq<Entry>, i: nat, path: TrafficPath): nat {
    if i < |log| && log[i].path == path then |log[i].packet| else 0
  }

  lemma {:induction false} SumAdds(log: seq<Entry>, counted: set<nat>, i: nat)
    requires i !in counted
    ensures SumOf(log, counted + {i}) == SumOf(log, counted) + (if i < |log| then |log[i].packet| else 0)
    ensures forall path :: SumOn(log, counted + {i}, path) == SumOn(log, counted, path) + SizeOn(log, i, path)
  {
    if log != [] { SumAdds(log[..|log| - 1], counted, i); }
  }

  lemma SumGrows(log: seq<Entry>, e: Entry, counted: set<nat>)
    requires |log| !in counted
    ensures SumOf(log + [e], counted) == SumOf(log, counted)
    ensures forall path :: SumOn(log + [e], counted, path) == SumOn(log, counted, path)
  {
    assert (log + [e])[..|log|] == log;
  }

  lemma {:induction false} SumBounds(log: seq<Entry>, pathed: set<nat>, totalled: set<nat>)
    requires pathed <= totalled
    ensures SumOf(log, totalled) <= TotalBytes(log)
    ensures SumOn(log, pathed, Direct) <= BytesOn(log, Direct) && SumOn(log, pathed, Relay) <= BytesOn(log, Relay)
    ensures SumOn(log, pathed, Direct) + SumOn(log, pathed, Relay) <= SumOf(log, totalled)
    ensures (forall i :: 0 <= i < |log| ==> i in pathed) ==>
      && SumOf(log, totalled) == TotalBytes(log)
      && SumOn(log, pathed, Direct) == BytesOn(log, Direct) && SumOn(log, pathed, Relay) == BytesOn(log, Relay)
  {
    if log != [] { SumBounds(log[..|log| - 1], pathed, totalled); }
  }

  predicate Sums(s: Side) {
    && s.pathed <= s.totalled && (forall i :: i in s.totalled ==> i < |s.log|)
    && s.total == SumOf(s.log, s.totalled)
    && s.direct == SumOn(s.log, s.pathed, Direct) && s.relay == SumOn(s.log, s.pathed, Relay)
  }

  predicate CountsFor(p: Proc, way: Way, i: nat) {
    (p.AddTotal? || p.AddPath?) && p.way == way && p.i == i
  }

  predicate CountFits(s: Side, p: Proc, way: Way) {
    && (p.AddTotal? && p.way == way ==> p.i < |s.log| && p.i !in s.totalled)
    && (p.AddPath? && p.way == way ==> p.i in s.totalled && p.i !in s.pathed)
  }

  /** Every packet is in both counters, or one process is about to add it. */
  ghost predicate Accounted(s: Side, procs: map<nat, Proc>, way: Way) {
    && Sums(s)
    && (forall id :: id in procs ==> CountFits(s, procs[id], way))
    && (forall i :: 0 <= i < |s.log| && i !in s.pathed ==> exists id :: id in procs && CountsFor(procs[id], way, i))
    && (forall id, id', i :: id in procs && id' in procs ==>
          CountsFor(procs[id], way, i) && CountsFor(procs[id'], way, i) ==> id == id')
  }

  /** A process that does not count for this side, before and after its step. */
  lemma BystanderKeepsCount(s: Side, procs: map<nat, Proc>, way: Way, id: nat, next: Option<Proc>)
    requires Accounted(s, procs, way)
    requires id in procs ==> forall i :: !CountsFor(procs[id], way, i)
    requires next.Some? ==> forall i :: !CountsFor(next.value, way, i)
    ensures Accounted(s, NextProcs(procs, id, next), way)
  {
    var procs' := NextProcs(procs, id, next);
    forall i | 0 <= i < |s.log| && i !in s.pathed ensures exists x :: x in procs' && CountsFor(procs'[x], way, i) {
      var x :| x in procs && CountsFor(procs[x], way, i);
      assert x != id && procs'[x] == procs[x];
    }
    if next.Some? {
      assert !CountsFor(next.value, way, if next.value.AddTotal? || next.value.AddPath? then next.value.i else 0);
    }
  }

  lemma AdmittedKeepsCount(s: Side, procs: map<nat, Proc>, way: Way, id: nat, e: Entry)
    requires Accounted(s, procs, way) && id in procs && forall i :: !CountsFor(procs[id], way, i)
    ensures Accounted(s.(log := s.log + [e]), procs[id := AddTotal(way, |s.log|)], way)
  {
    var s', procs' := s.(log := s.log + [e]), procs[id := AddTotal(way, |s.log|)];
    SumGrows(s.log, e, s.totalled);
    SumGrows(s.log, e, s.pathed);
    forall i | 0 <= i < |s'.log| && i !in s'.pathed ensures exists x :: x in procs' && CountsFor(procs'[x], way, i) {
      if i == |s.log| {
        assert CountsFor(procs'[id], way, i);
      } else {
        var x :| x in procs && CountsFor(procs[x], way, i);
        assert procs'[x] == procs[x];
      }
    }
    forall x | x in procs' && x != id ensures CountFits(s', procs'[x], way) && !CountsFor(procs'[x], way, |s.log|) {
      assert CountFits(s, procs[x], way);
    }
  }

  lemma TotalKeepsCount(s: Side, procs: map<nat, Proc>, way: Way, id: nat, i: nat)
    requires Accounted(s, procs, way) && id in procs && procs[id] == AddTotal(way, i)
    ensures Accounted(Totalled(s, i), procs[id := AddPath(way, i)], way)
  {
    var s', procs' := Totalled(s, i), procs[id := AddPath(way, i)];
    assert CountFits(s, procs[id], way) && CountsFor(procs[id], way, i);
    SumAdds(s.log, s.totalled, i);
    forall x | x in procs' && x != id ensures CountFits(s', procs'[x], way) && !CountsFor(procs'[x], way, i) {
      assert CountFits(s, procs[x], way);
    }
    forall j | 0 <= j < |s'.log| && j !in s'.pathed ensures exists x :: x in procs' && CountsFor(procs'[x], way, j) {
      var x :| x in procs && CountsFor(procs[x], way, j);
      assert CountsFor(procs'[x], way, j);
    }
  }

  lemma PathKeepsCount(s: Side, procs: map<nat, Proc>, way: Way, id: nat, i: nat)
    requires Accounted(s, procs, way) && id in procs && procs[id] == AddPath(way, i)
    ensures Accounted(Pathed(s, i), procs - {id}, way)
  {
    var s', procs' := Pathed(s, i), procs - {id};
    assert CountFits(s, procs[id], way) && CountsFor(procs[id], way, i);
    SumAdds(s.log, s.pathed, i);
    forall x | x in procs' ensures CountFits(s', procs'[x], way) {
      assert CountFits(s, procs[x], way) && !CountsFor(procs[x], way, i);
    }
    forall j | 0 <= j < |s'.log| && j !in s'.pathed ensures exists x :: x in procs' && CountsFor(procs'[x], way, j) {
      var x :| x in procs && CountsFor(procs[x], way, j);
      assert x != id && procs'[x] == procs[x];
    }
  }

  // ----- The invariant -----

  /** Every packet that left the queue was handed out once, or thrown away, or is in one callback's hands. */
  ghost predicate Flow(w: World) {
    && w.taken <= |w.received.log|
    && (forall k :: 0 <= k < |w.delivered| ==> w.delivered[k] < w.taken && w.delivered[k] !in w.discarded)
    && (forall j, k :: 0 <= j < k < |w.delivered| ==> w.delivered[j] != w.delivered[k])
    && (forall i :: i in w.discarded ==> i < w.taken)
    && (forall id :: id in w.procs ==> HoldFits(w, w.procs[id]))
    && (forall id, id' :: id in w.procs && id' in w.procs && Holds(w.procs[id]) != None ==>
          Holds(w.procs[id]) == Holds(w.procs[id']) ==> id == id')
    && (forall i :: 0 <= i < w.taken ==> i in w.delivered || i in w.discarded || Held(w, i))
  }

  function Holds(p: Proc): Option<nat> {
    if p.RecvHold? || p.RecvGive? then Some(p.i) else None
  }

  ghost predicate HoldFits(w: World, p: Proc) {
    Holds(p).Some? ==> p.i < w.taken && p.i !in w.delivered && p.i !in w.discarded
  }

  ghost predicate Held(w: World, i: nat) {
    exists id :: id in w.procs && Holds(w.procs[id]) == Some(i)
  }

  ghost predicate Sizes(w: World) {
    && (forall e :: e in w.received.log || e in w.sent.log ==> 0 < |e.packet| <= MAX_PACKET_SIZE)
    && (forall id :: id in w.procs ==> SizeFits(w.procs[id]))
  }

  predicate SizeFits(p: Proc) {
    && (p.EnqPut? ==> 0 < |p.entry.packet| <= MAX_PACKET_SIZE)
    && (p.SendWrite? ==> 0 < |p.packet| <= MAX_PACKET_SIZE)
  }

  predicate Live(w: World, g: nat) { g < w.gens && g !in w.closed }

  /** A generation that is not closed is the open one, or some Close has it in hand, or the bind is shut down. */
  ghost predicate Gens(w: World) {
    && (w.active.Some? ==> Live(w, w.active.value)) && (forall g :: g in w.closed ==> g < w.gens)
    && (forall id :: id in w.procs ==> GenFits(w, w.procs[id]))
    && (forall id, id', g :: id in w.procs && id' in w.procs ==>
          Receives(w.procs[id], g) && Receives(w.procs[id'], g) ==> id == id')
    && (forall g: nat :: Live(w, g) && w.active != Some(g) && !w.shutdown ==> Closing(w, g))
  }

  predicate GenFits(w: World, p: Proc) {
    && (p.RecvCheck? || p.RecvSelect? || p.RecvHold? || p.RecvGive? ==> p.gen < w.gens)
    && (forall g :: g in Closes(p) ==> g < w.gens && w.active != Some(g))
  }

  ghost predicate Closing(w: World, g: nat) {
    exists id :: id in w.procs && w.procs[id] == CloseMark(g)
  }

  ghost predicate Counted(w: World) {
    Accounted(w.sent, w.procs, Outward) && Accounted(w.received, w.procs, Inward)
  }

  ghost predicate Inv(w: World) {
    && (forall id :: id in w.procs ==> id < w.nextId)
    && Counted(w) && Flow(w) && Sizes(w) && Gens(w)
  }

  lemma CountKeeps(w: World, a: Action)
    requires Inv(w) && Enabled(w, a)
    ensures Counted(Step(w, a))
  {
    hide Accounted, Flow, Sizes, Gens;
    match a
    case Open =>
    case Call(start) =>
      BystanderKeepsCount(w.sent, w.procs, Outward, w.nextId, Some(start));
      BystanderKeepsCount(w.received, w.procs, Inward, w.nextId, Some(start));
    case Run(id, ok, path) => RunKeepsCount(w, id, ok, path);
  }

  lemma RunKeepsCount(w: World, id: nat, ok: bool, path: TrafficPath)
    requires Counted(w) && id in w.procs
    ensures Counted(Step(w, Run(id, ok, path)))
  {
    hide Accounted;
    SentKeepsCount(w, id, ok, path);
    ReceivedKeepsCount(w, id, ok);
  }

  lemma SentKeepsCount(w: World, id: nat, ok: bool, path: TrafficPath)
    requires Accounted(w.sent, w.procs, Outward) && id in w.procs
    ensures var p := w.procs[id];
      Accounted(NextSent(w, p, ok, path), NextProcs(w.procs, id, NextProc(w, p, ok)), Outward)
  {
    hide Accounted, Totalled, Pathed;
    var p, next := w.procs[id], NextProc(w, w.procs[id], ok);
    if p.AddTotal? && p.way.Outward? {
      TotalKeepsCount(w.sent, w.procs, Outward, id, p.i);
    } else if p.AddPath? && p.way.Outward? {
      PathKeepsCount(w.sent, w.procs, Outward, id, p.i);
    } else if p.SendWrite? && ok {
      AdmittedKeepsCount(w.sent, w.procs, Outward, id, Entry(path, p.packet));
    } else {
      BystanderKeepsCount(w.sent, w.procs, Outward, id, next);
    }
  }

  lemma ReceivedKeepsCount(w: World, id: nat, ok: bool)
    requires Accounted(w.received, w.procs, Inward) && id in w.procs
    ensures var p := w.procs[id];
      Accounted(NextReceived(w, p), NextProcs(w.procs, id, NextProc(w, p, ok)), Inward)
  {
    hide Accounted, Totalled, Pathed;
    var p, next := w.procs[id], NextProc(w, w.procs[id], ok);
    if p.AddTotal? && p.way.Inward? {
      TotalKeepsCount(w.received, w.procs, Inward, id, p.i);
    } else if p.AddPath? && p.way.Inward? {
      PathKeepsCount(w.received, w.procs, Inward, id, p.i);
    } else if p.EnqPut? && next.Some? {
      AdmittedKeepsCount(w.received, w.procs, Inward, id, p.entry);
    } else {
      BystanderKeepsCount(w.received, w.procs, Inward, id, next);
    }
  }

  lemma SizesKeep(w: World, a: Action)
    requires Sizes(w) && Enabled(w, a)
    ensures Sizes(Step(w, a))
  {
    if a.Run? { assert SizeFits(w.procs[a.id]); }
  }

  lemma GenFitsNext(w: World, p: Proc, ok: bool, path: TrafficPath)
    requires GenFits(w, p) && (w.active.Some? ==> w.active.value < w.gens) && NextProc(w, p, ok).Some?
    ensures GenFits(Effect(w, p, ok, path), NextProc(w, p, ok).value)
  {
    hide NextSent, NextReceived, Passes, Takes;
  }

  lemma GenFitsStays(w: World, a: Action, id: nat)
    requires Gens(w) && Enabled(w, a) && id in Step(w, a).procs
    ensures GenFits(Step(w, a), Step(w, a).procs[id])
  {
    hide NextSent, NextReceived, Passes, Takes, NextProc;
    if a.Run? && a.id == id { GenFitsNext(w, w.procs[id], a.ok, a.path); }
    if id in w.procs { assert GenFits(w, w.procs[id]); }
  }

  lemma ClosingStays(w: World, a: Action, g: nat)
    requires Gens(w) && Enabled(w, a) && forall id :: id in w.procs ==> id < w.nextId
    requires var w' := Step(w, a); Live(w', g) && w'.active != Some(g) && !w'.shutdown
    ensures Closing(Step(w, a), g)
  {
    var w' := Step(w, a);
    if Live(w, g) && w.active != Some(g) {
      var id :| id in w.procs && w.procs[id] == CloseMark(g);
      assert id in w'.procs && w'.procs[id] == CloseMark(g);
    } else {
      assert a.Run? && w'.procs[a.id] == CloseMark(g);
    }
  }

  lemma GensKeep(w: World, a: Action)
    requires Gens(w) && Enabled(w, a) && forall id :: id in w.procs ==> id < w.nextId
    ensures Gens(Step(w, a))
  {
    var w' := Step(w, a);
    forall id | id in w'.procs ensures GenFits(w', w'.procs[id]) { GenFitsStays(w, a, id); }
    forall g: nat | Live(w', g) && w'.active != Some(g) && !w'.shutdown ensures Closing(w', g) {
      ClosingStays(w, a, g);
    }
    if a.Run? { assert GenFits(w, w.procs[a.id]); }
    ReceiversStayApart(w, a);
  }

  lemma ReceiversStayApart(w: World, a: Action)
    requires Gens(w) && Enabled(w, a)
    ensures var procs := Step(w, a).procs;
      forall id, id', g :: id in procs && id' in procs ==>
        Receives(procs[id], g) && Receives(procs[id'], g) ==> id == id'
  {
    var procs := Step(w, a).procs;
    forall id, g | id in procs && Receives(procs[id], g)
      ensures (id in w.procs && Receives(w.procs[id], g)) || (a.Call? && a.start.RecvCheck? && a.start.gen == g)
    {}
  }

  lemma HoldFitsStays(w: World, a: Action, id: nat)
    requires Flow(w) && Enabled(w, a) && id in Step(w, a).procs
    ensures HoldFits(Step(w, a), Step(w, a).procs[id])
  {
    if a.Run? { assert HoldFits(w, w.procs[a.id]); }
    if id in w.procs { assert HoldFits(w, w.procs[id]); }
  }

  lemma TakenStaysAccounted(w: World, a: Action, i: nat)
    requires Flow(w) && Enabled(w, a) && i < Step(w, a).taken && forall id :: id in w.procs ==> id < w.nextId
    ensures var w' := Step(w, a); i in w'.delivered || i in w'.discarded || Held(w', i)
  {
    var w' := Step(w, a);
    if i == w.taken {
      assert a.Run? && Holds(w'.procs[a.id]) == Some(i);
    } else if Held(w, i) {
      var id :| id in w.procs && Holds(w.procs[id]) == Some(i);
      assert a.Run? && a.id == id && Passes(w, w.procs[id]) ==> Holds(w'.procs[id]) == Some(i);
      assert !(a.Run? && a.id == id) ==> w'.procs[id] == w.procs[id];
    }
  }

  lemma FlowKeeps(w: World, a: Action)
    requires Flow(w) && Enabled(w, a) && forall id :: id in w.procs ==> id < w.nextId
    ensures Flow(Step(w, a))
  {
    var w' := Step(w, a);
    if a.Run? { assert HoldFits(w, w.procs[a.id]); }
    forall id | id in w'.procs ensures HoldFits(w', w'.procs[id]) { HoldFitsStays(w, a, id); }
    forall i | 0 <= i < w'.taken ensures i in w'.delivered || i in w'.discarded || Held(w', i) {
      TakenStaysAccounted(w, a, i);
    }
    HoldersStayApart(w, a);
  }

  lemma HoldersStayApart(w: World, a: Action)
    requires Flow(w) && Enabled(w, a)
    ensures var procs := Step(w, a).procs;
      forall id, id' :: id in procs && id' in procs && Holds(procs[id]) != None ==>
        Holds(procs[id]) == Holds(procs[id']) ==> id == id'
  {
    var procs := Step(w, a).procs;
    forall id | id in procs && Holds(procs[id]) != None
      ensures (id in w.procs && Holds(w.procs[id]) == Holds(procs[id])) || Holds(procs[id]) == Some(w.taken)
    {}
    forall id | id in w.procs ensures Holds(w.procs[id]) != Some(w.taken) { assert HoldFits(w, w.procs[id]); }
  }

  lemma StepKeeps(w: World, a: Action)
    requires Inv(w) && Enabled(w, a)
    ensures Inv(Step(w, a))
  {
    CountKeeps(w, a);
    SizesKeep(w, a);
    GensKeep(w, a);
    FlowKeeps(w, a);
    hide Counted, Flow, Sizes, Gens;
  }

  lemma {:induction false} RunKeeps(w: World, run: seq<Action>)
    requires Inv(w) && Possible(w, run)
    ensures Inv(After(w, run))
    decreases |run|
  {
    hide Inv;
    if run != [] {
      StepKeeps(w, run[0]);
      RunKeeps(Step(w, run[0]), run[1..]);
    }
  }

  // ----- What follows for every run -----

  predicate Counting(p: Proc) { p.AddTotal? || p.AddPath? }

  /** Never more than was sent or admitted, never more on the paths than in all; exact while nobody is counting. */
  predicate CountsHold(s: Side, exact: bool) {
    && s.total <= TotalBytes(s.log) && s.direct <= BytesOn(s.log, Direct) && s.relay <= BytesOn(s.log, Relay)
    && s.direct + s.relay <= s.total
    && (exact ==> s.total == TotalBytes(s.log))
    && (exact ==> s.direct == BytesOn(s.log, Direct) && s.relay == BytesOn(s.log, Relay))
  }

  lemma AccountedHolds(s: Side, procs: map<nat, Proc>, way: Way)
    requires Accounted(s, procs, way)
    ensures CountsHold(s, forall id :: id in procs ==> !Counting(procs[id]))
  {
    SumBounds(s.log, s.pathed, s.totalled);
    if forall id :: id in procs ==> !Counting(procs[id]) {
      assert forall i :: 0 <= i < |s.log| ==> i in s.pathed;
    }
  }

  lemma InitialInv()
    ensures Inv(INITIAL)
  {}

  /** Whatever runs when, the byte counters stay behind the packets, and catch up. */
  lemma CountersCatchUp(run: seq<Action>)
    requires Possible(INITIAL, run)
    ensures var w := After(INITIAL, run);
      var quiet := forall id :: id in w.procs ==> !Counting(w.procs[id]);
      CountsHold(w.sent, quiet) && CountsHold(w.received, quiet)
  {
    InitialInv();
    RunKeeps(INITIAL, run);
    var w := After(INITIAL, run);
    AccountedHolds(w.sent, w.procs, Outward);
    AccountedHolds(w.received, w.procs, Inward);
  }

  function Occurrences(s: seq<nat>, i: nat): nat { multiset(s)[i] }

  lemma {:induction false} NoneTwice(s: seq<nat>, i: nat)
    requires forall j, k :: 0 <= j < k < |s| ==> s[j] != s[k]
    ensures Occurrences(s, i) == if i in s then 1 else 0
  {
    if s != [] {
      NoneTwice(s[1..], i);
      assert s == [s[0]] + s[1..];
    }
  }

  /** Every admitted packet is in one place: the queue, one callback's hands, handed out once, or thrown away. */
  lemma PacketsConserved(run: seq<Action>, i: nat)
    requires Possible(INITIAL, run) && i < |After(INITIAL, run).received.log|
    ensures var w := After(INITIAL, run);
      && Occurrences(w.delivered, i) <= 1
      && (i >= w.taken ==> i !in w.delivered && i !in w.discarded && !Held(w, i))
      && (i < w.taken ==> i in w.delivered || i in w.discarded || Held(w, i))
      && !(i in w.delivered && i in w.discarded) && (Held(w, i) ==> i !in w.delivered && i !in w.discarded)
  {
    InitialInv();
    RunKeeps(INITIAL, run);
    var w := After(INITIAL, run);
    NoneTwice(w.delivered, i);
    forall id | id in w.procs && Holds(w.procs[id]) == Some(i)
      ensures i < w.taken && i !in w.delivered && i !in w.discarded
    {
      assert HoldFits(w, w.procs[id]);
    }
  }

  // ----- Order -----

  predicate InOrder(s: seq<nat>) { forall j, k :: 0 <= j < k < |s| ==> s[j] < s[k] }

  /**
  Open is called only when no Close is under way and no callback is past its last
  test of its generation; WireGuard even waits for its callbacks to return.
  */
  ghost predicate Serial(w: World, run: seq<Action>)
    requires Possible(w, run)
    decreases |run|
  {
    run == [] || (SerialStep(w, run[0]) && Serial(Step(w, run[0]), run[1..]))
  }

  ghost predicate SerialStep(w: World, a: Action) {
    a.Open? ==> forall id :: id in w.procs ==> !w.procs[id].CloseMark? && !w.procs[id].RecvGive?
  }

  predicate Gives(p: Proc, g: nat) { p.RecvGive? && p.gen == g }

  /** The generation's callback may yet hand out a packet. */
  ghost predicate Able(w: World, g: nat) {
    (Live(w, g) && !w.stopped) || exists id :: id in w.procs && Gives(w.procs[id], g)
  }

  ghost predicate OneAble(w: World) {
    forall g, g' :: Able(w, g) && Able(w, g') ==> g == g'
  }

  /** No callback will hand out a packet older than one already handed out, and no two generations can hand out any. */
  ghost predicate Straight(w: World) {
    && InOrder(w.delivered) && OneAble(w)
    && forall id :: id in w.procs ==> HoldsNewest(w, w.procs[id])
  }

  predicate HoldsNewest(w: World, p: Proc) {
    Passes(w, p) || p.RecvGive? ==> forall j :: j in w.delivered ==> j < p.i
  }

  lemma NoneAble(w: World)
    requires Gens(w) && w.active.None? && !w.shutdown
    requires forall id :: id in w.procs ==> !w.procs[id].CloseMark? && !w.procs[id].RecvGive?
    ensures forall g: nat :: !Able(w, g)
  {
    forall g: nat ensures !Able(w, g) { assert !Closing(w, g); }
  }

  /** Only Open makes another generation able. */
  lemma AbleBefore(w: World, a: Action, g: nat)
    requires Gens(w) && Enabled(w, a) && Able(Step(w, a), g)
    ensures Able(w, g) || (a.Open? && g == w.gens && w.active.None? && !w.shutdown)
  {
    var w' := Step(w, a);
    if !(Live(w', g) && !w'.stopped) {
      var id :| id in w'.procs && Gives(w'.procs[id], g);
      assert id in w.procs && Receives(w.procs[id], g);
      assert GenFits(w, w.procs[id]);
    }
  }

  lemma OneAbleStays(w: World, a: Action)
    requires Gens(w) && Enabled(w, a) && SerialStep(w, a) && OneAble(w)
    ensures OneAble(Step(w, a))
  {
    forall g: nat, g': nat | Able(Step(w, a), g) && Able(Step(w, a), g') ensures g == g' {
      AbleBefore(w, a, g);
      AbleBefore(w, a, g');
      if a.Open? && w.active.None? && !w.shutdown { NoneAble(w); }
    }
  }

  lemma StraightStays(w: World, a: Action)
    requires Inv(w) && Enabled(w, a) && SerialStep(w, a) && Straight(w)
    ensures Straight(Step(w, a))
  {
    hide Counted, Sizes, Able;
    var w' := Step(w, a);
    OneAbleStays(w, a);
    forall id | id in w'.procs ensures HoldsNewest(w', w'.procs[id]) { HoldsNewestStays(w, a, id); }
    if a.Run? {
      assert HoldsNewest(w, w.procs[a.id]);
    }
  }

  /** While one generation can hand out packets, one callback at most is about to. */
  lemma OneGives(w: World, id: nat, id': nat)
    requires Gens(w) && OneAble(w) && id in w.procs && id' in w.procs
    requires Passes(w, w.procs[id]) || w.procs[id].RecvGive?
    requires Passes(w, w.procs[id']) || w.procs[id'].RecvGive?
    ensures id == id'
  {
    assert GenFits(w, w.procs[id]) && GenFits(w, w.procs[id']);
    assert Gives(w.procs[id], w.procs[id].gen) || Live(w, w.procs[id].gen);
    assert Gives(w.procs[id'], w.procs[id'].gen) || Live(w, w.procs[id'].gen);
    assert Able(w, w.procs[id].gen) && Able(w, w.procs[id'].gen);
    assert Receives(w.procs[id], w.procs[id].gen) && Receives(w.procs[id'], w.procs[id].gen);
  }

  lemma HoldsNewestStays(w: World, a: Action, id: nat)
    requires Flow(w) && Gens(w) && Enabled(w, a) && Straight(w) && id in Step(w, a).procs
    ensures HoldsNewest(Step(w, a), Step(w, a).procs[id])
  {
    hide Gens, Able, OneAble, NextSent;
    var w' := Step(w, a);
    if (Passes(w', w'.procs[id]) || w'.procs[id].RecvGive?) && a.Run? {
      assert HoldsNewest(w, w.procs[id]) && HoldFits(w, w.procs[id]);
      if a.id != id && w.procs[a.id].RecvGive? { OneGives(w, id, a.id); }
    }
  }

  lemma {:induction false} SerialStaysStraight(w: World, run: seq<Action>)
    requires Inv(w) && Straight(w) && Possible(w, run) && Serial(w, run)
    ensures Straight(After(w, run))
    decreases |run|
  {
    hide Inv, Straight;
    if run != [] {
      StepKeeps(w, run[0]);
      StraightStays(w, run[0]);
      SerialStaysStraight(Step(w, run[0]), run[1..]);
    }
  }

  /** As long as Open waits for Close and for the callbacks, packets are handed out in the order they were admitted. */
  lemma SerialRunsInOrder(run: seq<Action>)
    requires Possible(INITIAL, run) && Serial(INITIAL, run)
    ensures InOrder(After(INITIAL, run).delivered)
  {
    InitialInv();
    SerialStaysStraight(INITIAL, run);
  }

  // ----- And only then -----

  /** w' is reached from w without calling Open. */
  ghost predicate Leads(w: World, w': World) {
    exists run :: Calm(run) && Possible(w, run) && After(w, run) == w'
  }

  predicate Calm(run: seq<Action>) { forall a :: a in run ==> !a.Open? }

  lemma LeadsNowhere(w: World)
    ensures Leads(w, w)
  {
    assert Calm([]) && Possible(w, []) && After(w, []) == w;
  }

  lemma {:induction false} OneMore(w: World, run: seq<Action>, a: Action)
    requires Possible(w, run) && Enabled(After(w, run), a)
    ensures Possible(w, run + [a]) && After(w, run + [a]) == Step(After(w, run), a)
    decreases |run|
  {
    if run == [] {
      assert [a][1..] == [];
    } else {
      OneMore(Step(w, run[0]), run[1..], a);
      assert (run + [a])[1..] == run[1..] + [a];
    }
  }

  lemma {:induction false} CalmIsSerial(w: World, run: seq<Action>)
    requires Possible(w, run) && Calm(run)
    ensures Serial(w, run)
    decreases |run|
  {
    if run != [] {
      assert run[0] in run;
      CalmIsSerial(Step(w, run[0]), run[1..]);
    }
  }

  lemma LeadsOn(w0: World, w: World, a: Action) returns (w': World)
    requires Leads(w0, w) && Inv(w) && Enabled(w, a) && !a.Open?
    ensures w' == Step(w, a) && Leads(w0, w') && Inv(w')
  {
    w' := Step(w, a);
    StepKeeps(w, a);
    var run :| Calm(run) && Possible(w0, run) && After(w0, run) == w;
    OneMore(w0, run, a);
    assert Calm(run + [a]) && Possible(w0, run + [a]);
  }

  lemma FreshId(w: World)
    requires Inv(w)
    ensures w.nextId !in w.procs
  {}

  /** From w to w' nothing is closed or opened, and the callback of generation h has not moved. */
  predicate Undisturbed(w: World, w': World, h: nat) {
    && w'.taken >= w.taken && w'.active == w.active && w'.gens == w.gens
    && w'.stopped == w.stopped && w'.closed == w.closed
    && forall id :: id in w.procs && Receives(w.procs[id], h) ==> id in w'.procs && w'.procs[id] == w.procs[id]
  }

  /** A packet arrives; if the queue is full it is dropped. */
  lemma Supply(w0: World, w: World) returns (w': World)
    requires Leads(w0, w) && Inv(w) && !w.stopped
    ensures Leads(w0, w') && Inv(w') && forall h :: Undisturbed(w, w', h)
    ensures w'.taken == w.taken && |w'.received.log| >= |w.received.log|
    ensures |w'.received.log| > |w.received.log| || |w'.received.log| - w.taken >= QUEUE_DEPTH
  {
    hide Inv, Leads;
    FreshId(w);
    var e, id := Entry(Direct, [0]), w.nextId;
    w' := LeadsOn(w0, w, Call(EnqCheck(e)));
    w' := LeadsOn(w0, w', Run(id, true, Direct));
    assert w'.procs[id] == EnqPut(e);
    w' := LeadsOn(w0, w', Run(id, true, Direct));
  }

  function Remaining(p: Proc): nat {
    if p.RecvCheck? then 3 else if p.RecvSelect? then 2 else if p.RecvHold? then 1 else 0
  }

  /** The callback of generation g returns. */
  lemma {:induction false} Finish(w0: World, w: World, g: nat, h: nat, id: nat) returns (w': World)
    requires Leads(w0, w) && Inv(w) && !w.stopped && Live(w, g) && g != h && id in w.procs && Receives(w.procs[id], g)
    ensures Leads(w0, w') && Inv(w') && Undisturbed(w, w', h) && forall x :: x in w'.procs ==> !Receives(w'.procs[x], g)
    decreases Remaining(w.procs[id])
  {
    hide Leads, Inv;
    var p := w.procs[id];
    OneReceiver(w, g, id);
    if p.RecvSelect? {
      w' := TakeNext(w0, w, g, h, id);
    } else {
      w' := LeadsOn(w0, w, Run(id, true, Direct));
      assert Undisturbed(w, w', h);
    }
    if id in w'.procs {
      var v := w';
      w' := Finish(w0, v, g, h, id);
    }
  }

  /** The callback takes a packet, after one more has arrived. */
  lemma TakeNext(w0: World, w: World, g: nat, h: nat, id: nat) returns (w': World)
    requires Leads(w0, w) && Inv(w) && !w.stopped && g != h && id in w.procs
    requires w.procs[id].RecvSelect? && w.procs[id].gen == g
    ensures Leads(w0, w') && Inv(w') && Undisturbed(w, w', h) && id in w'.procs
    ensures var q := w'.procs[id];
      q.RecvHold? && q.gen == g && q.room == w.procs[id].room && q.i == w.taken && q.i < |w'.received.log|
  {
    hide Leads, Inv;
    QueueFits(w);
    w' := Supply(w0, w);
    assert Undisturbed(w, w', g) && Undisturbed(w, w', h);
    w' := LeadsOn(w0, w', Run(id, true, Direct));
  }

  lemma QueueFits(w: World)
    requires Inv(w)
    ensures w.taken <= |w.received.log|
  {}

  lemma OneReceiver(w: World, g: nat, id: nat)
    requires Inv(w) && id in w.procs && Receives(w.procs[id], g)
    ensures forall x :: x in w.procs && Receives(w.procs[x], g) ==> x == id
  {}

  /** A callback of generation g with a large buffer stands at its select. */
  lemma Bring(w0: World, w: World, g: nat, h: nat) returns (w': World, id: nat)
    requires Leads(w0, w) && Inv(w) && !w.stopped && Live(w, g) && g != h
    ensures Leads(w0, w') && Inv(w') && Undisturbed(w, w', h)
    ensures id in w'.procs && w'.procs[id] == RecvSelect(g, MAX_PACKET_SIZE)
  {
    hide Leads, Inv;
    w' := w;
    if x :| x in w.procs && Receives(w.procs[x], g) { w' := Finish(w0, w, g, h, x); }
    FreshId(w');
    id := w'.nextId;
    var v := w';
    w' := LeadsOn(w0, w', Call(RecvCheck(g, MAX_PACKET_SIZE)));
    w' := LeadsOn(w0, w', Run(id, true, Direct));
    assert Undisturbed(v, w', h);
  }

  lemma SizeOfAdmitted(w: World, i: nat)
    requires Inv(w) && i < |w.received.log|
    ensures |w.received.log[i].packet| <= MAX_PACKET_SIZE
  {
    assert w.received.log[i] in w.received.log;
  }

  /** The callback of generation g takes one more packet and is about to hand it out. */
  lemma GiveNext(w0: World, w: World, g: nat, h: nat) returns (w': World, id: nat)
    requires Leads(w0, w) && Inv(w) && !w.stopped && Live(w, g) && g != h
    ensures Leads(w0, w') && Inv(w') && Undisturbed(w, w', h)
    ensures id in w'.procs && w'.procs[id].RecvGive? && w'.procs[id].gen == g && w'.procs[id].i >= w.taken
  {
    hide Leads, Inv;
    w', id := Bring(w0, w, g, h);
    w' := TakeNext(w0, w', g, h, id);
    SizeOfAdmitted(w', w'.procs[id].i);
    w' := LeadsOn(w0, w', Run(id, true, Direct));
  }

  /** Two callbacks about to hand out packets do so in the wrong order. */
  lemma TwoGive(w0: World, w: World, x: nat, y: nat) returns (w': World)
    requires Leads(w0, w) && Inv(w) && x in w.procs && y in w.procs && w.procs[x].RecvGive? && w.procs[y].RecvGive?
    requires w.procs[x].i < w.procs[y].i
    ensures Leads(w0, w') && !InOrder(w'.delivered)
  {
    hide Leads, Inv;
    var i, j, n := w.procs[x].i, w.procs[y].i, |w.delivered|;
    w' := LeadsOn(w0, w, Run(y, true, Direct));
    w' := LeadsOn(w0, w', Run(x, true, Direct));
    assert w'.delivered == w.delivered + [j] + [i];
    assert w'.delivered[n] == j && w'.delivered[n + 1] == i;
  }

  /** One callback is about to hand out a packet, and another generation can take one. */
  lemma GiveAndLive(w0: World, w: World, x: nat, h: nat) returns (w': World)
    requires Leads(w0, w) && Inv(w) && !w.stopped && Live(w, h) && x in w.procs
    requires w.procs[x].RecvGive? && w.procs[x].gen != h
    ensures Leads(w0, w') && !InOrder(w'.delivered)
  {
    hide Leads, Inv;
    var y;
    GivenWasTaken(w, x);
    w', y := GiveNext(w0, w, h, w.procs[x].gen);
    w' := TwoGive(w0, w', x, y);
  }

  lemma GivenWasTaken(w: World, x: nat)
    requires Inv(w) && x in w.procs && w.procs[x].RecvGive?
    ensures w.procs[x].i < w.taken
  {
    assert HoldFits(w, w.procs[x]);
  }

  lemma TwoAbleCross(w: World, g: nat, h: nat) returns (w': World)
    requires Inv(w) && Able(w, g) && Able(w, h) && g != h
    ensures Leads(w, w') && !InOrder(w'.delivered)
  {
    hide Leads, Inv;
    LeadsNowhere(w);
    var x, y;
    if !w.stopped && Live(w, g) {
      if Live(w, h) {
        w', x := GiveNext(w, w, g, h);
        w' := GiveAndLive(w, w', x, h);
      } else {
        y :| y in w.procs && Gives(w.procs[y], h);
        w' := GiveAndLive(w, w, y, g);
      }
    } else {
      x :| x in w.procs && Gives(w.procs[x], g);
      if !w.stopped && Live(w, h) {
        w' := GiveAndLive(w, w, x, h);
      } else {
        y :| y in w.procs && Gives(w.procs[y], h);
        GivesApart(w, x, y);
        if w.procs[x].i < w.procs[y].i { w' := TwoGive(w, w, x, y); } else { w' := TwoGive(w, w, y, x); }
      }
    }
  }

  lemma GivesApart(w: World, x: nat, y: nat)
    requires Inv(w) && x in w.procs && y in w.procs && w.procs[x].RecvGive? && w.procs[y].RecvGive? && x != y
    ensures w.procs[x].i != w.procs[y].i
  {
    assert Holds(w.procs[x]) != None;
  }

  /** However things go on, if Open waits for Close and the callbacks, packets are handed out in order. */
  ghost predicate AlwaysInOrder(w: World) {
    forall run :: Possible(w, run) && Serial(w, run) ==> InOrder(After(w, run).delivered)
  }

  /**
  From any reachable world on, packets are handed out in order however things go on,
  exactly if they have been so far, no callback is about to hand out one older than
  the last, and at most one generation can hand out any.
  */
  lemma InOrderIff(run: seq<Action>)
    requires Possible(INITIAL, run)
    ensures AlwaysInOrder(After(INITIAL, run)) <==> Straight(After(INITIAL, run))
  {
    InitialInv();
    RunKeeps(INITIAL, run);
    var w := After(INITIAL, run);
    if Straight(w) {
      forall more | Possible(w, more) && Serial(w, more) ensures InOrder(After(w, more).delivered) {
        SerialStaysStraight(w, more);
      }
    } else {
      Crooked(w);
    }
  }

  lemma Crooked(w: World)
    requires Inv(w) && !Straight(w)
    ensures !AlwaysInOrder(w)
  {
    var w' := CrookedLeads(w);
    var run :| Calm(run) && Possible(w, run) && After(w, run) == w';
    CalmIsSerial(w, run);
  }

  lemma CrookedLeads(w: World) returns (w': World)
    requires Inv(w) && !Straight(w)
    ensures Leads(w, w') && !InOrder(w'.delivered)
  {
    hide Leads, Inv;
    LeadsNowhere(w);
    w' := w;
    if !InOrder(w.delivered) { return; }
    if !OneAble(w) {
      var g, h :| Able(w, g) && Able(w, h) && g != h;
      w' := TwoAbleCross(w, g, h);
    } else {
      var id :| id in w.procs && !HoldsNewest(w, w.procs[id]);
      LateIsOutOfOrder(w, w.procs[id]);
      if w.procs[id].RecvHold? { w' := LeadsOn(w, w, Run(id, true, Direct)); }
      w' := LeadsOn(w, w', Run(id, true, Direct));
    }
  }

  lemma LateIsOutOfOrder(w: World, p: Proc)
    requires !HoldsNewest(w, p)
    ensures !InOrder(w.delivered + [p.i])
  {
    var j :| 0 <= j < |w.delivered| && w.delivered[j] >= p.i;
    var s := w.delivered + [p.i];
    assert s[j] >= s[|w.delivered|];
  }

  /** An Open between the two halves of a Close leaves two generations that can take packets. */
  lemma OverlappingOpen() returns (run: seq<Action>)
    ensures Possible(INITIAL, run) && !AlwaysInOrder(After(INITIAL, run))
  {
    hide AlwaysInOrder, Straight;
    run := Then([], Open);
    run := Then(run, Call(CloseTake));
    run := Then(run, Run(0, true, Direct));
    run := Then(run, Open);
    NotStraight(After(INITIAL, run));
    InOrderIff(run);
  }

  lemma Then(run: seq<Action>, a: Action) returns (run': seq<Action>)
    requires Possible(INITIAL, run) && Enabled(After(INITIAL, run), a)
    ensures run' == run + [a] && Possible(INITIAL, run') && After(INITIAL, run') == Step(After(INITIAL, run), a)
  {
    run' := run + [a];
    OneMore(INITIAL, run, a);
  }

  lemma NotStraight(w: World)
    requires w.gens == 2 && w.closed == {} && !w.stopped
    ensures !Straight(w)
  {
    assert Able(w, 0) && Able(w, 1);
  }

  // ----- A generation that has been closed -----

  /** A callback of generation g that has passed its last test of `closed`. */
  ghost predicate PastTest(w: World, g: nat) {
    exists id :: id in w.procs && Gives(w.procs[id], g)
  }

  lemma ClosedStaysSilent(w: World, a: Action, g: nat)
    requires Enabled(w, a) && g in w.closed && !PastTest(w, g)
    ensures g in Step(w, a).closed && !PastTest(Step(w, a), g)
  {
    forall id | id in Step(w, a).procs ensures !Gives(Step(w, a).procs[id], g) {
      if id in w.procs { assert !Gives(w.procs[id], g); }
    }
  }

  /** What the callbacks of generation g hand out on the way. */
  ghost function HandedOutBy(w: World, run: seq<Action>, g: nat): seq<nat>
    requires Possible(w, run)
    decreases |run|
  {
    if run == [] then [] else
      var a := run[0];
      (if a.Run? && Gives(w.procs[a.id], g) then [w.procs[a.id].i] else []) + HandedOutBy(Step(w, a), run[1..], g)
  }

  lemma {:induction false} SilentOnceClosed(w: World, run: seq<Action>, g: nat)
    requires Possible(w, run) && g in w.closed && !PastTest(w, g)
    ensures HandedOutBy(w, run, g) == []
    decreases |run|
  {
    if run != [] {
      ClosedStaysSilent(w, run[0], g);
      SilentOnceClosed(Step(w, run[0]), run[1..], g);
    }
  }

  /** While a generation is open, a callback of it may pass its last test just before Close closes it. */
  lemma CloseMayComeLate(run: seq<Action>, g: nat) returns (w': World)
    requires Possible(INITIAL, run) && After(INITIAL, run).active == Some(g) && !After(INITIAL, run).stopped
    ensures Leads(After(INITIAL, run), w') && g in w'.closed && PastTest(w', g) && !StaysSilent(w', g)
  {
    InitialInv();
    RunKeeps(INITIAL, run);
    w' := MayCloseLate(After(INITIAL, run), g);
    ClosedIsSilentIff(w', g);
  }

  lemma MayCloseLate(w: World, g: nat) returns (w': World)
    requires Inv(w) && w.active == Some(g) && !w.stopped
    ensures Leads(w, w') && g in w'.closed && PastTest(w', g)
  {
    LeadsNowhere(w);
    var x;
    w', x := GiveNext(w, w, g, g + 1);
    w' := ClosesNow(w, w', g, x);
  }

  lemma ClosesNow(w0: World, w: World, g: nat, x: nat) returns (w': World)
    requires Leads(w0, w) && Inv(w) && w.active == Some(g) && x in w.procs && Gives(w.procs[x], g)
    ensures Leads(w0, w') && g in w'.closed && PastTest(w', g)
  {
    hide Leads, Inv, PastTest;
    FreshId(w);
    var id := w.nextId;
    w' := LeadsOn(w0, w, Call(CloseTake));
    w' := LeadsOn(w0, w', Run(id, true, Direct));
    assert w'.procs[id] == CloseMark(g) && w'.procs[x] == w.procs[x];
    w' := LeadsOn(w0, w', Run(id, true, Direct));
    GivesPast(w', x, g);
  }

  lemma GivesPast(w: World, id: nat, g: nat)
    requires id in w.procs && Gives(w.procs[id], g)
    ensures PastTest(w, g)
  {}

  ghost predicate StaysSilent(w: World, g: nat) {
    forall run :: Possible(w, run) ==> HandedOutBy(w, run, g) == []
  }

  /** A closed generation hands out nothing any more, exactly if no callback of it was past its last test. */
  lemma ClosedIsSilentIff(w: World, g: nat)
    requires g in w.closed
    ensures StaysSilent(w, g) <==> !PastTest(w, g)
  {
    if PastTest(w, g) {
      var id :| id in w.procs && Gives(w.procs[id], g);
      var run := [Run(id, true, Direct)];
      assert run[1..] == [] && Possible(w, run);
      assert HandedOutBy(w, run, g)[0] == w.procs[id].i;
    } else {
      forall run | Possible(w, run) ensures HandedOutBy(w, run, g) == [] { SilentOnceClosed(w, run, g); }
    }
  }

  // ----- What each operation achieves when nothing interferes -----

  /** A packet of a permitted size that finds room in the queue is admitted. */
  lemma AdmitsPacket(w: World, e: Entry) returns (w': World)
    requires Inv(w) && !w.stopped && 0 < |e.packet| <= MAX_PACKET_SIZE && |w.received.log| - w.taken < QUEUE_DEPTH
    ensures Leads(w, w') && Inv(w') && w'.received == w.received.(log := w.received.log + [e]) && w'.taken == w.taken
    ensures w.nextId in w'.procs && w'.procs[w.nextId] == AddTotal(Inward, |w.received.log|)
  {
    hide Inv, Leads;
    LeadsNowhere(w);
    FreshId(w);
    var id := w.nextId;
    w' := LeadsOn(w, w, Call(EnqCheck(e)));
    w' := LeadsOn(w, w', Run(id, true, Direct));
    assert w'.procs[id] == EnqPut(e);
    w' := LeadsOn(w, w', Run(id, true, Direct));
  }

  /** A packet whose write succeeds on a path is sent there. */
  lemma SendsPacket(w: World, packet: Bytes, path: TrafficPath) returns (w': World)
    requires Inv(w) && 0 < |packet| <= MAX_PACKET_SIZE
    ensures Leads(w, w') && Inv(w') && w'.sent == w.sent.(log := w.sent.log + [Entry(path, packet)])
    ensures w.nextId in w'.procs && w'.procs[w.nextId] == AddTotal(Outward, |w.sent.log|)
  {
    hide Inv, Leads;
    LeadsNowhere(w);
    FreshId(w);
    w' := LeadsOn(w, w, Call(SendWrite(packet)));
    w' := LeadsOn(w, w', Run(w.nextId, true, path));
  }

  function SideOf(w: World, way: Way): Side { if way.Outward? then w.sent else w.received }

  /** What has been sent or admitted is counted in full on its path and in all, once each. */
  lemma CountsPacket(w: World, id: nat, i: nat, way: Way) returns (w': World)
    requires Inv(w) && id in w.procs && w.procs[id] == AddTotal(way, i)
    ensures Leads(w, w') && Inv(w') && i < |SideOf(w, way).log|
    ensures SideOf(w', way) == Pathed(Totalled(SideOf(w, way), i), i) && id !in w'.procs
  {
    assert CountFits(SideOf(w, way), w.procs[id], way);
    hide Inv, Leads, Totalled, Pathed;
    LeadsNowhere(w);
    w' := LeadsOn(w, w, Run(id, true, Direct));
    CountSteps(w, id, i, way);
    var v := w';
    w' := LeadsOn(w, v, Run(id, true, Direct));
    CountSteps(v, id, i, way);
  }

  lemma CountSteps(w: World, id: nat, i: nat, way: Way)
    requires id in w.procs && w.procs[id] in {AddTotal(way, i), AddPath(way, i)}
    ensures var w' := Step(w, Run(id, true, Direct));
      if w.procs[id].AddTotal? then
        SideOf(w', way) == Totalled(SideOf(w, way), i) && id in w'.procs && w'.procs[id] == AddPath(way, i)
      else SideOf(w', way) == Pathed(SideOf(w, way), i) && id !in w'.procs
  {}

  /** A callback of the open generation hands out the oldest packet of the queue, if it fits the buffer. */
  lemma HandsOutOldest(w: World, g: nat, room: nat) returns (w': World)
    requires Inv(w) && !w.stopped && Live(w, g) && forall id :: id in w.procs ==> !Receives(w.procs[id], g)
    requires w.taken < |w.received.log| && |w.received.log[w.taken].packet| <= room
    ensures Leads(w, w') && w'.delivered == w.delivered + [w.taken] && w'.taken == w.taken + 1
    ensures w'.discarded == w.discarded && w.nextId !in w'.procs
  {
    hide Inv, Leads;
    var v := TakesOldest(w, g, room);
    w' := HandsOutHeld(w, v, w.nextId);
  }

  lemma HandsOutHeld(w0: World, w: World, id: nat) returns (w': World)
    requires Leads(w0, w) && Inv(w) && id in w.procs && Passes(w, w.procs[id])
    ensures Leads(w0, w') && w'.delivered == w.delivered + [w.procs[id].i] && w'.taken == w.taken
    ensures w'.discarded == w.discarded && id !in w'.procs
  {
    hide Inv, Leads;
    w' := LeadsOn(w0, w, Run(id, true, Direct));
    w' := LeadsOn(w0, w', Run(id, true, Direct));
  }

  lemma TakesOldest(w: World, g: nat, room: nat) returns (w': World)
    requires Inv(w) && !w.stopped && Live(w, g) && forall id :: id in w.procs ==> !Receives(w.procs[id], g)
    requires w.taken < |w.received.log|
    ensures Leads(w, w') && Inv(w') && w'.procs == w.procs[w.nextId := RecvHold(g, room, w.taken)]
    ensures w'.taken == w.taken + 1 && w'.received == w.received && w'.delivered == w.delivered
    ensures w'.discarded == w.discarded && w'.closed == w.closed && !w'.stopped
  {
    hide Inv, Leads;
    LeadsNowhere(w);
    FreshId(w);
    var id := w.nextId;
    w' := LeadsOn(w, w, Call(RecvCheck(g, room)));
    w' := LeadsOn(w, w', Run(id, true, Direct));
    assert w'.procs[id] == RecvSelect(g, room);
    w' := LeadsOn(w, w', Run(id, true, Direct));
    assert w'.procs == w.procs[id := RecvHold(g, room, w.taken)];
  }

  /** Open starts a new generation. */
  lemma OpenStarts(w: World)
    requires Inv(w) && w.active.None? && !w.shutdown
    ensures var w' := Step(w, Open);
      w'.active == Some(w.gens) && Live(w', w.gens) && !Live(w, w.gens) && w'.procs == w.procs
  {}

  /** Close ends the open generation and touches nothing else. */
  lemma CloseEnds(w: World, g: nat) returns (w': World)
    requires Inv(w) && w.active == Some(g)
    ensures Leads(w, w') && Inv(w')
    ensures w' == w.(active := None, closed := w.closed + {g}, nextId := w.nextId + 1)
  {
    hide Inv, Leads;
    LeadsNowhere(w);
    FreshId(w);
    var id := w.nextId;
    w' := LeadsOn(w, w, Call(CloseTake));
    w' := LeadsOn(w, w', Run(id, true, Direct));
    assert w'.procs == w.procs[id := CloseMark(g)];
    w' := LeadsOn(w, w', Run(id, true, Direct));
    assert w'.procs == w.procs;
  }

  /** Shutdown ends the open generation and leaves every callback with a reason to return. */
  lemma ShutdownEnds(w: World) returns (w': World)
    requires Inv(w) && !w.shutCalled
    ensures Leads(w, w') && Inv(w') && w'.procs == w.procs
    ensures w'.stopped && w'.shutdown && w'.channelClosed && w'.active.None?
    ensures w'.closed == w.closed + (if w.active.Some? then {w.active.value} else {})
  {
    hide Inv, Leads;
    FreshId(w);
    var id := w.nextId;
    w' := ShutdownTakes(w);
    w' := LeadsOn(w, w', Run(id, true, Direct));
    assert w'.procs == w.procs[id := ShutChannel];
    w' := LeadsOn(w, w', Run(id, true, Direct));
    assert w'.procs == w.procs;
  }

  lemma ShutdownTakes(w: World) returns (w': World)
    requires Inv(w) && !w.shutCalled
    ensures Leads(w, w') && Inv(w') && w'.procs == w.procs[w.nextId := ShutMark(w.active)]
    ensures w'.stopped && w'.shutdown && w'.active.None? && w'.closed == w.closed && w'.channelClosed == w.channelClosed
  {
    hide Inv, Leads;
    LeadsNowhere(w);
    FreshId(w);
    var id := w.nextId;
    w' := LeadsOn(w, w, Call(ShutStop));
    w' := LeadsOn(w, w', Run(id, true, Direct));
    assert w'.procs == w.procs[id := ShutTake];
    w' := LeadsOn(w, w', Run(id, true, Direct));
  }

  /** A callback that waits for a packet, its generation closed or the bind shut down, can return at once. */
  lemma WaitingReturns(w: World, id: nat) returns (w': World)
    requires Inv(w) && id in w.procs && w.procs[id].RecvSelect? && (w.procs[id].gen in w.closed || w.channelClosed)
    ensures Leads(w, w') && Inv(w') && w' == w.(procs := w.procs - {id})
  {
    hide Inv, Leads;
    LeadsNowhere(w);
    w' := LeadsOn(w, w, Run(id, false, Direct));
  }
}
