/**
SetDirect, DropDirect, senders, readers, the relay worker and Shutdown running at
once (internal/transport/bind.go).  A process stands between two operations that
other processes can see: a critical section of pathMu or workerMu, one load or
store of `stopped`, the closing of one connection, or one read or write.
*/
module BindRuns {
  import opened BindPaths
  import opened Common

  /** What follows dropDirectPath: return, the end of a reader, or the relay attempt of a sender. */
  datatype Next = Return | EndReader | TryRelay(relay: Option<Conn>)

  datatype Proc =
    // SetDirect
    | SetCheck(c: Conn) | SetLock(c: Conn) | SetRefuse(c: Conn) | SetCloseOld(c: Conn, prior: Option<Conn>)
    | SetSpawn(c: Conn)
    // directReadLoop
    | Reading(c: Conn)
    // dropDirectPath
    | Dropping(c: Conn, next: Next) | Closing(c: Conn, next: Next)
    // DropDirect
    | DropLock | DropClose(c: Conn)
    // sendOne
    | SendSnapshot | SendDirect(direct: Option<Conn>, relay: Option<Conn>) | SendRelay(relay: Option<Conn>)
    | SendClear(c: Conn) | SendClose(c: Conn)
    // relayLoop
    | RelayDial | RelayCheck(c: Conn) | RelayRefuse(c: Conn) | RelayLock(c: Conn)
    | RelayCloseOld(c: Conn, prior: Option<Conn>)
    | RelayReceive(c: Conn) | RelayClear(c: Conn) | RelayClose(c: Conn)
    // Shutdown
    | ShutStop | ShutWorkers | ShutCancel | ShutTake | ShutCloseDirect(direct: Option<Conn>, relay: Option<Conn>)
    | ShutCloseRelay(relay: Option<Conn>) | ShutWait

  datatype World = World(
    slots: Slots,
    closed: set<Conn>,
    /** Connections that have been in a slot. */
    installed: set<Conn>,
    /** Connections that exist. */
    used: set<Conn>,
    workersClosed: bool,
    cancelled: bool,
    /** Shutdown has been called; has emptied the slots; has returned. */
    shutCalled: bool, taken: bool, shutDone: bool,
    procs: map<nat, Proc>)

  /** New: a relay worker only if a relay is configured. */
  function Initial(relayConfigured: bool): World {
    World(Slots(None, None, NoPath, false), {}, {}, {}, false, false, false, false, false,
          if relayConfigured then map[0 := RelayDial] else map[])
  }

  function SetOf(c: Option<Conn>): set<Conn> {
    if c.Some? then {c.value} else {}
  }

  /** The goroutines counted by `workers`. */
  predicate Worker(p: Proc) {
    || p.Reading? || (p.Dropping? && p.next == EndReader) || (p.Closing? && p.next == EndReader)
    || p.RelayDial? || p.RelayCheck? || p.RelayRefuse? || p.RelayLock? || p.RelayCloseOld?
    || p.RelayReceive? || p.RelayClear? || p.RelayClose?
  }

  /** The result of one step of a process, which then stands at `next`, if it has not returned. */
  datatype Outcome = Outcome(world: World, next: Option<Proc>)

  /** The critical sections of pathMu, and the store of `stopped`. */
  function NextSlots(s: Slots, p: Proc): Slots {
    match p
    case SetLock(c) => if s.stopped then s else Select(s, c)
    case Dropping(c, _) => Unselect(s, c)
    case DropLock => DropAny(s)
    case SendClear(c) => Disconnect(s, c)
    case RelayLock(c) => Connect(s, c)
    case RelayClear(c) => Disconnect(s, c)
    case ShutStop => s.(stopped := true)
    case ShutTake => TakeAll(s)
    case _ => s
  }

  /** The connections the step closes. */
  function Closes(p: Proc): set<Conn> {
    match p
    case SetRefuse(c) => {c}
    case SetCloseOld(_, prior) => SetOf(prior)
    case Closing(c, _) => {c}
    case DropClose(c) => {c}
    case SendClose(c) => {c}
    case RelayRefuse(c) => {c}
    case RelayCloseOld(c, prior) => if prior == Some(c) then {} else SetOf(prior)
    case RelayClose(c) => {c}
    case ShutCloseDirect(direct, _) => SetOf(direct)
    case ShutCloseRelay(relay) => SetOf(relay)
    case _ => {}
  }

  /** The connection the step puts in a slot. */
  function Installs(s: Slots, p: Proc): set<Conn> {
    match p
    case SetLock(c) => if s.stopped then {} else {c}
    case RelayLock(c) => {c}
    case _ => {}
  }

  /** Where the process stands next; `ok`: the read, write or dial succeeds, and `dialled` is what a dial returns. */
  function NextProc(w: World, p: Proc, ok: bool, dialled: Conn): Option<Proc> {
    match p
    case SetCheck(c) => if w.slots.stopped then None else Some(SetLock(c))
    case SetLock(c) => Some(if w.slots.stopped then SetRefuse(c) else SetCloseOld(c, w.slots.direct))
    case SetRefuse(_) => None
    case SetCloseOld(c, _) => Some(SetSpawn(c))
    case SetSpawn(c) => Some(if w.workersClosed then Dropping(c, Return) else Reading(c))
    case Reading(c) => Some(if ok && c !in w.closed then p else Dropping(c, EndReader))
    case Dropping(c, next) => Some(Closing(c, next))
    case Closing(_, next) => if next.TryRelay? then Some(SendRelay(next.relay)) else None
    case DropLock => if w.slots.direct.Some? then Some(DropClose(w.slots.direct.value)) else None
    case DropClose(_) => None
    case SendSnapshot => Some(SendDirect(w.slots.direct, w.slots.relay))
    case SendDirect(direct, relay) =>
      if direct.None? then Some(SendRelay(relay))
      else if ok && direct.value !in w.closed then None
      else Some(Dropping(direct.value, TryRelay(relay)))
    case SendRelay(relay) =>
      if relay.None? || (ok && relay.value !in w.closed) then None else Some(SendClear(relay.value))
    case SendClear(c) => Some(SendClose(c))
    case SendClose(_) => None
    case RelayDial => if w.cancelled then None else Some(if ok then RelayCheck(dialled) else p)
    case RelayCheck(c) => Some(if w.slots.stopped then RelayRefuse(c) else RelayLock(c))
    case RelayRefuse(c) => Some(RelayReceive(c))
    case RelayLock(c) => Some(RelayCloseOld(c, w.slots.relay))
    case RelayCloseOld(c, _) => Some(RelayReceive(c))
    case RelayReceive(c) => Some(if ok && c !in w.closed then p else RelayClear(c))
    case RelayClear(c) => Some(RelayClose(c))
    case RelayClose(_) => Some(RelayDial)
    case ShutStop => Some(ShutWorkers)
    case ShutWorkers => Some(ShutCancel)
    case ShutCancel => Some(ShutTake)
    case ShutTake => Some(ShutCloseDirect(w.slots.direct, w.slots.relay))
    case ShutCloseDirect(_, relay) => Some(ShutCloseRelay(relay))
    case ShutCloseRelay(_) => Some(ShutWait)
    case ShutWait => None
  }

  function Advance(w: World, p: Proc, ok: bool, dialled: Conn): Outcome {
    Outcome(
      World(NextSlots(w.slots, p), w.closed + Closes(p), w.installed + Installs(w.slots, p),
            if p.RelayDial? && ok then w.used + {dialled} else w.used,
            w.workersClosed || p.ShutWorkers?, w.cancelled || p.ShutCancel?,
            w.shutCalled, w.taken || p.ShutTake?, w.shutDone || p.ShutWait?, w.procs),
      NextProc(w, p, ok, dialled))
  }

  datatype Action =
    /** A caller enters SetDirect, DropDirect, sendOne or Shutdown. */
    | Call(id: nat, start: Proc)
    | Run(id: nat, ok: bool, dialled: Conn)

  predicate Enabled(w: World, a: Action) {
    match a
    case Call(id, start) =>
      && id !in w.procs
      && match start {
        case SetCheck(c) => c !in w.used
        case DropLock => true
        case SendSnapshot => true
        // stopOnce: later callers only wait for the first.
        case ShutStop => !w.shutCalled
        case _ => false
      }
    case Run(id, ok, dialled) =>
      && id in w.procs
      && (w.procs[id].RelayDial? && ok ==> dialled !in w.used)
      // workers.Wait
      && (w.procs[id].ShutWait? ==> forall j :: j in w.procs ==> !Worker(w.procs[j]))
  }

  function Step(w: World, a: Action): World
    requires Enabled(w, a)
  {
    match a
    case Call(id, start) =>
      w.(procs := w.procs[id := start], used := if start.SetCheck? then w.used + {start.c} else w.used,
         shutCalled := w.shutCalled || start.ShutStop?)
    case Run(id, ok, dialled) =>
      var o := Advance(w, w.procs[id], ok, dialled);
      o.world.(procs := if o.next.Some? then w.procs[id := o.next.value] else w.procs - {id})
  }

  // ----- The invariant -----

  /** A process that will still close c before it returns. */
  predicate Owes(p: Proc, c: Conn) {
    match p
    case SetRefuse(x) => x == c
    case SetCloseOld(_, prior) => prior == Some(c)
    case Dropping(x, _) => x == c
    case Closing(x, _) => x == c
    case DropClose(x) => x == c
    case SendClear(x) => x == c
    case SendClose(x) => x == c
    case RelayCloseOld(x, prior) => x != c && prior == Some(c)
    case RelayClear(x) => x == c
    case RelayClose(x) => x == c
    case ShutCloseDirect(direct, relay) => direct == Some(c) || relay == Some(c)
    case ShutCloseRelay(relay) => relay == Some(c)
    case _ => false
  }

  ghost predicate Owed(w: World, c: Conn) {
    exists id :: id in w.procs && Owes(w.procs[id], c)
  }

  /** The relay worker that put c in the slot and has not yet taken it out. */
  predicate HoldsRelay(p: Proc, c: Conn) {
    (p.RelayCloseOld? || p.RelayReceive? || p.RelayClear?) && p.c == c
  }

  ghost predicate RelayHeld(w: World) {
    w.slots.relay.Some? ==> exists id :: id in w.procs && HoldsRelay(w.procs[id], w.slots.relay.value)
  }

  ghost predicate Accounted(w: World) {
    forall c :: c in w.installed ==>
      c in w.closed || w.slots.direct == Some(c) || w.slots.relay == Some(c) || Owed(w, c)
  }

  /** The phases of the one Shutdown, and what each has established. */
  predicate Phases(w: World) {
    && (w.taken ==> w.slots.stopped && w.slots.direct.None? && w.workersClosed && w.cancelled)
    && (w.shutDone ==> w.taken)
    && (forall id :: id in w.procs ==> PhaseFits(w, w.procs[id]))
  }

  predicate PhaseFits(w: World, p: Proc) {
    match p
    case ShutWorkers => w.slots.stopped
    case ShutCancel => w.slots.stopped && w.workersClosed
    case ShutTake => w.slots.stopped && w.workersClosed && w.cancelled
    case ShutCloseDirect(_, _) => w.taken
    case ShutCloseRelay(_) => w.taken
    case ShutWait => w.taken
    case _ => Worker(p) ==> !w.shutDone
  }

  ghost predicate Inv(w: World) {
    && w.slots.ModeFits()
    && (w.taken ==> w.slots.mode == ClosedMode)
    && Phases(w) && RelayHeld(w) && Accounted(w)
  }

  lemma InitialInv(relayConfigured: bool)
    ensures Inv(Initial(relayConfigured))
  {}

  lemma CallKeeps(w: World, a: Action)
    requires Inv(w) && a.Call? && Enabled(w, a)
    ensures Inv(Step(w, a))
  {
    var w' := Step(w, a);
    forall id | id in w.procs ensures id in w'.procs && w'.procs[id] == w.procs[id] {}
    forall c | Owed(w, c) ensures Owed(w', c) {
      var id :| id in w.procs && Owes(w.procs[id], c);
      assert id in w'.procs && Owes(w'.procs[id], c);
    }
    if w.slots.relay.Some? {
      var id :| id in w.procs && HoldsRelay(w.procs[id], w.slots.relay.value);
      assert HoldsRelay(w'.procs[id], w.slots.relay.value);
    }
  }

  predicate Settled(w: World, c: Conn) {
    c in w.closed || w.slots.direct == Some(c) || w.slots.relay == Some(c)
  }

  predicate OwedBy(p: Option<Proc>, c: Conn) {
    p.Some? && Owes(p.value, c)
  }

  /** One step pays the process's own debt or passes it to its next state, and takes on what it unseats. */
  lemma DebtPassedOn(w: World, p: Proc, ok: bool, dialled: Conn, c: Conn)
    requires Settled(w, c) || Owes(p, c) || c !in w.installed
    ensures var o := Advance(w, p, ok, dialled);
      c in o.world.installed ==> Settled(o.world, c) || OwedBy(o.next, c)
  {}

  lemma SlotsStayFit(w: World, p: Proc, ok: bool, dialled: Conn)
    requires w.slots.ModeFits() && (w.taken ==> w.slots.stopped && w.slots.mode == ClosedMode)
    ensures var w' := Advance(w, p, ok, dialled).world;
      w'.slots.ModeFits() && (w'.taken ==> p.ShutTake? || (w'.slots.stopped && w'.slots.mode == ClosedMode))
  {}

  lemma RelayPassedOn(w: World, p: Proc, ok: bool, dialled: Conn)
    ensures var o := Advance(w, p, ok, dialled);
      o.world.slots.relay.Some? ==>
        var c := o.world.slots.relay.value;
        (o.next.Some? && HoldsRelay(o.next.value, c)) || (w.slots.relay == Some(c) && !HoldsRelay(p, c))
  {}

  /** What Phases says apart from the processes. */
  predicate Taken(w: World) {
    && (w.taken ==> w.slots.stopped && w.slots.direct.None? && w.workersClosed && w.cancelled)
    && (w.shutDone ==> w.taken)
  }

  lemma PhasePassedOn(w: World, p: Proc, ok: bool, dialled: Conn)
    requires PhaseFits(w, p) && Taken(w)
    ensures var o := Advance(w, p, ok, dialled);
      Taken(o.world) && (o.next.Some? ==> PhaseFits(o.world, o.next.value))
  {}

  /** Nothing of what a phase has established is ever undone. */
  predicate Onward(w: World, w': World) {
    && (w.slots.stopped ==> w'.slots.stopped) && (w.workersClosed ==> w'.workersClosed)
    && (w.cancelled ==> w'.cancelled) && (w.taken ==> w'.taken)
  }

  lemma AdvanceIsOnward(w: World, p: Proc, ok: bool, dialled: Conn)
    ensures var o := Advance(w, p, ok, dialled);
      Onward(w, o.world) && o.world.shutDone == (w.shutDone || p.ShutWait?)
  {}

  /** The step of one process, put together from what it does to itself and to the shared fields. */
  lemma Combine(w: World, id: nat, o: Outcome, w': World)
    requires Inv(w) && id in w.procs
    requires w' == o.world.(procs := if o.next.Some? then w.procs[id := o.next.value] else w.procs - {id})
    requires o.world.slots.ModeFits() && (o.world.taken ==> o.world.slots.mode == ClosedMode)
    requires Taken(o.world) && (o.next.Some? ==> PhaseFits(o.world, o.next.value))
    requires Onward(w, o.world) && o.world.shutDone == (w.shutDone || w.procs[id].ShutWait?)
    requires w.procs[id].ShutWait? ==> forall j :: j in w.procs ==> !Worker(w.procs[j])
    requires o.world.slots.relay.Some? ==>
      var c := o.world.slots.relay.value;
      (o.next.Some? && HoldsRelay(o.next.value, c)) || (w.slots.relay == Some(c) && !HoldsRelay(w.procs[id], c))
    requires forall c :: c in o.world.installed && (Settled(w, c) || Owes(w.procs[id], c) || c !in w.installed) ==>
      Settled(o.world, c) || OwedBy(o.next, c)
    ensures Inv(w')
  {
    forall j | j in w'.procs ensures PhaseFits(w', w'.procs[j]) {
      if j != id { assert w'.procs[j] == w.procs[j] && PhaseFits(w, w.procs[j]); }
    }
    forall c | c in w'.installed
      ensures c in w'.closed || w'.slots.direct == Some(c) || w'.slots.relay == Some(c) || Owed(w', c)
    {
      if OwedBy(o.next, c) {
        assert w'.procs[id] == o.next.value;
      } else if !Settled(o.world, c) {
        var j :| j in w.procs && Owes(w.procs[j], c);
        assert j != id && w'.procs[j] == w.procs[j];
      }
    }
    if w'.slots.relay.Some? {
      var c := w'.slots.relay.value;
      if o.next.Some? && HoldsRelay(o.next.value, c) {
        assert w'.procs[id] == o.next.value;
      } else {
        var j :| j in w.procs && HoldsRelay(w.procs[j], c);
        assert w'.procs[j] == w.procs[j];
      }
    }
  }

  lemma StepKeeps(w: World, a: Action)
    requires Inv(w) && Enabled(w, a)
    ensures Inv(Step(w, a))
  {
    if a.Call? {
      CallKeeps(w, a);
    } else {
      var p := w.procs[a.id];
      assert PhaseFits(w, p);
      SlotsStayFit(w, p, a.ok, a.dialled);
      PhasePassedOn(w, p, a.ok, a.dialled);
      AdvanceIsOnward(w, p, a.ok, a.dialled);
      RelayPassedOn(w, p, a.ok, a.dialled);
      forall c | Settled(w, c) || Owes(p, c) || c !in w.installed
        ensures var o := Advance(w, p, a.ok, a.dialled);
          c in o.world.installed ==> Settled(o.world, c) || OwedBy(o.next, c)
      {
        DebtPassedOn(w, p, a.ok, a.dialled, c);
      }
      Combine(w, a.id, Advance(w, p, a.ok, a.dialled), Step(w, a));
    }
  }

  // ----- Whole runs -----

  ghost predicate Possible(w: World, run: seq<Action>)
    decreases |run|
  {
    run == [] || (Enabled(w, run[0]) && Possible(Step(w, run[0]), run[1..]))
  }

  ghost function After(w: World, run: seq<Action>): World
    requires Possible(w, run)
    decreases |run|
  {
    if run == [] then w else After(Step(w, run[0]), run[1..])
  }

  lemma {:induction false} RunKeeps(w: World, run: seq<Action>)
    requires Inv(w) && Possible(w, run)
    ensures Inv(After(w, run))
    decreases |run|
  {
    if run != [] {
      StepKeeps(w, run[0]);
      RunKeeps(Step(w, run[0]), run[1..]);
    }
  }

  /** While the bind is not stopped, the recorded mode is the effective one, whoever runs when. */
  lemma ModeIsEffective(relayConfigured: bool, run: seq<Action>)
    requires Possible(Initial(relayConfigured), run)
    ensures var s := After(Initial(relayConfigured), run).slots;
      !s.stopped ==> s.mode == EffectiveMode(s.direct.Some?, s.relay.Some?, false)
  {
    InitialInv(relayConfigured);
    RunKeeps(Initial(relayConfigured), run);
  }

  /** Once Shutdown has returned both slots are empty, also when replaceRelay had raced past its test. */
  lemma ShutdownEmptiesSlots(relayConfigured: bool, run: seq<Action>)
    requires Possible(Initial(relayConfigured), run) && After(Initial(relayConfigured), run).shutDone
    ensures var w := After(Initial(relayConfigured), run);
      w.slots.direct.None? && w.slots.relay.None? && w.slots.mode == ClosedMode
      && forall id :: id in w.procs ==> !Worker(w.procs[id])
  {
    InitialInv(relayConfigured);
    RunKeeps(Initial(relayConfigured), run);
    var w := After(Initial(relayConfigured), run);
    forall id | id in w.procs ensures !Worker(w.procs[id]) { assert PhaseFits(w, w.procs[id]); }
  }

  /**
  Between two attempts of the relay worker, or reading or receiving; not in the
  middle of a call or of a clean-up.
  */
  predicate Resting(p: Proc) { p.RelayDial? || p.Reading? || p.RelayReceive? }

  /**
  With no call in flight every connection that was ever in a slot is closed or still
  selected, also the session the relay worker is receiving on.
  */
  lemma NothingLeaks(relayConfigured: bool, run: seq<Action>)
    requires Possible(Initial(relayConfigured), run)
    ensures var w := After(Initial(relayConfigured), run);
      (forall id :: id in w.procs ==> Resting(w.procs[id])) ==>
        w.installed <= w.closed + SetOf(w.slots.direct) + SetOf(w.slots.relay)
    ensures var w := After(Initial(relayConfigured), run);
      w.procs == map[] && w.shutDone ==> w.installed <= w.closed
  {
    InitialInv(relayConfigured);
    RunKeeps(Initial(relayConfigured), run);
    var w := After(Initial(relayConfigured), run);
    if w.procs == map[] && w.shutDone {
      ShutdownEmptiesSlots(relayConfigured, run);
    }
  }

  // ----- Late failures -----

  /** Nobody replaces, drops or shuts down, and q itself is not seen to fail. */
  predicate SparesDirect(w: World, a: Action, q: Conn)
    requires Enabled(w, a)
  {
    a.Run? ==>
      var p := w.procs[a.id];
      && !p.SetLock? && !p.DropLock? && !p.ShutTake? && !p.ShutStop?
      && var next := NextProc(w, p, a.ok, a.dialled);
         (next.Some? && next.value.Dropping? ==> next.value.c != q)
  }

  ghost predicate SparesThroughout(w: World, run: seq<Action>, q: Conn)
    requires Possible(w, run)
    decreases |run|
  {
    run == [] || (SparesDirect(w, run[0], q) && SparesThroughout(Step(w, run[0]), run[1..], q))
  }

  lemma AdvanceSparesDirect(w: World, p: Proc, ok: bool, dialled: Conn, q: Conn)
    requires w.slots.direct == Some(q) && w.slots.mode == DirectMode && !w.slots.stopped
    requires !p.SetLock? && !p.DropLock? && !p.ShutTake? && !p.ShutStop? && (p.Dropping? ==> p.c != q)
    ensures var s := Advance(w, p, ok, dialled).world.slots;
      s.direct == Some(q) && s.mode == DirectMode && !s.stopped
  {}

  lemma StepSparesDirect(w: World, a: Action, q: Conn)
    requires Enabled(w, a) && SparesDirect(w, a, q)
    requires w.slots.direct == Some(q) && w.slots.mode == DirectMode && !w.slots.stopped
    requires forall id :: id in w.procs && w.procs[id].Dropping? ==> w.procs[id].c != q
    ensures var w' := Step(w, a);
      && w'.slots.direct == Some(q) && w'.slots.mode == DirectMode && !w'.slots.stopped
      && forall id :: id in w'.procs && w'.procs[id].Dropping? ==> w'.procs[id].c != q
  {
    if a.Run? { AdvanceSparesDirect(w, w.procs[a.id], a.ok, a.dialled, q); }
  }

  /** Failures of other paths, however late and however many, leave q selected. */
  lemma {:induction false} LateFailuresSpareSuccessor(w: World, run: seq<Action>, q: Conn)
    requires Possible(w, run) && SparesThroughout(w, run, q)
    requires w.slots.direct == Some(q) && w.slots.mode == DirectMode && !w.slots.stopped
    requires forall id :: id in w.procs && w.procs[id].Dropping? ==> w.procs[id].c != q
    ensures After(w, run).slots.direct == Some(q) && After(w, run).slots.mode == DirectMode
    decreases |run|
  {
    if run != [] {
      StepSparesDirect(w, run[0], q);
      LateFailuresSpareSuccessor(Step(w, run[0]), run[1..], q);
    }
  }

  /** The same for the relay slot: only the session's own end takes it out, until another is connected. */
  predicate SparesRelay(w: World, a: Action, q: Conn)
    requires Enabled(w, a)
  {
    a.Run? ==>
      var p := w.procs[a.id];
      && !p.RelayLock? && !p.ShutTake?
      && var next := NextProc(w, p, a.ok, a.dialled);
         (next.Some? && (next.value.SendClear? || next.value.RelayClear?) ==> next.value.c != q)
  }

  ghost predicate SparesRelayThroughout(w: World, run: seq<Action>, q: Conn)
    requires Possible(w, run)
    decreases |run|
  {
    run == [] || (SparesRelay(w, run[0], q) && SparesRelayThroughout(Step(w, run[0]), run[1..], q))
  }

  lemma AdvanceSparesRelay(w: World, p: Proc, ok: bool, dialled: Conn, q: Conn)
    requires w.slots.relay == Some(q) && !p.RelayLock? && !p.ShutTake?
    requires (p.SendClear? || p.RelayClear?) ==> p.c != q
    ensures Advance(w, p, ok, dialled).world.slots.relay == Some(q)
  {}

  lemma StepSparesRelay(w: World, a: Action, q: Conn)
    requires Enabled(w, a) && SparesRelay(w, a, q) && w.slots.relay == Some(q)
    requires forall id :: id in w.procs && (w.procs[id].SendClear? || w.procs[id].RelayClear?) ==> w.procs[id].c != q
    ensures var w' := Step(w, a);
      && w'.slots.relay == Some(q)
      && forall id :: id in w'.procs && (w'.procs[id].SendClear? || w'.procs[id].RelayClear?) ==> w'.procs[id].c != q
  {
    if a.Run? { AdvanceSparesRelay(w, w.procs[a.id], a.ok, a.dialled, q); }
  }

  lemma {:induction false} LateFailuresSpareRelay(w: World, run: seq<Action>, q: Conn)
    requires Possible(w, run) && SparesRelayThroughout(w, run, q) && w.slots.relay == Some(q)
    requires forall id :: id in w.procs && (w.procs[id].SendClear? || w.procs[id].RelayClear?) ==> w.procs[id].c != q
    ensures After(w, run).slots.relay == Some(q)
    decreases |run|
  {
    if run != [] {
      StepSparesRelay(w, run[0], q);
      LateFailuresSpareRelay(Step(w, run[0]), run[1..], q);
    }
  }

  // ----- What each operation achieves when nothing interferes -----

  /** w' can come about from w. */
  ghost predicate Leads(w: World, w': World) {
    exists run :: Possible(w, run) && After(w, run) == w'
  }

  lemma LeadsNowhere(w: World)
    ensures Leads(w, w)
  {
    assert Possible(w, []) && After(w, []) == w;
  }

  lemma {:induction false} OneMore(w: World, run: seq<Action>, a: Action)
    requires Possible(w, run) && Enabled(After(w, run), a)
    ensures Possible(w, run + [a]) && After(w, run + [a]) == Step(After(w, run), a)
    decreases |run|
  {
    if run == [] {
      assert [a][1..] == [];
    } else {
      OneMore(Step(w, run[0]), run[1..], a);
      assert (run + [a])[1..] == run[1..] + [a];
    }
  }

  lemma LeadsOn(w0: World, w: World, a: Action) returns (w': World)
    requires Leads(w0, w) && Enabled(w, a)
    ensures w' == Step(w, a) && Leads(w0, w')
  {
    w' := Step(w, a);
    var run :| Possible(w0, run) && After(w0, run) == w;
    OneMore(w0, run, a);
  }

  /** The process `id` alone can bring the rest of the world to v, and then stands at p, or has returned. */
  ghost predicate Gets(w0: World, id: nat, v: World, p: Option<Proc>) {
    Leads(w0, Placed(w0, id, v, p))
  }

  function Placed(w0: World, id: nat, v: World, p: Option<Proc>): World {
    v.(procs := if p.Some? then w0.procs[id := p.value] else w0.procs - {id})
  }

  lemma Starts(w: World, id: nat, p: Proc)
    requires Enabled(w, Call(id, p)) && !p.SetCheck? && !p.ShutStop?
    ensures Gets(w, id, w, Some(p))
  {
    LeadsNowhere(w);
    var w' := LeadsOn(w, w, Call(id, p));
    assert w' == Placed(w, id, w, Some(p));
  }

  lemma StandsThere(w: World, id: nat)
    requires id in w.procs
    ensures Gets(w, id, w, Some(w.procs[id]))
  {
    LeadsNowhere(w);
    assert Placed(w, id, w, Some(w.procs[id])) == w;
  }

  lemma GetsOn(w0: World, id: nat, v: World, p: Proc, ok: bool, dialled: Conn) returns (v': World, p': Option<Proc>)
    requires Gets(w0, id, v, Some(p)) && (p.RelayDial? && ok ==> dialled !in v.used) && !p.ShutWait?
    ensures v' == Advance(v, p, ok, dialled).world && p' == NextProc(v, p, ok, dialled) && Gets(w0, id, v', p')
  {
    hide Leads, NextProc, NextSlots, Closes, Installs;
    var w := Placed(w0, id, v, Some(p));
    var w' := LeadsOn(w0, w, Run(id, ok, dialled));
    v', p' := Advance(v, p, ok, dialled).world, NextProc(v, p, ok, dialled);
    OthersDoNotMatter(v, w.procs, p, ok, dialled);
    PlacedAgain(w0, id, p, p');
    assert w' == Placed(w0, id, v', p');
  }

  lemma OthersDoNotMatter(v: World, procs: map<nat, Proc>, p: Proc, ok: bool, dialled: Conn)
    ensures NextProc(v.(procs := procs), p, ok, dialled) == NextProc(v, p, ok, dialled)
  {}

  lemma PlacedAgain(w0: World, id: nat, p: Proc, p': Option<Proc>)
    ensures (if p'.Some? then w0.procs[id := p][id := p'.value] else w0.procs[id := p] - {id}) ==
      (if p'.Some? then w0.procs[id := p'.value] else w0.procs - {id})
  {}

  /** SetDirect selects the new path, closes the one it replaces, and leaves a reader behind. */
  lemma SetDirectSelects(w: World, id: nat, c: Conn) returns (v: World)
    requires id !in w.procs && c !in w.used && !w.slots.stopped && !w.workersClosed
    ensures Gets(w, id, v, Some(Reading(c)))
    ensures v.slots == Slots(Some(c), w.slots.relay, DirectMode, false) && v.closed == w.closed + SetOf(w.slots.direct)
  {
    hide Gets, Leads;
    var p;
    v := w.(used := w.used + {c});
    StartsWith(w, id, c);
    v, p := GetsOn(w, id, v, SetCheck(c), true, 0);
    v, p := GetsOn(w, id, v, SetLock(c), true, 0);
    v, p := GetsOn(w, id, v, SetCloseOld(c, w.slots.direct), true, 0);
    v, p := GetsOn(w, id, v, SetSpawn(c), true, 0);
  }

  lemma StartsWith(w: World, id: nat, c: Conn)
    requires id !in w.procs && c !in w.used
    ensures Gets(w, id, w.(used := w.used + {c}), Some(SetCheck(c)))
  {
    LeadsNowhere(w);
    var w' := LeadsOn(w, w, Call(id, SetCheck(c)));
    assert w' == Placed(w, id, w.(used := w.used + {c}), Some(SetCheck(c)));
  }

  /** If the bind is stopped before SetDirect has the lock, the connection is closed and nothing else happens. */
  lemma SetDirectRefused(w: World, id: nat, c: Conn) returns (v: World)
    requires id in w.procs && w.procs[id] == SetLock(c) && w.slots.stopped
    ensures Gets(w, id, v, None) && v.slots == w.slots && v.closed == w.closed + {c} && v.installed == w.installed
  {
    hide Gets, Leads;
    var p;
    StandsThere(w, id);
    v, p := GetsOn(w, id, w, SetLock(c), true, 0);
    v, p := GetsOn(w, id, v, SetRefuse(c), true, 0);
  }

  /** DropDirect unselects and closes whatever direct path there is. */
  lemma DropDirectCloses(w: World, id: nat, c: Conn) returns (v: World)
    requires id !in w.procs && w.slots.direct == Some(c)
    ensures Gets(w, id, v, None) && v.slots == w.slots.(direct := None).Refreshed() && v.closed == w.closed + {c}
  {
    hide Gets, Leads;
    var p;
    Starts(w, id, DropLock);
    v, p := GetsOn(w, id, w, DropLock, true, 0);
    v, p := GetsOn(w, id, v, DropClose(c), true, 0);
  }

  /** A reader that fails takes its own path out, closes it, and ends. */
  lemma FailedReaderDrops(w: World, id: nat, c: Conn) returns (v: World)
    requires id in w.procs && w.procs[id] == Reading(c) && w.slots.direct == Some(c)
    ensures Gets(w, id, v, None) && v.slots == w.slots.(direct := None).Refreshed() && v.closed == w.closed + {c}
  {
    hide Gets, Leads;
    var p;
    StandsThere(w, id);
    v, p := GetsOn(w, id, w, Reading(c), false, 0);
    v, p := GetsOn(w, id, v, Dropping(c, EndReader), true, 0);
    v, p := GetsOn(w, id, v, Closing(c, EndReader), true, 0);
  }

  /** A sender whose direct write succeeds is done and has changed nothing. */
  lemma SendsDirect(w: World, id: nat, c: Conn) returns (v: World)
    requires id !in w.procs && w.slots.direct == Some(c) && c !in w.closed
    ensures Gets(w, id, v, None) && v.slots == w.slots && v.closed == w.closed
  {
    hide Gets, Leads;
    var p;
    Starts(w, id, SendSnapshot);
    v, p := GetsOn(w, id, w, SendSnapshot, true, 0);
    v, p := GetsOn(w, id, v, SendDirect(Some(c), w.slots.relay), true, 0);
  }

  /** A sender whose direct write fails retires that path and sends over the relay. */
  lemma FallsBackToRelay(w: World, id: nat, c: Conn, r: Conn) returns (v: World)
    requires id !in w.procs && w.slots.direct == Some(c) && w.slots.relay == Some(r) && r !in w.closed && r != c
    ensures Gets(w, id, v, None) && v.slots == w.slots.(direct := None).Refreshed() && v.closed == w.closed + {c}
  {
    hide Gets, Leads;
    var p;
    Starts(w, id, SendSnapshot);
    v, p := GetsOn(w, id, w, SendSnapshot, true, 0);
    v, p := GetsOn(w, id, v, SendDirect(Some(c), Some(r)), false, 0);
    v, p := GetsOn(w, id, v, Dropping(c, TryRelay(Some(r))), true, 0);
    v, p := GetsOn(w, id, v, Closing(c, TryRelay(Some(r))), true, 0);
    v, p := GetsOn(w, id, v, SendRelay(Some(r)), true, 0);
  }

  /** A sender whose relay write fails retires that session. */
  lemma FailedRelayIsRetired(w: World, id: nat, r: Conn) returns (v: World)
    requires id !in w.procs && w.slots.direct.None? && w.slots.relay == Some(r)
    ensures Gets(w, id, v, None) && v.slots == w.slots.(relay := None).Refreshed() && v.closed == w.closed + {r}
  {
    hide Gets, Leads;
    var p;
    Starts(w, id, SendSnapshot);
    v, p := GetsOn(w, id, w, SendSnapshot, true, 0);
    v, p := GetsOn(w, id, v, SendDirect(None, Some(r)), true, 0);
    v, p := GetsOn(w, id, v, SendRelay(Some(r)), false, 0);
    v, p := GetsOn(w, id, v, SendClear(r), true, 0);
    v, p := GetsOn(w, id, v, SendClose(r), true, 0);
  }

  /** The relay worker connects, closes the session it replaces, and receives on the new one. */
  lemma RelayConnects(w: World, id: nat, c: Conn) returns (v: World)
    requires id in w.procs && w.procs[id] == RelayDial && !w.cancelled && !w.slots.stopped && c !in w.used
    requires w.slots.relay != Some(c)
    ensures Gets(w, id, v, Some(RelayReceive(c))) && v.closed == w.closed + SetOf(w.slots.relay)
    ensures v.slots == w.slots.(relay := Some(c)).Refreshed()
  {
    hide Gets, Leads;
    var p;
    StandsThere(w, id);
    v, p := GetsOn(w, id, w, RelayDial, true, c);
    v, p := GetsOn(w, id, v, RelayCheck(c), true, c);
    v, p := GetsOn(w, id, v, RelayLock(c), true, c);
    v, p := GetsOn(w, id, v, RelayCloseOld(c, w.slots.relay), true, c);
  }

  /** A session that fails to receive is taken out and closed, and the worker dials again. */
  lemma RelayReconnects(w: World, id: nat, c: Conn) returns (v: World)
    requires id in w.procs && w.procs[id] == RelayReceive(c) && w.slots.relay == Some(c)
    ensures Gets(w, id, v, Some(RelayDial)) && v.closed == w.closed + {c}
    ensures v.slots == w.slots.(relay := None).Refreshed()
  {
    hide Gets, Leads;
    var p;
    StandsThere(w, id);
    v, p := GetsOn(w, id, w, RelayReceive(c), false, 0);
    v, p := GetsOn(w, id, v, RelayClear(c), true, 0);
    v, p := GetsOn(w, id, v, RelayClose(c), true, 0);
  }

  /**
  A reader or the relay worker comes to its end once the bind is shut down, so that
  Shutdown does not wait for ever.
  */
  lemma WorkersEnd(w: World, id: nat) returns (v: World)
    requires id in w.procs && w.cancelled && (w.procs[id].Reading? || w.procs[id].RelayDial?)
    requires w.procs[id].Reading? ==> w.procs[id].c in w.closed
    ensures Gets(w, id, v, None)
  {
    hide Gets, Leads;
    var p;
    StandsThere(w, id);
    if w.procs[id].RelayDial? {
      v, p := GetsOn(w, id, w, RelayDial, false, 0);
    } else {
      var c := w.procs[id].c;
      v, p := GetsOn(w, id, w, Reading(c), true, 0);
      v, p := GetsOn(w, id, v, Dropping(c, EndReader), true, 0);
      v, p := GetsOn(w, id, v, Closing(c, EndReader), true, 0);
    }
  }

  /** Shutdown stops everything, empties both slots and closes what was in them; then it waits for the workers. */
  lemma ShutdownCloses(w: World, id: nat) returns (v: World)
    requires id !in w.procs && !w.shutCalled
    ensures Gets(w, id, v, Some(ShutWait)) && v.slots == Slots(None, None, ClosedMode, true)
    ensures v.closed == w.closed + SetOf(w.slots.direct) + SetOf(w.slots.relay) && v.workersClosed && v.cancelled
  {
    hide Gets, Leads;
    var p;
    v := w.(shutCalled := true);
    StartsShutdown(w, id);
    v, p := GetsOn(w, id, v, ShutStop, true, 0);
    v, p := GetsOn(w, id, v, ShutWorkers, true, 0);
    v, p := GetsOn(w, id, v, ShutCancel, true, 0);
    v, p := GetsOn(w, id, v, ShutTake, true, 0);
    v, p := GetsOn(w, id, v, ShutCloseDirect(w.slots.direct, w.slots.relay), true, 0);
    v, p := GetsOn(w, id, v, ShutCloseRelay(w.slots.relay), true, 0);
  }

  lemma StartsShutdown(w: World, id: nat)
    requires id !in w.procs && !w.shutCalled
    ensures Gets(w, id, w.(shutCalled := true), Some(ShutStop))
  {
    LeadsNowhere(w);
    var w' := LeadsOn(w, w, Call(id, ShutStop));
    assert w' == Placed(w, id, w.(shutCalled := true), Some(ShutStop));
  }

  /** And it returns once they are gone. */
  lemma ShutdownReturns(w: World, id: nat) returns (w': World)
    requires id in w.procs && w.procs[id] == ShutWait && forall j :: j in w.procs ==> !Worker(w.procs[j])
    ensures Leads(w, w') && w'.shutDone && w'.procs == w.procs - {id} && w'.slots == w.slots
  {
    LeadsNowhere(w);
    w' := LeadsOn(w, w, Run(id, true, 0));
  }
}
