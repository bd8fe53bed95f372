/**
Room and pair sockets of the rendezvous server (internal/control/control.go,
internal/control/websocket.go): attaching, forwarding, detaching.  The server's
lock covers only the sections that read or change the slots; queueing happens
after it is released, so everything below holds for every interleaving.
*/
module ControlSockets {
  import opened Common
  import opened ControlState

  const QUEUE_SIZE := 32

  datatype Key = RoomKey(id: Id) | PairKey(id: Id)

  /** One room or pair; `serial` tells apart records that had the same key one after another. */
  datatype Record = Record(serial: nat, host: Id, guest: Option<Id>, hostConn: Option<nat>, guestConn: Option<nat>) {
    function Slot(role: Role): Option<nat> { if role.Host? then hostConn else guestConn }
    function WithSlot(role: Role, c: Option<nat>): Record {
      if role.Host? then this.(hostConn := c) else this.(guestConn := c)
    }
    function Device(role: Role): Option<Id> { if role.Host? then Some(host) else guest }
  }

  /** Data(s, n) is the n-th message read from socket s; Event(s, _) reports that s came or went. */
  datatype Msg = Event(about: nat, connected: bool) | Data(source: nat, number: int)

  datatype After = TellPartner(other: nat) | ThenRead | ThenGone

  /**
  Where a socket's own goroutines are.  Putting: inside enqueue on socket `to`,
  before or after the test of `done`.
  */
  datatype Pc = Reading | Looking | Putting(to: nat, msg: Msg, checked: bool, after: After) | Detaching | Gone {
    predicate Leaving() { Detaching? || Gone? || (Putting? && after.ThenGone?) }
  }

  /**
  `log` is all that was ever admitted to the queue and `sent` what the write loop has
  taken from it; `found` is the partner seen when attaching.
  */
  datatype Peer = Peer(key: Key, serial: nat, role: Role, device: Id, found: Option<nat>,
                       stopped: bool, queue: seq<Msg>, log: seq<Msg>, sent: seq<Msg>, taken: nat, pc: Pc)

  datatype World = World(records: map<Key, Record>, nextSerial: nat, peers: seq<Peer>)

  datatype Action =
    | AddRecord(key: Key, host: Id, guest: Option<Id>)
    | RemoveRecord(key: Key)
    | Attach(key: Key, role: Role, device: Id)
    | Move(p: nat, choice: bool)
    | Stop(p: nat)
    | Drain(p: nat)

  // ----- Steps -----

  function Open(ps: seq<Peer>, c: Option<nat>): Option<nat> {
    if c.Some? && c.value < |ps| && !ps[c.value].stopped then c else None
  }

  function Resume(p: nat, after: After): Pc {
    match after
    case TellPartner(o) => Putting(o, Event(p, true), false, ThenRead)
    case ThenRead => Reading
    case ThenGone => Gone
  }

  /** validateRoomSlot, and the device and slot tests of handlePairSocket. */
  predicate MayAttach(w: World, key: Key, role: Role, device: Id) {
    && key in w.records && Open(w.peers, w.records[key].Slot(role)).None?
    && (if role.Host? then device == w.records[key].host
        else device != w.records[key].host && w.records[key].guest in {None, Some(device)})
  }

  /** The section that takes the slot, in handleRoomSocket and handlePairSocket. */
  function Attached(w: World, key: Key, role: Role, device: Id): World
    requires MayAttach(w, key, role, device)
  {
    var p := |w.peers|;
    var r := if role.Host? then w.records[key] else w.records[key].(guest := Some(device));
    var other := Open(w.peers, r.Slot(role.Other()));
    var pc := if other.Some? then Putting(p, Event(p, true), false, TellPartner(other.value)) else Reading;
    World(w.records[key := r.WithSlot(role, Some(p))], w.nextSerial,
          w.peers + [Peer(key, r.serial, role, device, other, false, [], [], [], 0, pc)])
  }

  /** The section of forwardRoomMessage and forwardPairMessage: whom to forward to, if anyone. */
  function Target(w: World, p: nat): Option<nat>
    requires p < |w.peers|
  {
    var me := w.peers[p];
    if me.key !in w.records || w.records[me.key].Slot(me.role) != Some(p) || me.stopped then None
    else Open(w.peers, w.records[me.key].Slot(me.role.Other()))
  }

  /** The section of detachRoom and detachPair. */
  function Detached(w: World, p: nat): World
    requires p < |w.peers|
  {
    var me := w.peers[p];
    if me.key !in w.records || w.records[me.key].Slot(me.role) != Some(p) then
      w.(peers := w.peers[p := me.(pc := Gone)])
    else
      var other := w.records[me.key].Slot(me.role.Other());
      var pc := if other.Some? then Putting(other.value, Event(p, false), false, ThenGone) else Gone;
      World(w.records[me.key := w.records[me.key].WithSlot(me.role, None)], w.nextSerial, w.peers[p := me.(pc := pc)])
  }

  /** The second half of enqueue; `choice` resolves the select when both cases are ready. */
  function Received(q: Peer, msg: Msg, choice: bool): Peer {
    if |q.queue| < QUEUE_SIZE && (!q.stopped || choice) then q.(queue := q.queue + [msg], log := q.log + [msg])
    else q.(stopped := true)
  }

  /** writeLoop takes the oldest message. */
  function Drained(q: Peer): Peer
    requires q.queue != []
  {
    q.(queue := q.queue[1..], sent := q.sent + [q.queue[0]])
  }

  /** wsPeer: the outgoing queue and the `done` flag. */
  class WsPeer {
    var stopped: bool
    var send: seq<Msg>
    ghost var admitted: seq<Msg>
    ghost var taken: seq<Msg>

    ghost predicate Valid()
      reads this
    {
      |send| <= QUEUE_SIZE && admitted == taken + send
    }

    constructor ()
      ensures Valid() && !stopped && send == [] && admitted == []
    {
      stopped, send, admitted, taken := false, [], [], [];
    }

    /** The part of p that this object holds. */
    ghost function View(p: Peer): Peer
      reads this
    {
      p.(stopped := stopped, queue := send, log := admitted, sent := taken)
    }

    method Stop()
      modifies this`stopped
      ensures stopped
    {
      stopped := true;
    }

    /** The select in enqueue, which `done` may win once the socket is stopped. */
    method Select(msg: Msg, ghost p: Peer) returns (ok: bool)
      requires Valid()
      modifies this
      ensures Valid()
      ensures exists choice: bool :: View(p) == Received(old(View(p)), msg, choice)
      ensures admitted == if ok then old(admitted) + [msg] else old(admitted)
      ensures !ok ==> stopped && (|old(send)| == QUEUE_SIZE || old(stopped))
      ensures taken == old(taken)
    {
      var doneFirst: bool := *;
      if stopped && (doneFirst || |send| >= QUEUE_SIZE) {
        assert View(p) == Received(old(View(p)), msg, false);
        return false;
      }
      if |send| < QUEUE_SIZE {
        send, admitted := send + [msg], admitted + [msg];
        assert View(p) == Received(old(View(p)), msg, true);
        return true;
      }
      Stop();
      assert View(p) == Received(old(View(p)), msg, false);
      return false;
    }

    /** writeLoop takes the oldest message. */
    method Next() returns (msg: Msg)
      requires Valid() && send != []
      modifies this`send, this`taken
      ensures Valid() && taken == old(taken) + [msg]
      ensures old(send) == [msg] + send
      ensures forall p :: View(p) == Drained(old(View(p)))
    {
      msg, send := send[0], send[1..];
      taken := taken + [msg];
    }
  }

  function Put(ps: seq<Peer>, p: nat, choice: bool): seq<Peer>
    requires p < |ps| && ps[p].pc.Putting? && ps[p].pc.to < |ps|
  {
    var pc := ps[p].pc;
    if !pc.checked then
      ps[p := ps[p].(pc := if ps[pc.to].stopped then Resume(p, pc.after) else pc.(checked := true))]
    else
      var ps' := ps[pc.to := Received(ps[pc.to], pc.msg, choice)];
      ps'[p := ps'[p].(pc := Resume(p, pc.after))]
  }

  function Moved(w: World, p: nat, choice: bool): World
    requires p < |w.peers|
  {
    var me := w.peers[p];
    match me.pc
    case Reading =>
      w.(peers := w.peers[p := if choice then me.(pc := Looking, taken := me.taken + 1)
                               else if me.stopped then me.(pc := Detaching) else me])
    case Looking =>
      var to := Target(w, p);
      var pc := if to.Some? then Putting(to.value, Data(p, me.taken - 1), false, ThenRead) else Reading;
      w.(peers := w.peers[p := me.(pc := pc)])
    case Putting(to, _, _, _) => if to < |w.peers| then w.(peers := Put(w.peers, p, choice)) else w
    case Detaching => Detached(w, p)
    case Gone => w
  }

  function Step(w: World, a: Action): World {
    match a
    case AddRecord(key, host, guest) =>
      if key in w.records || guest == Some(host) then w
      else World(w.records[key := Record(w.nextSerial, host, guest, None, None)], w.nextSerial + 1, w.peers)
    case RemoveRecord(key) => w.(records := w.records - {key})
    case Attach(key, role, device) => if MayAttach(w, key, role, device) then Attached(w, key, role, device) else w
    case Move(p, choice) => if p < |w.peers| then Moved(w, p, choice) else w
    case Stop(p) => if p < |w.peers| then w.(peers := w.peers[p := w.peers[p].(stopped := true)]) else w
    case Drain(p) =>
      // The write loop starts after the socket has told both sides of its arrival.
      if p < |w.peers| && w.peers[p].queue != [] && Told(w.peers[p]) then
        w.(peers := w.peers[p := Drained(w.peers[p])])
      else w
  }

  /** Nobody who is not stopped is there. */
  predicate Absent(c: Option<nat>, ps: seq<Peer>) {
    c.None? || c.value >= |ps| || ps[c.value].stopped
  }

  /** The sections under the server's lock, as code on the records and sockets it guards. */
  class Slots {
    var records: map<Key, Record>
    var nextSerial: nat
    var peers: seq<Peer>

    constructor ()
      ensures View() == INITIAL
    {
      records, nextSerial, peers := map[], 0, [];
    }

    ghost function View(): World
      reads this
    {
      World(records, nextSerial, peers)
    }

    /** A connection that is there and not stopped. */
    method Occupied(c: Option<nat>) returns (yes: bool)
      ensures yes <==> Open(peers, c).Some?
    {
      yes := c.Some? && c.value < |peers| && !peers[c.value].stopped;
    }

    /** Taking the slot after the upgrade; the new socket's first duty is to tell both sides. */
    method Attach(key: Key, role: Role, device: Id) returns (ok: bool)
      modifies this`records, this`peers
      ensures ok <==> MayAttach(old(View()), key, role, device)
      ensures View() == if ok then Attached(old(View()), key, role, device) else old(View())
      ensures ok <==>
        key in old(records) && Absent(old(records)[key].Slot(role), old(peers))
        && (if role.Host? then device == old(records)[key].host
            else device != old(records)[key].host && old(records)[key].guest in {None, Some(device)})
      ensures ok ==> var p, r := |old(peers)|, old(records)[key];
        && |peers| == p + 1 && peers[..p] == old(peers) && records.Keys == old(records).Keys
        && records[key].Slot(role) == Some(p) && records[key].Slot(role.Other()) == r.Slot(role.Other())
        && records[key].Device(role) == Some(device)
        && peers[p].key == key && peers[p].serial == r.serial && peers[p].role == role && peers[p].device == device
        && !peers[p].stopped
        && peers[p].found == (if Absent(r.Slot(role.Other()), old(peers)) then None else r.Slot(role.Other()))
        && (peers[p].found.None? ==> peers[p].pc.Reading?)
        && (peers[p].found.Some? ==>
              peers[p].pc == Putting(p, Event(p, true), false, TellPartner(peers[p].found.value)))
    {
      if key !in records { return false; }
      var record := records[key];
      if role.Host? {
        if record.host != device { return false; }
      } else {
        if record.host == device || (record.guest.Some? && record.guest.value != device) { return false; }
      }
      var busy := Occupied(record.Slot(role));
      if busy { return false; }
      var p := |peers|;
      if role.Host? {
        record := record.(hostConn := Some(p));
      } else {
        if record.guest.None? { record := record.(guest := Some(device)); }
        record := record.(guestConn := Some(p));
      }
      records := records[key := record];
      var other := record.Slot(role.Other());
      var both := Occupied(other);
      var found := if both then other else None;
      var pc := if both then Putting(p, Event(p, true), false, TellPartner(other.value)) else Reading;
      peers := peers + [Peer(key, record.serial, role, device, found, false, [], [], [], 0, pc)];
      return true;
    }

    /** The partner to forward a message of socket p to, while both still have their seats. */
    method Forward(p: nat) returns (to: Option<nat>)
      requires p < |peers|
      ensures to == Target(View(), p)
      ensures forall q :: to == Some(q) <==>
        peers[p].key in records && records[peers[p].key].Slot(peers[p].role) == Some(p) && !peers[p].stopped
        && records[peers[p].key].Slot(peers[p].role.Other()) == Some(q) && !Absent(Some(q), peers)
    {
      var me := peers[p];
      if me.key !in records { return None; }
      var record := records[me.key];
      if me.role.Host? && record.hostConn != Some(p) { return None; }
      if me.role.Guest? && record.guestConn != Some(p) { return None; }
      var other := record.Slot(me.role.Other());
      var both := Occupied(other);
      return if both && !me.stopped then other else None;
    }

    /** Giving up the seat, unless a successor has it; the partner, stopped or not, is to be told. */
    method Detach(p: nat)
      requires p < |peers|
      modifies this`records, this`peers
      ensures View() == Detached(old(View()), p)
      ensures |peers| == |old(peers)| && forall x :: 0 <= x < |peers| && x != p ==> peers[x] == old(peers)[x]
      ensures var key, role := old(peers)[p].key, old(peers)[p].role;
        if key in old(records) && old(records)[key].Slot(role) == Some(p) then
          && records == old(records)[key := old(records)[key].WithSlot(role, None)]
          && (forall q :: old(records)[key].Slot(role.Other()) == Some(q) ==>
                peers[p].pc == Putting(q, Event(p, false), false, ThenGone))
          && (old(records)[key].Slot(role.Other()) == None ==> peers[p].pc.Gone?)
        else records == old(records) && peers[p].pc.Gone?
    {
      var me := peers[p];
      var other: Option<nat> := None;
      if me.key in records {
        var record := records[me.key];
        if me.role.Host? {
          if record.hostConn == Some(p) {
            other := record.guestConn;
            records := records[me.key := record.(hostConn := None)];
          }
        } else {
          if record.guestConn == Some(p) {
            other := record.hostConn;
            records := records[me.key := record.(guestConn := None)];
          }
        }
      }
      var pc := if other.Some? then Putting(other.value, Event(p, false), false, ThenGone) else Gone;
      peers := peers[p := me.(pc := pc)];
    }
  }

  const INITIAL := World(map[], 0, [])

  function Run(actions: seq<Action>): World {
    if actions == [] then INITIAL else Step(Run(actions[..|actions| - 1]), actions[|actions| - 1])
  }

  // ----- Invariants -----

  /** The two sockets sat at one record, on opposite sides. */
  predicate Partners(ps: seq<Peer>, p: nat, q: nat) {
    p < |ps| && q < |ps| && ps[p].serial == ps[q].serial && ps[p].key == ps[q].key && ps[p].role != ps[q].role
  }

  /** Each side of a record belongs to one device, and the two devices differ. */
  ghost predicate SidesOk(ps: seq<Peer>) {
    forall a, b :: 0 <= a < |ps| && 0 <= b < |ps| && ps[a].serial == ps[b].serial ==>
      (ps[a].role == ps[b].role <==> ps[a].device == ps[b].device)
  }

  predicate SeatOk(ps: seq<Peer>, key: Key, r: Record, role: Role) {
    match r.Slot(role)
    case None => true
    case Some(p) => p < |ps| && ps[p].key == key && ps[p].serial == r.serial && ps[p].role == role
  }

  /** One of the two saw the other, not stopped, when it attached. */
  predicate Met(ps: seq<Peer>, s: nat, q: nat) {
    s < |ps| && q < |ps| && (ps[s].found == Some(q) || ps[q].found == Some(s))
  }

  ghost predicate RecordOk(ps: seq<Peer>, nextSerial: nat, key: Key, r: Record) {
    && (Open(ps, r.hostConn).Some? && Open(ps, r.guestConn).Some? ==> Met(ps, r.hostConn.value, r.guestConn.value))
    && r.serial < nextSerial && r.guest != Some(r.host) && SeatOk(ps, key, r, Host) && SeatOk(ps, key, r, Guest)
  }

  /** A socket fits the record it sits at; while it is not stopped it has its seat. */
  predicate PeerSeated(records: map<Key, Record>, nextSerial: nat, ps: seq<Peer>, p: nat)
    requires p < |ps|
  {
    && ps[p].serial < nextSerial
    && (ps[p].key in records && records[ps[p].key].serial == ps[p].serial ==>
          && records[ps[p].key].Device(ps[p].role) == Some(ps[p].device)
          && (!ps[p].stopped ==> records[ps[p].key].Slot(ps[p].role) == Some(p)))
  }

  ghost predicate SeatsOk(w: World) {
    && (forall key {:trigger RecordOk(w.peers, w.nextSerial, key, w.records[key])} :: key in w.records ==>
          RecordOk(w.peers, w.nextSerial, key, w.records[key]))
    && (forall a, b {:trigger w.records[a].serial, w.records[b].serial} ::
          a in w.records && b in w.records && a != b ==>
          w.records[a].serial != w.records[b].serial)
    && (forall p {:trigger PeerSeated(w.records, w.nextSerial, w.peers, p)} :: 0 <= p < |w.peers| ==>
          PeerSeated(w.records, w.nextSerial, w.peers, p))
    && (forall p, key {:trigger w.peers[p], w.records[key]} ::
          0 <= p < |w.peers| && key in w.records && w.peers[p].serial == w.records[key].serial ==>
            w.peers[p].key == key)
  }

  /** The connected=true events are out of the socket's hands. */
  predicate Told(x: Peer) {
    !(x.pc.Putting? && x.pc.msg.Event? && x.pc.msg.connected)
  }

  /** How many of the messages read have been dealt with. */
  function Sent(x: Peer): int {
    if x.pc.Looking? || (x.pc.Putting? && x.pc.msg.Data?) then x.taken - 1 else x.taken
  }

  predicate PuttingOk(ps: seq<Peer>, p: nat)
    requires p < |ps| && ps[p].pc.Putting?
  {
    var me, pc := ps[p], ps[p].pc;
    && (pc.to == p || Partners(ps, p, pc.to))
    && (match pc.msg
        case Data(_, _) =>
          && pc.to != p && pc.msg == Data(p, me.taken - 1) && pc.after.ThenRead? && Met(ps, p, pc.to)
          && (pc.checked && me.found == Some(pc.to) ==> Event(p, true) in ps[pc.to].log)
        case Event(about, true) =>
          about == p && me.taken == 0 && (pc.after == ThenRead || (pc.to == p && pc.after.TellPartner?))
          && me.found == Some(if pc.after == ThenRead then pc.to else pc.after.other)
        case Event(about, false) => about == p && pc.after == ThenGone)
  }

  predicate PendingOk(ps: seq<Peer>, p: nat)
    requires p < |ps|
  {
    var me := ps[p];
    && (me.pc.Looking? || (me.pc.Putting? && me.pc.msg.Data?) ==> me.taken > 0)
    && (me.pc.Putting? ==> PuttingOk(ps, p))
    && (me.found.Some? ==> Partners(ps, p, me.found.value))
    && (me.found.Some? && Told(me) ==> Event(p, true) in ps[me.found.value].log || ps[me.found.value].stopped)
    && (me.found.Some? && (Told(me) || me.pc.to != p) ==> Event(p, true) in me.log || me.stopped)
  }

  predicate EntryOk(ps: seq<Peer>, q: nat, i: nat)
    requires q < |ps| && i < |ps[q].log|
  {
    match ps[q].log[i]
    case Event(s, _) => s == q || Partners(ps, s, q)
    case Data(s, n) =>
      && Partners(ps, s, q) && Met(ps, s, q) && n < Sent(ps[s])
      && (ps[s].found == Some(q) ==> Event(s, true) in ps[q].log[..i])
  }

  ghost predicate LogOk(ps: seq<Peer>, q: nat)
    requires q < |ps|
  {
    && (forall i {:trigger EntryOk(ps, q, i)} :: 0 <= i < |ps[q].log| ==> EntryOk(ps, q, i))
    && InOrder(ps[q].log)
    && |ps[q].queue| <= QUEUE_SIZE && ps[q].log == ps[q].sent + ps[q].queue
  }

  /** The messages of each source appear in the order they were read, none twice. */
  ghost predicate InOrder(log: seq<Msg>) {
    forall i, j :: 0 <= i < j < |log| && log[i].Data? && log[j].Data? && log[i].source == log[j].source ==>
      log[i].number < log[j].number
  }

  ghost predicate OneQueue(ps: seq<Peer>) {
    forall a, b, m: Msg {:trigger m in ps[a].log, m in ps[b].log} ::
      0 <= a < |ps| && 0 <= b < |ps| && m.Data? && m in ps[a].log && m in ps[b].log ==> a == b
  }

  ghost predicate MessagesOk(ps: seq<Peer>) {
    && (forall p {:trigger PendingOk(ps, p)} :: 0 <= p < |ps| ==> PendingOk(ps, p))
    && (forall q {:trigger LogOk(ps, q)} :: 0 <= q < |ps| ==> LogOk(ps, q))
    && OneQueue(ps)
  }

  // ----- Steps keep the invariants: messages -----

  /** What never changes or only grows in a socket. */
  predicate Aged(x: Peer, y: Peer) {
    && y.key == x.key && y.serial == x.serial && y.role == x.role && y.device == x.device && y.found == x.found
    && (x.stopped ==> y.stopped) && x.log <= y.log && Sent(x) <= Sent(y) && (Told(x) ==> Told(y))
  }

  predicate Later(ps: seq<Peer>, ps': seq<Peer>) {
    |ps| <= |ps'| && forall x :: 0 <= x < |ps| ==> Aged(ps[x], ps'[x])
  }

  /** At most, messages have moved from the queue to the client. */
  predicate SameQueued(x: Peer, y: Peer) {
    y.sent + y.queue == x.sent + x.queue && |y.queue| <= |x.queue|
  }

  lemma LogLasts(ps: seq<Peer>, ps': seq<Peer>, q: nat)
    requires Later(ps, ps') && q < |ps| && LogOk(ps, q) && ps'[q].log == ps[q].log
    requires SameQueued(ps[q], ps'[q])
    ensures LogOk(ps', q)
  {
    forall i | 0 <= i < |ps'[q].log| ensures EntryOk(ps', q, i) {
      assert EntryOk(ps, q, i);
    }
  }

  lemma PendingLasts(ps: seq<Peer>, ps': seq<Peer>, p: nat)
    requires Later(ps, ps') && p < |ps| && PendingOk(ps, p)
    requires ps'[p].pc == ps[p].pc && ps'[p].taken == ps[p].taken
    ensures PendingOk(ps', p)
  {}

  /** One socket moves on without touching any queue's record of what was admitted. */
  lemma OneMoves(ps: seq<Peer>, p: nat, me: Peer)
    requires MessagesOk(ps) && p < |ps| && Aged(ps[p], me) && me.log == ps[p].log
    requires SameQueued(ps[p], me)
    requires PendingOk(ps[p := me], p)
    ensures MessagesOk(ps[p := me])
  {
    var ps' := ps[p := me];
    forall x | 0 <= x < |ps'| ensures PendingOk(ps', x) {
      if x != p { assert PendingOk(ps, x); PendingLasts(ps, ps', x); }
    }
    forall q | 0 <= q < |ps'| ensures LogOk(ps', q) {
      assert LogOk(ps, q);
      LogLasts(ps, ps', q);
    }
    assert forall x :: 0 <= x < |ps| ==> ps'[x].log == ps[x].log;
  }

  lemma OneJoins(ps: seq<Peer>, me: Peer)
    requires MessagesOk(ps) && me.log == me.queue == me.sent == [] && PendingOk(ps + [me], |ps|)
    ensures MessagesOk(ps + [me])
  {
    var ps' := ps + [me];
    forall x | 0 <= x < |ps'| ensures PendingOk(ps', x) {
      if x < |ps| { assert PendingOk(ps, x); PendingLasts(ps, ps', x); }
    }
    forall q | 0 <= q < |ps'| ensures LogOk(ps', q) {
      if q < |ps| { assert LogOk(ps, q); LogLasts(ps, ps', q); }
    }
    assert forall x :: 0 <= x < |ps| ==> ps'[x].log == ps[x].log;
  }

  /** What admitting a message to queue q does to the record of that queue. */
  lemma LogGrows(ps: seq<Peer>, ps': seq<Peer>, q: nat, msg: Msg)
    requires Later(ps, ps') && q < |ps| && LogOk(ps, q) && |ps'| == |ps| && |ps[q].queue| < QUEUE_SIZE
    requires ps'[q].log == ps[q].log + [msg] && ps'[q].queue == ps[q].queue + [msg] && ps'[q].sent == ps[q].sent
    requires EntryOk(ps', q, |ps[q].log|)
    requires forall m :: m in ps[q].log && m.Data? && msg.Data? && m.source == msg.source ==> m.number < msg.number
    ensures LogOk(ps', q)
  {
    forall i | 0 <= i < |ps'[q].log| ensures EntryOk(ps', q, i) {
      if i < |ps[q].log| {
        assert EntryOk(ps, q, i);
        assert ps'[q].log[..i] == ps[q].log[..i];
      }
    }
  }

  /** While a message waits to be queued, it is in no queue and newer than all its sender's others. */
  lemma PendingIsNew(ps: seq<Peer>, p: nat)
    requires MessagesOk(ps) && p < |ps| && ps[p].pc.Putting? && ps[p].pc.msg.Data?
    ensures forall q, m :: 0 <= q < |ps| && m in ps[q].log && m.Data? && m.source == p ==>
      m.number < ps[p].pc.msg.number
  {
    assert PendingOk(ps, p);
    forall q, m | 0 <= q < |ps| && m in ps[q].log && m.Data? && m.source == p ensures m.number < ps[p].pc.msg.number {
      assert LogOk(ps, q);
      var i :| 0 <= i < |ps[q].log| && ps[q].log[i] == m;
      assert EntryOk(ps, q, i);
    }
  }

  lemma AgesOnPut(ps: seq<Peer>, p: nat, choice: bool)
    requires p < |ps| && PendingOk(ps, p) && ps[p].pc.Putting?
    ensures Later(ps, Put(ps, p, choice)) && |Put(ps, p, choice)| == |ps|
    ensures forall x :: 0 <= x < |ps| && x != p ==>
      Put(ps, p, choice)[x].pc == ps[x].pc && Put(ps, p, choice)[x].taken == ps[x].taken
  {
    var ps' := Put(ps, p, choice);
    forall x | 0 <= x < |ps| ensures Aged(ps[x], ps'[x]) {
      if x != p { ReceiverAges(ps[x], ps[p].pc.msg, choice); } else { PutterAges(ps, p, choice); }
    }
  }

  lemma ReceiverAges(q: Peer, msg: Msg, choice: bool)
    ensures Aged(q, Received(q, msg, choice)) && Aged(q, q)
  {}

  lemma PutterAges(ps: seq<Peer>, p: nat, choice: bool)
    requires p < |ps| && PendingOk(ps, p) && ps[p].pc.Putting?
    ensures Aged(ps[p], Put(ps, p, choice)[p])
  {}

  lemma PutterStaysOk(ps: seq<Peer>, p: nat, choice: bool)
    requires p < |ps| && PendingOk(ps, p) && ps[p].pc.Putting? && |ps[ps[p].pc.to].queue| <= QUEUE_SIZE
    ensures PendingOk(Put(ps, p, choice), p)
  {}

  lemma PutKeepsLogs(ps: seq<Peer>, p: nat, choice: bool, q: nat)
    requires MessagesOk(ps) && p < |ps| && ps[p].pc.Putting? && q < |ps| && PendingOk(ps, p)
    ensures LogOk(Put(ps, p, choice), q)
  {
    var pc, ps' := ps[p].pc, Put(ps, p, choice);
    AgesOnPut(ps, p, choice);
    assert LogOk(ps, q);
    if ps'[q].log == ps[q].log {
      LogLasts(ps, ps', q);
    } else {
      if pc.msg.Data? { PendingIsNew(ps, p); }
      PutEntryOk(ps, p, choice);
      LogGrows(ps, ps', q, pc.msg);
    }
  }

  lemma PutEntryOk(ps: seq<Peer>, p: nat, choice: bool)
    requires p < |ps| && ps[p].pc.Putting? && PendingOk(ps, p)
    requires var to := ps[p].pc.to; |Put(ps, p, choice)[to].log| > |ps[to].log|
    ensures EntryOk(Put(ps, p, choice), ps[p].pc.to, |ps[ps[p].pc.to].log|)
  {
    var to, ps' := ps[p].pc.to, Put(ps, p, choice);
    assert ps'[to].log[..|ps[to].log|] == ps[to].log;
  }

  lemma PutKeepsOneQueue(ps: seq<Peer>, p: nat, choice: bool)
    requires MessagesOk(ps) && p < |ps| && ps[p].pc.Putting? && PendingOk(ps, p)
    ensures OneQueue(Put(ps, p, choice))
  {
    var pc, ps' := ps[p].pc, Put(ps, p, choice);
    if pc.msg.Data? { PendingIsNew(ps, p); }
    forall a, b, m: Msg | 0 <= a < |ps'| && 0 <= b < |ps'| && m.Data? && m in ps'[a].log && m in ps'[b].log
      ensures a == b
    {
      assert m in ps[a].log || (m == pc.msg && a == pc.to);
      assert m in ps[b].log || (m == pc.msg && b == pc.to);
    }
  }

  lemma PutKeeps(ps: seq<Peer>, p: nat, choice: bool)
    requires MessagesOk(ps) && p < |ps| && ps[p].pc.Putting? && ps[p].pc.to < |ps|
    ensures MessagesOk(Put(ps, p, choice))
  {
    var ps' := Put(ps, p, choice);
    assert PendingOk(ps, p) && LogOk(ps, ps[p].pc.to);
    AgesOnPut(ps, p, choice);
    PutterStaysOk(ps, p, choice);
    forall x | 0 <= x < |ps'| ensures PendingOk(ps', x) {
      if x != p { assert PendingOk(ps, x); PendingLasts(ps, ps', x); }
    }
    forall q | 0 <= q < |ps'| ensures LogOk(ps', q) { PutKeepsLogs(ps, p, choice, q); }
    PutKeepsOneQueue(ps, p, choice);
  }

  // ----- Steps keep the invariants: seats -----

  predicate SamePlaces(ps: seq<Peer>, ps': seq<Peer>) {
    |ps'| == |ps| && forall x :: 0 <= x < |ps| ==> SamePlace(ps[x], ps'[x])
  }

  predicate SamePlace(x: Peer, y: Peer) {
    y.key == x.key && y.serial == x.serial && y.role == x.role && y.device == x.device && y.found == x.found
    && (x.stopped ==> y.stopped)
  }

  lemma SeatsLast(w: World, ps': seq<Peer>)
    requires SeatsOk(w) && SidesOk(w.peers) && SamePlaces(w.peers, ps')
    ensures SeatsOk(w.(peers := ps')) && SidesOk(ps')
  {
    var ps := w.peers;
    forall key | key in w.records ensures RecordOk(ps', w.nextSerial, key, w.records[key]) {
      assert RecordOk(ps, w.nextSerial, key, w.records[key]);
      assert SeatOk(ps, key, w.records[key], Host) && SeatOk(ps, key, w.records[key], Guest);
    }
    forall p | 0 <= p < |ps'| ensures PeerSeated(w.records, w.nextSerial, ps', p) {
      assert PeerSeated(w.records, w.nextSerial, ps, p) && SamePlace(ps[p], ps'[p]);
    }
  }

  lemma SeatsOnAdd(w: World, key: Key, host: Id, guest: Option<Id>)
    requires SeatsOk(w) && key !in w.records && guest != Some(host)
    ensures SeatsOk(Step(w, AddRecord(key, host, guest)))
  {
    var w' := Step(w, AddRecord(key, host, guest));
    forall k | k in w'.records
      ensures RecordOk(w'.peers, w'.nextSerial, k, w'.records[k]) && (k != key ==> w'.records[k].serial < w.nextSerial)
    {
      assert k != key ==> RecordOk(w.peers, w.nextSerial, k, w.records[k]);
    }
    forall p | 0 <= p < |w'.peers|
      ensures PeerSeated(w'.records, w'.nextSerial, w'.peers, p) && w'.peers[p].serial < w.nextSerial
    {
      assert PeerSeated(w.records, w.nextSerial, w.peers, p);
    }
  }

  lemma SeatsOnRemove(w: World, key: Key)
    requires SeatsOk(w)
    ensures SeatsOk(Step(w, RemoveRecord(key)))
  {
    var w' := Step(w, RemoveRecord(key));
    forall k | k in w'.records ensures RecordOk(w'.peers, w'.nextSerial, k, w'.records[k]) {
      assert RecordOk(w.peers, w.nextSerial, k, w.records[k]);
    }
    forall p | 0 <= p < |w'.peers| ensures PeerSeated(w'.records, w'.nextSerial, w'.peers, p) {
      assert PeerSeated(w.records, w.nextSerial, w.peers, p);
    }
  }

  lemma RecordLasts(ps: seq<Peer>, ps': seq<Peer>, nextSerial: nat, key: Key, r: Record)
    requires ps <= ps' && RecordOk(ps, nextSerial, key, r)
    ensures RecordOk(ps', nextSerial, key, r)
  {
    assert SeatOk(ps, key, r, Host) && SeatOk(ps, key, r, Guest);
  }

  lemma RecordOnAttach(w: World, key: Key, role: Role, device: Id)
    requires MayAttach(w, key, role, device) && RecordOk(w.peers, w.nextSerial, key, w.records[key])
    ensures var w' := Attached(w, key, role, device); RecordOk(w'.peers, w'.nextSerial, key, w'.records[key])
  {
    var w', r := Attached(w, key, role, device), w.records[key];
    assert SeatOk(w.peers, key, r, Host) && SeatOk(w.peers, key, r, Guest);
    assert SeatOk(w'.peers, key, w'.records[key], role) && SeatOk(w'.peers, key, w'.records[key], role.Other());
  }

  lemma PeerSeatedOnAttach(w: World, key: Key, role: Role, device: Id, p: nat)
    requires SeatsOk(w) && MayAttach(w, key, role, device) && p <= |w.peers|
    ensures var w' := Attached(w, key, role, device); PeerSeated(w'.records, w'.nextSerial, w'.peers, p)
  {
    assert RecordOk(w.peers, w.nextSerial, key, w.records[key]);
    assert p < |w.peers| ==> PeerSeated(w.records, w.nextSerial, w.peers, p);
    assert p < |w.peers| && w.peers[p].serial == w.records[key].serial ==> w.peers[p].key == key;
  }

  lemma SeatsOnAttach(w: World, key: Key, role: Role, device: Id)
    requires SeatsOk(w) && SidesOk(w.peers) && MayAttach(w, key, role, device)
    ensures SeatsOk(Attached(w, key, role, device))
  {
    var w' := Attached(w, key, role, device);
    var r := w.records[key];
    assert RecordOk(w.peers, w.nextSerial, key, r);
    forall k | k in w'.records ensures RecordOk(w'.peers, w'.nextSerial, k, w'.records[k]) {
      if k == key {
        RecordOnAttach(w, key, role, device);
      } else {
        assert RecordOk(w.peers, w.nextSerial, k, w.records[k]);
        RecordLasts(w.peers, w'.peers, w.nextSerial, k, w.records[k]);
      }
    }
    forall p | 0 <= p < |w'.peers| ensures PeerSeated(w'.records, w'.nextSerial, w'.peers, p) {
      PeerSeatedOnAttach(w, key, role, device, p);
    }
  }

  lemma SidesOnAttach(w: World, key: Key, role: Role, device: Id)
    requires SeatsOk(w) && SidesOk(w.peers) && MayAttach(w, key, role, device)
    ensures SidesOk(Attached(w, key, role, device).peers)
  {
    var r := w.records[key];
    assert RecordOk(w.peers, w.nextSerial, key, r);
    forall p | 0 <= p < |w.peers| && w.peers[p].serial == r.serial
      ensures w.peers[p].role == role <==> w.peers[p].device == device
    {
      assert PeerSeated(w.records, w.nextSerial, w.peers, p) && w.peers[p].key == key;
    }
  }

  lemma SeatsOnDetach(w: World, p: nat)
    requires SeatsOk(w) && SidesOk(w.peers) && p < |w.peers| && w.peers[p].stopped
    ensures SeatsOk(Detached(w, p)) && SidesOk(Detached(w, p).peers)
  {
    var w' := Detached(w, p);
    SeatsLast(w, w'.peers);
    forall k | k in w'.records ensures RecordOk(w'.peers, w'.nextSerial, k, w'.records[k]) {
      assert RecordOk(w.peers, w.nextSerial, k, w.records[k]);
    }
    forall x | 0 <= x < |w'.peers| ensures PeerSeated(w'.records, w'.nextSerial, w'.peers, x) {
      PeerSeatedOnDetach(w, p, x);
    }
  }

  lemma PeerSeatedOnDetach(w: World, p: nat, x: nat)
    requires SeatsOk(w) && p < |w.peers| && w.peers[p].stopped && x < |w.peers|
    ensures var w' := Detached(w, p); PeerSeated(w'.records, w'.nextSerial, w'.peers, x)
  {
    assert PeerSeated(w.records, w.nextSerial, w.peers, x);
  }

  // ----- Every step keeps everything -----

  /** Sockets that go on to detach are stopped. */
  ghost predicate LeavingStopped(ps: seq<Peer>) {
    forall p :: 0 <= p < |ps| && ps[p].pc.Leaving() ==> ps[p].stopped
  }

  ghost predicate Inv(w: World) {
    SeatsOk(w) && SidesOk(w.peers) && MessagesOk(w.peers) && LeavingStopped(w.peers)
  }

  lemma OccupantIsPartner(w: World, p: nat, q: nat)
    requires SeatsOk(w) && p < |w.peers| && w.peers[p].key in w.records
    requires w.records[w.peers[p].key].Slot(w.peers[p].role) == Some(p)
    requires w.records[w.peers[p].key].Slot(w.peers[p].role.Other()) == Some(q)
    ensures Partners(w.peers, p, q)
    ensures !w.peers[p].stopped && !w.peers[q].stopped ==> Met(w.peers, p, q)
  {
    assert RecordOk(w.peers, w.nextSerial, w.peers[p].key, w.records[w.peers[p].key]);
  }

  lemma AttachKeeps(w: World, key: Key, role: Role, device: Id)
    requires Inv(w) && MayAttach(w, key, role, device)
    ensures Inv(Attached(w, key, role, device))
  {
    var w' := Attached(w, key, role, device);
    SeatsOnAttach(w, key, role, device);
    SidesOnAttach(w, key, role, device);
    var p := |w.peers|;
    if w'.peers[p].found.Some? {
      OccupantIsPartner(w', p, w'.peers[p].found.value);
    }
    OneJoins(w.peers, w'.peers[p]);
  }

  lemma DetachKeeps(w: World, p: nat)
    requires Inv(w) && p < |w.peers| && w.peers[p].pc.Detaching?
    ensures Inv(Detached(w, p))
  {
    var w', me := Detached(w, p), w.peers[p];
    SeatsOnDetach(w, p);
    assert PendingOk(w.peers, p);
    if me.key in w.records && w.records[me.key].Slot(me.role) == Some(p) {
      var other := w.records[me.key].Slot(me.role.Other());
      if other.Some? { OccupantIsPartner(w, p, other.value); }
    }
    assert w'.peers == w.peers[p := w'.peers[p]];
    OneMoves(w.peers, p, w'.peers[p]);
  }

  lemma LookKeeps(w: World, p: nat, choice: bool)
    requires Inv(w) && p < |w.peers| && w.peers[p].pc.Looking?
    ensures Inv(Moved(w, p, choice))
  {
    var w' := Moved(w, p, choice);
    assert PendingOk(w.peers, p);
    if Target(w, p).Some? { OccupantIsPartner(w, p, Target(w, p).value); }
    OneMoves(w.peers, p, w'.peers[p]);
    SeatsLast(w, w'.peers);
  }

  lemma ReadKeeps(w: World, p: nat, choice: bool)
    requires Inv(w) && p < |w.peers| && w.peers[p].pc.Reading?
    ensures Inv(Moved(w, p, choice))
  {
    var w' := Moved(w, p, choice);
    assert PendingOk(w.peers, p);
    OneMoves(w.peers, p, w'.peers[p]);
    SeatsLast(w, w'.peers);
  }

  lemma PutMoveKeeps(w: World, p: nat, choice: bool)
    requires Inv(w) && p < |w.peers| && w.peers[p].pc.Putting?
    ensures Inv(Moved(w, p, choice))
  {
    assert PendingOk(w.peers, p);
    PutKeeps(w.peers, p, choice);
    SeatsLast(w, Moved(w, p, choice).peers);
  }

  lemma MoveKeeps(w: World, p: nat, choice: bool)
    requires Inv(w) && p < |w.peers|
    ensures Inv(Moved(w, p, choice))
  {
    assert PendingOk(w.peers, p);
    hide SeatsOk, SidesOk, MessagesOk, LeavingStopped;
    match w.peers[p].pc
    case Reading => ReadKeeps(w, p, choice);
    case Looking => LookKeeps(w, p, choice);
    case Putting(_, _, _, _) => PutMoveKeeps(w, p, choice);
    case Detaching => DetachKeeps(w, p);
    case Gone =>
  }

  lemma StepKeeps(w: World, a: Action)
    requires Inv(w)
    ensures Inv(Step(w, a))
  {
    var w' := Step(w, a);
    match a
    case AddRecord(key, host, guest) => if w' != w { SeatsOnAdd(w, key, host, guest); }
    case RemoveRecord(key) => SeatsOnRemove(w, key);
    case Attach(key, role, device) => if w' != w { AttachKeeps(w, key, role, device); }
    case Move(p, choice) => if p < |w.peers| { MoveKeeps(w, p, choice); }
    case Stop(p) => if w' != w { OneAges(w, p, w'.peers[p]); }
    case Drain(p) => if w' != w { OneAges(w, p, w'.peers[p]); }
  }

  lemma OneAges(w: World, p: nat, me: Peer)
    requires Inv(w) && p < |w.peers| && Aged(w.peers[p], me)
    requires me.log == w.peers[p].log && me.pc == w.peers[p].pc && me.taken == w.peers[p].taken
    requires SameQueued(w.peers[p], me)
    ensures Inv(w.(peers := w.peers[p := me]))
  {
    assert PendingOk(w.peers, p);
    PendingLasts(w.peers, w.peers[p := me], p);
    OneMoves(w.peers, p, me);
    SeatsLast(w, w.peers[p := me]);
  }

  lemma {:induction false} RunKeeps(actions: seq<Action>)
    ensures Inv(Run(actions))
  {
    if actions != [] {
      RunKeeps(actions[..|actions| - 1]);
      StepKeeps(Run(actions[..|actions| - 1]), actions[|actions| - 1]);
    }
  }

  // ----- What follows for every run -----

  /**
  A message read from socket s is only ever queued on a socket that sat opposite s
  at the same room or pair, so at its other device; it is queued at most once, on
  one socket, and after all messages read from s before it.
  */
  lemma OnlyToThePartner(actions: seq<Action>, q: nat, i: nat)
    requires var ps := Run(actions).peers; q < |ps| && i < |ps[q].log| && ps[q].log[i].Data?
    ensures var ps := Run(actions).peers; var s := ps[q].log[i].source;
      && Partners(ps, s, q) && ps[s].device != ps[q].device && ps[q].log[i].number < ps[s].taken
      && (forall j :: 0 <= j < i && ps[q].log[j].Data? && ps[q].log[j].source == s ==>
            ps[q].log[j].number < ps[q].log[i].number)
      && (forall q' :: 0 <= q' < |ps| && ps[q].log[i] in ps[q'].log ==> q' == q)
  {
    RunKeeps(actions);
    var ps := Run(actions).peers;
    assert LogOk(ps, q) && EntryOk(ps, q, i);
    assert ps[q].log[i] in ps[q].log;
  }

  /** s and q are at this moment the occupants of the two slots of s's own record. */
  predicate AcrossFrom(w: World, s: nat, q: nat)
    requires s < |w.peers|
  {
    var me := w.peers[s];
    && me.key in w.records && w.records[me.key].serial == me.serial
    && w.records[me.key].Slot(me.role) == Some(s) && w.records[me.key].Slot(me.role.Other()) == Some(q)
  }

  /** Forwarding is decided under the lock, and only between the two current occupants of one record. */
  lemma ForwardsBetweenOccupants(actions: seq<Action>, s: nat, choice: bool)
    requires var w := Run(actions); s < |w.peers| && w.peers[s].pc.Looking?
    ensures var w, w' := Run(actions), Moved(Run(actions), s, choice);
      w'.peers[s].pc.Putting? ==> Partners(w.peers, s, w'.peers[s].pc.to) && AcrossFrom(w, s, w'.peers[s].pc.to)
  {
    RunKeeps(actions);
    var w := Run(actions);
    if Target(w, s).Some? {
      OccupantIsPartner(w, s, Target(w, s).value);
      assert RecordOk(w.peers, w.nextSerial, w.peers[s].key, w.records[w.peers[s].key]);
    }
  }

  /** No message of a socket precedes the news of its arrival in the queue of the partner it found. */
  lemma ArrivalComesFirst(actions: seq<Action>, q: nat, i: nat)
    requires var ps := Run(actions).peers; q < |ps| && i < |ps[q].log| && ps[q].log[i].Data?
    requires var ps := Run(actions).peers; ps[q].log[i].source < |ps| && ps[ps[q].log[i].source].found == Some(q)
    ensures var ps := Run(actions).peers; exists j :: 0 <= j < i && ps[q].log[j] == Event(ps[q].log[i].source, true)
  {
    RunKeeps(actions);
    var ps := Run(actions).peers;
    assert LogOk(ps, q) && EntryOk(ps, q, i);
    assert Event(ps[q].log[i].source, true) in ps[q].log[..i];
  }

  /** However late its predecessors detach, a socket that is not stopped keeps its seat as long as the record lasts. */
  lemma LiveSocketKeepsSeat(actions: seq<Action>, p: nat)
    requires var w := Run(actions); p < |w.peers| && !w.peers[p].stopped
    requires var w := Run(actions); w.peers[p].key in w.records && w.records[w.peers[p].key].serial == w.peers[p].serial
    ensures var w := Run(actions); w.records[w.peers[p].key].Slot(w.peers[p].role) == Some(p)
  {
    RunKeeps(actions);
    var w := Run(actions);
    assert PeerSeated(w.records, w.nextSerial, w.peers, p);
  }

  /** What was admitted for a client is what its write loop has taken and then what still waits, at most 32 messages. */
  lemma QueueIsSuffix(actions: seq<Action>, p: nat)
    requires p < |Run(actions).peers|
    ensures var me := Run(actions).peers[p]; |me.queue| <= QUEUE_SIZE && me.log == me.sent + me.queue
  {
    RunKeeps(actions);
    assert LogOk(Run(actions).peers, p);
  }

  // ----- What must be forwarded and told -----

  /** A message read while both occupants sit opposite each other, not stopped, is on its way to the other one. */
  lemma ForwardedAcross(actions: seq<Action>, s: nat, q: nat, choice: bool)
    requires var w := Run(actions); s < |w.peers| && w.peers[s].pc.Looking? && AcrossFrom(w, s, q)
    requires var ps := Run(actions).peers; !ps[s].stopped && (q < |ps| ==> !ps[q].stopped)
    ensures var w, w' := Run(actions), Moved(Run(actions), s, choice);
      q < |w.peers| && w'.peers[s].pc == Putting(q, Data(s, w.peers[s].taken - 1), false, ThenRead)
  {
    RunKeeps(actions);
    var w := Run(actions);
    assert RecordOk(w.peers, w.nextSerial, w.peers[s].key, w.records[w.peers[s].key]);
    assert SeatOk(w.peers, w.peers[s].key, w.records[w.peers[s].key], w.peers[s].role.Other());
  }

  /** A message on its way to a socket that is not stopped and has room is queued there, after what waits already. */
  lemma QueuedIfRoom(w: World, s: nat, choice: bool)
    requires s < |w.peers| && w.peers[s].pc.Putting? && w.peers[s].pc.to < |w.peers|
    requires var q := w.peers[w.peers[s].pc.to]; !q.stopped && |q.queue| < QUEUE_SIZE
    ensures var w', pc := Moved(w, s, choice), w.peers[s].pc;
      var q, q' := w.peers[pc.to], w'.peers[pc.to];
      if pc.checked then
        q'.log == q.log + [pc.msg] && q'.queue == q.queue + [pc.msg] && !q'.stopped
          && w'.peers[s].pc == Resume(s, pc.after)
      else
        q'.log == q.log && q'.queue == q.queue && !q'.stopped && w'.peers[s].pc == pc.(checked := true)
  {}

  /** Both sit opposite each other, and neither is stopped. */
  predicate Talking(w: World, s: nat, q: nat) {
    s < |w.peers| && q < |w.peers| && AcrossFrom(w, s, q) && !w.peers[s].stopped && !w.peers[q].stopped
  }

  /**
  All that s has read since its `first` message, and dealt with, is in q's log; what
  it deals with is on its way there.
  */
  ghost predicate Gapless(w: World, s: nat, q: nat, first: nat)
    requires s < |w.peers| && q < |w.peers|
  {
    var me := w.peers[s];
    && (forall n :: first <= n < Sent(me) ==> Data(s, n) in w.peers[q].log)
    && (me.pc.Putting? && me.pc.msg.Data? ==>
          me.pc.msg == Data(s, me.taken - 1) && (me.pc.to == q || me.taken <= first))
  }

  lemma GaplessStays(w: World, a: Action, s: nat, q: nat, first: nat)
    requires Inv(w) && Talking(w, s, q) && Talking(Step(w, a), s, q) && Gapless(w, s, q, first)
    ensures Gapless(Step(w, a), s, q, first)
  {
    LogsOnlyGrow(w, a, q);
    if a.Move? && a.p == s {
      OccupantIsPartner(w, s, q);
      GaplessOnMove(w, s, a.choice, q, first);
    } else {
      OthersLeavePc(w, a, s);
    }
  }

  lemma OthersLeavePc(w: World, a: Action, s: nat)
    requires s < |w.peers| && !(a.Move? && a.p == s)
    ensures Step(w, a).peers[s].pc == w.peers[s].pc && Step(w, a).peers[s].taken == w.peers[s].taken
  {}

  lemma GaplessOnMove(w: World, s: nat, choice: bool, q: nat, first: nat)
    requires MessagesOk(w.peers) && Talking(w, s, q) && Talking(Moved(w, s, choice), s, q) && Gapless(w, s, q, first)
    requires s != q && w.peers[q].log <= Moved(w, s, choice).peers[q].log
    ensures Gapless(Moved(w, s, choice), s, q, first)
  {
    var w' := Moved(w, s, choice);
    assert PendingOk(w.peers, s);
    match w.peers[s].pc
    case Looking => assert Target(w, s) == Some(q);
    case Putting(to, msg, checked, _) =>
      if checked && msg.Data? && to == q { assert w'.peers[q].log == w.peers[q].log + [msg]; }
    case _ =>
  }

  lemma LogsOnlyGrow(w: World, a: Action, q: nat)
    requires q < |w.peers|
    ensures q < |Step(w, a).peers| && w.peers[q].log <= Step(w, a).peers[q].log
  {}

  /** The two talk at every moment of a run that goes on from `start`. */
  ghost predicate TalkingThroughout(start: seq<Action>, run: seq<Action>, s: nat, q: nat)
    decreases |run|
  {
    && start <= run && Talking(Run(run), s, q)
    && (run == start || TalkingThroughout(start, run[..|run| - 1], s, q))
  }

  /**
  While two sockets keep their seats opposite each other and neither is stopped, every
  message one of them reads and deals with reaches the log of the other, without a gap.
  */
  lemma {:induction false} NothingIsLost(start: seq<Action>, run: seq<Action>, s: nat, q: nat)
    requires TalkingThroughout(start, run, s, q) && s < |Run(start).peers| && Run(start).peers[s].pc.Reading?
    ensures Gapless(Run(run), s, q, Run(start).peers[s].taken)
    decreases |run|
  {
    if run != start {
      var before, last := run[..|run| - 1], run[|run| - 1];
      NothingIsLost(start, before, s, q);
      RunKeeps(before);
      GaplessStays(Run(before), last, s, q, Run(start).peers[s].taken);
    }
  }

  /** A socket that gives up its seat goes on to tell whoever sits opposite, stopped or not. */
  lemma LeavingIsTold(w: World, p: nat, q: nat, choice: bool)
    requires p < |w.peers| && w.peers[p].pc.Detaching? && w.peers[p].key in w.records
    requires var r := w.records[w.peers[p].key];
      r.Slot(w.peers[p].role) == Some(p) && r.Slot(w.peers[p].role.Other()) == Some(q)
    ensures var w' := Moved(w, p, choice);
      && w'.peers[p].pc == Putting(q, Event(p, false), false, ThenGone)
      && w'.records[w.peers[p].key].Slot(w.peers[p].role) == None
      && w'.records[w.peers[p].key].Slot(w.peers[p].role.Other()) == Some(q)
  {}

  /**
  Once its arrival is out of its hands, a socket that found a partner has told
  itself and the partner, unless stopped.
  */
  lemma ArrivalIsTold(actions: seq<Action>, p: nat)
    requires var ps := Run(actions).peers; p < |ps| && ps[p].found.Some? && Told(ps[p])
    ensures var ps := Run(actions).peers;
      var q := ps[p].found.value;
      && q < |ps| && (Event(p, true) in ps[q].log || ps[q].stopped) && (Event(p, true) in ps[p].log || ps[p].stopped)
  {
    RunKeeps(actions);
    assert PendingOk(Run(actions).peers, p);
  }

  // ----- The newcomer's own queue -----

  predicate Announced(log: seq<Msg>, i: nat)
    requires i <= |log|
  {
    exists j :: 0 <= j < i && log[j].Event? && log[j].connected
  }

  /** Socket x is told that it has a partner before any message of a partner. */
  predicate OwnBarrier(ps: seq<Peer>, x: nat) {
    x < |ps| && forall i :: 0 <= i < |ps[x].log| && ps[x].log[i].Data? ==> Announced(ps[x].log, i)
  }

  lemma OneMore(actions: seq<Action>, a: Action) returns (more: seq<Action>)
    ensures more == actions + [a] && Run(more) == Step(Run(actions), a)
  {
    more := actions + [a];
    assert more[..|actions|] == actions;
  }

  /** p has yet to tell itself that it has a partner, and its queue is full already: it is about to stop itself. */
  predicate Stuck(x: Peer, p: nat) {
    !Told(x) && x.pc.to == p && |x.queue| >= QUEUE_SIZE
  }

  /** p will forward nothing any more, and nothing of it has reached x. */
  predicate Silenced(w: World, p: nat, x: nat) {
    && p < |w.peers| && x < |w.peers|
    && (w.peers[p].stopped || Stuck(w.peers[p], p)) && !(w.peers[p].pc.Putting? && w.peers[p].pc.msg.Data?)
    && forall m :: m in w.peers[x].log && m.Data? ==> m.source != p
  }

  lemma SilencedOnPut(w: World, s: nat, choice: bool, p: nat, x: nat)
    requires Silenced(w, p, x) && s < |w.peers| && w.peers[s].pc.Putting? && PuttingOk(w.peers, s)
    ensures Silenced(Moved(w, s, choice), p, x)
  {
    var w' := Moved(w, s, choice);
    forall m | m in w'.peers[x].log && m.Data? ensures m.source != p {
      assert m in w.peers[x].log || m == w.peers[s].pc.msg;
    }
  }

  lemma SilencedLasts(w: World, a: Action, p: nat, x: nat)
    requires Inv(w) && Silenced(w, p, x)
    ensures Silenced(Step(w, a), p, x)
  {
    if a.Move? && a.p < |w.peers| && w.peers[a.p].pc.Putting? {
      assert PendingOk(w.peers, a.p);
      SilencedOnPut(w, a.p, a.choice, p, x);
    }
  }

  lemma {:induction false} SilencedThroughout(start: seq<Action>, run: seq<Action>, p: nat, x: nat)
    requires start <= run && Silenced(Run(start), p, x)
    ensures Silenced(Run(run), p, x)
    decreases |run|
  {
    if run == start { return; }
    var before, last := run[..|run| - 1], run[|run| - 1];
    assert start <= before;
    SilencedThroughout(start, before, p, x);
    RunKeeps(before);
    SilencedLasts(Run(before), last, p, x);
  }

  lemma {:induction false} FoundLasts(start: seq<Action>, run: seq<Action>, x: nat)
    requires start <= run && x < |Run(start).peers|
    ensures x < |Run(run).peers| && Run(run).peers[x].found == Run(start).peers[x].found
    decreases |run|
  {
    if run == start { return; }
    var before, last := run[..|run| - 1], run[|run| - 1];
    assert start <= before;
    FoundLasts(start, before, x);
    FoundStays(Run(before), last, x);
  }

  lemma FoundStays(w: World, a: Action, x: nat)
    requires x < |w.peers|
    ensures x < |Step(w, a).peers| && Step(w, a).peers[x].found == w.peers[x].found
  {}

  /** Nothing comes from the partner that was found, if any; the others are announced before their messages. */
  lemma BarrierFromOthers(run: seq<Action>, x: nat)
    requires x < |Run(run).peers|
    requires var me := Run(run).peers[x]; forall m :: m in me.log && m.Data? ==> me.found != Some(m.source)
    ensures OwnBarrier(Run(run).peers, x)
  {
    RunKeeps(run);
    var ps := Run(run).peers;
    forall i | 0 <= i < |ps[x].log| && ps[x].log[i].Data? ensures Announced(ps[x].log, i) {
      assert LogOk(ps, x) && EntryOk(ps, x, i) && ps[x].log[i] in ps[x].log;
      var j :| 0 <= j < i && ps[x].log[..i][j] == Event(ps[x].log[i].source, true);
    }
  }

  /** p sits opposite x and gets on without x; x has been sent nothing. */
  predicate Poised(w: World, p: nat, x: nat) {
    && p < |w.peers| && x < |w.peers| && p != x && !w.peers[p].stopped && !w.peers[x].stopped
    && w.peers[x].log == w.peers[x].queue == []
    && w.peers[p].key in w.records && w.records[w.peers[p].key].Slot(w.peers[p].role) == Some(p)
    && w.records[w.peers[p].key].Slot(w.peers[p].role.Other()) == Some(x)
    && FreeToGo(w.peers, p, x)
  }

  predicate FreeToGo(ps: seq<Peer>, p: nat, x: nat)
    requires p < |ps|
  {
    match ps[p].pc
    case Reading => true
    case Looking => true
    case Putting(to, _, _, TellPartner(o)) => to == p && o < |ps| && o != p && o != x && |ps[p].queue| < QUEUE_SIZE
    case Putting(to, _, _, ThenRead) => to < |ps| && to != p && to != x
    case _ => false
  }

  function ToGo(pc: Pc): nat {
    match pc
    case Looking => 0
    case Reading => 1
    case Putting(_, _, checked, after) => (if after.TellPartner? then 4 else 2) + (if checked then 0 else 1)
    case _ => 0
  }

  lemma GoesOn(w: World, p: nat, x: nat)
    requires Poised(w, p, x) && !w.peers[p].pc.Looking?
    ensures Poised(Moved(w, p, true), p, x) && ToGo(Moved(w, p, true).peers[p].pc) < ToGo(w.peers[p].pc)
  {}

  lemma {:induction false} GoesOnToLook(run: seq<Action>, p: nat, x: nat) returns (run': seq<Action>)
    requires Poised(Run(run), p, x)
    ensures run <= run' && Poised(Run(run'), p, x) && Run(run').peers[p].pc.Looking?
    decreases ToGo(Run(run).peers[p].pc)
  {
    run' := run;
    if !Run(run).peers[p].pc.Looking? {
      GoesOn(Run(run), p, x);
      run' := OneMore(run, Move(p, true));
      run' := GoesOnToLook(run', p, x);
    }
  }

  lemma Overtakes(run: seq<Action>, p: nat, x: nat) returns (run': seq<Action>)
    requires Poised(Run(run), p, x) && Run(run).peers[p].pc.Looking?
    ensures run <= run' && !OwnBarrier(Run(run').peers, x)
  {
    var n := Run(run).peers[p].taken - 1;
    run' := OneMore(run, Move(p, true));
    assert Run(run').peers[p].pc == Putting(x, Data(p, n), false, ThenRead);
    run' := OneMore(run', Move(p, true));
    assert Run(run').peers[p].pc == Putting(x, Data(p, n), true, ThenRead) && Run(run').peers[x].queue == [];
    run' := OneMore(run', Move(p, true));
    assert Run(run').peers[x].log == [Data(p, n)];
    assert !Announced(Run(run').peers[x].log, 0);
  }

  /** A partner that was there already, and can still tell itself of its own arrival, can get a message in first. */
  lemma PoisedAfterAttach(actions: seq<Action>, key: Key, role: Role, device: Id) returns (run: seq<Action>)
    requires MayAttach(Run(actions), key, role, device) && MayOvertake(Run(actions), key, role)
    ensures actions + [Attach(key, role, device)] <= run
    ensures Poised(Run(run), Run(actions).records[key].Slot(role.Other()).value, |Run(actions).peers|)
  {
    RunKeeps(actions);
    var w := Run(actions);
    var p, x := w.records[key].Slot(role.Other()).value, |w.peers|;
    assert PendingOk(w.peers, p) && LogOk(w.peers, p);
    assert RecordOk(w.peers, w.nextSerial, key, w.records[key]) && SeatOk(w.peers, key, w.records[key], role.Other());
    run := OneMore(actions, Attach(key, role, device));
  }

  /** A partner is there, and not about to stop itself over its own arrival. */
  predicate MayOvertake(w: World, key: Key, role: Role)
    requires key in w.records
  {
    var other := Open(w.peers, w.records[key].Slot(role.Other()));
    other.Some? && !Stuck(w.peers[other.value], other.value)
  }

  ghost predicate AlwaysToldFirst(start: seq<Action>, x: nat) {
    forall run :: start <= run ==> OwnBarrier(Run(run).peers, x)
  }

  /**
  A newcomer is told of its partner before the partner's messages in every run that
  goes on from its attaching, exactly if when it attached no partner was there, or
  one that still had to tell itself of its own arrival with its queue full.
  */
  lemma OwnBarrierIff(actions: seq<Action>, key: Key, role: Role, device: Id)
    requires MayAttach(Run(actions), key, role, device)
    ensures AlwaysToldFirst(actions + [Attach(key, role, device)], |Run(actions).peers|)
      <==> !MayOvertake(Run(actions), key, role)
  {
    var x := |Run(actions).peers|;
    var start := OneMore(actions, Attach(key, role, device));
    if MayOvertake(Run(actions), key, role) {
      var run := PoisedAfterAttach(actions, key, role, device);
      var p := Run(actions).records[key].Slot(role.Other()).value;
      run := GoesOnToLook(run, p, x);
      run := Overtakes(run, p, x);
    } else {
      forall run | start <= run ensures OwnBarrier(Run(run).peers, x) {
        FoundLasts(start, run, x);
        var found := Run(start).peers[x].found;
        if found.Some? { SilencedThroughout(start, run, found.value, x); }
        BarrierFromOthers(run, x);
      }
    }
  }

  // ----- One run of the failing kind -----

  function Newcomer(log: seq<Msg>): Peer {
    Peer(RoomKey(1), 0, Guest, 20, Some(0), false, log, log, [], 0, Putting(1, Event(1, true), false, TellPartner(0)))
  }

  const HOST_WAITS := Peer(RoomKey(1), 0, Host, 10, None, false, [], [], [], 0, Reading)

  lemma OneWaits() returns (actions: seq<Action>)
    ensures Run(actions) == World(map[RoomKey(1) := Record(0, 10, None, Some(0), None)], 1, [HOST_WAITS])
  {
    assert Run([]) == INITIAL;
    actions := OneMore([], AddRecord(RoomKey(1), 10, None));
    assert Run(actions) == World(map[RoomKey(1) := Record(0, 10, None, None, None)], 1, []);
    actions := OneMore(actions, Attach(RoomKey(1), Host, 10));
    assert Run(actions).records == map[RoomKey(1) := Record(0, 10, None, Some(0), None)];
  }

  lemma TwoMeet() returns (actions: seq<Action>)
    ensures Run(actions) ==
      World(map[RoomKey(1) := Record(0, 10, Some(20), Some(0), Some(1))], 1, [HOST_WAITS, Newcomer([])])
  {
    actions := OneWaits();
    actions := OneMore(actions, Attach(RoomKey(1), Guest, 20));
    assert Run(actions).records == map[RoomKey(1) := Record(0, 10, Some(20), Some(0), Some(1))];
    assert Run(actions).peers == [HOST_WAITS, Newcomer([])];
  }

  /** A guest joins the host's room; the host's first message is in the guest's queue before anything else. */
  lemma EarlyMessage() returns (actions: seq<Action>)
    ensures Run(actions).peers == [HOST_WAITS.(taken := 1), Newcomer([Data(0, 0)])]
  {
    actions := TwoMeet();
    actions := OneMore(actions, Move(0, true));
    actions := OneMore(actions, Move(0, true));
    assert Run(actions).peers ==
      [HOST_WAITS.(taken := 1, pc := Putting(1, Data(0, 0), false, ThenRead)), Newcomer([])];
    actions := OneMore(actions, Move(0, true));
    actions := OneMore(actions, Move(0, true));
    assert Run(actions).peers[1].log == [Data(0, 0)] && Run(actions).peers[1].queue == [Data(0, 0)];
    assert Run(actions).peers[0].pc == Reading;
  }

  /**
  The barrier protects the partner's queue only: a partner that sends early gets a
  message into the new socket's queue before that socket's own connected=true.
  */
  lemma OwnArrivalMayComeSecond() returns (actions: seq<Action>)
    ensures var ps := Run(actions).peers; |ps| == 2 && ps[1].log == [Data(0, 0), Event(1, true)]
  {
    actions := EarlyMessage();
    actions := OneMore(actions, Move(1, true));
    actions := OneMore(actions, Move(1, true));
  }
}
