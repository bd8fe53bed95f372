/**
The rendezvous server's critical sections (internal/control/control.go): devices,
short-lived rooms, the two-party commit of a pair, relay leases, revocation,
expiry and restart.  Every method is what one handler does while it holds the
server's lock, so its contract speaks of the state between lock releases.
*/
module ControlServer {
  import opened Common
  import opened ControlRules
  import opened ControlState

  const DEFAULT_MAX_ROOMS := 1024
  const DEFAULT_ROOM_TTL := 600
  const ROOM_ID_ATTEMPTS := 32

  datatype Reply = Done | CommitReply(committed: bool) | ServerClosed | Unauthorized | NotFound | Forbidden
                 | InUse | BadRequest | RoomLimit | DeviceRoomLimit | DeviceLimit | RoomExists
                 | RoomIdUnavailable | RoomCommitted | PairIdInUse
                 | CommitMismatch | PairLimit | DevicePairLimit | RelayKeyInUse | RelayKeyLimit | Internal

  predicate RoomOpen(rooms: map<Id, Room>, id: Id, now: nat) {
    id in rooms && now < rooms[id].expires
  }

  function Unexpired(rooms: map<Id, Room>, now: nat): map<Id, Room> {
    map id | id in rooms && now < rooms[id].expires :: rooms[id]
  }

  function UnexpiredLeases(leases: map<Id, Lease>, now: nat): map<Id, Lease> {
    map k | k in leases && now < leases[k].expires :: leases[k]
  }

  /** What handleRelayRegister answers to device d while these leases run, each exactly under its condition. */
  ghost predicate RegisterAnswer(leases: map<Id, Lease>, d: Id, key: Id, r: Reply) {
    && (r == RelayKeyInUse <==> key in leases && leases[key].device != d)
    && (r == RelayKeyLimit <==> key !in leases && |LeasesOf(leases, d)| >= MAX_RELAY_KEYS)
    && (r == Done <==> if key in leases then leases[key].device == d else |LeasesOf(leases, d)| < MAX_RELAY_KEYS)
  }

  /** What handleCreateRoom answers to device d while these rooms are open, each exactly under its condition. */
  ghost predicate CreateAnswer(rooms: map<Id, Room>, maxRooms: nat, d: Id, wanted: Option<Id>, draws: seq<Id>,
                               r: Reply) {
    var full, hostFull := |rooms| >= maxRooms, |HostedBy(rooms, d)| >= MAX_ROOMS_PER_DEVICE;
    var room, drawn := !full && !hostFull, if |draws| < ROOM_ID_ATTEMPTS then draws else draws[..ROOM_ID_ATTEMPTS];
    && (r == RoomLimit <==> full) && (r == DeviceRoomLimit <==> !full && hostFull)
    && (r == RoomExists <==> room && wanted.Some? && wanted.value in rooms)
    && (r == Internal <==> room && wanted.None? && AllTaken(drawn, rooms.Keys) && |draws| < ROOM_ID_ATTEMPTS)
    && (r == RoomIdUnavailable <==> room && wanted.None? && AllTaken(drawn, rooms.Keys) && |draws| >= ROOM_ID_ATTEMPTS)
    && (r == Done <==> room && if wanted.Some? then wanted.value !in rooms else !AllTaken(drawn, rooms.Keys))
  }

  /** What handleCommit answers before it takes a submission to an open room. */
  const REFUSALS := {Forbidden, RoomCommitted, PairIdInUse, CommitMismatch}

  predicate Mine(r: Room, d: Id, pair: Id) {
    (if d == r.host then r.hostCommit else r.guestCommit) in {None, Some(pair)}
  }

  /**
  The room is settled for another pair, the identifier belongs to other devices, or
  the caller said otherwise before.
  */
  predicate RefusedBy(r: Room, pairs: map<Id, Pair>, d: Id, pair: Id, reply: Reply) {
    var settled := Settled(r).Some? && Settled(r) != Some(pair);
    var taken := pair in pairs && Some(pairs[pair]) != PairFor(r);
    match reply
    case Forbidden => !Names(r, d)
    case RoomCommitted => Names(r, d) && settled
    case PairIdInUse => Names(r, d) && !settled && taken
    case CommitMismatch => Names(r, d) && !settled && !taken && !Mine(r, d, pair)
    case _ => false
  }

  predicate AtLimit(pairs: map<Id, Pair>, p: Pair) {
    |PairsOf(pairs, p.host)| >= MAX_PAIRS_PER_DEVICE || |PairsOf(pairs, p.guest)| >= MAX_PAIRS_PER_DEVICE
  }

  /** What storing the pair p answers: a known pair is saved again, a new one only within the limits. */
  ghost predicate StoreAnswer(pairs: map<Id, Pair>, id: Id, p: Pair, faulted: bool, done: Reply, r: Reply) {
    var full := id !in pairs && |pairs| >= MAX_PAIRS;
    var deviceFull := id !in pairs && |pairs| < MAX_PAIRS && AtLimit(pairs, p);
    && (r == PairLimit <==> full) && (r == DevicePairLimit <==> deviceFull)
    && (r == Internal <==> !full && !deviceFull && faulted)
    && (r == done <==> !full && !deviceFull && !faulted)
  }

  /** The other side has submitted the same identifier already. */
  predicate Settles(r: Room, d: Id, pair: Id) {
    r.guest.Some? && (if d == r.host then r.guestCommit else r.hostCommit) == Some(pair)
  }

  /** What a submission that is not refused answers. */
  ghost predicate SubmitAnswer(r: Room, pairs: map<Id, Pair>, d: Id, pair: Id, faulted: bool, reply: Reply) {
    && (reply == CommitReply(false) <==> !Settles(r, d, pair))
    && (Settles(r, d, pair) ==> StoreAnswer(pairs, pair, PairFor(r).value, faulted, CommitReply(true), reply))
  }

  ghost predicate Refused(r: Room, pairs: map<Id, Pair>, d: Id, pair: Id) {
    exists q :: q in REFUSALS && RefusedBy(r, pairs, d, pair, q)
  }

  /** The answer to a commit to an open room, each exactly under its condition. */
  ghost predicate CommitAnswer(r: Room, pairs: map<Id, Pair>, d: Id, pair: Id, faulted: bool, reply: Reply) {
    && (forall q :: q in REFUSALS ==> (reply == q <==> RefusedBy(r, pairs, d, pair, q)))
    && (reply in REFUSALS <==> Refused(r, pairs, d, pair))
    && (!Refused(r, pairs, d, pair) ==> SubmitAnswer(r, pairs, d, pair, faulted, reply))
  }

  predicate MayTake(r: Room, d: Id, role: Role) {
    if role.Host? then d == r.host else d != r.host && r.guest in {None, Some(d)}
  }

  /** The first drawn value that is not in use. */
  ghost predicate FirstUnused(draws: seq<Id>, used: set<Id>, id: Id) {
    id !in used && exists i :: 0 <= i < |draws| && draws[i] == id && forall k :: 0 <= k < i ==> draws[k] in used
  }

  /** The identifier asked for, or the first unused one drawn. */
  ghost predicate Chosen(wanted: Option<Id>, draws: seq<Id>, used: set<Id>, id: Id) {
    if wanted.Some? then id == wanted.value && id !in used else FirstUnused(draws, used, id)
  }

  ghost predicate AllTaken(draws: seq<Id>, used: set<Id>) {
    forall x :: x in draws ==> x in used
  }

  lemma Settling(r: Room, d: Id, pair: Id)
    requires Names(r, d)
    ensures var r' := WithCommit(r, d, pair);
      Settled(r') == (if Settles(r, d, pair) then Some(pair) else None) && PairFor(r') == PairFor(r)
    ensures Settles(r, d, pair) ==> PairFor(r).Some? && Involves(PairFor(r).value, d)
  {}

  lemma CommitAnswers(before: map<Id, Pair>, id: Id, p: Pair, faulted: bool, r: Reply)
    requires StoreAnswer(before, id, p, faulted, Done, r) && r in {Done, PairLimit, DevicePairLimit, Internal}
    ensures StoreAnswer(before, id, p, faulted, CommitReply(true), if r.Done? then CommitReply(true) else r)
  {}

  lemma CommitIsTaken(rooms: map<Id, Room>, id: Id, d: Id, pair: Id)
    requires id in rooms && Names(rooms[id], d)
    ensures var r := rooms[id];
      CommitTaken(r, d, pair, rooms[id := WithCommit(r, d, pair)], id, Settles(r, d, pair))
  {}

  class Server {
    const maxRooms: nat
    const roomTTL: nat
    const enrollmentHash: Id

    var closed: bool
    var devices: map<Id, Device>
    var byTokenHash: map<Id, Id>
    var rooms: map<Id, Room>
    var roomCounts: map<Id, nat>
    var pairs: map<Id, Pair>
    var relayKeys: map<Id, Lease>
    /** The state file on disk. */
    var file: StateFile

    /** Saves that failed. */
    ghost var faults: nat
    ghost var submissions: set<Submission>
    ghost var rosters: map<nat, Roster>
    var nextSerial: nat

    ghost predicate Durable()
      reads this`devices, this`byTokenHash, this`pairs, this`file
    {
      && enrollmentHash < DIGESTS
      && DevicesOk(devices) && IndexOk(devices, byTokenHash) && PairsOk(devices, pairs)
      && Shows(file, enrollmentHash, devices, pairs)
    }

    ghost predicate Counted()
      reads this`rooms, this`roomCounts
    {
      CountsOk(rooms, roomCounts)
    }

    ghost predicate OnlyLive()
      reads this`devices, this`rooms, this`relayKeys
    {
      RoomsOk(devices, rooms, maxRooms) && LeasesOk(devices, relayKeys)
    }

    ghost predicate Traced()
      reads this`rooms, this`pairs, this`submissions, this`rosters, this`nextSerial
    {
      && RostersOk(rooms, rosters, nextSerial) && CommitsOk(rooms, submissions)
      && PairsAgreed(pairs, submissions, rosters)
    }

    ghost predicate Valid()
      reads this
    {
      Durable() && Counted() && OnlyLive() && Traced()
    }

    /** What no critical section undoes. */
    twostate predicate Kept() reads this {
      && SubMap(old(pairs), pairs)
      && HistoryGrows(old(submissions), submissions, old(rosters), rosters)
      && DevicesLast(old(devices), devices)
    }

    /** New, when there is no state file yet and the first save succeeds. */
    constructor (maxRooms: int, roomTTL: int, enrollment: Id)
      requires enrollment < DIGESTS
      ensures Valid() && !closed && devices == map[] && pairs == map[] && rooms == map[] && relayKeys == map[]
      ensures enrollmentHash == enrollment
      ensures this.maxRooms == (if maxRooms > 0 then maxRooms else DEFAULT_MAX_ROOMS)
      ensures this.roomTTL == (if roomTTL > 0 then roomTTL else DEFAULT_ROOM_TTL)
    {
      this.maxRooms := if maxRooms <= 0 then DEFAULT_MAX_ROOMS else maxRooms;
      this.roomTTL := if roomTTL <= 0 then DEFAULT_ROOM_TTL else roomTTL;
      enrollmentHash := enrollment;
      closed, devices, byTokenHash, rooms := false, map[], map[], map[];
      roomCounts, pairs, relayKeys := map[], map[], map[];
      submissions, rosters, nextSerial, faults := {}, map[], 0, 0;
      file := StateFile(STATE_VERSION, enrollment, [], []);
    }

    /** saveStateLocked: the file is replaced as a whole or not at all. */
    method SaveState() returns (ok: bool)
      modifies this`file, this`faults
      ensures ok ==> Shows(file, enrollmentHash, devices, pairs) && faults == old(faults)
      ensures !ok ==> file == old(file) && faults > old(faults)
    {
      var fault: bool := *;
      if fault {
        faults := faults + 1;
        return false;
      }
      file := Snapshot(enrollmentHash, devices, pairs);
      return true;
    }

    /** Draw until something unused comes up, or the random source fails. */
    static method DrawUnused(draws: seq<Id>, used: set<Id>) returns (ok: bool, id: Id)
      ensures ok ==> id in draws && FirstUnused(draws, used, id)
      ensures !ok ==> AllTaken(draws, used)
    {
      var i := 0;
      while i < |draws| && draws[i] in used
        invariant 0 <= i <= |draws| && forall k :: 0 <= k < i ==> draws[k] in used
      {
        i := i + 1;
      }
      if i == |draws| { return false, 0; }
      return true, draws[i];
    }

    /** handleLogin; the draws are what the random source returns before it fails. */
    method Login(credential: Id, name: string, idDraws: seq<Id>, tokenDraws: seq<Id>)
      returns (r: Reply, device: Id, token: Id)
      requires Durable() && OnlyLive()
      requires (forall i :: i in idDraws ==> i < DEVICE_IDS) && (forall t :: t in tokenDraws ==> t < DIGESTS)
      modifies this`devices, this`byTokenHash, this`file, this`faults
      ensures Durable() && OnlyLive() && DevicesLast(old(devices), devices)
      ensures r.Unauthorized? <==> credential != enrollmentHash
      ensures r.BadRequest? <==> credential == enrollmentHash && |name| > MAX_NAME
      ensures r.ServerClosed? <==> credential == enrollmentHash && |name| <= MAX_NAME && closed
      ensures credential == enrollmentHash && |name| <= MAX_NAME && !closed ==> var unlucky :=
        AllTaken(idDraws, old(devices).Keys) || AllTaken(tokenDraws, old(byTokenHash).Keys) || faults > old(faults);
        && (r.DeviceLimit? <==> |old(devices)| >= MAX_DEVICES)
        && (r.Internal? <==> |old(devices)| < MAX_DEVICES && unlucky)
        && (r.Done? <==> |old(devices)| < MAX_DEVICES && !unlucky)
      ensures r.Done? ==> FirstUnused(idDraws, old(devices).Keys, device)
      ensures r.Done? ==> FirstUnused(tokenDraws, old(byTokenHash).Keys, token)
      ensures r.Done? ==> devices == old(devices)[device := Device(name, token, false)]
      ensures r.Done? ==> byTokenHash == old(byTokenHash)[token := device]
      ensures !r.Done? ==> devices == old(devices) && byTokenHash == old(byTokenHash) && file == old(file)
    {
      device, token := 0, 0;
      if credential != enrollmentHash { return Unauthorized, device, token; }
      if |name| > MAX_NAME { return BadRequest, device, token; }
      if closed { return ServerClosed, device, token; }
      if |devices| >= MAX_DEVICES { return DeviceLimit, device, token; }
      var ok;
      ok, device := DrawUnused(idDraws, devices.Keys);
      if !ok { return Internal, device, token; }
      ok, token := DrawUnused(tokenDraws, byTokenHash.Keys);
      if !ok { return Internal, device, token; }
      r := Enroll(device, Device(name, token, false));
    }

    /** The rest of handleLogin: record the device, save, and forget it again if that fails. */
    method Enroll(id: Id, device: Device) returns (r: Reply)
      requires Durable() && OnlyLive() && |devices| < MAX_DEVICES
      requires id !in devices && id < DEVICE_IDS && |device.name| <= MAX_NAME && !device.revoked
      requires device.tokenHash !in byTokenHash && device.tokenHash < DIGESTS
      modifies this`devices, this`byTokenHash, this`file, this`faults
      ensures Durable() && OnlyLive() && DevicesLast(old(devices), devices)
      ensures r == if faults > old(faults) then Internal else Done
      ensures r.Done? ==> devices == old(devices)[id := device]
      ensures r.Done? ==> byTokenHash == old(byTokenHash)[device.tokenHash := id]
      ensures !r.Done? ==> devices == old(devices) && byTokenHash == old(byTokenHash) && file == old(file)
    {
      hide RoomsOk, LeasesOk, DevicesOk, IndexOk, PairsOk;
      Forgotten(devices, id, device);
      Forgotten(byTokenHash, device.tokenHash, id);
      OneMoreDevice(devices, byTokenHash, pairs, id, device, rooms, maxRooms, relayKeys);
      devices := devices[id := device];
      byTokenHash := byTokenHash[device.tokenHash := id];
      var saved := SaveState();
      if !saved {
        devices := devices - {id};
        byTokenHash := byTokenHash - {device.tokenHash};
        return Internal;
      }
      return Done;
    }

    // ----- Rooms -----

    method RemoveRoom(id: Id)
      requires Counted() && id in rooms
      modifies this`rooms, this`roomCounts
      ensures Counted() && rooms == old(rooms) - {id}
    {
      RemovedRoomCounts(rooms, roomCounts, id);
      roomCounts := Decremented(roomCounts, rooms[id].host);
      rooms := rooms - {id};
    }

    /** removeExpiredRoomsLocked */
    method RemoveExpiredRooms(now: nat)
      requires Counted()
      modifies this`rooms, this`roomCounts
      ensures Counted() && SubMap(rooms, old(rooms)) && rooms == Unexpired(old(rooms), now)
    {
      var rest := rooms.Keys;
      while rest != {}
        invariant Counted() && SubMap(rooms, old(rooms)) && rest <= rooms.Keys
        invariant forall id :: id in old(rooms) ==> (id in rooms <==> id in rest || now < old(rooms)[id].expires)
        decreases |rest|
      {
        var id :| id in rest;
        rest := rest - {id};
        if now >= rooms[id].expires {
          RemoveRoom(id);
        }
      }
    }

    method ExpireRooms(now: nat)
      requires Counted() && OnlyLive() && Traced()
      modifies this`rooms, this`roomCounts
      ensures Counted() && OnlyLive() && Traced() && rooms == Unexpired(old(rooms), now)
    {
      RemoveExpiredRooms(now);
      FewerRooms(devices, old(rooms), rooms, maxRooms, rosters, nextSerial, submissions);
    }

    /** removeRoomsForDeviceLocked */
    method RemoveRoomsOf(d: Id)
      requires Counted()
      modifies this`rooms, this`roomCounts
      ensures Counted() && SubMap(rooms, old(rooms))
      ensures forall id :: id in old(rooms) ==> (id in rooms <==> !Names(old(rooms)[id], d))
    {
      var rest := rooms.Keys;
      while rest != {}
        invariant Counted() && SubMap(rooms, old(rooms)) && rest <= rooms.Keys
        invariant forall id :: id in old(rooms) ==> (id in rooms <==> id in rest || !Names(old(rooms)[id], d))
        decreases |rest|
      {
        var id :| id in rest;
        rest := rest - {id};
        if Names(rooms[id], d) {
          RemoveRoom(id);
        }
      }
    }

    /** handleCreateRoom for an authenticated device; `wanted` is an identifier of valid form, or none. */
    method CreateRoom(d: Id, wanted: Option<Id>, draws: seq<Id>, now: nat) returns (r: Reply, id: Id)
      requires Counted() && OnlyLive() && Traced() && d in devices
      modifies this`rooms, this`roomCounts, this`rosters, this`nextSerial
      ensures Counted() && OnlyLive() && Traced()
      ensures HistoryGrows(submissions, submissions, old(rosters), rosters)
      ensures r.ServerClosed? <==> closed
      ensures r.Unauthorized? <==> !closed && devices[d].revoked
      ensures !closed && Live(devices, d) ==> CreateAnswer(Unexpired(old(rooms), now), maxRooms, d, wanted, draws, r)
      ensures r.Done? ==> Chosen(wanted, draws, Unexpired(old(rooms), now).Keys, id)
      ensures r.Done? ==>
        rooms == Unexpired(old(rooms), now)[id := Room(old(nextSerial), d, None, now + roomTTL, None, None)]
      ensures !r.Done? ==> rooms == if closed || devices[d].revoked then old(rooms) else Unexpired(old(rooms), now)
      ensures rosters == if r.Done? then old(rosters)[old(nextSerial) := Roster(d, None)] else old(rosters)
    {
      hide Counted, OnlyLive, Traced, CreateAnswer;
      id := 0;
      if closed { return ServerClosed, id; }
      if devices[d].revoked { return Unauthorized, id; }
      ExpireRooms(now);
      r, id := OpenRoom(d, wanted, draws, now + roomTTL);
    }

    /** The rest of handleCreateRoom, once expired rooms are gone. */
    method OpenRoom(d: Id, wanted: Option<Id>, draws: seq<Id>, expires: nat) returns (r: Reply, id: Id)
      requires Counted() && OnlyLive() && Traced() && Live(devices, d)
      modifies this`rooms, this`roomCounts, this`rosters, this`nextSerial
      ensures Counted() && OnlyLive() && Traced()
      ensures HistoryGrows(submissions, submissions, old(rosters), rosters)
      ensures CreateAnswer(old(rooms), maxRooms, d, wanted, draws, r)
      ensures r.Done? ==> Chosen(wanted, draws, old(rooms).Keys, id)
      ensures r.Done? ==> rooms == old(rooms)[id := Room(old(nextSerial), d, None, expires, None, None)]
      ensures !r.Done? ==> rooms == old(rooms)
      ensures rosters == if r.Done? then old(rosters)[old(nextSerial) := Roster(d, None)] else old(rosters)
    {
      if |rooms| >= maxRooms { return RoomLimit, 0; }
      var full := HostsFull(d);
      if full { return DeviceRoomLimit, 0; }
      r, id := ChooseRoomId(d, wanted, draws);
      if r.Done? {
        AddRoom(id, d, expires);
      }
    }

    method HostsFull(d: Id) returns (full: bool)
      requires Counted()
      ensures full <==> |HostedBy(rooms, d)| >= MAX_ROOMS_PER_DEVICE
    {
      full := CountAt(roomCounts, d) >= MAX_ROOMS_PER_DEVICE;
    }

    /** The identifier asked for, or one of at most 32 drawn ones. */
    method ChooseRoomId(ghost d: Id, wanted: Option<Id>, draws: seq<Id>) returns (r: Reply, id: Id)
      ensures r in {Done, RoomExists, RoomIdUnavailable, Internal}
      ensures |rooms| < maxRooms && |HostedBy(rooms, d)| < MAX_ROOMS_PER_DEVICE ==>
        CreateAnswer(rooms, maxRooms, d, wanted, draws, r)
      ensures r.Done? ==> Chosen(wanted, draws, rooms.Keys, id)
    {
      if wanted.Some? {
        return (if wanted.value in rooms then RoomExists else Done), wanted.value;
      }
      var tried := if |draws| < ROOM_ID_ATTEMPTS then draws else draws[..ROOM_ID_ATTEMPTS];
      var ok;
      ok, id := DrawUnused(tried, rooms.Keys);
      if ok { return Done, id; }
      r := if |draws| < ROOM_ID_ATTEMPTS then Internal else RoomIdUnavailable;
    }

    method AddRoom(id: Id, d: Id, expires: nat)
      requires Counted() && OnlyLive() && Traced() && Live(devices, d) && id !in rooms
      requires |rooms| < maxRooms && |HostedBy(rooms, d)| < MAX_ROOMS_PER_DEVICE
      modifies this`rooms, this`roomCounts, this`rosters, this`nextSerial
      ensures Counted() && OnlyLive() && Traced()
      ensures HistoryGrows(submissions, submissions, old(rosters), rosters)
      ensures rooms == old(rooms)[id := Room(old(nextSerial), d, None, expires, None, None)]
      ensures rosters == old(rosters)[old(nextSerial) := Roster(d, None)]
    {
      hide RoomsOk, CommitsOk, CountsOk, PairsAgreed, LeasesOk;
      var room := Room(nextSerial, d, None, expires, None, None);
      assert HistoryGrows(submissions, submissions, rosters, rosters[nextSerial := Roster(d, None)]);
      hide HistoryGrows, RostersOk;
      OneMoreRoom(devices, rooms, maxRooms, rosters, nextSerial, submissions, id, room);
      AddedRoomCounts(rooms, roomCounts, id, room);
      AgreementLasts(submissions, submissions, rosters, rosters[nextSerial := Roster(d, None)], pairs);
      rooms := rooms[id := room];
      roomCounts := roomCounts[d := CountAt(roomCounts, d) + 1];
      rosters := rosters[nextSerial := Roster(d, None)];
      nextSerial := nextSerial + 1;
    }

    /**
    The critical section of handleRoomSocket that takes a slot: a first guest is
    bound to the room for good.  `occupied`: the slot holds a socket not yet stopped.
    */
    method JoinRoom(d: Id, id: Id, role: Role, occupied: bool, now: nat) returns (r: Reply)
      requires Counted() && OnlyLive() && Traced() && d in devices
      modifies this`rooms, this`rosters
      ensures Counted() && OnlyLive() && Traced()
      ensures HistoryGrows(submissions, submissions, old(rosters), rosters)
      ensures r.ServerClosed? <==> closed
      ensures r.Unauthorized? <==> !closed && devices[d].revoked
      ensures !closed && Live(devices, d) ==> (r.NotFound? <==> !RoomOpen(old(rooms), id, now))
      ensures !closed && Live(devices, d) && RoomOpen(old(rooms), id, now) ==>
        r == if !MayTake(old(rooms)[id], d, role) then Forbidden else if occupied then InUse else Done
      ensures r.Done? ==>
        rooms == old(rooms)[id := if role.Host? then old(rooms)[id] else old(rooms)[id].(guest := Some(d))]
      ensures !r.Done? ==> rooms == old(rooms)
      ensures if r.Done? && role.Guest? then
                rosters == old(rosters)[old(rooms)[id].serial := Roster(old(rooms)[id].host, Some(d))]
              else rosters == old(rosters)
    {
      if closed { return ServerClosed; }
      if devices[d].revoked { return Unauthorized; }
      if id !in rooms || now >= rooms[id].expires { return NotFound; }
      var room := rooms[id];
      if role.Host? {
        if room.host != d { return Forbidden; }
        if occupied { return InUse; }
        assert rooms[id := room] == rooms;
        return Done;
      }
      if room.host == d || (room.guest.Some? && room.guest != Some(d)) { return Forbidden; }
      if occupied { return InUse; }
      SeatGuest(id, d);
      return Done;
    }

    method SeatGuest(id: Id, d: Id)
      requires Counted() && OnlyLive() && Traced() && id in rooms
      requires Live(devices, d) && d != rooms[id].host && rooms[id].guest in {None, Some(d)}
      modifies this`rooms, this`rosters
      ensures Counted() && OnlyLive() && Traced()
      ensures HistoryGrows(submissions, submissions, old(rosters), rosters)
      ensures rooms == old(rooms)[id := old(rooms)[id].(guest := Some(d))]
      ensures rosters == old(rosters)[old(rooms)[id].serial := Roster(old(rooms)[id].host, Some(d))]
    {
      var room := rooms[id].(guest := Some(d));
      ghost var rosters' := rosters[room.serial := Roster(room.host, room.guest)];
      assert RoomLive(devices, rooms[id]) && Rostered(rosters, rooms[id]) && Submitted(submissions, rooms[id]);
      RoomChanges(devices, rooms, maxRooms, rosters, nextSerial, submissions, id, room, rosters', submissions);
      SameCounts(rooms, roomCounts, id, room);
      AgreementLasts(submissions, submissions, rosters, rosters', pairs);
      rooms := rooms[id := room];
      rosters := rosters';
    }

    // ----- Commit -----

    /** pairDeviceCountLocked */
    method CountPairs(d: Id) returns (n: nat)
      ensures n == |PairsOf(pairs, d)|
    {
      n := 0;
      var rest := pairs.Keys;
      ghost var counted: set<Id> := {};
      while rest != {}
        invariant rest <= pairs.Keys && n == |counted|
        invariant forall id :: id in counted <==> id in pairs && id !in rest && Involves(pairs[id], d)
        decreases |rest|
      {
        var id :| id in rest;
        rest := rest - {id};
        if Involves(pairs[id], d) {
          n := n + 1;
          counted := counted + {id};
        }
      }
      assert counted == PairsOf(pairs, d);
    }

    /** Nothing a commit could change has changed. */
    twostate predicate Untouched() reads this {
      rooms == old(rooms) && pairs == old(pairs) && file == old(file) && submissions == old(submissions)
    }

    /** The pair is bound to the caller, in memory and in the state file. */
    ghost predicate Stored(pairId: Id, d: Id)
      reads this`pairs, this`file
    {
      pairId in pairs && Involves(pairs[pairId], d) && StoredIn(file, pairId, pairs[pairId])
    }

    /**
    handleCommit.  A positive answer means the pair is in the state file; a new
    pair comes only from a room whose two devices both submitted its identifier.
    */
    method Commit(d: Id, roomId: Id, pairId: Id, now: nat) returns (r: Reply)
      requires Valid() && d in devices && pairId < DIGESTS
      modifies this`rooms, this`pairs, this`file, this`submissions, this`faults
      ensures Valid() && SubMap(old(pairs), pairs) && HistoryGrows(old(submissions), submissions, rosters, rosters)
      ensures r == CommitReply(true) ==> Stored(pairId, d)
      ensures pairs.Keys <= old(pairs).Keys + {pairId} && (pairs != old(pairs) ==> r == CommitReply(true))
      ensures !r.CommitReply? ==> Untouched()
      ensures r.ServerClosed? <==> closed
      ensures r.Unauthorized? <==> !closed && devices[d].revoked
      ensures !closed && Live(devices, d) && !RoomOpen(old(rooms), roomId, now) ==>
        r == if pairId in pairs && Involves(pairs[pairId], d) then CommitReply(true) else NotFound
      ensures !RoomOpen(old(rooms), roomId, now) ==> Untouched()
      ensures !closed && Live(devices, d) && RoomOpen(old(rooms), roomId, now) ==>
        CommitAnswer(old(rooms)[roomId], old(pairs), d, pairId, faults > old(faults), r)
      ensures RoomOpen(old(rooms), roomId, now) && r.CommitReply? ==>
        Taken(old(rooms)[roomId], d, pairId, roomId, r.committed)
      ensures rooms - {roomId} == old(rooms) - {roomId}
    {
      hide Durable, Counted, OnlyLive, Traced, CommitAnswer, Taken;
      if closed { return ServerClosed; }
      if devices[d].revoked { return Unauthorized; }
      if roomId !in rooms || now >= rooms[roomId].expires {
        r := AnswerRetry(d, pairId);
        return;
      }
      r := CommitToRoom(d, roomId, pairId);
    }

    /** Without the room, a member of a stored pair is told that it is committed. */
    method AnswerRetry(d: Id, pairId: Id) returns (r: Reply)
      requires Durable()
      ensures r == if pairId in pairs && Involves(pairs[pairId], d) then CommitReply(true) else NotFound
      ensures r == CommitReply(true) ==> Stored(pairId, d)
    {
      if pairId in pairs && Involves(pairs[pairId], d) {
        ShownPairIsStored(file, enrollmentHash, devices, pairs, pairId);
        return CommitReply(true);
      }
      return NotFound;
    }

    /** The submission is recorded in the room, which was `room` before. */
    ghost predicate Taken(room: Room, d: Id, pairId: Id, roomId: Id, settled: bool)
      reads this`rooms, this`submissions
    {
      CommitTaken(room, d, pairId, rooms, roomId, settled) && Submission(room.serial, d, pairId) in submissions
    }

    method CommitToRoom(d: Id, roomId: Id, pairId: Id) returns (r: Reply)
      requires Valid() && roomId in rooms && pairId < DIGESTS
      modifies this`rooms, this`pairs, this`file, this`submissions, this`faults
      ensures Valid() && SubMap(old(pairs), pairs) && HistoryGrows(old(submissions), submissions, rosters, rosters)
      ensures r == CommitReply(true) ==> Stored(pairId, d)
      ensures pairs.Keys <= old(pairs).Keys + {pairId} && (pairs != old(pairs) ==> r == CommitReply(true))
      ensures !r.CommitReply? ==> Untouched()
      ensures r in REFUSALS || r.CommitReply? || r in {PairLimit, DevicePairLimit, Internal}
      ensures CommitAnswer(old(rooms)[roomId], old(pairs), d, pairId, faults > old(faults), r)
      ensures r.CommitReply? ==> Taken(old(rooms)[roomId], d, pairId, roomId, r.committed)
      ensures rooms - {roomId} == old(rooms) - {roomId}
      ensures submissions <= old(submissions) + {Submission(old(rooms)[roomId].serial, d, pairId)}
    {
      hide Durable, Counted, OnlyLive, Traced, StoreAnswer, SubmitAnswer, CommitTaken;
      r := Refusal(rooms[roomId], d, pairId);
      if r.Done? {
        r := Submit(d, roomId, pairId);
      }
    }

    /** The checks of handleCommit on an open room; Done: the submission may be taken. */
    method Refusal(room: Room, d: Id, pairId: Id) returns (r: Reply)
      ensures r in REFUSALS || r.Done?
      ensures forall q :: q in REFUSALS ==> (r == q <==> RefusedBy(room, pairs, d, pairId, q))
      ensures r.Done? ==> Names(room, d) && Mine(room, d, pairId)
      ensures r.Done? ==> (pairId in pairs ==> Some(pairs[pairId]) == PairFor(room))
      ensures r.Done? ==> Settled(room) in {None, Some(pairId)}
    {
      if d != room.host && room.guest != Some(d) { return Forbidden; }
      if Settled(room).Some? && Settled(room) != Some(pairId) { return RoomCommitted; }
      if pairId in pairs && Some(pairs[pairId]) != PairFor(room) { return PairIdInUse; }
      if d == room.host {
        if room.hostCommit.Some? && room.hostCommit != Some(pairId) { return CommitMismatch; }
      } else {
        if room.guestCommit.Some? && room.guestCommit != Some(pairId) { return CommitMismatch; }
      }
      return Done;
    }

    /** The rest of handleCommit: take the submission, and undo it if the pair cannot be stored. */
    method Submit(d: Id, roomId: Id, pairId: Id) returns (r: Reply)
      requires Valid() && roomId in rooms && pairId < DIGESTS && Names(rooms[roomId], d)
      requires pairId in pairs ==> Some(pairs[pairId]) == PairFor(rooms[roomId])
      modifies this`rooms, this`pairs, this`file, this`submissions, this`faults
      ensures Valid() && SubMap(old(pairs), pairs)
      ensures pairs.Keys <= old(pairs).Keys + {pairId} && (pairs != old(pairs) ==> r == CommitReply(true))
      ensures SubmitAnswer(old(rooms)[roomId], old(pairs), d, pairId, faults > old(faults), r)
      ensures r.CommitReply? || r in {PairLimit, DevicePairLimit, Internal}
      ensures rooms - {roomId} == old(rooms) - {roomId}
      ensures r == CommitReply(true) ==> Stored(pairId, d)
      ensures !r.CommitReply? ==> Untouched()
      ensures r.CommitReply? ==> CommitTaken(old(rooms)[roomId], d, pairId, rooms, roomId, r.committed)
      ensures r.CommitReply? ==> submissions == old(submissions) + {Submission(old(rooms)[roomId].serial, d, pairId)}
    {
      hide Durable, Counted, OnlyLive, Traced, StoreAnswer, WithCommit, Settles, Settled, CommitTaken;
      var before := rooms[roomId];
      Settling(before, d, pairId);
      CommitIsTaken(rooms, roomId, d, pairId);
      RecordCommit(d, roomId, pairId);
      var room := rooms[roomId];
      if Settled(room).None? { return CommitReply(false); }
      r := Settle(roomId, pairId);
      CommitAnswers(old(pairs), pairId, PairFor(before).value, faults > old(faults), r);
      if !r.Done? {
        assert rooms[roomId := before] == old(rooms);
        rooms, submissions := rooms[roomId := before], old(submissions);
        return;
      }
      r := CommitReply(true);
    }

    method Settle(roomId: Id, pairId: Id) returns (r: Reply)
      requires Valid() && roomId in rooms && Settled(rooms[roomId]) == Some(pairId) && pairId < DIGESTS
      requires pairId in pairs ==> Some(pairs[pairId]) == PairFor(rooms[roomId])
      modifies this`pairs, this`file, this`faults
      ensures Valid() && r in {Done, PairLimit, DevicePairLimit, Internal}
      ensures StoreAnswer(old(pairs), pairId, PairFor(rooms[roomId]).value, faults > old(faults), Done, r)
      ensures r.Done? ==> pairs == old(pairs)[pairId := PairFor(rooms[roomId]).value]
      ensures r.Done? ==> StoredIn(file, pairId, pairs[pairId])
      ensures !r.Done? ==> pairs == old(pairs) && file == old(file)
    {
      SettledRoomFits(devices, rooms, maxRooms, submissions, rosters, nextSerial, roomId, pairId);
      r := StorePair(pairId, PairFor(rooms[roomId]).value);
    }

    method RecordCommit(d: Id, roomId: Id, pairId: Id)
      requires Counted() && OnlyLive() && Traced() && roomId in rooms && Names(rooms[roomId], d)
      modifies this`rooms, this`submissions
      ensures Counted() && OnlyLive() && Traced()
      ensures rooms == old(rooms)[roomId := WithCommit(old(rooms)[roomId], d, pairId)]
      ensures submissions == old(submissions) + {Submission(old(rooms)[roomId].serial, d, pairId)}
    {
      var room := WithCommit(rooms[roomId], d, pairId);
      ghost var submissions' := submissions + {Submission(room.serial, d, pairId)};
      SubmissionTaken(devices, rooms, maxRooms, rosters, nextSerial, submissions, roomId, d, pairId);
      SameCounts(rooms, roomCounts, roomId, room);
      AgreementLasts(submissions, submissions', rosters, rosters, pairs);
      rooms := rooms[roomId := room];
      submissions := submissions';
    }

    /** Record the pair unless it is known, then save; a pair that cannot be saved is forgotten again. */
    method StorePair(id: Id, p: Pair) returns (r: Reply)
      requires Durable() && PairFits(devices, p, id) && (id in pairs ==> pairs[id] == p)
      modifies this`pairs, this`file, this`faults
      ensures Durable() && r in {Done, PairLimit, DevicePairLimit, Internal}
      ensures StoreAnswer(old(pairs), id, p, faults > old(faults), Done, r)
      ensures r.Done? ==> pairs == old(pairs)[id := p] && StoredIn(file, id, p)
      ensures !r.Done? ==> pairs == old(pairs) && file == old(file)
    {
      var created := id !in pairs;
      if created {
        if |pairs| >= MAX_PAIRS { return PairLimit; }
        var hosts := CountPairs(p.host);
        var guests := CountPairs(p.guest);
        if hosts >= MAX_PAIRS_PER_DEVICE || guests >= MAX_PAIRS_PER_DEVICE { return DevicePairLimit; }
        OneMorePair(devices, pairs, id, p);
        Forgotten(pairs, id, p);
        pairs := pairs[id := p];
      }
      assert pairs == old(pairs)[id := p];
      var saved := SaveState();
      if !saved {
        if created { pairs := pairs - {id}; }
        return Internal;
      }
      ShownPairIsStored(file, enrollmentHash, devices, pairs, id);
      return Done;
    }

    // ----- Relay leases -----

    /** expireRelayLocked */
    method ExpireLeases(now: nat)
      requires OnlyLive()
      modifies this`relayKeys
      ensures OnlyLive() && relayKeys == UnexpiredLeases(old(relayKeys), now)
    {
      var rest := relayKeys.Keys;
      while rest != {}
        invariant SubMap(relayKeys, old(relayKeys)) && rest <= relayKeys.Keys
        invariant forall k :: k in old(relayKeys) ==> (k in relayKeys <==> k in rest || now < old(relayKeys)[k].expires)
        decreases |rest|
      {
        var k :| k in rest;
        rest := rest - {k};
        if now >= relayKeys[k].expires {
          relayKeys := relayKeys - {k};
        }
      }
      FewerLeases(devices, old(relayKeys), relayKeys);
    }

    method CountLeases(d: Id) returns (n: nat)
      ensures n == |LeasesOf(relayKeys, d)|
    {
      n := 0;
      var rest := relayKeys.Keys;
      ghost var counted: set<Id> := {};
      while rest != {}
        invariant rest <= relayKeys.Keys && n == |counted|
        invariant forall k :: k in counted <==> k in relayKeys && k !in rest && relayKeys[k].device == d
        decreases |rest|
      {
        var k :| k in rest;
        rest := rest - {k};
        if relayKeys[k].device == d {
          n := n + 1;
          counted := counted + {k};
        }
      }
      assert counted == LeasesOf(relayKeys, d);
    }

    /** handleRelayRegister */
    method RegisterRelay(d: Id, key: Id, now: nat) returns (r: Reply)
      requires OnlyLive() && d in devices
      modifies this`relayKeys
      ensures OnlyLive()
      ensures r.ServerClosed? <==> closed
      ensures r.Unauthorized? <==> !closed && devices[d].revoked
      ensures !closed && Live(devices, d) ==> RegisterAnswer(UnexpiredLeases(old(relayKeys), now), d, key, r)
      ensures r.Done? ==> relayKeys == UnexpiredLeases(old(relayKeys), now)[key := Lease(d, now + LEASE_TTL)]
      ensures !r.Done? ==>
        relayKeys == if closed || devices[d].revoked then old(relayKeys) else UnexpiredLeases(old(relayKeys), now)
    {
      if closed { return ServerClosed; }
      if devices[d].revoked { return Unauthorized; }
      ExpireLeases(now);
      if key in relayKeys && relayKeys[key].device != d { return RelayKeyInUse; }
      var count := CountLeases(d);
      if key !in relayKeys && count >= MAX_RELAY_KEYS { return RelayKeyLimit; }
      OneMoreLease(devices, relayKeys, key, Lease(d, now + LEASE_TTL));
      relayKeys := relayKeys[key := Lease(d, now + LEASE_TTL)];
      return Done;
    }

    /** AllowedRelayKey: an expired lease found on the way is dropped. */
    method AllowedRelayKey(key: Id, now: nat) returns (allowed: bool)
      requires OnlyLive()
      modifies this`relayKeys
      ensures OnlyLive()
      ensures allowed <==> !closed && key in old(relayKeys) && now < old(relayKeys)[key].expires
      ensures allowed ==> relayKeys == old(relayKeys) && Live(devices, relayKeys[key].device)
      ensures relayKeys == if allowed || closed then old(relayKeys) else old(relayKeys) - {key}
    {
      if closed || key !in relayKeys { return false; }
      var lease := relayKeys[key];
      assert Live(devices, relayKeys[key].device);
      if !Live(devices, lease.device) || now >= lease.expires {
        FewerLeases(devices, relayKeys, relayKeys - {key});
        relayKeys := relayKeys - {key};
        return false;
      }
      return true;
    }

    // ----- Revocation, expiry, closing and restarting -----

    method DropLeasesOf(d: Id) returns (removed: map<Id, Lease>)
      modifies this`relayKeys
      ensures SubMap(relayKeys, old(relayKeys)) && relayKeys + removed == old(relayKeys)
      ensures forall k :: k in old(relayKeys) ==> (k in relayKeys <==> old(relayKeys)[k].device != d)
    {
      removed := map[];
      var rest := relayKeys.Keys;
      while rest != {}
        invariant SubMap(relayKeys, old(relayKeys)) && SubMap(removed, old(relayKeys)) && rest <= relayKeys.Keys
        invariant forall k :: k in old(relayKeys) ==> (k in relayKeys <==> k in rest || old(relayKeys)[k].device != d)
        invariant forall k :: k in old(relayKeys) ==> k in relayKeys || k in removed
        decreases |rest|
      {
        var k :| k in rest;
        rest := rest - {k};
        if relayKeys[k].device == d {
          removed := removed[k := relayKeys[k]];
          relayKeys := relayKeys - {k};
        }
      }
    }

    /** The first half of RevokeDevice: mark the device, drop its leases and save, or put both back. */
    method Disable(d: Id) returns (saved: bool)
      requires Durable() && d in devices && !devices[d].revoked
      modifies this`devices, this`relayKeys, this`file, this`faults
      ensures Durable() && (saved <==> faults == old(faults)) && faults >= old(faults)
      ensures saved ==> devices == old(devices)[d := old(devices)[d].(revoked := true)]
      ensures saved ==> SubMap(relayKeys, old(relayKeys))
      ensures saved ==> forall k :: k in old(relayKeys) ==> (k in relayKeys <==> old(relayKeys)[k].device != d)
      ensures !saved ==> devices == old(devices) && relayKeys == old(relayKeys) && file == old(file)
    {
      RevokedStaysDurable(devices, byTokenHash, pairs, d);
      devices := devices[d := devices[d].(revoked := true)];
      var removed := DropLeasesOf(d);
      saved := SaveState();
      if !saved {
        devices := devices[d := devices[d].(revoked := false)];
        assert devices == old(devices);
        relayKeys := relayKeys + removed;
      }
    }

    /** RevokeDevice.  On success nothing in memory names the device any more; its pairs stay. */
    method Revoke(d: Id) returns (r: Reply)
      requires Valid()
      modifies this`devices, this`rooms, this`roomCounts, this`relayKeys, this`file, this`faults
      ensures Valid() && DevicesLast(old(devices), devices)
      ensures (r.ServerClosed? <==> closed) && (r.NotFound? <==> !closed && d !in devices)
      ensures !closed && d in devices ==> r == if faults > old(faults) then Internal else Done
      ensures faults > old(faults) ==> d in devices && !devices[d].revoked
      ensures r.Done? ==> d in old(devices) && devices == old(devices)[d := old(devices)[d].(revoked := true)]
      ensures r.Done? ==> SubMap(rooms, old(rooms)) && SubMap(relayKeys, old(relayKeys))
      ensures r.Done? ==> forall id :: id in old(rooms) ==> (id in rooms <==> !Names(old(rooms)[id], d))
      ensures r.Done? ==> forall k :: k in old(relayKeys) ==> (k in relayKeys <==> old(relayKeys)[k].device != d)
      ensures !r.Done? ==> devices == old(devices) && rooms == old(rooms)
      ensures !r.Done? ==> relayKeys == old(relayKeys) && file == old(file)
    {
      hide Durable, Counted, RoomsOk, LeasesOk, RostersOk, CommitsOk, PairsAgreed;
      if closed { return ServerClosed; }
      if d !in devices { return NotFound; }
      if devices[d].revoked {
        NothingNamesYet(d);
        assert devices == devices[d := devices[d].(revoked := true)];
        return Done;
      }
      var saved := Disable(d);
      if !saved { return Internal; }
      RemoveRoomsOf(d);
      FewerRooms(old(devices), old(rooms), rooms, maxRooms, rosters, nextSerial, submissions);
      FewerLeases(old(devices), old(relayKeys), relayKeys);
      NothingNamesRevoked(old(devices), rooms, maxRooms, relayKeys, d);
      return Done;
    }

    lemma NothingNamesYet(d: Id)
      requires OnlyLive() && !Live(devices, d)
      ensures forall id :: id in rooms ==> !Names(rooms[id], d)
      ensures forall k :: k in relayKeys ==> relayKeys[k].device != d
    {
      forall id | id in rooms ensures !Names(rooms[id], d) { assert RoomLive(devices, rooms[id]); }
      forall k | k in relayKeys ensures relayKeys[k].device != d { assert Live(devices, relayKeys[k].device); }
    }

    /** cleanupExpired */
    method CleanUp(now: nat)
      requires Counted() && OnlyLive() && Traced()
      modifies this`rooms, this`roomCounts, this`relayKeys
      ensures Counted() && OnlyLive() && Traced()
      ensures rooms == if closed then old(rooms) else Unexpired(old(rooms), now)
      ensures relayKeys == if closed then old(relayKeys) else UnexpiredLeases(old(relayKeys), now)
    {
      if closed { return; }
      ExpireRooms(now);
      ExpireLeases(now);
    }

    /** What Close and the death of the process leave of the short-lived state. */
    method Forget()
      requires OnlyLive() && Traced()
      modifies this`rooms, this`roomCounts, this`relayKeys
      ensures Counted() && OnlyLive() && Traced() && rooms == map[] && relayKeys == map[]
    {
      FewerRooms(devices, rooms, map[], maxRooms, rosters, nextSerial, submissions);
      FewerLeases(devices, relayKeys, map[]);
      rooms, roomCounts, relayKeys := map[], map[], map[];
    }

    /** Close */
    method CloseServer()
      requires Counted() && OnlyLive() && Traced()
      modifies this`closed, this`rooms, this`roomCounts, this`relayKeys
      ensures Counted() && OnlyLive() && Traced() && closed
      ensures if old(closed) then rooms == old(rooms) && relayKeys == old(relayKeys)
              else rooms == map[] && relayKeys == map[]
    {
      if closed { return; }
      closed := true;
      Forget();
    }

    /**
    The process dies, and New starts over from the state file; `readable` says
    the file could be opened and decoded.  While no process runs, `closed` holds.
    */
    method Restart(configured: Option<Id>, readable: bool) returns (ok: bool)
      requires Valid()
      modifies this`closed, this`devices, this`byTokenHash, this`pairs, this`rooms, this`roomCounts, this`relayKeys
      ensures Valid() && closed == !ok
      ensures ok <==> readable && (configured.None? || configured == Some(enrollmentHash))
      ensures devices == old(devices) && byTokenHash == old(byTokenHash) && pairs == old(pairs)
      ensures rooms == map[] && relayKeys == map[]
    {
      Forget();
      ok := false;
      if readable {
        ok := Reload(configured);
      }
      closed := !ok;
    }

    /** loadState of the file that is there. */
    method Reload(configured: Option<Id>) returns (ok: bool)
      requires Durable()
      modifies this`devices, this`byTokenHash, this`pairs
      ensures Durable() && (ok <==> configured.None? || configured == Some(enrollmentHash))
      ensures devices == old(devices) && byTokenHash == old(byTokenHash) && pairs == old(pairs)
    {
      var devices', byTokenHash', pairs';
      ok, devices', byTokenHash', pairs' := Load(file, configured);
      if configured.None? || configured == Some(enrollmentHash) {
        SnapshotIsLoadable(file, enrollmentHash, configured, devices, byTokenHash, pairs);
      }
      if ok {
        LoadRestores(file, enrollmentHash, devices, byTokenHash, pairs, devices', byTokenHash', pairs');
        devices, byTokenHash, pairs := devices', byTokenHash', pairs';
      }
    }
  }

  /**
  Every pair in the state file was agreed on in a room its two distinct devices
  shared, and is bound as in memory.
  */
  lemma StoredPairWasAgreed(s: Server, e: Entry<Pair>)
    requires s.Valid() && e in s.file.pairs
    ensures e.id in s.pairs && s.pairs[e.id] == e.value && e.value.host != e.value.guest
    ensures Agreed(s.submissions, s.rosters, e.id, e.value)
  {
    var i :| 0 <= i < |s.file.pairs| && s.file.pairs[i] == e;
    assert PairFits(s.devices, s.pairs[e.id], e.id);
    assert Agreed(s.submissions, s.rosters, e.id, s.pairs[e.id]);
  }

  // ----- Whole runs -----

  /** `d` is a device that authenticated at some earlier moment; it may have been revoked since. */
  datatype Request =
    | Login(credential: Id, name: string, idDraws: seq<Id>, tokenDraws: seq<Id>)
    | CreateRoom(d: Id, wanted: Option<Id>, draws: seq<Id>, now: nat)
    | JoinRoom(d: Id, room: Id, role: Role, occupied: bool, now: nat)
    | Commit(d: Id, room: Id, pair: Id, now: nat)
    | RegisterRelay(d: Id, key: Id, now: nat)
    | AllowedRelayKey(key: Id, now: nat)
    | Revoke(device: Id)
    | CleanUp(now: nat)
    | Close
    | Restart(configured: Option<Id>, readable: bool)

  predicate WellFormed(q: Request) {
    match q
    case Login(_, _, ids, tokens) =>
      && (forall i :: i in ids ==> i < DEVICE_IDS)
      && (forall t :: t in tokens ==> t < DIGESTS)
    case Commit(_, _, pair, _) => pair < DIGESTS
    case _ => true
  }

  method ServeOne(s: Server, q: Request)
    requires s.Valid() && WellFormed(q)
    modifies s
    ensures s.Valid() && s.Kept()
  {
    hide Server.Durable, Server.Counted, Server.OnlyLive, Server.Traced;
    match q
    case Login(credential, name, ids, tokens) =>
      var r, d, t := s.Login(credential, name, ids, tokens);
    case AllowedRelayKey(key, now) =>
      var r := s.AllowedRelayKey(key, now);
    case Revoke(d) =>
      var r := s.Revoke(d);
    case CleanUp(now) =>
      s.CleanUp(now);
    case Close =>
      s.CloseServer();
    case Restart(configured, readable) =>
      var r := s.Restart(configured, readable);
    case _ =>
      if q.d in s.devices { ServeDevice(s, q); }
  }

  method ServeDevice(s: Server, q: Request)
    requires s.Valid() && WellFormed(q)
    requires (q.CreateRoom? || q.JoinRoom? || q.Commit? || q.RegisterRelay?) && q.d in s.devices
    modifies s
    ensures s.Valid() && s.Kept()
  {
    match q
    case CreateRoom(d, wanted, draws, now) =>
      var r, id := s.CreateRoom(d, wanted, draws, now);
    case JoinRoom(d, room, role, occupied, now) =>
      var r := s.JoinRoom(d, room, role, occupied, now);
    case Commit(d, room, pair, now) =>
      var r := s.Commit(d, room, pair, now);
    case RegisterRelay(d, key, now) =>
      var r := s.RegisterRelay(d, key, now);
  }

  /**
  Any run whatsoever keeps every invariant, and undoes nothing: no pair is removed
  or bound anew, no device forgotten, no revocation lifted.
  */
  method Serve(s: Server, requests: seq<Request>)
    requires s.Valid() && forall i :: 0 <= i < |requests| ==> WellFormed(requests[i])
    modifies s
    ensures s.Valid() && s.Kept()
  {
    for i := 0 to |requests|
      invariant s.Valid() && s.Kept()
    {
      ServeOne(s, requests[i]);
    }
  }

  /**
  A positive answer to a commit is durable: whatever the server goes through
  afterwards, both devices stay bound by the same pair in memory and in the state
  file, and either of them that asks again without an open room is told so.
  */
  method CommittedIsDurable(s: Server, d: Id, roomId: Id, pairId: Id, now: nat, requests: seq<Request>, other: Id,
                            retryRoom: Id, later: nat) returns (first: Reply, ghost pair: Pair, retry: Reply)
    requires s.Valid() && d in s.devices && other in s.devices && pairId < DIGESTS
    requires forall i :: 0 <= i < |requests| ==> WellFormed(requests[i])
    modifies s
    ensures s.Valid() && other in s.devices
    ensures first == CommitReply(true) ==>
      Involves(pair, d) && pairId in s.pairs && s.pairs[pairId] == pair && StoredIn(s.file, pairId, pair)
    ensures first == CommitReply(true) && Involves(pair, other) && !RoomOpen(s.rooms, retryRoom, later) ==>
      retry == if s.closed then ServerClosed else if s.devices[other].revoked then Unauthorized else CommitReply(true)
  {
    hide CommitAnswer;
    first := s.Commit(d, roomId, pairId, now);
    pair := if pairId in s.pairs then s.pairs[pairId] else Pair(d, other);
    label committed:
    Serve(s, requests);
    assert pairId in old@committed(s.pairs) ==> pairId in s.pairs && s.pairs[pairId] == pair;
    retry := s.Commit(other, retryRoom, pairId, later);
    if first == CommitReply(true) {
      ShownPairIsStored(s.file, s.enrollmentHash, s.devices, s.pairs, pairId);
    }
  }
}
