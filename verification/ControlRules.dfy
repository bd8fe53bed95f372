/**
What holds of the rendezvous server's rooms, relay leases and pairs between lock
releases (internal/control/control.go), and how single changes keep it.
*/
module ControlRules {
  import opened Common
  import opened ControlState

  const MAX_ROOMS_PER_DEVICE := 8
  const MAX_RELAY_KEYS := 4
  const LEASE_TTL := 600

  /** `serial` tells apart the rooms that had the same identifier one after another. */
  datatype Room = Room(serial: nat, host: Id, guest: Option<Id>, expires: nat,
                       hostCommit: Option<Id>, guestCommit: Option<Id>)
  datatype Lease = Lease(device: Id, expires: nat)

  // ----- Counting -----

  function HostedBy(rooms: map<Id, Room>, d: Id): set<Id> {
    set id | id in rooms && rooms[id].host == d
  }

  function LeasesOf(leases: map<Id, Lease>, d: Id): set<Id> {
    set k | k in leases && leases[k].device == d
  }

  ghost predicate CountsOk(rooms: map<Id, Room>, counts: map<Id, nat>) {
    && (forall d :: CountAt(counts, d) == |HostedBy(rooms, d)|)
    && (forall d :: d in counts ==> counts[d] > 0)
  }

  lemma RoomLeaves(rooms: map<Id, Room>, id: Id)
    requires id in rooms
    ensures forall d :: |HostedBy(rooms, d)| == |HostedBy(rooms - {id}, d)| + (if rooms[id].host == d then 1 else 0)
  {
    forall d ensures |HostedBy(rooms, d)| == |HostedBy(rooms - {id}, d)| + (if rooms[id].host == d then 1 else 0) {
      var fewer := HostedBy(rooms - {id}, d);
      assert id !in fewer;
      if rooms[id].host == d {
        assert HostedBy(rooms, d) == fewer + {id};
      } else {
        assert HostedBy(rooms, d) == fewer;
      }
    }
  }

  lemma SameHosts(rooms: map<Id, Room>, id: Id, r: Room)
    requires id in rooms && rooms[id].host == r.host
    ensures forall d :: HostedBy(rooms[id := r], d) == HostedBy(rooms, d)
  {}

  /** decrementRoomCountLocked */
  function Decremented(counts: map<Id, nat>, d: Id): map<Id, nat> {
    if CountAt(counts, d) <= 1 then counts - {d} else counts[d := counts[d] - 1]
  }

  lemma RemovedRoomCounts(rooms: map<Id, Room>, counts: map<Id, nat>, id: Id)
    requires CountsOk(rooms, counts) && id in rooms
    ensures CountsOk(rooms - {id}, Decremented(counts, rooms[id].host))
  {
    RoomLeaves(rooms, id);
    var counts' := Decremented(counts, rooms[id].host);
    forall d ensures CountAt(counts', d) == |HostedBy(rooms - {id}, d)| {
      assert CountAt(counts, d) == |HostedBy(rooms, d)|;
    }
  }

  lemma AddedRoomCounts(rooms: map<Id, Room>, counts: map<Id, nat>, id: Id, r: Room)
    requires CountsOk(rooms, counts) && id !in rooms
    ensures CountsOk(rooms[id := r], counts[r.host := CountAt(counts, r.host) + 1])
  {
    var rooms' := rooms[id := r];
    RoomLeaves(rooms', id);
    assert rooms' - {id} == rooms;
    forall d ensures CountAt(counts[r.host := CountAt(counts, r.host) + 1], d) == |HostedBy(rooms', d)| {
      assert CountAt(counts, d) == |HostedBy(rooms, d)|;
    }
  }

  // ----- Invariants -----

  predicate Live(devices: map<Id, Device>, d: Id) {
    d in devices && !devices[d].revoked
  }

  predicate RoomLive(devices: map<Id, Device>, r: Room) {
    Live(devices, r.host) && (r.guest.Some? ==> Live(devices, r.guest.value) && r.guest.value != r.host)
  }

  ghost predicate RoomsOk(devices: map<Id, Device>, rooms: map<Id, Room>, maxRooms: nat) {
    && |rooms| <= maxRooms
    && (forall id {:trigger RoomLive(devices, rooms[id])} :: id in rooms ==> RoomLive(devices, rooms[id]))
    && (forall d :: |HostedBy(rooms, d)| <= MAX_ROOMS_PER_DEVICE)
  }

  ghost predicate LeasesOk(devices: map<Id, Device>, leases: map<Id, Lease>) {
    && (forall k {:trigger Live(devices, leases[k].device)} :: k in leases ==> Live(devices, leases[k].device))
    && (forall d :: |LeasesOf(leases, d)| <= MAX_RELAY_KEYS)
  }

  // ----- Where pairs come from -----

  /** `device` submitted `pair` to the room with this serial number. */
  datatype Submission = Submission(serial: nat, device: Id, pair: Id)
  datatype Roster = Roster(host: Id, guest: Option<Id>)

  /** Both devices of the pair shared one room, and each submitted this very identifier to it. */
  ghost predicate Agreed(submissions: set<Submission>, rosters: map<nat, Roster>, id: Id, p: Pair) {
    exists serial :: serial in rosters && rosters[serial] == Roster(p.host, Some(p.guest))
      && Submission(serial, p.host, id) in submissions && Submission(serial, p.guest, id) in submissions
  }

  predicate Rostered(rosters: map<nat, Roster>, r: Room) {
    r.serial in rosters && rosters[r.serial] == Roster(r.host, r.guest)
  }

  ghost predicate RostersOk(rooms: map<Id, Room>, rosters: map<nat, Roster>, nextSerial: nat) {
    && (forall id {:trigger Rostered(rosters, rooms[id])} :: id in rooms ==> Rostered(rosters, rooms[id]))
    && (forall a, b {:trigger rooms[a].serial, rooms[b].serial} :: a in rooms && b in rooms && a != b ==>
          rooms[a].serial != rooms[b].serial)
    && (forall s :: s in rosters ==> s < nextSerial)
  }

  predicate Submitted(submissions: set<Submission>, r: Room) {
    && (r.hostCommit.Some? ==> Submission(r.serial, r.host, r.hostCommit.value) in submissions)
    && (r.guestCommit.Some? ==>
          r.guest.Some? && Submission(r.serial, r.guest.value, r.guestCommit.value) in submissions)
  }

  ghost predicate CommitsOk(rooms: map<Id, Room>, submissions: set<Submission>) {
    forall id {:trigger Submitted(submissions, rooms[id])} :: id in rooms ==> Submitted(submissions, rooms[id])
  }

  ghost predicate PairsAgreed(pairs: map<Id, Pair>, submissions: set<Submission>, rosters: map<nat, Roster>) {
    forall id {:trigger Agreed(submissions, rosters, id, pairs[id])} :: id in pairs ==>
      Agreed(submissions, rosters, id, pairs[id])
  }

  ghost predicate SubMap<K, V>(m: map<K, V>, m': map<K, V>) {
    forall k :: k in m ==> k in m' && m'[k] == m[k]
  }

  /** Submissions accumulate, and a roster only ever gains its guest. */
  ghost predicate HistoryGrows(s: set<Submission>, s': set<Submission>, r: map<nat, Roster>, r': map<nat, Roster>) {
    s <= s' && forall n :: n in r ==> n in r' && r'[n].host == r[n].host && (r[n].guest.Some? ==> r'[n] == r[n])
  }

  lemma AgreementLasts(s: set<Submission>, s': set<Submission>, r: map<nat, Roster>, r': map<nat, Roster>,
                       pairs: map<Id, Pair>)
    requires HistoryGrows(s, s', r, r') && PairsAgreed(pairs, s, r)
    ensures PairsAgreed(pairs, s', r')
  {
    forall id | id in pairs ensures Agreed(s', r', id, pairs[id]) {
      var p := pairs[id];
      assert Agreed(s, r, id, p);
      var serial :| serial in r && r[serial] == Roster(p.host, Some(p.guest))
        && Submission(serial, p.host, id) in s && Submission(serial, p.guest, id) in s;
      assert serial in r' && r'[serial] == Roster(p.host, Some(p.guest));
    }
  }

  /** No device is forgotten, and no revocation undone. */
  ghost predicate DevicesLast(devices: map<Id, Device>, devices': map<Id, Device>) {
    forall d :: d in devices ==> d in devices' && (devices[d].revoked ==> devices'[d].revoked)
  }

  // ----- How single changes carry the invariants -----

  lemma DevicesWithOne(devices: map<Id, Device>, id: Id, device: Device)
    requires DevicesOk(devices) && |devices| < MAX_DEVICES && id !in devices
    requires id < DEVICE_IDS && |device.name| <= MAX_NAME && device.tokenHash < DIGESTS
    ensures DevicesOk(devices[id := device])
  {
    var devices' := devices[id := device];
    forall x | x in devices' ensures DeviceFits(devices'[x], x) { assert x != id ==> DeviceFits(devices[x], x); }
  }

  lemma PairsWithOneDevice(devices: map<Id, Device>, pairs: map<Id, Pair>, id: Id, device: Device)
    requires PairsOk(devices, pairs) && id !in devices
    ensures PairsOk(devices[id := device], pairs)
  {
    StrangerHasNoPairs(devices, pairs, id);
    forall x | x in pairs
      ensures PairFits(devices[id := device], pairs[x], x)
    {
      assert PairFits(devices, pairs[x], x);
    }
  }

  lemma MoreDevices(devices: map<Id, Device>, devices': map<Id, Device>, rooms: map<Id, Room>, maxRooms: nat,
                    leases: map<Id, Lease>)
    requires RoomsOk(devices, rooms, maxRooms) && LeasesOk(devices, leases) && SubMap(devices, devices')
    ensures RoomsOk(devices', rooms, maxRooms) && LeasesOk(devices', leases)
  {
    forall id | id in rooms ensures RoomLive(devices', rooms[id]) { assert RoomLive(devices, rooms[id]); }
    forall k | k in leases ensures Live(devices', leases[k].device) { assert Live(devices, leases[k].device); }
  }

  lemma OneMoreDevice(devices: map<Id, Device>, byTokenHash: map<Id, Id>, pairs: map<Id, Pair>, id: Id, device: Device,
                      rooms: map<Id, Room>, maxRooms: nat, leases: map<Id, Lease>)
    requires DevicesOk(devices) && IndexOk(devices, byTokenHash) && PairsOk(devices, pairs) && |devices| < MAX_DEVICES
    requires RoomsOk(devices, rooms, maxRooms) && LeasesOk(devices, leases)
    requires id !in devices && DeviceFits(device, id) && device.tokenHash !in byTokenHash
    ensures DevicesOk(devices[id := device]) && PairsOk(devices[id := device], pairs)
    ensures IndexOk(devices[id := device], byTokenHash[device.tokenHash := id])
    ensures RoomsOk(devices[id := device], rooms, maxRooms) && LeasesOk(devices[id := device], leases)
  {
    DevicesWithOne(devices, id, device);
    IndexWithOne(devices, byTokenHash, id, device);
    PairsWithOneDevice(devices, pairs, id, device);
    MoreDevices(devices, devices[id := device], rooms, maxRooms, leases);
  }

  lemma Forgotten<K, V>(m: map<K, V>, k: K, v: V)
    requires k !in m
    ensures m[k := v] - {k} == m
  {}

  lemma SubsetSize<T>(a: set<T>, b: set<T>)
    requires a <= b
    ensures |a| <= |b|
  {
    assert b == a + (b - a);
  }

  lemma FewerRooms(devices: map<Id, Device>, rooms: map<Id, Room>, rooms': map<Id, Room>, maxRooms: nat,
                   rosters: map<nat, Roster>, nextSerial: nat, submissions: set<Submission>)
    requires RoomsOk(devices, rooms, maxRooms) && RostersOk(rooms, rosters, nextSerial) && CommitsOk(rooms, submissions)
    requires SubMap(rooms', rooms)
    ensures RoomsOk(devices, rooms', maxRooms)
    ensures RostersOk(rooms', rosters, nextSerial) && CommitsOk(rooms', submissions)
  {
    SubsetSize(rooms'.Keys, rooms.Keys);
    forall id | id in rooms'
      ensures RoomLive(devices, rooms'[id]) && Rostered(rosters, rooms'[id]) && Submitted(submissions, rooms'[id])
    {
      assert RoomLive(devices, rooms[id]) && Rostered(rosters, rooms[id]) && Submitted(submissions, rooms[id]);
    }
    forall d ensures |HostedBy(rooms', d)| <= MAX_ROOMS_PER_DEVICE {
      SubsetSize(HostedBy(rooms', d), HostedBy(rooms, d));
    }
  }

  lemma FewerLeases(devices: map<Id, Device>, leases: map<Id, Lease>, leases': map<Id, Lease>)
    requires LeasesOk(devices, leases) && SubMap(leases', leases)
    ensures LeasesOk(devices, leases')
  {
    forall k | k in leases' ensures Live(devices, leases'[k].device) { assert Live(devices, leases[k].device); }
    forall d ensures |LeasesOf(leases', d)| <= MAX_RELAY_KEYS {
      SubsetSize(LeasesOf(leases', d), LeasesOf(leases, d));
    }
  }

  lemma OneMoreRoom(devices: map<Id, Device>, rooms: map<Id, Room>, maxRooms: nat, rosters: map<nat, Roster>,
                    nextSerial: nat, submissions: set<Submission>, id: Id, r: Room)
    requires RoomsOk(devices, rooms, maxRooms) && RostersOk(rooms, rosters, nextSerial) && CommitsOk(rooms, submissions)
    requires id !in rooms && |rooms| < maxRooms
    requires |HostedBy(rooms, r.host)| < MAX_ROOMS_PER_DEVICE && Live(devices, r.host)
    requires r == Room(nextSerial, r.host, None, r.expires, None, None)
    ensures RoomsOk(devices, rooms[id := r], maxRooms)
    ensures RostersOk(rooms[id := r], rosters[nextSerial := Roster(r.host, None)], nextSerial + 1)
    ensures CommitsOk(rooms[id := r], submissions)
  {
    var rooms', rosters' := rooms[id := r], rosters[nextSerial := Roster(r.host, None)];
    RoomLeaves(rooms', id);
    assert rooms' - {id} == rooms;
    forall d ensures |HostedBy(rooms', d)| <= MAX_ROOMS_PER_DEVICE {
      assert |HostedBy(rooms, d)| <= MAX_ROOMS_PER_DEVICE;
    }
    forall x | x in rooms'
      ensures RoomLive(devices, rooms'[x]) && Rostered(rosters', rooms'[x]) && Submitted(submissions, rooms'[x])
      ensures x != id ==> rooms'[x].serial < nextSerial
    {
      assert x != id ==> RoomLive(devices, rooms[x]) && Rostered(rosters, rooms[x]) && Submitted(submissions, rooms[x]);
    }
  }

  /** A room gains its guest or a commit; it stays the same room of the same host. */
  lemma RoomChanges(devices: map<Id, Device>, rooms: map<Id, Room>, maxRooms: nat, rosters: map<nat, Roster>,
                    nextSerial: nat, submissions: set<Submission>, id: Id, r: Room, rosters': map<nat, Roster>,
                    submissions': set<Submission>)
    requires RoomsOk(devices, rooms, maxRooms) && RostersOk(rooms, rosters, nextSerial) && CommitsOk(rooms, submissions)
    requires id in rooms && r.host == rooms[id].host && r.serial == rooms[id].serial
    requires submissions <= submissions' && rosters' == rosters[r.serial := Roster(r.host, r.guest)]
    requires RoomLive(devices, r) && Submitted(submissions', r)
    ensures RoomsOk(devices, rooms[id := r], maxRooms)
    ensures RostersOk(rooms[id := r], rosters', nextSerial) && CommitsOk(rooms[id := r], submissions')
  {
    var rooms' := rooms[id := r];
    SameHosts(rooms, id, r);
    assert rooms'.Keys == rooms.Keys;
    assert Rostered(rosters, rooms[id]);
    forall x | x in rooms'
      ensures RoomLive(devices, rooms'[x]) && Rostered(rosters', rooms'[x]) && Submitted(submissions', rooms'[x])
    {
      assert x != id ==> RoomLive(devices, rooms[x]) && Rostered(rosters, rooms[x]) && Submitted(submissions, rooms[x]);
      assert x != id ==> rooms[x].serial != rooms[id].serial;
    }
    forall d ensures |HostedBy(rooms', d)| <= MAX_ROOMS_PER_DEVICE {
      assert HostedBy(rooms', d) == HostedBy(rooms, d);
    }
  }

  lemma SameCounts(rooms: map<Id, Room>, counts: map<Id, nat>, id: Id, r: Room)
    requires CountsOk(rooms, counts) && id in rooms && rooms[id].host == r.host
    ensures CountsOk(rooms[id := r], counts)
  {
    SameHosts(rooms, id, r);
    forall d ensures CountAt(counts, d) == |HostedBy(rooms[id := r], d)| {
      assert HostedBy(rooms[id := r], d) == HostedBy(rooms, d);
    }
  }

  lemma LeaseCounted(leases: map<Id, Lease>, key: Id, lease: Lease, d: Id)
    requires key in leases ==> leases[key].device == lease.device
    ensures var more := if key !in leases && d == lease.device then 1 else 0;
      |LeasesOf(leases[key := lease], d)| == |LeasesOf(leases, d)| + more
  {
    if d == lease.device {
      assert LeasesOf(leases[key := lease], d) == LeasesOf(leases, d) + {key};
    } else {
      assert LeasesOf(leases[key := lease], d) == LeasesOf(leases, d);
    }
  }

  lemma OneMoreLease(devices: map<Id, Device>, leases: map<Id, Lease>, key: Id, lease: Lease)
    requires LeasesOk(devices, leases) && Live(devices, lease.device)
    requires key in leases ==> leases[key].device == lease.device
    requires key !in leases ==> |LeasesOf(leases, lease.device)| < MAX_RELAY_KEYS
    ensures LeasesOk(devices, leases[key := lease])
  {
    var leases' := leases[key := lease];
    forall k | k in leases' ensures Live(devices, leases'[k].device) {
      assert k != key ==> Live(devices, leases[k].device);
    }
    forall d ensures |LeasesOf(leases', d)| <= MAX_RELAY_KEYS {
      LeaseCounted(leases, key, lease, d);
    }
  }

  // ----- Revocation -----

  predicate Names(r: Room, d: Id) { r.host == d || r.guest == Some(d) }

  lemma RevokedStaysDurable(devices: map<Id, Device>, byTokenHash: map<Id, Id>, pairs: map<Id, Pair>, d: Id)
    requires DevicesOk(devices) && IndexOk(devices, byTokenHash) && PairsOk(devices, pairs) && d in devices
    ensures var devices' := devices[d := devices[d].(revoked := true)];
      DevicesOk(devices') && IndexOk(devices', byTokenHash) && PairsOk(devices', pairs)
  {
    var devices' := devices[d := devices[d].(revoked := true)];
    assert devices'.Keys == devices.Keys;
    forall x | x in devices' ensures DeviceFits(devices'[x], x) && DeviceIndexed(devices', byTokenHash, x) {
      assert DeviceFits(devices[x], x) && DeviceIndexed(devices, byTokenHash, x);
    }
    forall h | h in byTokenHash ensures TokenKnown(devices', byTokenHash, h) {
      assert TokenKnown(devices, byTokenHash, h);
    }
    forall x | x in pairs ensures PairFits(devices', pairs[x], x) {
      assert PairFits(devices, pairs[x], x);
    }
  }

  /** Once the rooms and leases that name d are gone, d may be revoked. */
  lemma NothingNamesRevoked(devices: map<Id, Device>, rooms: map<Id, Room>, maxRooms: nat, leases: map<Id, Lease>,
                            d: Id)
    requires RoomsOk(devices, rooms, maxRooms) && LeasesOk(devices, leases) && d in devices
    requires forall id :: id in rooms ==> !Names(rooms[id], d)
    requires forall k :: k in leases ==> leases[k].device != d
    ensures var devices' := devices[d := devices[d].(revoked := true)];
      RoomsOk(devices', rooms, maxRooms) && LeasesOk(devices', leases)
  {
    var devices' := devices[d := devices[d].(revoked := true)];
    forall id | id in rooms ensures RoomLive(devices', rooms[id]) { assert RoomLive(devices, rooms[id]); }
    forall k | k in leases ensures Live(devices', leases[k].device) { assert Live(devices, leases[k].device); }
  }

  // ----- One more pair -----

  lemma OneMorePair(devices: map<Id, Device>, pairs: map<Id, Pair>, id: Id, p: Pair)
    requires PairsOk(devices, pairs) && id !in pairs && PairFits(devices, p, id) && |pairs| < MAX_PAIRS
    requires |PairsOf(pairs, p.host)| < MAX_PAIRS_PER_DEVICE && |PairsOf(pairs, p.guest)| < MAX_PAIRS_PER_DEVICE
    ensures PairsOk(devices, pairs[id := p])
  {
    var pairs' := pairs[id := p];
    assert pairs' - {id} == pairs;
    forall x | x in pairs' ensures PairFits(devices, pairs'[x], x) {
      assert x != id ==> PairFits(devices, pairs[x], x);
    }
    forall d | d in devices ensures |PairsOf(pairs', d)| <= MAX_PAIRS_PER_DEVICE {
      PairsWithout(pairs', id, d);
    }
  }

  // ----- One more submission -----

  /** The identifier both sides have submitted, if any. */
  function Settled(r: Room): Option<Id> {
    if r.hostCommit.Some? && r.hostCommit == r.guestCommit && r.guest.Some? then r.hostCommit else None
  }

  function PairFor(r: Room): Option<Pair> {
    if r.guest.Some? then Some(Pair(r.host, r.guest.value)) else None
  }

  function WithCommit(r: Room, d: Id, pair: Id): Room {
    if d == r.host then r.(hostCommit := Some(pair)) else r.(guestCommit := Some(pair))
  }

  /** d's submission is the only change; it settles the room exactly if the other side had submitted the same. */
  ghost predicate CommitTaken(r: Room, d: Id, pair: Id, rooms': map<Id, Room>, id: Id, settles: bool) {
    && Names(r, d) && id in rooms'
    && (settles <==> r.guest.Some? && (if d == r.host then r.guestCommit else r.hostCommit) == Some(pair))
    && rooms'[id].hostCommit == (if d == r.host then Some(pair) else r.hostCommit)
    && rooms'[id].guestCommit == (if d == r.host then r.guestCommit else Some(pair))
    && rooms'[id].host == r.host && rooms'[id].guest == r.guest && rooms'[id].expires == r.expires
  }

  lemma SubmissionTaken(devices: map<Id, Device>, rooms: map<Id, Room>, maxRooms: nat, rosters: map<nat, Roster>,
                        nextSerial: nat, submissions: set<Submission>, id: Id, d: Id, pair: Id)
    requires RoomsOk(devices, rooms, maxRooms) && RostersOk(rooms, rosters, nextSerial) && CommitsOk(rooms, submissions)
    requires id in rooms && Names(rooms[id], d)
    ensures var r := WithCommit(rooms[id], d, pair);
      var submissions' := submissions + {Submission(rooms[id].serial, d, pair)};
      && RoomsOk(devices, rooms[id := r], maxRooms) && RostersOk(rooms[id := r], rosters, nextSerial)
      && CommitsOk(rooms[id := r], submissions')
  {
    var r, submissions' := WithCommit(rooms[id], d, pair), submissions + {Submission(rooms[id].serial, d, pair)};
    assert RoomLive(devices, rooms[id]) && Rostered(rosters, rooms[id]) && Submitted(submissions, rooms[id]);
    assert rosters[r.serial := Roster(r.host, r.guest)] == rosters;
    RoomChanges(devices, rooms, maxRooms, rosters, nextSerial, submissions, id, r, rosters, submissions');
  }

  /** A room both sides of which submitted one identifier makes an agreed pair that fits the durable state. */
  lemma SettledRoomFits(devices: map<Id, Device>, rooms: map<Id, Room>, maxRooms: nat, submissions: set<Submission>,
                        rosters: map<nat, Roster>, nextSerial: nat, id: Id, pair: Id)
    requires RoomsOk(devices, rooms, maxRooms) && RostersOk(rooms, rosters, nextSerial) && CommitsOk(rooms, submissions)
    requires id in rooms && Settled(rooms[id]) == Some(pair) && pair < DIGESTS
    ensures PairFits(devices, PairFor(rooms[id]).value, pair)
    ensures Agreed(submissions, rosters, pair, PairFor(rooms[id]).value)
  {
    var p := PairFor(rooms[id]).value;
    assert RoomLive(devices, rooms[id]) && Rostered(rosters, rooms[id]) && Submitted(submissions, rooms[id]);
    assert rosters[rooms[id].serial] == Roster(p.host, Some(p.guest));
  }

  /** What the file holds of one pair. */
  ghost predicate StoredIn(f: StateFile, id: Id, p: Pair) {
    Entry(id, p) in f.pairs
  }

  lemma ShownPairIsStored(f: StateFile, enrollment: Id, devices: map<Id, Device>, pairs: map<Id, Pair>, id: Id)
    requires Shows(f, enrollment, devices, pairs) && id in pairs
    ensures StoredIn(f, id, pairs[id])
  {
    assert Has(f.pairs, id);
    var i :| 0 <= i < |f.pairs| && f.pairs[i].id == id;
    assert f.pairs[i] == Entry(id, pairs[id]);
  }
}
