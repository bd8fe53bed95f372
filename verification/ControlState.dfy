/**
Durable state of the rendezvous server (internal/control/state.go): devices and
pairs in memory, their list form in the state file, and the checks on loading it.

Identifiers and digests are the numbers their hexadecimal digits spell, so upper
and lower case spell the same one and numeric order is the order of the texts.
*/
module ControlState {
  import opened Common

  type Id = nat

  const MAX_DEVICES := 128
  const MAX_PAIRS := 1024
  const MAX_PAIRS_PER_DEVICE := 32
  const MAX_NAME := 128
  const STATE_VERSION := 1
  /** Below these, 32 and 64 hexadecimal digits respectively. */
  const DEVICE_IDS: nat := 0x1_0000_0000_0000_0000_0000_0000_0000_0000
  const DIGESTS: nat := 0x1_0000_0000_0000_0000_0000_0000_0000_0000_0000_0000_0000_0000_0000_0000_0000_0000

  datatype Device = Device(name: string, tokenHash: Id, revoked: bool)
  datatype Pair = Pair(host: Id, guest: Id)

  /** One element of a list in the state file. */
  datatype Entry<T> = Entry(id: Id, value: T)
  datatype StateFile = StateFile(version: nat, enrollmentHash: Id, devices: seq<Entry<Device>>, pairs: seq<Entry<Pair>>)

  // ----- What holds of devices and pairs in memory -----

  predicate Involves(p: Pair, d: Id) { p.host == d || p.guest == d }

  function PairsOf(pairs: map<Id, Pair>, d: Id): set<Id> {
    set id | id in pairs && Involves(pairs[id], d)
  }

  predicate DeviceIndexed(devices: map<Id, Device>, byTokenHash: map<Id, Id>, id: Id) {
    id in devices && devices[id].tokenHash in byTokenHash && byTokenHash[devices[id].tokenHash] == id
  }

  predicate TokenKnown(devices: map<Id, Device>, byTokenHash: map<Id, Id>, h: Id) {
    h in byTokenHash && byTokenHash[h] in devices && devices[byTokenHash[h]].tokenHash == h
  }

  /** The token index has exactly the devices' hashes. */
  ghost predicate IndexOk(devices: map<Id, Device>, byTokenHash: map<Id, Id>) {
    && (forall id {:trigger DeviceIndexed(devices, byTokenHash, id)} :: id in devices ==>
          DeviceIndexed(devices, byTokenHash, id))
    && (forall h {:trigger TokenKnown(devices, byTokenHash, h)} :: h in byTokenHash ==>
          TokenKnown(devices, byTokenHash, h))
  }

  predicate DeviceFits(device: Device, id: Id) {
    id < DEVICE_IDS && |device.name| <= MAX_NAME && device.tokenHash < DIGESTS
  }

  ghost predicate DevicesOk(devices: map<Id, Device>) {
    && |devices| <= MAX_DEVICES
    && (forall id {:trigger DeviceFits(devices[id], id)} :: id in devices ==> DeviceFits(devices[id], id))
  }

  predicate PairFits(devices: map<Id, Device>, p: Pair, id: Id) {
    id < DIGESTS && p.host != p.guest && p.host in devices && p.guest in devices
  }

  ghost predicate PairsOk(devices: map<Id, Device>, pairs: map<Id, Pair>) {
    && |pairs| <= MAX_PAIRS
    && (forall id {:trigger PairFits(devices, pairs[id], id)} :: id in pairs ==> PairFits(devices, pairs[id], id))
    && (forall d {:trigger PairsOf(pairs, d)} :: d in devices ==> |PairsOf(pairs, d)| <= MAX_PAIRS_PER_DEVICE)
  }

  // ----- The file as a projection of memory -----

  ghost predicate Has<T>(es: seq<Entry<T>>, id: Id) {
    exists i :: 0 <= i < |es| && es[i].id == id
  }

  /** The list holds exactly the entries of the map. */
  ghost predicate Fills<T>(es: seq<Entry<T>>, m: map<Id, T>) {
    && (forall i :: 0 <= i < |es| ==> es[i].id in m && m[es[i].id] == es[i].value)
    && (forall id {:trigger Has(es, id)} :: id in m ==> Has(es, id))
  }

  ghost predicate Ascending<T>(es: seq<Entry<T>>) {
    forall i, j :: 0 <= i < j < |es| ==> es[i].id < es[j].id
  }

  /** The file lists exactly these devices and pairs, by ascending identifier. */
  ghost predicate Shows(f: StateFile, enrollment: Id, devices: map<Id, Device>, pairs: map<Id, Pair>) {
    && f.version == STATE_VERSION && f.enrollmentHash == enrollment
    && Ascending(f.devices) && Fills(f.devices, devices)
    && Ascending(f.pairs) && Fills(f.pairs, pairs)
  }

  method Least(s: set<Id>) returns (m: Id)
    requires s != {}
    ensures m in s && forall k :: k in s ==> m <= k
  {
    m :| m in s;
    var rest := s - {m};
    while rest != {}
      invariant m in s && rest <= s && forall k :: k in s ==> k in rest || m <= k
      decreases |rest|
    {
      var k :| k in rest;
      if k < m { m := k; }
      rest := rest - {k};
    }
  }

  /** es lists the keys of m that are not left to do, all smaller than those that are. */
  ghost predicate ListedSoFar<T>(es: seq<Entry<T>>, rest: set<Id>, m: map<Id, T>) {
    && rest <= m.Keys && Ascending(es)
    && (forall i :: 0 <= i < |es| ==> es[i].id in m && m[es[i].id] == es[i].value)
    && (forall i, k :: 0 <= i < |es| && k in rest ==> es[i].id < k)
    && (forall k :: k in m ==> k in rest || Has(es, k))
  }

  lemma ListNext<T>(es: seq<Entry<T>>, rest: set<Id>, m: map<Id, T>, least: Id)
    requires ListedSoFar(es, rest, m) && least in rest && forall k :: k in rest ==> least <= k
    ensures ListedSoFar(es + [Entry(least, m[least])], rest - {least}, m)
  {
    var e := Entry(least, m[least]);
    HasMore(es, e);
    forall k | k in m ensures k in rest - {least} || Has(es + [e], k) {
      assert k in rest || Has(es, k);
    }
  }

  /** The sorted list of a map's entries: repeatedly the one with the least key of those left. */
  method ListOf<T>(m: map<Id, T>) returns (es: seq<Entry<T>>)
    ensures Ascending(es) && Fills(es, m) && |es| == |m|
  {
    es := [];
    var rest := m.Keys;
    while rest != {}
      invariant ListedSoFar(es, rest, m) && |es| + |rest| == |m.Keys|
      decreases |rest|
    {
      var least := Least(rest);
      ListNext(es, rest, m, least);
      es := es + [Entry(least, m[least])];
      rest := rest - {least};
    }
  }

  lemma HasMore<T>(es: seq<Entry<T>>, e: Entry<T>)
    ensures Has(es + [e], e.id) && forall k :: Has(es, k) ==> Has(es + [e], k)
  {
    assert (es + [e])[|es|] == e;
    forall k | Has(es, k) ensures Has(es + [e], k) {
      var i :| 0 <= i < |es| && es[i].id == k;
      assert (es + [e])[i].id == k;
    }
  }

  /** The lists saveStateLocked builds. */
  method Snapshot(enrollment: Id, devices: map<Id, Device>, pairs: map<Id, Pair>) returns (f: StateFile)
    ensures Shows(f, enrollment, devices, pairs) && |f.devices| == |devices| && |f.pairs| == |pairs|
  {
    var diskDevices := ListOf(devices);
    var diskPairs := ListOf(pairs);
    f := StateFile(STATE_VERSION, enrollment, diskDevices, diskPairs);
  }

  lemma SameLast<T>(es: seq<Entry<T>>, es': seq<Entry<T>>, m: map<Id, T>)
    requires Ascending(es) && Ascending(es') && Fills(es, m) && Fills(es', m) && es != []
    ensures es' != [] && es[|es| - 1] == es'[|es'| - 1]
  {
    var n := |es| - 1;
    assert Has(es', es[n].id);
    var n' := |es'| - 1;
    assert Has(es, es'[n'].id);
  }

  lemma {:induction false} ListIsUnique<T>(es: seq<Entry<T>>, es': seq<Entry<T>>, m: map<Id, T>)
    requires Ascending(es) && Ascending(es') && Fills(es, m) && Fills(es', m)
    ensures es == es'
    decreases |es|
  {
    if es == [] {
      if es' != [] { SameLast(es', es, m); }
    } else {
      SameLast(es, es', m);
      DropLast(es, m);
      DropLast(es', m);
      ListIsUnique(es[..|es| - 1], es'[..|es'| - 1], m - {es[|es| - 1].id});
      assert es == es[..|es| - 1] + [es[|es| - 1]] && es' == es'[..|es'| - 1] + [es'[|es'| - 1]];
    }
  }

  lemma DropLast<T>(es: seq<Entry<T>>, m: map<Id, T>)
    requires es != [] && Ascending(es) && Fills(es, m)
    ensures Ascending(es[..|es| - 1]) && Fills(es[..|es| - 1], m - {es[|es| - 1].id})
  {
    var n := |es| - 1;
    forall id | id in m - {es[n].id} ensures Has(es[..n], id) {
      assert Has(es, id);
      var i :| 0 <= i < |es| && es[i].id == id;
      assert es[..n][i].id == id;
    }
  }

  /** Memory determines the file. */
  lemma FileIsProjection(f: StateFile, f': StateFile, enrollment: Id, devices: map<Id, Device>, pairs: map<Id, Pair>)
    requires Shows(f, enrollment, devices, pairs) && Shows(f', enrollment, devices, pairs)
    ensures f == f'
  {
    ListIsUnique(f.devices, f'.devices, devices);
    ListIsUnique(f.pairs, f'.pairs, pairs);
  }

  // ----- Loading -----

  /** How many entries name device d. */
  function Mentions(ps: seq<Entry<Pair>>, d: Id): nat {
    if ps == [] then 0
    else Mentions(ps[..|ps| - 1], d) + (if Involves(ps[|ps| - 1].value, d) then 1 else 0)
  }

  ghost predicate DeviceEntriesOk(ds: seq<Entry<Device>>) {
    && (forall i :: 0 <= i < |ds| ==>
      ds[i].id < DEVICE_IDS && ds[i].value.tokenHash < DIGESTS && |ds[i].value.name| <= MAX_NAME)
    && (forall i, j :: 0 <= i < j < |ds| ==> ds[i].id != ds[j].id && ds[i].value.tokenHash != ds[j].value.tokenHash)
  }

  ghost predicate PairEntriesOk(ds: seq<Entry<Device>>, ps: seq<Entry<Pair>>) {
    && (forall i :: 0 <= i < |ps| ==> ps[i].id < DIGESTS && ps[i].value.host != ps[i].value.guest)
    && (forall i :: 0 <= i < |ps| ==> Has(ds, ps[i].value.host) && Has(ds, ps[i].value.guest))
    && (forall i, j :: 0 <= i < j < |ps| ==> ps[i].id != ps[j].id)
    && (forall d :: Mentions(ps, d) <= MAX_PAIRS_PER_DEVICE)
  }

  /** Everything loadState checks; `configured` is the digest of a configured enrollment token. */
  ghost predicate Loadable(f: StateFile, configured: Option<Id>) {
    && f.version == STATE_VERSION && f.enrollmentHash < DIGESTS
    && (configured.Some? ==> configured.value == f.enrollmentHash)
    && |f.devices| <= MAX_DEVICES && |f.pairs| <= MAX_PAIRS
    && DeviceEntriesOk(f.devices) && PairEntriesOk(f.devices, f.pairs)
  }

  method LoadDevices(ds: seq<Entry<Device>>) returns (ok: bool, devices: map<Id, Device>, byTokenHash: map<Id, Id>)
    ensures ok <==> DeviceEntriesOk(ds)
    ensures ok ==> Fills(ds, devices) && IndexOk(devices, byTokenHash)
  {
    ok, devices, byTokenHash := true, map[], map[];
    for i := 0 to |ds|
      invariant ok && DeviceEntriesOk(ds[..i]) && Fills(ds[..i], devices) && IndexOk(devices, byTokenHash)
    {
      var entry := ds[i];
      if entry.id >= DEVICE_IDS || entry.value.tokenHash >= DIGESTS || |entry.value.name| > MAX_NAME {
        return false, devices, byTokenHash;
      }
      if entry.id in devices {
        assert Has(ds[..i], entry.id);
        return false, devices, byTokenHash;
      }
      if entry.value.tokenHash in byTokenHash {
        assert TokenKnown(devices, byTokenHash, entry.value.tokenHash);
        assert Has(ds[..i], byTokenHash[entry.value.tokenHash]);
        return false, devices, byTokenHash;
      }
      FillsMore(ds[..i], devices, entry);
      EntriesMore(ds[..i], devices, byTokenHash, entry);
      assert ds[..i] + [entry] == ds[..i + 1];
      devices := devices[entry.id := entry.value];
      byTokenHash := byTokenHash[entry.value.tokenHash := entry.id];
    }
    assert ds[..|ds|] == ds;
  }

  lemma FillsMore<T>(es: seq<Entry<T>>, m: map<Id, T>, e: Entry<T>)
    requires Fills(es, m) && e.id !in m
    ensures Fills(es + [e], m[e.id := e.value])
  {
    HasMore(es, e);
  }

  lemma EntriesMore(ds: seq<Entry<Device>>, devices: map<Id, Device>, byTokenHash: map<Id, Id>, e: Entry<Device>)
    requires DeviceEntriesOk(ds) && Fills(ds, devices) && IndexOk(devices, byTokenHash)
    requires e.id < DEVICE_IDS && e.value.tokenHash < DIGESTS && |e.value.name| <= MAX_NAME
    requires e.id !in devices && e.value.tokenHash !in byTokenHash
    ensures DeviceEntriesOk(ds + [e])
    ensures IndexOk(devices[e.id := e.value], byTokenHash[e.value.tokenHash := e.id])
  {
    IndexWithOne(devices, byTokenHash, e.id, e.value);
    forall i | 0 <= i < |ds| ensures ds[i].id != e.id && ds[i].value.tokenHash != e.value.tokenHash {
      assert DeviceIndexed(devices, byTokenHash, ds[i].id);
    }
  }

  lemma IndexWithOne(devices: map<Id, Device>, index: map<Id, Id>, id: Id, device: Device)
    requires IndexOk(devices, index) && id !in devices && device.tokenHash !in index
    ensures IndexOk(devices[id := device], index[device.tokenHash := id])
  {
    var devices', index' := devices[id := device], index[device.tokenHash := id];
    forall x | x in devices' ensures DeviceIndexed(devices', index', x) {
      assert x != id ==> DeviceIndexed(devices, index, x);
    }
    forall h | h in index' ensures TokenKnown(devices', index', h) {
      assert h != device.tokenHash ==> TokenKnown(devices, index, h);
    }
  }

  lemma {:induction false} MentionsGrow(ps: seq<Entry<Pair>>, i: nat, d: Id)
    requires i <= |ps|
    ensures Mentions(ps[..i], d) <= Mentions(ps, d)
    decreases |ps|
  {
    if i < |ps| {
      MentionsGrow(ps[..|ps| - 1], i, d);
      assert ps[..|ps| - 1][..i] == ps[..i];
    } else {
      assert ps[..i] == ps;
    }
  }

  function CountAt(counts: map<Id, nat>, d: Id): nat {
    if d in counts then counts[d] else 0
  }

  ghost predicate PairsSoFar(ds: seq<Entry<Device>>, ps: seq<Entry<Pair>>, pairs: map<Id, Pair>, counts: map<Id, nat>) {
    PairEntriesOk(ds, ps) && Fills(ps, pairs) && forall d :: CountAt(counts, d) == Mentions(ps, d)
  }

  /** The checks on one pair entry, after those before it. */
  method CheckPair(ghost ds: seq<Entry<Device>>, devices: map<Id, Device>, ghost ps: seq<Entry<Pair>>, e: Entry<Pair>,
                   pairs: map<Id, Pair>, counts: map<Id, nat>) returns (ok: bool)
    requires Fills(ds, devices) && PairsSoFar(ds, ps, pairs, counts)
    ensures ok <==> PairEntriesOk(ds, ps + [e])
    ensures ok ==> e.id !in pairs
  {
    var es := ps + [e];
    assert es[|ps|] == e;
    MentionOne(es, |ps|);
    assert es[..|ps|] == ps && es[..|ps| + 1] == es;
    if e.id >= DIGESTS || e.value.host == e.value.guest { return false; }
    if e.value.host !in devices || e.value.guest !in devices { return false; }
    if e.id in pairs {
      assert Has(ps, e.id);
      return false;
    }
    if CountAt(counts, e.value.host) >= MAX_PAIRS_PER_DEVICE || CountAt(counts, e.value.guest) >= MAX_PAIRS_PER_DEVICE {
      return false;
    }
    PairEntriesMore(ds, es, |ps|);
    return true;
  }

  function CountPair(counts: map<Id, nat>, p: Pair): map<Id, nat> {
    var hosted := counts[p.host := CountAt(counts, p.host) + 1];
    hosted[p.guest := CountAt(hosted, p.guest) + 1]
  }

  lemma PairTaken(ds: seq<Entry<Device>>, ps: seq<Entry<Pair>>, e: Entry<Pair>, pairs: map<Id, Pair>,
                  counts: map<Id, nat>)
    requires PairsSoFar(ds, ps, pairs, counts) && PairEntriesOk(ds, ps + [e]) && e.id !in pairs
    ensures PairsSoFar(ds, ps + [e], pairs[e.id := e.value], CountPair(counts, e.value))
  {
    var es := ps + [e];
    assert es[|ps|] == e && es[..|ps|] == ps && es[..|ps| + 1] == es;
    FillsMore(ps, pairs, e);
    MentionOne(es, |ps|);
    forall d ensures CountAt(CountPair(counts, e.value), d) == Mentions(es, d) {
      assert CountAt(counts, d) == Mentions(ps, d);
    }
  }

  method LoadPairs(ds: seq<Entry<Device>>, devices: map<Id, Device>, ps: seq<Entry<Pair>>)
    returns (ok: bool, pairs: map<Id, Pair>)
    requires Fills(ds, devices)
    ensures ok <==> PairEntriesOk(ds, ps)
    ensures ok ==> Fills(ps, pairs)
  {
    pairs := map[];
    var counts: map<Id, nat> := map[];
    for i := 0 to |ps|
      invariant PairsSoFar(ds, ps[..i], pairs, counts)
    {
      var e := ps[i];
      assert ps[..i] + [e] == ps[..i + 1];
      ok := CheckPair(ds, devices, ps[..i], e, pairs, counts);
      if !ok {
        PairPrefixOk(ds, ps, i + 1);
        return false, pairs;
      }
      PairTaken(ds, ps[..i], e, pairs, counts);
      pairs := pairs[e.id := e.value];
      counts := CountPair(counts, e.value);
    }
    assert ps[..|ps|] == ps;
    ok := true;
  }

  lemma PairPrefixOk(ds: seq<Entry<Device>>, ps: seq<Entry<Pair>>, i: nat)
    requires i <= |ps|
    ensures PairEntriesOk(ds, ps) ==> PairEntriesOk(ds, ps[..i])
  {
    if PairEntriesOk(ds, ps) {
      forall d ensures Mentions(ps[..i], d) <= MAX_PAIRS_PER_DEVICE { MentionsGrow(ps, i, d); }
    }
  }

  lemma PairEntriesMore(ds: seq<Entry<Device>>, ps: seq<Entry<Pair>>, i: nat)
    requires i < |ps| && PairEntriesOk(ds, ps[..i])
    requires ps[i].id < DIGESTS && ps[i].value.host != ps[i].value.guest
    requires Has(ds, ps[i].value.host) && Has(ds, ps[i].value.guest)
    requires forall k :: 0 <= k < i ==> ps[k].id != ps[i].id
    requires Mentions(ps[..i], ps[i].value.host) < MAX_PAIRS_PER_DEVICE
    requires Mentions(ps[..i], ps[i].value.guest) < MAX_PAIRS_PER_DEVICE
    ensures PairEntriesOk(ds, ps[..i + 1])
  {
    MentionOne(ps, i);
    assert forall k :: 0 <= k < i ==> ps[..i][k] == ps[..i + 1][k];
  }

  lemma MentionOne(ps: seq<Entry<Pair>>, i: nat)
    requires i < |ps|
    ensures forall d :: Mentions(ps[..i + 1], d) == Mentions(ps[..i], d) + (if Involves(ps[i].value, d) then 1 else 0)
  {
    assert ps[..i + 1][..i] == ps[..i];
  }

  method Load(f: StateFile, configured: Option<Id>)
    returns (ok: bool, devices: map<Id, Device>, byTokenHash: map<Id, Id>, pairs: map<Id, Pair>)
    ensures ok <==> Loadable(f, configured)
    ensures ok ==> Fills(f.devices, devices) && IndexOk(devices, byTokenHash) && Fills(f.pairs, pairs)
  {
    devices, byTokenHash, pairs := map[], map[], map[];
    if f.version != STATE_VERSION || f.enrollmentHash >= DIGESTS { return false, devices, byTokenHash, pairs; }
    if configured.Some? && configured.value != f.enrollmentHash { return false, devices, byTokenHash, pairs; }
    if |f.devices| > MAX_DEVICES || |f.pairs| > MAX_PAIRS { return false, devices, byTokenHash, pairs; }
    ok, devices, byTokenHash := LoadDevices(f.devices);
    if ok {
      ok, pairs := LoadPairs(f.devices, devices, f.pairs);
    }
  }

  // ----- Saving and loading are inverse -----

  lemma FilledAlike<T>(es: seq<Entry<T>>, m: map<Id, T>, m': map<Id, T>)
    requires Fills(es, m) && Fills(es, m')
    ensures m == m'
  {
    forall id | id in m ensures id in m' && m'[id] == m[id] {
      assert Has(es, id);
    }
    forall id | id in m' ensures id in m {
      assert Has(es, id);
    }
  }

  lemma IndexedAlike(devices: map<Id, Device>, index: map<Id, Id>, index': map<Id, Id>)
    requires IndexOk(devices, index) && IndexOk(devices, index')
    ensures index == index'
  {
    forall h | h in index ensures h in index' && index'[h] == index[h] {
      assert TokenKnown(devices, index, h) && DeviceIndexed(devices, index', index[h]);
    }
    forall h | h in index' ensures h in index {
      assert TokenKnown(devices, index', h) && DeviceIndexed(devices, index, index'[h]);
    }
  }

  lemma EmptyFills<T>(m: map<Id, T>)
    requires Fills([], m)
    ensures m == map[]
  {
    assert forall id :: id in m ==> Has<T>([], id);
  }

  lemma PairsWithout(pairs: map<Id, Pair>, id: Id, d: Id)
    requires id in pairs
    ensures |PairsOf(pairs, d)| == |PairsOf(pairs - {id}, d)| + (if Involves(pairs[id], d) then 1 else 0)
  {
    var fewer := PairsOf(pairs - {id}, d);
    assert id !in fewer;
    if Involves(pairs[id], d) {
      assert PairsOf(pairs, d) == fewer + {id};
    } else {
      assert PairsOf(pairs, d) == fewer;
    }
  }

  lemma {:induction false} ListLength<T>(es: seq<Entry<T>>, m: map<Id, T>)
    requires Ascending(es) && Fills(es, m)
    ensures |es| == |m|
    decreases |es|
  {
    if es == [] {
      EmptyFills(m);
    } else {
      var last := es[|es| - 1].id;
      DropLast(es, m);
      ListLength(es[..|es| - 1], m - {last});
      assert m.Keys == (m - {last}).Keys + {last};
    }
  }

  lemma {:induction false} MentionsIsPairs(ps: seq<Entry<Pair>>, pairs: map<Id, Pair>, d: Id)
    requires Ascending(ps) && Fills(ps, pairs)
    ensures Mentions(ps, d) == |PairsOf(pairs, d)|
    decreases |ps|
  {
    if ps == [] {
      EmptyFills(pairs);
    } else {
      var last := ps[|ps| - 1].id;
      DropLast(ps, pairs);
      MentionsIsPairs(ps[..|ps| - 1], pairs - {last}, d);
      PairsWithout(pairs, last, d);
    }
  }

  lemma DeviceListOk(ds: seq<Entry<Device>>, devices: map<Id, Device>, byTokenHash: map<Id, Id>)
    requires DevicesOk(devices) && IndexOk(devices, byTokenHash) && Ascending(ds) && Fills(ds, devices)
    ensures DeviceEntriesOk(ds)
  {
    forall i | 0 <= i < |ds| ensures DeviceFits(ds[i].value, ds[i].id) {
      assert DeviceFits(devices[ds[i].id], ds[i].id);
    }
    forall i, j | 0 <= i < j < |ds| ensures ds[i].id != ds[j].id && ds[i].value.tokenHash != ds[j].value.tokenHash {
      assert DeviceIndexed(devices, byTokenHash, ds[i].id) && DeviceIndexed(devices, byTokenHash, ds[j].id);
    }
  }

  lemma StrangerHasNoPairs(devices: map<Id, Device>, pairs: map<Id, Pair>, d: Id)
    requires PairsOk(devices, pairs) && d !in devices
    ensures PairsOf(pairs, d) == {}
  {
    forall id | id in pairs ensures !Involves(pairs[id], d) { assert PairFits(devices, pairs[id], id); }
  }

  lemma PairListOk(ds: seq<Entry<Device>>, devices: map<Id, Device>, ps: seq<Entry<Pair>>, pairs: map<Id, Pair>)
    requires Fills(ds, devices) && PairsOk(devices, pairs) && Ascending(ps) && Fills(ps, pairs)
    ensures PairEntriesOk(ds, ps)
  {
    forall d ensures Mentions(ps, d) <= MAX_PAIRS_PER_DEVICE {
      MentionsIsPairs(ps, pairs, d);
      if d !in devices { StrangerHasNoPairs(devices, pairs, d); }
    }
    forall i | 0 <= i < |ps|
      ensures PairFits(devices, ps[i].value, ps[i].id) && Has(ds, ps[i].value.host) && Has(ds, ps[i].value.guest)
    {
      assert PairFits(devices, pairs[ps[i].id], ps[i].id);
    }
  }

  /** Whatever memory holds, the file made from it passes every check. */
  lemma SnapshotIsLoadable(f: StateFile, enrollment: Id, configured: Option<Id>,
                           devices: map<Id, Device>, byTokenHash: map<Id, Id>, pairs: map<Id, Pair>)
    requires DevicesOk(devices) && IndexOk(devices, byTokenHash) && PairsOk(devices, pairs) && enrollment < DIGESTS
    requires Shows(f, enrollment, devices, pairs) && (configured.None? || configured == Some(enrollment))
    ensures Loadable(f, configured)
  {
    ListLength(f.devices, devices);
    ListLength(f.pairs, pairs);
    DeviceListOk(f.devices, devices, byTokenHash);
    PairListOk(f.devices, devices, f.pairs, pairs);
  }

  /** What a successful load of it brings back is what was saved. */
  lemma LoadRestores(f: StateFile, enrollment: Id, devices: map<Id, Device>, byTokenHash: map<Id, Id>,
                     pairs: map<Id, Pair>, devices': map<Id, Device>, byTokenHash': map<Id, Id>, pairs': map<Id, Pair>)
    requires IndexOk(devices, byTokenHash) && Shows(f, enrollment, devices, pairs)
    requires Fills(f.devices, devices') && IndexOk(devices', byTokenHash') && Fills(f.pairs, pairs')
    ensures devices' == devices && byTokenHash' == byTokenHash && pairs' == pairs
  {
    FilledAlike(f.devices, devices, devices');
    FilledAlike(f.pairs, pairs, pairs');
    IndexedAlike(devices, byTokenHash, byTokenHash');
  }
}
