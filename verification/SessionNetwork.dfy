/**
Any number of sessions over a network that may drop, duplicate, reorder and
reflect, and may send bodies of its own making, but holds no key of a session and
cannot predict a challenge.
*/
module SessionNetwork {
  import opened Common
  import opened ReplayWindow
  import opened SecureSession

  datatype Sealing = Sealing(sender: nat, data: Bytes)
  datatype Opening = Opening(receiver: nat, key: Key, counter: nat, data: Bytes)

  datatype World = World(
    sessions: map<nat, State>,
    /** Which session drew each challenge. */
    owner: map<Challenge, nat>,
    /** Every body a session has handed to the network. */
    emitted: set<Sealed>,
    sealings: map<(Key, nat), Sealing>,
    openings: seq<Opening>)

  datatype Action =
    | Start(id: nat, role: Role, root: Root, digest: Digest)
    | Greet(id: nat, challenge: Challenge, nonce: nat)
    | Hear(id: nat, wire: Wire)
    | Send(id: nat, data: Bytes)
    | Receive(id: nat, wire: Wire)
    | Stop(id: nat)

  const EMPTY := World(map[], map[], {}, map[], [])

  /** Headers are free; a body was seen on the network or made with a key of the network's own. */
  predicate Deliverable(w: World, wire: Wire) {
    wire.Wire? ==> wire.body in w.emitted || wire.body.key.ForeignKey?
  }

  predicate Enabled(w: World, a: Action) {
    match a
    case Start(id, _, _, _) => id !in w.sessions
    case Greet(id, challenge, _) => id in w.sessions && challenge !in w.owner
    case Hear(id, wire) => id in w.sessions && Deliverable(w, wire)
    case Send(id, _) => id in w.sessions
    case Receive(id, wire) => id in w.sessions && Deliverable(w, wire)
    case Stop(id) => id in w.sessions
  }

  function Step(w: World, a: Action): World
    requires Enabled(w, a)
  {
    match a
    case Start(id, role, root, digest) =>
      w.(sessions := w.sessions[id := NewState(role, root, digest)])
    case Greet(id, challenge, nonce) =>
      var (s, r) := HelloStep(w.sessions[id], challenge, nonce);
      var owner := if s != w.sessions[id] then w.owner[challenge := id] else w.owner;
      var w' := w.(sessions := w.sessions[id := s], owner := owner);
      if r.Ok? && r.value.Wire? then w'.(emitted := w.emitted + {r.value.body}) else w'
    case Hear(id, wire) =>
      w.(sessions := w.sessions[id := AcceptStep(w.sessions[id], wire).0])
    case Send(id, data) =>
      var s := w.sessions[id];
      var (s', r) := SealStep(s, data);
      if r.Ok? then
        w.(sessions := w.sessions[id := s'], emitted := w.emitted + {r.value.body},
           sealings := w.sealings[(s.tx, s.nextSend) := Sealing(id, data)])
      else w
    case Receive(id, wire) =>
      var s := w.sessions[id];
      var (s', r) := OpenStep(s, wire);
      if r.Ok? then
        w.(sessions := w.sessions[id := s'],
           openings := w.openings + [Opening(id, s.rx, wire.header.counter, r.value)])
      else w
    case Stop(id) =>
      w.(sessions := w.sessions[id := CloseStep(w.sessions[id])])
  }

  function ChallengeOf(k: Key, r: Role): Challenge
    requires k.TrafficKey?
  {
    if r.Host? then k.hostChallenge else k.guestChallenge
  }

  // ----- The invariant -----

  /** Challenge c was drawn by session id, which has the given role. */
  predicate Drew(w: World, c: Challenge, id: nat, role: Role) {
    c in w.owner && w.owner[c] == id && id in w.sessions && w.sessions[id].role == role
  }

  predicate DrawnBy(w: World, c: Challenge, role: Role) {
    c in w.owner && Drew(w, c, w.owner[c], role)
  }

  /** The hello kept for repetition is that of the session's own challenge. */
  predicate GoodHello(s: State)
    requires s.hello.Some?
  {
    && s.challenge != 0 && s.hello.value.Wire? && s.hello.value.header.HelloHeader?
    && s.hello.value == HelloWire(s, s.challenge, s.hello.value.header.nonce)
  }

  predicate SessionOk(w: World, id: nat) {
    id in w.sessions &&
    var s := w.sessions[id];
    && (s.closed ==> !s.ready || s.tx == Wiped) && (!s.ready ==> s.accepted == {} && s.nextSend == 0)
    && (!s.closed ==>
      && s.base.BaseKey? && s.base.digest == s.digest && s.helloKey == HelloKey(s.base.root, s.digest)
      && (s.hello.Some? ==> GoodHello(s))
      && (s.ready ==> s.hello.Some?)
      && (s.hello.Some? ==> Drew(w, s.challenge, id, s.role) && s.hello.value.Wire? && s.hello.value.body in w.emitted)
      && (s.ready ==> DrawnBy(w, s.peer, s.role.Other()))
      && (s.ready ==> s.tx == TrafficKeyOf(s, s.role) && s.rx == TrafficKeyOf(s, s.role.Other())))
  }

  predicate SealingOk(w: World, k: Key, n: nat) {
    (k, n) in w.sealings && k.TrafficKey? &&
    var id := w.sealings[(k, n)].sender;
    && Drew(w, ChallengeOf(k, k.sender), id, k.sender)
    && (!w.sessions[id].closed ==> w.sessions[id].ready && w.sessions[id].tx == k && n < w.sessions[id].nextSend)
  }

  /** The one body that is ever sealed under a traffic key and number. */
  function FrameBody(k: Key, n: nat, data: Bytes): Sealed
    requires k.TrafficKey? && k.base.BaseKey?
  {
    var header := FrameHeader(true, SESSION_VERSION, RoleByte(k.sender), n);
    Sealed(k, CounterNonce(k, n), header, k.base.digest, DataPlain(data))
  }

  predicate BodyOk(w: World, b: Sealed) {
    || (b.key.HelloKey? && b.plain.HelloPlain? && b.plain.challenge in w.owner
        && exists role :: RoleByte(role) == b.plain.role && DrawnBy(w, b.plain.challenge, role))
    || (b.key.TrafficKey? && b.key.base.BaseKey? && b.nonce.CounterNonce? && (b.key, b.nonce.counter) in w.sealings
        && b == FrameBody(b.key, b.nonce.counter, w.sealings[(b.key, b.nonce.counter)].data)
        && |b.plain.data| <= MAX_PAYLOAD)
  }

  predicate OpeningOk(w: World, o: Opening) {
    && o.key.TrafficKey?
    && (o.key, o.counter) in w.sealings && w.sealings[(o.key, o.counter)].data == o.data
    && Drew(w, ChallengeOf(o.key, o.key.sender.Other()), o.receiver, o.key.sender.Other())
    && (!w.sessions[o.receiver].closed ==>
      w.sessions[o.receiver].ready && w.sessions[o.receiver].rx == o.key
        && o.counter in w.sessions[o.receiver].accepted)
  }

  /** What a session has accepted, it has opened. */
  ghost predicate AcceptedOk(w: World, id: nat)
    requires id in w.sessions
  {
    var s := w.sessions[id];
    !s.closed ==> forall n :: n in s.accepted ==>
      exists i :: 0 <= i < |w.openings| && OpenedAs(w.openings[i], id, s.rx, n)
  }

  predicate OpenedAs(o: Opening, id: nat, key: Key, n: nat) {
    o.receiver == id && o.key == key && o.counter == n
  }

  ghost predicate AllAccepted(w: World) {
    forall id :: id in w.sessions ==> AcceptedOk(w, id)
  }

  ghost predicate Inv(w: World) {
    && (forall id :: id in w.sessions ==> SessionOk(w, id))
    && (forall c :: c in w.owner ==> w.owner[c] in w.sessions)
    && (forall k, n :: (k, n) in w.sealings ==> SealingOk(w, k, n))
    && (forall b :: b in w.emitted ==> BodyOk(w, b))
    && (forall i :: 0 <= i < |w.openings| ==> OpeningOk(w, w.openings[i]))
    && (forall i, j :: 0 <= i < j < |w.openings| ==>
      w.openings[i].key != w.openings[j].key || w.openings[i].counter != w.openings[j].counter)
  }

  /** Roles never change and challenges are never redrawn. */
  ghost predicate Grows(w: World, w': World) {
    && (forall id :: id in w.sessions ==> id in w'.sessions && w'.sessions[id].role == w.sessions[id].role)
    && (forall c :: c in w.owner ==> c in w'.owner && w'.owner[c] == w.owner[c])
    && w.emitted <= w'.emitted
  }

  lemma GrowsKeepsBody(w: World, w': World, b: Sealed)
    requires Grows(w, w') && BodyOk(w, b)
    requires forall p :: p in w.sealings ==> p in w'.sealings && w'.sealings[p] == w.sealings[p]
    ensures BodyOk(w', b)
  {
    if b.key.HelloKey? && b.plain.HelloPlain? {
      var role :| RoleByte(role) == b.plain.role && DrawnBy(w, b.plain.challenge, role);
      assert DrawnBy(w', b.plain.challenge, role);
    }
  }

  /** Session id moves on without losing what was sealed or opened under its keys. */
  predicate Later(w: World, w': World, id: nat) {
    && id in w'.sessions && w'.sessions == w.sessions[id := w'.sessions[id]]
    && (id in w.sessions ==>
          var s, s' := w.sessions[id], w'.sessions[id];
          && s'.role == s.role && (!s'.closed ==> !s.closed)
          && (s'.closed || !s.ready || (s' == s.(accepted := s'.accepted) && s.accepted <= s'.accepted)))
  }

  /** A step of one session leaves alone what the invariant says of everything else. */
  lemma OthersStay(w: World, w': World, id: nat)
    requires Inv(w) && Later(w, w', id) && Grows(w, w')
    requires w'.sealings == w.sealings && w'.openings == w.openings
    ensures forall x :: x in w'.sessions && x != id ==> SessionOk(w', x)
    ensures forall b :: b in w.emitted ==> BodyOk(w', b)
    ensures forall k, n :: (k, n) in w'.sealings ==> SealingOk(w', k, n)
    ensures forall i :: 0 <= i < |w'.openings| ==> OpeningOk(w', w'.openings[i])
  {
    forall b | b in w.emitted ensures BodyOk(w', b) { GrowsKeepsBody(w, w', b); }
    hide BodyOk;
    forall x | x in w'.sessions && x != id ensures SessionOk(w', x) { assert SessionOk(w, x); }
    forall k, n | (k, n) in w'.sealings ensures SealingOk(w', k, n) { assert SealingOk(w, k, n); }
    forall i | 0 <= i < |w'.openings| ensures OpeningOk(w', w'.openings[i]) { assert OpeningOk(w, w.openings[i]); }
  }

  /** A step that only replaces one session by a later state of itself. */
  lemma OneSessionMoves(w: World, w': World, id: nat)
    requires Inv(w) && Later(w, w', id) && SessionOk(w', id)
    requires w'.owner == w.owner && w'.emitted == w.emitted && w'.sealings == w.sealings && w'.openings == w.openings
    ensures Inv(w')
  {
    hide BodyOk, SealingOk, OpeningOk;
    OthersStay(w, w', id);
  }

  lemma StartKeeps(w: World, a: Action)
    requires Inv(w) && a.Start? && Enabled(w, a)
    ensures Inv(Step(w, a))
  {
    OneSessionMoves(w, Step(w, a), a.id);
  }

  /** The session that greets has drawn its challenge. */
  lemma GreetIsOk(w: World, a: Action)
    requires Inv(w) && a.Greet? && Enabled(w, a) && Step(w, a).sessions[a.id] != w.sessions[a.id]
    ensures var w' := Step(w, a); SessionOk(w', a.id) && Later(w, w', a.id) && Grows(w, w')
  {
    hide SealingOk, OpeningOk, BodyOk;
    assert SessionOk(w, a.id);
  }

  /** Its hello says which. */
  lemma GreetBodyOk(w: World, a: Action)
    requires a.Greet? && Enabled(w, a) && Step(w, a).sessions[a.id] != w.sessions[a.id] && SessionOk(w, a.id)
    ensures forall b :: b in Step(w, a).emitted - w.emitted ==> BodyOk(Step(w, a), b)
  {
    assert DrawnBy(Step(w, a), a.challenge, w.sessions[a.id].role);
  }

  lemma GreetKeeps(w: World, a: Action)
    requires Inv(w) && a.Greet? && Enabled(w, a)
    ensures Inv(Step(w, a))
  {
    hide BodyOk, SealingOk, OpeningOk;
    var w' := Step(w, a);
    if w.sessions[a.id] == w'.sessions[a.id] {
      assert SessionOk(w, a.id) && w'.sessions == w.sessions && w'.emitted == w.emitted;
      assert w' == w;
    } else {
      GreetIsOk(w, a);
      GreetBodyOk(w, a);
      OthersStay(w, w', a.id);
    }
  }

  lemma HearKeeps(w: World, a: Action)
    requires Inv(w) && a.Hear? && Enabled(w, a)
    ensures Inv(Step(w, a))
  {
    var w' := Step(w, a);
    var s, s' := w.sessions[a.id], w'.sessions[a.id];
    assert SessionOk(w, a.id);
    if s == s' {
      assert w'.sessions == w.sessions;
      assert w' == w;
      return;
    }
    assert BodyOk(w, a.wire.body);
    assert DrawnBy(w', s'.peer, s.role.Other());
    OneSessionMoves(w, w', a.id);
  }

  lemma StopKeeps(w: World, a: Action)
    requires Inv(w) && a.Stop? && Enabled(w, a)
    ensures Inv(Step(w, a))
  {
    assert SessionOk(w, a.id);
    OneSessionMoves(w, Step(w, a), a.id);
  }

  /** No (key, nonce) pair is ever used twice. */
  lemma SealIsFresh(w: World, id: nat)
    requires Inv(w) && id in w.sessions && !w.sessions[id].closed && w.sessions[id].ready
    ensures (w.sessions[id].tx, w.sessions[id].nextSend) !in w.sealings
  {
    var s := w.sessions[id];
    assert SessionOk(w, id);
    assert (s.tx, s.nextSend) in w.sealings ==> SealingOk(w, s.tx, s.nextSend);
  }

  lemma SendKeeps(w: World, a: Action)
    requires Inv(w) && a.Send? && Enabled(w, a)
    ensures Inv(Step(w, a))
  {
    var w' := Step(w, a);
    var s := w.sessions[a.id];
    if w' == w { return; }
    SealIsFresh(w, a.id);
    assert SessionOk(w, a.id);
    forall b | b in w'.emitted ensures BodyOk(w', b) {
      if b in w.emitted { GrowsKeepsBody(w, w', b); }
    }
    forall x | x in w'.sessions ensures SessionOk(w', x) { assert x != a.id ==> SessionOk(w, x); }
    forall k, n | (k, n) in w'.sealings ensures SealingOk(w', k, n) {
      assert (k, n) != (s.tx, s.nextSend) ==> SealingOk(w, k, n);
    }
    forall i | 0 <= i < |w'.openings| ensures OpeningOk(w', w'.openings[i]) { assert OpeningOk(w, w.openings[i]); }
  }

  lemma ReceiveKeeps(w: World, a: Action)
    requires Inv(w) && a.Receive? && Enabled(w, a)
    ensures Inv(Step(w, a))
  {
    var w' := Step(w, a);
    var s := w.sessions[a.id];
    if w' == w { return; }
    assert SessionOk(w, a.id) && BodyOk(w, a.wire.body);
    var moved := w.(sessions := w'.sessions);
    OneSessionMoves(w, moved, a.id);
    var o := w'.openings[|w.openings|];
    assert OpeningOk(moved, o);
    forall i | 0 <= i < |w.openings| ensures w.openings[i].key != o.key || w.openings[i].counter != o.counter {
      assert OpeningOk(w, w.openings[i]);
    }
    OpeningAdds(moved, o);
  }

  lemma OpeningAdds(w: World, o: Opening)
    requires Inv(w) && OpeningOk(w, o)
    requires forall i :: 0 <= i < |w.openings| ==> w.openings[i].key != o.key || w.openings[i].counter != o.counter
    ensures Inv(w.(openings := w.openings + [o]))
  {
    var w' := w.(openings := w.openings + [o]);
    forall b | b in w'.emitted ensures BodyOk(w', b) { GrowsKeepsBody(w, w', b); }
    forall x | x in w'.sessions ensures SessionOk(w', x) { assert SessionOk(w, x); }
    forall k, n | (k, n) in w'.sealings ensures SealingOk(w', k, n) { assert SealingOk(w, k, n); }
    forall i | 0 <= i < |w'.openings| ensures OpeningOk(w', w'.openings[i]) {
      assert i < |w.openings| ==> OpeningOk(w, w.openings[i]);
    }
  }

  lemma StepKeeps(w: World, a: Action)
    requires Inv(w) && Enabled(w, a)
    ensures Inv(Step(w, a))
  {
    match a
    case Start(_, _, _, _) => StartKeeps(w, a);
    case Greet(_, _, _) => GreetKeeps(w, a);
    case Hear(_, _) => HearKeeps(w, a);
    case Send(_, _) => SendKeeps(w, a);
    case Receive(_, _) => ReceiveKeeps(w, a);
    case Stop(_) => StopKeeps(w, a);
  }

  lemma AcceptedKeeps(w: World, a: Action)
    requires Inv(w) && AllAccepted(w) && Enabled(w, a)
    ensures AllAccepted(Step(w, a))
  {
    forall id | id in Step(w, a).sessions ensures AcceptedOk(Step(w, a), id) {
      assert id in w.sessions ==> AcceptedOk(w, id) && SessionOk(w, id);
      AcceptedStays(w, a, id);
    }
  }

  lemma AcceptedStays(w: World, a: Action, id: nat)
    requires Enabled(w, a) && id in Step(w, a).sessions && (id in w.sessions ==> AcceptedOk(w, id) && SessionOk(w, id))
    ensures AcceptedOk(Step(w, a), id)
  {
    var w' := Step(w, a);
    var s' := w'.sessions[id];
    forall n | !s'.closed && n in s'.accepted
      ensures exists i :: 0 <= i < |w'.openings| && OpenedAs(w'.openings[i], id, s'.rx, n)
    {
      if n in w.sessions[id].accepted {
        var i :| 0 <= i < |w.openings| && OpenedAs(w.openings[i], id, w.sessions[id].rx, n);
        assert OpenedAs(w'.openings[i], id, s'.rx, n);
      } else {
        assert OpenedAs(w'.openings[|w.openings|], id, s'.rx, n);
      }
    }
  }

  // ----- Whole runs -----

  ghost predicate Possible(w: World, run: seq<Action>)
    decreases |run|
  {
    run == [] || (Enabled(w, run[0]) && Possible(Step(w, run[0]), run[1..]))
  }

  ghost function After(w: World, run: seq<Action>): World
    requires Possible(w, run)
    decreases |run|
  {
    if run == [] then w else After(Step(w, run[0]), run[1..])
  }

  lemma {:induction false} RunKeeps(w: World, run: seq<Action>)
    requires Inv(w) && Possible(w, run)
    ensures Inv(After(w, run))
    decreases |run|
  {
    if run != [] {
      StepKeeps(w, run[0]);
      RunKeeps(Step(w, run[0]), run[1..]);
    }
  }

  lemma {:induction false} AcceptedRuns(w: World, run: seq<Action>)
    requires Inv(w) && AllAccepted(w) && Possible(w, run)
    ensures AllAccepted(After(w, run))
    decreases |run|
  {
    if run != [] {
      hide Inv, AllAccepted;
      StepKeeps(w, run[0]);
      AcceptedKeeps(w, run[0]);
      AcceptedRuns(Step(w, run[0]), run[1..]);
    }
  }

  /**
  In any reachable world, a frame sealed under the key a session receives with, not
  opened yet and less than 64 below every number opened under that key, is opened,
  in whatever order the network delivers.
  */
  lemma FreshFrameOpens(run: seq<Action>, id: nat, b: Sealed)
    requires Possible(EMPTY, run)
    requires id in After(EMPTY, run).sessions && b in After(EMPTY, run).emitted && b.nonce.CounterNonce?
    requires var s := After(EMPTY, run).sessions[id]; !s.closed && s.ready && b.key == s.rx
    requires NotTooOld(After(EMPTY, run).openings, b.key, b.nonce.counter)
    ensures var w := After(EMPTY, run);
      var n, a := b.nonce.counter, Receive(id, Wire(b.header, b));
      && (b.key, n) in w.sealings && Enabled(w, a)
      && Step(w, a).openings == w.openings + [Opening(id, b.key, n, w.sealings[(b.key, n)].data)]
  {
    RunKeeps(EMPTY, run);
    AcceptedRuns(EMPTY, run);
    var w := After(EMPTY, run);
    var s := w.sessions[id];
    assert SessionOk(w, id) && AcceptedOk(w, id) && BodyOk(w, b);
    hide SessionOk, BodyOk;
    forall a | a in s.accepted ensures a != b.nonce.counter && (a > b.nonce.counter ==> a - b.nonce.counter < 64) {
      var i :| 0 <= i < |w.openings| && OpenedAs(w.openings[i], id, s.rx, a);
    }
    FrameOpens(w, id, b);
  }

  lemma FrameOpens(w: World, id: nat, b: Sealed)
    requires SessionOk(w, id) && BodyOk(w, b) && b.nonce.CounterNonce?
    requires var s := w.sessions[id]; !s.closed && s.ready && b.key == s.rx && Fresh(64, s.accepted, b.nonce.counter)
    ensures (b.key, b.nonce.counter) in w.sealings
    ensures OpenStep(w.sessions[id], Wire(b.header, b)).1 == Ok(w.sealings[(b.key, b.nonce.counter)].data)
  {}

  predicate NotTooOld(openings: seq<Opening>, key: Key, n: nat) {
    forall i :: 0 <= i < |openings| && openings[i].key == key ==>
      openings[i].counter != n && (openings[i].counter > n ==> openings[i].counter - n < 64)
  }

  /** In any reachable world, what a ready session seals goes out under its next number, and is on record as its own. */
  lemma SealedGoesOut(run: seq<Action>, id: nat, data: Bytes)
    requires Possible(EMPTY, run) && id in After(EMPTY, run).sessions
    requires var s := After(EMPTY, run).sessions[id]; !s.closed && s.ready && s.nextSend < LAST_SEQUENCE
    requires |data| <= MAX_PAYLOAD
    ensures var w := After(EMPTY, run);
      var s, w' := w.sessions[id], Step(w, Send(id, data));
      && s.tx.TrafficKey? && s.tx.base.BaseKey? && FrameBody(s.tx, s.nextSend, data) in w'.emitted
      && (s.tx, s.nextSend) in w'.sealings && w'.sealings[(s.tx, s.nextSend)] == Sealing(id, data)
      && w'.sessions[id].nextSend == s.nextSend + 1
  {
    RunKeeps(EMPTY, run);
    assert SessionOk(After(EMPTY, run), id);
  }

  /**
  After any run from nothing: every plaintext a session got out of Open was put
  into Seal, under the same number, by the one session of the other role that used
  the same two challenges, which is not itself; and no frame was opened twice.
  */
  lemma OpenedWasSealed(run: seq<Action>, i: nat)
    requires Possible(EMPTY, run) && i < |After(EMPTY, run).openings|
    ensures var w := After(EMPTY, run);
      var o := w.openings[i];
      && o.key.TrafficKey? && (o.key, o.counter) in w.sealings
      && var sealing := w.sealings[(o.key, o.counter)];
      && sealing.data == o.data && sealing.sender != o.receiver
      && Drew(w, ChallengeOf(o.key, o.key.sender), sealing.sender, o.key.sender)
      && Drew(w, ChallengeOf(o.key, o.key.sender.Other()), o.receiver, o.key.sender.Other())
      && (forall j :: 0 <= j < |w.openings| && j != i ==>
            (w.openings[j].key, w.openings[j].counter) != (o.key, o.counter))
  {
    RunKeeps(EMPTY, run);
    var w := After(EMPTY, run);
    var o := w.openings[i];
    assert OpeningOk(w, o);
    assert SealingOk(w, o.key, o.counter);
  }

  /** In any reachable world the next (key, nonce) a session seals under was never used before. */
  lemma NonceNeverReused(run: seq<Action>, id: nat, data: Bytes)
    requires Possible(EMPTY, run) && id in After(EMPTY, run).sessions
    requires SealStep(After(EMPTY, run).sessions[id], data).1.Ok?
    ensures var w := After(EMPTY, run);
      var body := SealStep(w.sessions[id], data).1.value.body;
      body.nonce.CounterNonce? && (body.key, body.nonce.counter) !in w.sealings && body !in w.emitted
  {
    RunKeeps(EMPTY, run);
    var w := After(EMPTY, run);
    SealIsFresh(w, id);
    var body := SealStep(w.sessions[id], data).1.value.body;
    assert body in w.emitted ==> BodyOk(w, body);
  }

  // ----- Two sessions over a lossless channel -----

  /** What sender seals receiver can open, from the first number on. */
  predicate Paired(sender: State, receiver: State) {
    && sender.ready && receiver.ready && !sender.closed && !receiver.closed
    && receiver.rx == sender.tx && receiver.digest == sender.digest && receiver.role == sender.role.Other()
    && sender.nextSend == 0 && receiver.accepted == {}
  }

  /** Host and guest of one root and context that have sent their hellos and heard none. */
  predicate MayShake(h: State, g: State) {
    && h.role == Host && g.role == Guest && h.base == g.base && h.hello.Some? && g.hello.Some?
    && !h.closed && !g.closed && !h.ready && !g.ready
  }

  lemma HellosAgree(h: State, g: State)
    requires !h.closed && !g.closed && !h.ready && !g.ready && h.role == Host && g.role == Guest
    requires h.base == g.base && h.digest == g.digest && h.helloKey == g.helloKey && h.challenge != g.challenge
    requires h.hello.Some? && g.hello.Some? && GoodHello(h) && GoodHello(g)
    ensures var h' := AcceptStep(h, g.hello.value).0;
      var g' := AcceptStep(g, h.hello.value).0;
      h'.ready && g'.ready && !h'.closed && !g'.closed && h'.hello.Some? && g'.hello.Some?
      && h'.tx == g'.rx && h'.rx == g'.tx && h'.tx != h'.rx
  {}

  /**
  In every reachable world a host and a guest with one pairing root and context that
  have sent their hellos and hear each other's agree on both keys, which differ;
  after that each refuses any hello whatever.  Both start at number 0 and have
  accepted nothing.
  */
  lemma HandshakeAgrees(run: seq<Action>, host: nat, guest: nat)
    requires Possible(EMPTY, run) && host in After(EMPTY, run).sessions && guest in After(EMPTY, run).sessions
    requires MayShake(After(EMPTY, run).sessions[host], After(EMPTY, run).sessions[guest])
    ensures var h, g := After(EMPTY, run).sessions[host], After(EMPTY, run).sessions[guest];
      var (h', heard) := AcceptStep(h, g.hello.value);
      var (g', heard') := AcceptStep(g, h.hello.value);
      && heard == heard' == Ok(()) && Paired(h', g') && Paired(g', h')
      && h'.ready && g'.ready && h'.tx == g'.rx && h'.rx == g'.tx && h'.tx != h'.rx
      && forall wire :: AcceptStep(h', wire) == (h', Err(HelloState)) && AcceptStep(g', wire) == (g', Err(HelloState))
  {
    RunKeeps(EMPTY, run);
    var w := After(EMPTY, run);
    assert SessionOk(w, host) && SessionOk(w, guest);
    HellosAgree(w.sessions[host], w.sessions[guest]);
  }

  /**
  Such a handshake can take place in the network: each hello is there to be delivered,
  and after both have been heard the two sessions are as above.
  */
  lemma HandshakeInNetwork(run: seq<Action>, host: nat, guest: nat)
    requires Possible(EMPTY, run) && host in After(EMPTY, run).sessions && guest in After(EMPTY, run).sessions
    requires MayShake(After(EMPTY, run).sessions[host], After(EMPTY, run).sessions[guest])
    ensures var w := After(EMPTY, run);
      var h, g := w.sessions[host], w.sessions[guest];
      var first, second := Hear(host, g.hello.value), Hear(guest, h.hello.value);
      && Enabled(w, first) && Enabled(Step(w, first), second)
      && var w' := Step(Step(w, first), second);
      && w'.sessions[host] == AcceptStep(h, g.hello.value).0 && w'.sessions[guest] == AcceptStep(g, h.hello.value).0
      && Paired(w'.sessions[host], w'.sessions[guest]) && Paired(w'.sessions[guest], w'.sessions[host])
  {
    HandshakeAgrees(run, host, guest);
    RunKeeps(EMPTY, run);
    assert SessionOk(After(EMPTY, run), host) && SessionOk(After(EMPTY, run), guest);
  }

  /** A session that greets with a fresh challenge puts a hello on the network, authentic for its other side. */
  lemma GreetingGoesOut(w: World, id: nat, challenge: Challenge, nonce: nat)
    requires Enabled(w, Greet(id, challenge, nonce)) && challenge != 0
    requires !w.sessions[id].closed && w.sessions[id].hello.None?
    ensures var s, w' := w.sessions[id], Step(w, Greet(id, challenge, nonce));
      var s' := w'.sessions[id];
      && s'.hello.Some? && s'.hello.value.Wire? && s'.hello.value.body in w'.emitted && s'.challenge == challenge
      && challenge in w'.owner && w'.owner[challenge] == id
      && forall own :: own != challenge ==> HelloFrom(s'.hello.value, s.role, s.helloKey, s.digest, own)
  {}

  function SealAll(s: State, messages: seq<Bytes>): (State, seq<Wire>)
    decreases |messages|
  {
    if messages == [] then (s, []) else
      var (s', r) := SealStep(s, messages[0]);
      var (s'', rest) := SealAll(s', messages[1..]);
      (s'', (if r.Ok? then [r.value] else []) + rest)
  }

  function OpenAll(s: State, wires: seq<Wire>): (State, seq<Bytes>)
    decreases |wires|
  {
    if wires == [] then (s, []) else
      var (s', r) := OpenStep(s, wires[0]);
      var (s'', rest) := OpenAll(s', wires[1..]);
      (s'', (if r.Ok? then [r.value] else []) + rest)
  }

  /** The entries at these places, in this order. */
  function Picked<T>(xs: seq<T>, order: seq<nat>): (picked: seq<T>)
    requires forall i :: 0 <= i < |order| ==> order[i] < |xs|
    ensures |picked| == |order| && forall i :: 0 <= i < |order| ==> picked[i] == xs[order[i]]
  {
    seq(|order|, i requires 0 <= i < |order| => xs[order[i]])
  }

  /** None comes twice, and none comes after one that is 64 or more above it. */
  predicate InWindow(order: seq<nat>) {
    forall i, j :: 0 <= i < j < |order| ==> order[i] != order[j] && (order[i] > order[j] ==> order[i] - order[j] < 64)
  }

  lemma {:induction false} SealedOneByOne(s: State, messages: seq<Bytes>)
    requires s.ready && !s.closed && s.nextSend + |messages| <= LAST_SEQUENCE
    requires forall m :: m in messages ==> |m| <= MAX_PAYLOAD
    ensures |SealAll(s, messages).1| == |messages|
    ensures forall i :: 0 <= i < |messages| ==>
      SealAll(s, messages).1[i] == FrameWire(s.(nextSend := s.nextSend + i), messages[i])
    decreases |messages|
  {
    if messages != [] {
      var s' := SealStep(s, messages[0]).0;
      SealedOneByOne(s', messages[1..]);
      assert SealAll(s, messages).1 == [FrameWire(s, messages[0])] + SealAll(s', messages[1..]).1;
    }
  }

  lemma OneOpens(s: State, r: State, k: nat, m: Bytes)
    requires r.ready && !r.closed && r.rx == s.tx && r.digest == s.digest && r.role == s.role.Other()
    requires |m| <= MAX_PAYLOAD && Fresh(64, r.accepted, s.nextSend + k)
    ensures OpenStep(r, FrameWire(s.(nextSend := s.nextSend + k), m)) ==
      (r.(accepted := r.accepted + {s.nextSend + k}), Ok(m))
  {}

  /** Frames that arrive in any order within the window, some perhaps never, are opened to what was sealed. */
  lemma {:induction false} WindowDelivery(s: State, r: State, messages: seq<Bytes>, order: seq<nat>)
    requires s.ready && r.ready && !s.closed && !r.closed
    requires r.rx == s.tx && r.digest == s.digest && r.role == s.role.Other()
    requires s.nextSend + |messages| <= LAST_SEQUENCE && forall m :: m in messages ==> |m| <= MAX_PAYLOAD
    requires InWindow(order) && forall i :: 0 <= i < |order| ==> order[i] < |messages|
    requires forall i :: 0 <= i < |order| ==> Fresh(64, r.accepted, s.nextSend + order[i])
    ensures |SealAll(s, messages).1| == |messages|
    ensures OpenAll(r, Picked(SealAll(s, messages).1, order)).1 == Picked(messages, order)
    decreases |order|
  {
    hide SealAll, SealStep, OpenStep, OpenAll, FrameWire, Fresh, InWindow, Picked;
    SealedOneByOne(s, messages);
    var wires := SealAll(s, messages).1;
    if order == [] {
      NothingOpens(r);
      assert Picked(wires, order) == [] && Picked(messages, order) == [];
    } else {
      var k, rest := order[0], order[1..];
      var r' := r.(accepted := r.accepted + {s.nextSend + k});
      assert messages[k] in messages;
      OneOpens(s, r, k, messages[k]);
      RestIsFresh(s.nextSend, r.accepted, order);
      WindowDelivery(s, r', messages, rest);
      FirstPicked(wires, order);
      FirstPicked(messages, order);
      FirstOpens(r, wires[k], Picked(wires, rest), r', messages[k]);
    }
  }

  lemma RestIsFresh(n: nat, accepted: set<nat>, order: seq<nat>)
    requires order != [] && InWindow(order) && forall i :: 0 <= i < |order| ==> Fresh(64, accepted, n + order[i])
    ensures InWindow(order[1..])
    ensures forall i :: 0 <= i < |order[1..]| ==> Fresh(64, accepted + {n + order[0]}, n + order[1..][i])
  {
    forall i | 0 <= i < |order[1..]| ensures Fresh(64, accepted + {n + order[0]}, n + order[1..][i]) {
      assert Fresh(64, accepted, n + order[i + 1]);
    }
  }

  lemma FirstPicked<T>(xs: seq<T>, order: seq<nat>)
    requires order != [] && forall i :: 0 <= i < |order| ==> order[i] < |xs|
    ensures Picked(xs, order) == [xs[order[0]]] + Picked(xs, order[1..])
  {}

  lemma NothingOpens(r: State)
    ensures OpenAll(r, []).1 == []
  {}

  lemma FirstOpens(r: State, wire: Wire, rest: seq<Wire>, r': State, m: Bytes)
    requires OpenStep(r, wire) == (r', Ok(m))
    ensures OpenAll(r, [wire] + rest).1 == [m] + OpenAll(r', rest).1
  {
    assert ([wire] + rest)[1..] == rest;
  }

  /** In order and without loss, what is opened is what was sealed. */
  lemma LosslessDelivery(s: State, r: State, messages: seq<Bytes>)
    requires s.ready && r.ready && !s.closed && !r.closed
    requires r.rx == s.tx && r.digest == s.digest && r.role == s.role.Other()
    requires forall n :: n in r.accepted ==> n < s.nextSend
    requires s.nextSend + |messages| <= LAST_SEQUENCE
    requires forall m :: m in messages ==> |m| <= MAX_PAYLOAD
    ensures OpenAll(r, SealAll(s, messages).1).1 == messages
  {
    var order: seq<nat> := seq(|messages|, i requires 0 <= i < |messages| => i);
    WindowDelivery(s, r, messages, order);
    assert Picked(messages, order) == messages && Picked(SealAll(s, messages).1, order) == SealAll(s, messages).1;
  }

  /**
  After a handshake in any reachable world, what either side seals is opened by the
  other, in whatever order within the window it arrives.
  */
  lemma HandshakeDelivers(run: seq<Action>, host: nat, guest: nat, messages: seq<Bytes>, order: seq<nat>,
                          replies: seq<Bytes>, order': seq<nat>)
    requires Possible(EMPTY, run) && host in After(EMPTY, run).sessions && guest in After(EMPTY, run).sessions
    requires MayShake(After(EMPTY, run).sessions[host], After(EMPTY, run).sessions[guest])
    requires |messages| <= LAST_SEQUENCE && forall m :: m in messages ==> |m| <= MAX_PAYLOAD
    requires |replies| <= LAST_SEQUENCE && forall m :: m in replies ==> |m| <= MAX_PAYLOAD
    requires InWindow(order) && forall i :: 0 <= i < |order| ==> order[i] < |messages|
    requires InWindow(order') && forall i :: 0 <= i < |order'| ==> order'[i] < |replies|
    ensures var h, g := After(EMPTY, run).sessions[host], After(EMPTY, run).sessions[guest];
      var h', g' := AcceptStep(h, g.hello.value).0, AcceptStep(g, h.hello.value).0;
      var sent, sent' := SealAll(h', messages).1, SealAll(g', replies).1;
      && |sent| == |messages| && OpenAll(g', Picked(sent, order)).1 == Picked(messages, order)
      && |sent'| == |replies| && OpenAll(h', Picked(sent', order')).1 == Picked(replies, order')
  {
    HandshakeAgrees(run, host, guest);
    var h, g := After(EMPTY, run).sessions[host], After(EMPTY, run).sessions[guest];
    WindowDelivery(AcceptStep(h, g.hello.value).0, AcceptStep(g, h.hello.value).0, messages, order);
    WindowDelivery(AcceptStep(g, h.hello.value).0, AcceptStep(h, g.hello.value).0, replies, order');
  }
}
