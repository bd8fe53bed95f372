/**
The authenticated control session (internal/secure/session.go).

Keys, nonces and sealed bodies are terms, so that key derivation and the AEAD are
ideal: two derivations agree only on equal inputs, and a body opens only under the
key, nonce and associated data it was sealed with.
*/
module SecureSession {
  import opened Common
  import opened ReplayWindow
  import opened Words

  type Root = nat
  type Digest = nat
  /** A 32-byte challenge; 0 is the all-zero one. */
  type Challenge = nat

  const SESSION_VERSION := 1
  const MAX_PAYLOAD := 0x1_0000
  const LAST_SEQUENCE := 0xFFFF_FFFF_FFFF_FFFF
  const REPLAY_WINDOW := 64

  /** Foreign keys are all those not derived from a pairing root; Wiped is a key that is gone. */
  datatype Key =
    | BaseKey(root: Root, digest: Digest)
    | HelloKey(root: Root, digest: Digest)
    | TrafficKey(base: Key, hostChallenge: Challenge, guestChallenge: Challenge, sender: Role)
    | ForeignKey(id: nat)
    | Wiped

  /** A traffic nonce is the prefix derived along with its key, then the sequence number. */
  datatype Nonce = RandomNonce(id: nat) | CounterNonce(prefix: Key, counter: nat)

  datatype Header = HelloHeader(magic: bool, version: nat, role: nat, nonce: Nonce)
                  | FrameHeader(magic: bool, version: nat, role: nat, counter: nat)

  datatype Plain = HelloPlain(role: nat, challenge: Challenge) | DataPlain(data: Bytes)

  datatype Sealed = Sealed(key: Key, nonce: Nonce, header: Header, digest: Digest, plain: Plain)

  /** What travels: a header and a body, either of which the network may have swapped. */
  datatype Wire = Runt | Wire(header: Header, body: Sealed)

  function AeadOpen(key: Key, nonce: Nonce, header: Header, digest: Digest, body: Sealed): Option<Plain> {
    if body.key == key && body.nonce == nonce && body.header == header && body.digest == digest
    then Some(body.plain) else None
  }

  datatype Error = Closed | NotReady | HelloState | InvalidHello | InvalidFrame | Replay | SequenceExhausted | TooLarge
  datatype Result<+T> = Ok(value: T) | Err(error: Error)

  function RoleByte(r: Role): nat { if r.Host? then 0 else 1 }

  // ----- One session as a value: the replay window is the set of accepted numbers -----

  datatype State = State(
    role: Role, digest: Digest, base: Key, helloKey: Key,
    hello: Option<Wire>, challenge: Challenge, peer: Challenge, ready: bool, closed: bool,
    tx: Key, rx: Key, nextSend: nat, accepted: set<nat>)

  function NewState(role: Role, root: Root, digest: Digest): State {
    State(role, digest, BaseKey(root, digest), HelloKey(root, digest), None, 0, 0, false, false, Wiped, Wiped, 0, {})
  }

  function TrafficKeyOf(s: State, sender: Role): Key {
    if s.role.Host? then TrafficKey(s.base, s.challenge, s.peer, sender)
    else TrafficKey(s.base, s.peer, s.challenge, sender)
  }

  function HelloWire(s: State, challenge: Challenge, nonce: Nonce): Wire {
    var header := HelloHeader(true, SESSION_VERSION, RoleByte(s.role), nonce);
    Wire(header, Sealed(s.helloKey, nonce, header, s.digest, HelloPlain(RoleByte(s.role), challenge)))
  }

  /** challenge and nonce are what the random source would return. */
  function HelloStep(s: State, challenge: Challenge, nonce: nat): (State, Result<Wire>) {
    if s.closed then (s, Err(Closed))
    else if s.hello.Some? then (s, Ok(s.hello.value))
    else if challenge == 0 then (s, Err(InvalidHello))
    else
      var wire := HelloWire(s, challenge, RandomNonce(nonce));
      (s.(hello := Some(wire), challenge := challenge), Ok(wire))
  }

  predicate HelloShape(s: State, w: Wire) {
    w.Wire? && w.header.HelloHeader? && w.header.magic && w.header.version == SESSION_VERSION
    && w.header.role == RoleByte(s.role.Other())
  }

  function AcceptStep(s: State, w: Wire): (State, Result<()>) {
    if s.closed then (s, Err(Closed))
    else if s.hello.None? || s.ready then (s, Err(HelloState))
    else if !HelloShape(s, w) then (s, Err(InvalidHello))
    else match AeadOpen(s.helloKey, w.header.nonce, w.header, s.digest, w.body)
      case None => (s, Err(InvalidHello))
      case Some(plain) =>
        if !plain.HelloPlain? || plain.role != w.header.role || plain.challenge == 0 || plain.challenge == s.challenge
        then (s, Err(InvalidHello))
        else
          var s' := s.(peer := plain.challenge, ready := true);
          (s'.(tx := TrafficKeyOf(s', s.role), rx := TrafficKeyOf(s', s.role.Other())), Ok(()))
  }

  function FrameWire(s: State, data: Bytes): Wire {
    var header := FrameHeader(true, SESSION_VERSION, RoleByte(s.role), s.nextSend);
    Wire(header, Sealed(s.tx, CounterNonce(s.tx, s.nextSend), header, s.digest, DataPlain(data)))
  }

  function SealStep(s: State, data: Bytes): (State, Result<Wire>) {
    if s.closed then (s, Err(Closed))
    else if !s.ready then (s, Err(NotReady))
    else if |data| > MAX_PAYLOAD then (s, Err(TooLarge))
    else if s.nextSend == LAST_SEQUENCE then (s, Err(SequenceExhausted))
    else (s.(nextSend := s.nextSend + 1), Ok(FrameWire(s, data)))
  }

  /** The length bounds on a frame, less header and tag, are bounds on the body it carries. */
  predicate FrameShape(s: State, w: Wire) {
    w.Wire? && w.header.FrameHeader? && w.body.plain.DataPlain? && |w.body.plain.data| <= MAX_PAYLOAD
    && w.header.magic && w.header.version == SESSION_VERSION && w.header.role == RoleByte(s.role.Other())
  }

  function OpenStep(s: State, w: Wire): (State, Result<Bytes>) {
    if s.closed then (s, Err(Closed))
    else if !s.ready then (s, Err(NotReady))
    else if !FrameShape(s, w) then (s, Err(InvalidFrame))
    else if !Fresh(REPLAY_WINDOW, s.accepted, w.header.counter) then (s, Err(Replay))
    else match AeadOpen(s.rx, CounterNonce(s.rx, w.header.counter), w.header, s.digest, w.body)
      case None => (s, Err(InvalidFrame))
      case Some(plain) => (s.(accepted := s.accepted + {w.header.counter}), Ok(plain.data))
  }

  /** Everything secret is wiped. */
  function CloseStep(s: State): State {
    if s.closed then s
    else
      s.(closed := true, base := Wiped, helloKey := Wiped, hello := None, challenge := 0, peer := 0,
         tx := Wiped, rx := Wiped)
  }

  // ----- What a receiver may accept -----

  /** A frame of the given role, of at most the largest size. */
  predicate FrameFrom(w: Wire, sender: Role) {
    && w.Wire? && w.header.FrameHeader? && w.header.magic && w.header.version == 1 && w.header.role == RoleByte(sender)
    && w.body.plain.DataPlain? && |w.body.plain.data| <= 65536
  }

  /** The body is the one sealed under this key for just this header and number. */
  predicate SealedUnder(w: Wire, key: Key, digest: Digest)
    requires w.Wire? && w.header.FrameHeader?
  {
    && w.body.key == key && w.body.nonce == CounterNonce(key, w.header.counter)
    && w.body.header == w.header && w.body.digest == digest
  }

  /** An authentic hello of the given role, with a challenge that is neither zero nor the receiver's own. */
  predicate HelloFrom(w: Wire, sender: Role, key: Key, digest: Digest, own: Challenge) {
    && w.Wire? && w.header.HelloHeader? && w.header.magic && w.header.version == 1 && w.header.role == RoleByte(sender)
    && w.body.key == key && w.body.nonce == w.header.nonce && w.body.header == w.header && w.body.digest == digest
    && w.body.plain.HelloPlain? && w.body.plain.role == RoleByte(sender) && w.body.plain.challenge !in {0, own}
  }

  // ----- The session object -----

  class Session {
    const role: Role
    const contextDigest: Digest
    var baseKey: Key
    var helloKey: Key
    var hello: Option<Wire>
    var challenge: Challenge
    var peer: Challenge
    var ready: bool
    var closed: bool
    var txKey: Key
    var rxKey: Key
    var nextSend: nat
    var highest: nat
    var recvBits: nat
    var haveRecv: bool
    ghost var accepted: set<nat>

    ghost predicate Valid() reads this {
      && nextSend <= LAST_SEQUENCE
      && Fits(REPLAY_WINDOW, accepted, haveRecv, highest, recvBits)
    }

    ghost function View(): State reads this {
      State(role, contextDigest, baseKey, helloKey, hello, challenge, peer, ready, closed,
            txKey, rxKey, nextSend, accepted)
    }

    constructor (root: Root, host: bool, digest: Digest)
      ensures Valid() && View() == NewState(if host then Host else Guest, root, digest)
    {
      role, contextDigest := (if host then Host else Guest), digest;
      baseKey, helloKey := BaseKey(root, digest), HelloKey(root, digest);
      hello, challenge, peer, ready, closed := None, 0, 0, false, false;
      txKey, rxKey, nextSend := Wiped, Wiped, 0;
      highest, recvBits, haveRecv, accepted := 0, 0, false, {};
    }

    method Hello(random: Challenge, nonce: nat) returns (r: Result<Wire>)
      requires Valid()
      modifies this
      ensures Valid() && (View(), r) == HelloStep(old(View()), random, nonce)
      ensures r.Ok? <==> !closed && (old(hello).Some? || random != 0)
      ensures r == Err(Closed) <==> closed
      ensures r.Ok? && old(hello).None? ==>
        var header := HelloHeader(true, SESSION_VERSION, RoleByte(role), RandomNonce(nonce));
        r.value == Wire(header,
          Sealed(helloKey, RandomNonce(nonce), header, contextDigest, HelloPlain(RoleByte(role), random)))
      ensures r.Ok? ==> hello == Some(r.value) && (old(hello).Some? ==> View() == old(View()))
      ensures r.Ok? && old(hello).None? ==> challenge == random != 0
      ensures r.Ok? && old(hello).None? ==> View() == old(View()).(hello := hello, challenge := challenge)
      ensures r.Err? ==> View() == old(View()) && (closed || (hello.None? && random == 0))
    {
      if closed { return Err(Closed); }
      if hello.Some? { return Ok(hello.value); }
      if random == 0 { return Err(InvalidHello); }
      var header := HelloHeader(true, SESSION_VERSION, RoleByte(role), RandomNonce(nonce));
      var plain := HelloPlain(RoleByte(role), random);
      var wire := Wire(header, Sealed(helloKey, RandomNonce(nonce), header, contextDigest, plain));
      challenge, hello := random, Some(wire);
      return Ok(wire);
    }

    method AcceptHello(w: Wire) returns (r: Result<()>)
      requires Valid()
      modifies this
      ensures Valid() && (View(), r) == AcceptStep(old(View()), w)
      ensures r.Ok? <==>
        !closed && hello.Some? && !old(ready) && HelloFrom(w, role.Other(), helloKey, contextDigest, challenge)
      ensures r == Err(Closed) <==> closed
      ensures r == Err(HelloState) <==> !closed && (hello.None? || old(ready))
      ensures r.Ok? ==> ready
      ensures r.Ok? ==> w.body.plain == HelloPlain(RoleByte(role.Other()), peer) && peer != 0 && peer != challenge
      ensures r.Ok? ==> View() == old(View()).(ready := true, peer := peer, tx := txKey, rx := rxKey) && txKey != rxKey
      ensures r.Err? ==> View() == old(View())
    {
      if closed { return Err(Closed); }
      if hello.None? || ready { return Err(HelloState); }
      if w.Runt? || !w.header.HelloHeader? || !w.header.magic || w.header.version != SESSION_VERSION
         || w.header.role == RoleByte(role) || (w.header.role != RoleByte(Host) && w.header.role != RoleByte(Guest)) {
        return Err(InvalidHello);
      }
      var inner := AeadOpen(helloKey, w.header.nonce, w.header, contextDigest, w.body);
      if inner.None? || !inner.value.HelloPlain? || inner.value.role != w.header.role
         || inner.value.challenge == 0 || inner.value.challenge == challenge {
        return Err(InvalidHello);
      }
      peer := inner.value.challenge;
      DeriveTraffic();
      ready := true;
      return Ok(());
    }

    /** deriveTrafficLocked: the host's challenge comes first on both sides. */
    method DeriveTraffic()
      modifies this`txKey, this`rxKey
      ensures txKey == TrafficKeyOf(View(), role) && rxKey == TrafficKeyOf(View(), role.Other())
    {
      var hostChallenge, guestChallenge := challenge, peer;
      if role.Guest? {
        hostChallenge, guestChallenge := peer, challenge;
      }
      var hostToGuest := TrafficKey(baseKey, hostChallenge, guestChallenge, Host);
      var guestToHost := TrafficKey(baseKey, hostChallenge, guestChallenge, Guest);
      txKey, rxKey := if role.Host? then hostToGuest else guestToHost, if role.Host? then guestToHost else hostToGuest;
    }

    method Seal(data: Bytes) returns (r: Result<Wire>)
      requires Valid()
      modifies this
      ensures Valid() && (View(), r) == SealStep(old(View()), data)
      ensures r.Ok? <==> !closed && ready && |data| <= MAX_PAYLOAD && old(nextSend) < LAST_SEQUENCE
      ensures r.Ok? ==> var header := FrameHeader(true, SESSION_VERSION, RoleByte(role), old(nextSend));
        r.value == Wire(header,
          Sealed(txKey, CounterNonce(txKey, old(nextSend)), header, contextDigest, DataPlain(data)))
      ensures r == Err(Closed) <==> closed
      ensures r == Err(NotReady) <==> !closed && !ready
      ensures r == Err(TooLarge) <==> !closed && ready && |data| > MAX_PAYLOAD
      ensures View() == old(View()).(nextSend := if r.Ok? then old(nextSend) + 1 else old(nextSend))
    {
      if closed { return Err(Closed); }
      if !ready { return Err(NotReady); }
      if |data| > MAX_PAYLOAD { return Err(TooLarge); }
      if nextSend == LAST_SEQUENCE { return Err(SequenceExhausted); }
      var header := FrameHeader(true, SESSION_VERSION, RoleByte(role), nextSend);
      var body := Sealed(txKey, CounterNonce(txKey, nextSend), header, contextDigest, DataPlain(data));
      nextSend := nextSend + 1;
      return Ok(Wire(header, body));
    }

    predicate SequenceAvailable(s: nat)
      requires Valid()
      reads this
      ensures SequenceAvailable(s) <==> Fresh(REPLAY_WINDOW, accepted, s)
    {
      AvailableIsFresh(REPLAY_WINDOW, accepted, haveRecv, highest, recvBits, s);
      if !haveRecv then true
      else if s > highest then true
      else highest - s < REPLAY_WINDOW && And(recvBits, ShiftLeft(REPLAY_WINDOW, 1, highest - s)) == 0
    }

    method MarkSequence(s: nat)
      requires Valid() && SequenceAvailable(s)
      modifies this`haveRecv, this`highest, this`recvBits, this`accepted
      ensures Valid() && accepted == old(accepted) + {s}
    {
      ghost var before := accepted;
      accepted := accepted + {s};
      if !haveRecv {
        haveRecv, highest, recvBits := true, s, 1;
        FirstFits(REPLAY_WINDOW, s);
        return;
      }
      if s > highest {
        SlideFits(REPLAY_WINDOW, before, highest, recvBits, s);
        var shift := s - highest;
        if shift >= REPLAY_WINDOW {
          recvBits := 1;
        } else {
          recvBits := Or(ShiftLeft(REPLAY_WINDOW, recvBits, shift), 1);
        }
        highest := s;
        return;
      }
      var delta := highest - s;
      if delta < REPLAY_WINDOW {
        MarkFits(REPLAY_WINDOW, before, highest, recvBits, s);
        recvBits := Or(recvBits, ShiftLeft(REPLAY_WINDOW, 1, delta));
      }
    }

    method Open(w: Wire) returns (r: Result<Bytes>)
      requires Valid()
      modifies this
      ensures Valid() && (View(), r) == OpenStep(old(View()), w)
      ensures r.Ok? <==>
        !closed && ready && FrameFrom(w, role.Other()) && SealedUnder(w, rxKey, contextDigest)
        && Fresh(REPLAY_WINDOW, old(accepted), w.header.counter)
      ensures r == Err(Closed) <==> closed
      ensures r == Err(NotReady) <==> !closed && !ready
      ensures r == Err(Replay) <==>
        !closed && ready && FrameFrom(w, role.Other()) && !Fresh(REPLAY_WINDOW, old(accepted), w.header.counter)
      ensures r.Ok? ==> accepted == old(accepted) + {w.header.counter} && w.body.plain == DataPlain(r.value)
      ensures View() == old(View()).(accepted := accepted) && (r.Err? ==> accepted == old(accepted))
    {
      if closed { return Err(Closed); }
      if !ready { return Err(NotReady); }
      if w.Runt? || !w.header.FrameHeader? || !w.body.plain.DataPlain? || |w.body.plain.data| > MAX_PAYLOAD {
        return Err(InvalidFrame);
      }
      if !w.header.magic || w.header.version != SESSION_VERSION || w.header.role != RoleByte(role.Other()) {
        return Err(InvalidFrame);
      }
      if !SequenceAvailable(w.header.counter) { return Err(Replay); }
      var inner := AeadOpen(rxKey, CounterNonce(rxKey, w.header.counter), w.header, contextDigest, w.body);
      if inner.None? { return Err(InvalidFrame); }
      MarkSequence(w.header.counter);
      return Ok(inner.value.data);
    }

    method Close()
      requires Valid()
      modifies this
      ensures Valid() && View() == CloseStep(old(View()))
      ensures !old(closed) ==> baseKey == helloKey == txKey == rxKey == Wiped && hello.None? && challenge == peer == 0
      ensures closed && (old(closed) ==> View() == old(View()))
    {
      if closed { return; }
      closed := true;
      baseKey, helloKey, hello, challenge, peer, txKey, rxKey := Wiped, Wiped, None, 0, 0, Wiped, Wiped;
    }
  }
}
