/**
The host proposes virtual addresses and the guest accepts or declines
(negotiateAddresses in internal/client/pair.go), over a channel that delivers what
was sent in order but may break at any moment.
*/
module Negotiation {
  import opened AddressPlan
  import opened Common

  const ATTEMPTS := 32

  /** addressProposal; None is text that is not an address. */
  datatype Message = Message(local: Option<Address>, peer: Option<Address>, accepted: bool)

  datatype Outcome = Agreed(local: Address, peer: Address) | InvalidNetwork | RandomFailed | SendFailed | ReceiveFailed
                   | InvalidProposal | Exhausted

  /** Whether a pair of addresses was found free on this side. */
  datatype Check = Check(local: Address, peer: Address, free: bool)

  /** One side's surroundings: the authenticated channel, the random source, and the check of addresses. */
  class Channel {
    var arriving: seq<Message>
    ghost var sent: seq<Message>
    ghost var received: seq<Message>
    /** The random words drawn, and the checks made. */
    ghost var words: seq<nat>
    ghost var checks: seq<Check>
    /** Failures of sending, of the random source and of nothing else. */
    ghost var faults: nat

    constructor (arriving: seq<Message>)
      ensures sent == [] && received == [] && words == [] && checks == []
    {
      this.arriving, sent, received, words, checks, faults := arriving, [], [], [], [], 0;
    }

    /** opts.AddressCheck, which may answer anything. */
    method Available(local: Address, peer: Address) returns (free: bool)
      modifies this`checks
      ensures checks == old(checks) + [Check(local, peer, free)]
    {
      free := *;
      checks := checks + [Check(local, peer, free)];
    }

    /** A send that fails may have gone out all the same. */
    method Send(m: Message) returns (ok: bool)
      modifies this`sent, this`faults
      ensures ok ==> sent == old(sent) + [m] && faults == old(faults)
      ensures !ok ==> (sent == old(sent) || sent == old(sent) + [m]) && faults > old(faults)
    {
      var fault: bool := *;
      var gone: bool := *;
      if fault { faults := faults + 1; }
      if !fault || gone { sent := sent + [m]; }
      ok := !fault;
    }

    method Random() returns (ok: bool, word: nat)
      modifies this`faults, this`words
      ensures word < WORD && faults == (if ok then old(faults) else old(faults) + 1)
      ensures words == if ok then old(words) + [word] else old(words)
    {
      ok := *;
      if !ok { faults := faults + 1; }
      var bits: int := *;
      word := bits % WORD;
      if ok { words := words + [word]; }
    }

    method Receive() returns (ok: bool, m: Message)
      modifies this`arriving, this`received
      ensures ok ==> received == old(received) + [m]
      ensures !ok ==> received == old(received) && arriving == []
    {
      if arriving == [] { return false, Message(None, None, false); }
      ok, m, arriving := true, arriving[0], arriving[1..];
      received := received + [m];
    }
  }

  /** The message proposes some pair RandomPair may draw from this network. */
  ghost predicate Proposes(p: Prefix, m: Message)
    requires p.Valid()
  {
    exists random :: 0 <= random < WORD
      && m == Message(Some(RandomPair(p, random).0), Some(RandomPair(p, random).1), false)
  }

  /** What the guest insists on. */
  predicate Acceptable(m: Message) {
    && m.local.Some? && m.peer.Some? && m.local != m.peer
    && PrivateAddress(m.local.value) && PrivateAddress(m.peer.value)
  }

  ghost predicate AllProposed(p: Prefix, sent: seq<Message>)
    requires p.Valid()
  {
    forall i :: 0 <= i < |sent| ==> Proposes(p, sent[i])
  }

  ghost predicate NoneAccepts(ms: seq<Message>) {
    forall i :: 0 <= i < |ms| ==> !ms[i].accepted
  }

  /** What the host has sent and received when it ends with this outcome. */
  ghost predicate HostDone(p: Prefix, sent: seq<Message>, received: seq<Message>, r: Outcome)
    requires p.Valid()
  {
    && AllProposed(p, sent) && |received| <= |sent| <= |received| + 1 && |sent| <= ATTEMPTS
    && (match r
        case Agreed(a, b) =>
          && |sent| == |received| > 0 && received[|received| - 1].accepted && NoneAccepts(received[..|received| - 1])
          && sent[|sent| - 1] == Message(Some(a), Some(b), false)
        case _ => NoneAccepts(received))
  }

  /** The proposals that follow from checks of drawn pairs: one for each that was found free. */
  function Offers(checks: seq<Check>): seq<Message> {
    if checks == [] then [] else
      var last := checks[|checks| - 1];
      Offers(checks[..|checks| - 1]) + (if last.free then [Message(Some(last.local), Some(last.peer), false)] else [])
  }

  /**
  Each word drawn was turned into a pair, checked, and offered exactly if it was
  free; every offer was answered but the last.
  */
  ghost predicate HostTried(p: Prefix, words: seq<nat>, checks: seq<Check>, sent: seq<Message>, received: nat,
                            r: Outcome)
    requires p.Valid()
  {
    && |words| == |checks| <= ATTEMPTS && (r.Exhausted? ==> |checks| == ATTEMPTS) && (r.InvalidNetwork? ==> words == [])
    && (forall i :: 0 <= i < |words| ==>
          words[i] < WORD && RandomPair(p, words[i]) == (checks[i].local, checks[i].peer))
    && match r
       case SendFailed =>
         && checks != [] && checks[|checks| - 1].free && received == |Offers(checks)| - 1
         && (sent == Offers(checks) || sent == Offers(checks[..|checks| - 1]))
       case ReceiveFailed => checks != [] && checks[|checks| - 1].free && sent == Offers(checks)
         && received == |sent| - 1
       case Agreed(_, _) => checks != [] && checks[|checks| - 1].free && sent == Offers(checks) && received == |sent|
       case _ => sent == Offers(checks) && received == |sent|
  }

  lemma OneMoreOffer(checks: seq<Check>, c: Check)
    ensures Offers(checks + [c]) ==
      Offers(checks) + (if c.free then [Message(Some(c.local), Some(c.peer), false)] else [])
    ensures (checks + [c])[..|checks|] == checks
  {
    assert (checks + [c])[..|checks|] == checks;
  }

  /** What one more word and check lead to, by how the offer went if the pair was free. */
  lemma Tried(p: Prefix, words: seq<nat>, checks: seq<Check>, sent: seq<Message>, received: nat, word: nat, c: Check)
    requires p.Valid() && HostTried(p, words, checks, sent, received, RandomFailed) && |checks| < ATTEMPTS
    requires word < WORD && RandomPair(p, word) == (c.local, c.peer)
    ensures var ws, cs, offer := words + [word], checks + [c], Message(Some(c.local), Some(c.peer), false);
      if c.free then
        && HostTried(p, ws, cs, sent, received, SendFailed)
        && HostTried(p, ws, cs, sent + [offer], received, SendFailed)
        && HostTried(p, ws, cs, sent + [offer], received, ReceiveFailed)
        && HostTried(p, ws, cs, sent + [offer], received + 1, Agreed(c.local, c.peer))
        && HostTried(p, ws, cs, sent + [offer], received + 1, RandomFailed)
      else HostTried(p, ws, cs, sent, received, RandomFailed)
  {
    hide RandomPair;
    OneMoreOffer(checks, c);
  }

  /** One turn of the host's loop; Exhausted here means: go on. */
  method HostTurn(ch: Channel, p: Prefix) returns (r: Outcome)
    requires p.Valid() && Guard(p) && AllProposed(p, ch.sent)
    requires |ch.received| == |ch.sent| <= |ch.checks| < ATTEMPTS && NoneAccepts(ch.received)
    requires HostTried(p, ch.words, ch.checks, ch.sent, |ch.received|, RandomFailed)
    modifies ch
    ensures HostDone(p, ch.sent, ch.received, r) && !r.InvalidNetwork? && !r.InvalidProposal?
    ensures r.Exhausted? ==> HostTried(p, ch.words, ch.checks, ch.sent, |ch.received|, RandomFailed)
    ensures r.Exhausted? ==> |ch.checks| == |old(ch.checks)| + 1 && |ch.received| == |ch.sent| <= |ch.checks|
    ensures !r.Exhausted? ==> HostTried(p, ch.words, ch.checks, ch.sent, |ch.received|, r)
    ensures Explained(r, old(ch.faults), ch.faults, ch.arriving)
  {
    hide RandomPair, Guard, HostTried, Offers;
    var ok, random := ch.Random();
    if !ok { return RandomFailed; }
    var (local, peer) := RandomPair(p, random);
    var free := ch.Available(local, peer);
    ghost var sent, received := ch.sent, |ch.received|;
    Tried(p, old(ch.words), old(ch.checks), sent, received, random, Check(local, peer, free));
    if !free { return Exhausted; }
    assert Proposes(p, Message(Some(local), Some(peer), false));
    ok := ch.Send(Message(Some(local), Some(peer), false));
    if !ok { return SendFailed; }
    var reply;
    ok, reply := ch.Receive();
    if !ok { return ReceiveFailed; }
    if reply.accepted { return Agreed(local, peer); }
    return Exhausted;
  }

  /** A side gives up with an error only for a reason outside it. */
  predicate Explained(r: Outcome, before: nat, faults: nat, arriving: seq<Message>) {
    && faults >= before && (r.RandomFailed? || r.SendFailed? <==> faults > before)
    && (r.ReceiveFailed? ==> arriving == [])
  }

  method NegotiateAsHost(ch: Channel, p: Prefix) returns (r: Outcome)
    requires p.Valid() && ch.sent == [] && ch.received == [] && ch.words == [] && ch.checks == []
    modifies ch
    ensures HostDone(p, ch.sent, ch.received, r) && !r.InvalidProposal?
    ensures r.InvalidNetwork? <==> !Guard(p)
    ensures Explained(r, old(ch.faults), ch.faults, ch.arriving)
    ensures HostTried(p, ch.words, ch.checks, ch.sent, |ch.received|, r)
  {
    if p.bits > 30 || p.bits < 8 || !PrivateAddress(p.address) || !PrivateAddress(PrefixLast(p)) {
      return InvalidNetwork;
    }
    for attempt := 0 to ATTEMPTS
      invariant AllProposed(p, ch.sent) && NoneAccepts(ch.received) && |ch.received| == |ch.sent| <= attempt
      invariant HostTried(p, ch.words, ch.checks, ch.sent, |ch.received|, RandomFailed)
      invariant |ch.checks| == attempt && ch.faults == old(ch.faults)
    {
      r := HostTurn(ch, p);
      if !r.Exhausted? { return; }
    }
    r := Exhausted;
  }

  /** What the guest has sent and received when it ends with this outcome. */
  ghost predicate GuestDone(sent: seq<Message>, received: seq<Message>, r: Outcome) {
    && |sent| <= |received| <= |sent| + 1 && |received| <= ATTEMPTS
    && (forall i :: 0 <= i < |sent| ==> Acceptable(received[i]))
    && (forall i :: 0 <= i < |sent| && sent[i].accepted ==>
          i == |sent| - 1 == |received| - 1 && (r.Agreed? || r.SendFailed?))
    && (r.InvalidProposal? ==> |received| > 0 && !Acceptable(received[|received| - 1]))
    && (r.Agreed? ==> |sent| == |received| > 0 && sent[|sent| - 1].accepted)
    && (r.Agreed? ==> received[|received| - 1].local == Some(r.peer) && received[|received| - 1].peer == Some(r.local))
    && (r.Exhausted? ==> |received| == ATTEMPTS)
  }

  /** Each acceptable proposal was checked the other way round, and answered by what the check said. */
  ghost predicate GuestTried(checks: seq<Check>, sent: seq<Message>, received: seq<Message>, r: Outcome) {
    && |sent| <= |checks| <= |received| && (r.InvalidNetwork? ==> received == [])
    && (forall i :: 0 <= i < |checks| ==>
          && received[i].peer == Some(checks[i].local) && received[i].local == Some(checks[i].peer)
          && (checks[i].free ==> i == |checks| - 1 && (r.Agreed? || r.SendFailed?)))
    && (forall i :: 0 <= i < |sent| ==> sent[i] == Message(None, None, checks[i].free))
    && match r
       case Agreed(a, b) =>
         |sent| == |checks| == |received| > 0 && checks[|checks| - 1] == Check(a, b, true)
       case SendFailed => |checks| == |received| > 0 && |sent| >= |checks| - 1
       case InvalidProposal => |sent| == |checks| == |received| - 1
       case _ => |sent| == |checks| == |received|
  }

  method GuestTurn(ch: Channel) returns (r: Outcome)
    requires GuestTried(ch.checks, ch.sent, ch.received, ReceiveFailed)
    requires GuestDone(ch.sent, ch.received, ReceiveFailed) && |ch.received| == |ch.sent| < ATTEMPTS
    modifies ch
    ensures GuestTried(ch.checks, ch.sent, ch.received, r)
    ensures r.Exhausted? ==> GuestDone(ch.sent, ch.received, ReceiveFailed)
    ensures r.Exhausted? ==> |ch.received| == |ch.sent| == |old(ch.sent)| + 1
    ensures !r.Exhausted? ==> GuestDone(ch.sent, ch.received, r) && !r.InvalidNetwork?
    ensures Explained(r, old(ch.faults), ch.faults, ch.arriving) && !r.RandomFailed?
  {
    var ok, proposal := ch.Receive();
    if !ok { return ReceiveFailed; }
    if !Acceptable(proposal) { return InvalidProposal; }
    var accepted := ch.Available(proposal.peer.value, proposal.local.value);
    ok := ch.Send(Message(None, None, accepted));
    if !ok { return SendFailed; }
    if accepted { return Agreed(proposal.peer.value, proposal.local.value); }
    return Exhausted;
  }

  method NegotiateAsGuest(ch: Channel, p: Prefix) returns (r: Outcome)
    requires p.Valid() && ch.sent == [] && ch.received == [] && ch.checks == []
    modifies ch
    ensures GuestTried(ch.checks, ch.sent, ch.received, r)
    ensures GuestDone(ch.sent, ch.received, r)
    ensures r.InvalidNetwork? <==> !Guard(p)
    ensures Explained(r, old(ch.faults), ch.faults, ch.arriving)
  {
    if p.bits > 30 || p.bits < 8 || !PrivateAddress(p.address) || !PrivateAddress(PrefixLast(p)) {
      return InvalidNetwork;
    }
    for attempt := 0 to ATTEMPTS
      invariant GuestTried(ch.checks, ch.sent, ch.received, ReceiveFailed)
      invariant GuestDone(ch.sent, ch.received, ReceiveFailed) && |ch.received| == |ch.sent| == attempt
      invariant ch.faults == old(ch.faults)
    {
      r := GuestTurn(ch);
      if !r.Exhausted? { return; }
    }
    return Exhausted;
  }

  // ----- Both sides -----

  ghost predicate PrefixOf(a: seq<Message>, b: seq<Message>) {
    |a| <= |b| && forall i :: 0 <= i < |a| ==> a[i] == b[i]
  }

  /** What a host that agreed implies about the guest of the same channel. */
  lemma HostAgreed(p: Prefix, hostSent: seq<Message>, hostReceived: seq<Message>, r: Outcome,
                   guestSent: seq<Message>, guestReceived: seq<Message>, g: Outcome)
    requires p.Valid() && HostDone(p, hostSent, hostReceived, r) && GuestDone(guestSent, guestReceived, g)
    requires PrefixOf(hostReceived, guestSent) && PrefixOf(guestReceived, hostSent) && r.Agreed?
    ensures g == Agreed(r.peer, r.local) || g == SendFailed
    ensures r.local != r.peer && PrivateAddress(r.local) && PrivateAddress(r.peer)
    ensures p.bits <= 30 ==> p.Contains(r.local) && p.Contains(r.peer)
  {
    var k := |hostReceived| - 1;
    assert guestSent[k].accepted;
    assert guestReceived[k] == hostSent[k] && Acceptable(guestReceived[k]);
    assert Proposes(p, hostSent[k]);
    var random :| 0 <= random < WORD && RandomPair(p, random) == (r.local, r.peer);
    if p.bits <= 30 {
      PairInsidePrefix(p, random);
      LastIsLast(p);
    }
  }

  /** The guest runs out of attempts only after the host did, or when the host is about to. */
  lemma GuestGivesUpLast(p: Prefix, hostSent: seq<Message>, hostReceived: seq<Message>, r: Outcome,
                         guestSent: seq<Message>, guestReceived: seq<Message>)
    requires p.Valid() && HostDone(p, hostSent, hostReceived, r) && GuestDone(guestSent, guestReceived, Exhausted)
    requires PrefixOf(hostReceived, guestSent) && PrefixOf(guestReceived, hostSent)
    ensures |hostSent| == ATTEMPTS && !r.Agreed?
  {
    assert r.Agreed? ==> guestSent[|hostReceived| - 1].accepted;
  }

  /**
  A guest never finds a proposal of a host that uses this network invalid, on any
  run, exactly if the network's first address is private.
  */
  lemma ProposalsAcceptableIff(p: Prefix)
    requires p.Valid() && Guard(p)
    ensures (forall m :: Proposes(p, m) ==> Acceptable(m)) <==> PrivateAddress(p.Base())
  {
    ProposalsPrivateIff(p);
    if PrivateAddress(p.Base()) {
      forall m | Proposes(p, m) ensures Acceptable(m) {
        var random :| 0 <= random < WORD
          && m == Message(Some(RandomPair(p, random).0), Some(RandomPair(p, random).1), false);
        PairInsidePrefix(p, random);
        assert ProposalPrivate(p, random);
      }
    } else {
      var random :| 0 <= random < WORD && !ProposalPrivate(p, random);
      var m := Message(Some(RandomPair(p, random).0), Some(RandomPair(p, random).1), false);
      assert Proposes(p, m) && !Acceptable(m);
    }
  }

  lemma HonestHostIsNotRejected(p: Prefix, hostSent: seq<Message>, guestSent: seq<Message>, guestReceived: seq<Message>,
                                g: Outcome)
    requires p.Valid() && Guard(p) && PrivateAddress(p.Base()) && AllProposed(p, hostSent)
    requires GuestDone(guestSent, guestReceived, g) && PrefixOf(guestReceived, hostSent)
    ensures !g.InvalidProposal?
  {
    ProposalsAcceptableIff(p);
    if |guestReceived| > 0 {
      assert Proposes(p, hostSent[|guestReceived| - 1]);
    }
  }

  /** How the two outcomes of one negotiation fit together. */
  ghost predicate EndsFit(p: Prefix, r: Outcome, g: Outcome)
    requires p.Valid()
  {
    && (r.Agreed? ==> g == Agreed(r.peer, r.local) || g == SendFailed)
    && (r.Agreed? ==> r.local != r.peer && PrivateAddress(r.local) && PrivateAddress(r.peer))
    && (r.Agreed? ==> p.Contains(r.local) && p.Contains(r.peer))
    && (g.Exhausted? ==> !r.Agreed?)
    && (g.InvalidProposal? ==> !PrivateAddress(p.Base()))
  }

  lemma BothEnd(p: Prefix, hostSent: seq<Message>, hostReceived: seq<Message>, r: Outcome,
                guestSent: seq<Message>, guestReceived: seq<Message>, g: Outcome)
    requires p.Valid() && Guard(p) && HostDone(p, hostSent, hostReceived, r) && GuestDone(guestSent, guestReceived, g)
    requires PrefixOf(hostReceived, guestSent) && PrefixOf(guestReceived, hostSent)
    ensures EndsFit(p, r, g)
  {
    if r.Agreed? { HostAgreed(p, hostSent, hostReceived, r, guestSent, guestReceived, g); }
    if PrivateAddress(p.Base()) { HonestHostIsNotRejected(p, hostSent, guestSent, guestReceived, g); }
  }

  /**
  Both sides, whatever arrives at either; the conclusion holds whenever each side
  received, in order, only what the other had sent.
  */
  method NegotiateBoth(host: Channel, guest: Channel, hostNetwork: Prefix, guestNetwork: Prefix)
    returns (r: Outcome, g: Outcome)
    requires host != guest && hostNetwork.Valid() && guestNetwork.Valid()
    requires host.sent == [] && host.received == [] && guest.sent == [] && guest.received == []
    requires host.words == [] && host.checks == [] && guest.checks == []
    modifies host, guest
    ensures Guard(hostNetwork) && PrefixOf(host.received, guest.sent) && PrefixOf(guest.received, host.sent) ==>
      EndsFit(hostNetwork, r, g)
    ensures HostTried(hostNetwork, host.words, host.checks, host.sent, |host.received|, r)
    ensures GuestTried(guest.checks, guest.sent, guest.received, g)
    ensures (r.InvalidNetwork? <==> !Guard(hostNetwork)) && (g.InvalidNetwork? <==> !Guard(guestNetwork))
  {
    r := NegotiateAsHost(host, hostNetwork);
    g := NegotiateAsGuest(guest, guestNetwork);
    if Guard(hostNetwork) && PrefixOf(host.received, guest.sent) && PrefixOf(guest.received, host.sent) {
      BothEnd(hostNetwork, host.sent, host.received, r, guest.sent, guest.received, g);
    }
  }
}
