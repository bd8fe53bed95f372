/**
One pairing between host and guest (internal/secure/pair.go): three messages of the
password-authenticated exchange, then one confirmation each way, over a channel
that may deliver anything.
*/
module Pairing {
  import opened Common
  import opened PairWire

  /** The channel as one side sees it; what arrives is up to the network. */
  class Exchange {
    var arriving: seq<Text>
    ghost var sent: seq<Text>
    ghost var received: seq<Text>
    /** Sends that failed. */
    ghost var faults: nat

    constructor (arriving: seq<Text>)
      ensures sent == [] && received == [] && this.arriving == arriving
    {
      this.arriving, sent, received, faults := arriving, [], [], 0;
    }

    method Send(frame: Text) returns (ok: bool)
      modifies this`sent, this`faults
      ensures ok ==> sent == old(sent) + [frame] && faults == old(faults)
      ensures !ok ==> (sent == old(sent) || sent == old(sent) + [frame]) && faults > old(faults)
    {
      var fault: bool := *;
      var gone: bool := *;
      if fault { faults := faults + 1; }
      if !fault || gone { sent := sent + [frame]; }
      ok := !fault;
    }

    method Receive() returns (ok: bool, frame: Text)
      modifies this`arriving, this`received
      ensures ok ==> received == old(received) + [frame] && old(arriving) == [frame] + arriving
      ensures !ok ==> received == old(received) && arriving == old(arriving) == []
    {
      if arriving == [] { return false, []; }
      ok, frame, arriving := true, arriving[0], arriving[1..];
      received := received + [frame];
    }
  }

  /** sendPairFrame */
  method SendFrame(x: Exchange, kind: Kind, payload: Text) returns (ok: bool)
    modifies x`sent, x`faults
    ensures ok ==> |payload| <= MAX_PAYLOAD && x.sent == old(x.sent) + [Frame(kind, payload)]
    ensures ok ==> x.faults == old(x.faults)
    ensures !ok ==> x.sent == old(x.sent) || x.sent == old(x.sent) + [Frame(kind, payload)]
    ensures !ok && |payload| <= MAX_PAYLOAD ==> x.faults > old(x.faults)
    ensures |payload| > MAX_PAYLOAD ==> !ok && x.sent == old(x.sent)
    ensures x.faults >= old(x.faults)
  {
    if |payload| > MAX_PAYLOAD { return false; }
    ok := x.Send(Frame(kind, payload));
  }

  /** receivePairFrame: what it accepts is the encoding of what it returns. */
  method ReceiveFrame(x: Exchange, kind: Kind) returns (ok: bool, payload: Text)
    modifies x`arriving, x`received
    ensures ok ==> |payload| <= MAX_PAYLOAD && x.received == old(x.received) + [Frame(kind, payload)]
    ensures ok ==> old(x.arriving) == [Frame(kind, payload)] + x.arriving
    ensures !ok ==> old(x.arriving) == [] || !FrameAccepted(old(x.arriving)[0], kind)
  {
    var frame;
    ok, frame := x.Receive();
    if !ok { return false, []; }
    if |frame| < HEADER || |frame| > MAX_FRAME || frame[..4] != MAGIC || frame[4] != Plain(VERSION)
       || frame[5] != Plain(kind.Code()) || LengthOf(frame[6..8]) != Some(|frame| - HEADER) {
      return false, [];
    }
    AcceptedIsFrame(frame, kind);
    payload := frame[HEADER..];
  }

  /** pairTranscript: the fields are written to the hash one after another. */
  method HashTranscript(context: Text, frames: seq<Text>) returns (digest: Text)
    ensures digest == Transcript(context, frames)
  {
    var h := Ascii("wire-connect/pair-transcript/v1") + Field(context);
    WrittenNext([], context);
    for i := 0 to |frames|
      invariant h == Written([context] + frames[..i])
    {
      WrittenNext([context] + frames[..i], frames[i]);
      assert [context] + frames[..i] + [frames[i]] == [context] + frames[..i + 1];
      h := h + Field(frames[i]);
    }
    assert frames[..|frames|] == frames;
    digest := Output(Hash(h));
  }

  /** What has gone into the hash after so many fields. */
  function Written(fields: seq<Text>): Text { Ascii("wire-connect/pair-transcript/v1") + Fields(fields) }

  lemma WrittenNext(fields: seq<Text>, field: Text)
    ensures Written([]) == Ascii("wire-connect/pair-transcript/v1")
    ensures Written(fields + [field]) == Written(fields) + Field(field)
  {
    FieldsExtend(fields, field);
  }

  /** What a side holds once it has derived its root. */
  datatype View = View(context: Text, secret: Secret, ke1: Text, ke2: Text, ke3: Text) {
    function Digest(): Text { Transcript(context, [Frame(KE1, ke1), Frame(KE2, ke2), Frame(KE3, ke3)]) }
    function Key(): Text { Root(secret, Digest(), context) }
    function MacFrame(side: Role): Text {
      Frame(if side.Host? then HostMac else GuestMac, Confirmation(Key(), side, Digest()))
    }
    ghost predicate Sized() {
      |context| <= MAX_CONTEXT && |ke1| <= MAX_PAYLOAD && |ke2| <= MAX_PAYLOAD && |ke3| <= MAX_PAYLOAD
    }
  }

  /** Messages of the password-authenticated exchange do not contain confirmations. */
  predicate MacFree(t: Text) {
    forall i :: 0 <= i < |t| ==> t[i].Plain? || !t[i].of.Mac?
  }

  /** A side sends messages of the exchange and its own confirmation, nothing else. */
  ghost predicate HonestSends(sent: seq<Text>, v: View, side: Role) {
    forall f :: f in sent ==> MacFree(f) || (f == v.MacFrame(side) && v.Sized())
  }

  lemma FrameIsMacFree(kind: Kind, payload: Text)
    requires MacFree(payload)
    ensures MacFree(Frame(kind, payload))
  {
    var header := MAGIC + [Plain(VERSION), Plain(kind.Code())] + LengthBytes(|payload|, 2);
    forall i | 0 <= i < |Frame(kind, payload)|
      ensures Frame(kind, payload)[i].Plain? || !Frame(kind, payload)[i].of.Mac?
    {
      assert Frame(kind, payload)[i] == if i < HEADER then header[i] else payload[i - HEADER];
    }
  }

  /** The server half of the exchange: an answer and a secret for a request, and a check on the last message. */
  datatype ServerOutput = ServerOutput(ke2: Text, secret: Secret, clientMac: nat)

  /** What a host may conclude from the frames that arrive: the view they complete, if they are as they must be. */
  function HostView(arriving: seq<Text>, context: Text, generate: Text -> Option<ServerOutput>,
                    finish: (Text, nat) -> bool): Option<View> {
    if |arriving| < 3 || !FrameAccepted(arriving[0], KE1) || !FrameAccepted(arriving[1], KE3) then None
    else match generate(arriving[0][HEADER..])
      case None => None
      case Some(output) =>
        var v := View(context, output.secret, arriving[0][HEADER..], output.ke2, arriving[1][HEADER..]);
        var good := |v.ke2| <= MAX_PAYLOAD && finish(v.ke3, output.clientMac) && arriving[2] == v.MacFrame(Guest);
        if good then Some(v) else None
  }

  /** A first frame that pairHost answers. */
  predicate Answerable(arriving: seq<Text>, generate: Text -> Option<ServerOutput>) {
    && arriving != [] && FrameAccepted(arriving[0], KE1) && generate(arriving[0][HEADER..]).Some?
    && |generate(arriving[0][HEADER..]).value.ke2| <= MAX_PAYLOAD
  }

  /** What a host has sent by the time it waits for more than has arrived, or is done. */
  function HostSends(arriving: seq<Text>, context: Text, generate: Text -> Option<ServerOutput>,
                     finish: (Text, nat) -> bool): seq<Text> {
    if !Answerable(arriving, generate) then []
    else
      var view := HostView(arriving, context, generate, finish);
      Answers(arriving, generate) + if view.Some? then [view.value.MacFrame(Host)] else []
  }

  /**
  pairHost.  `generate` and `finish` stand for the exchange's server and may do
  anything.  The host succeeds exactly if what arrives completes a view and no send
  fails; its answer waits for the first frame only, and its confirmation for the
  guest's to be verified.
  */
  method PairHost(x: Exchange, context: Text, generate: Text -> Option<ServerOutput>, finish: (Text, nat) -> bool)
    returns (root: Option<Text>, view: View)
    requires |context| <= MAX_CONTEXT && x.sent == [] && x.received == []
    modifies x
    ensures view.context == context
    ensures root.Some? ==> HostView(old(x.arriving), context, generate, finish) == Some(view)
    ensures root.Some? ==> view.Sized() && root == Some(view.Key())
    ensures root.None? && x.faults == old(x.faults) ==> HostView(old(x.arriving), context, generate, finish) == None
    ensures root.Some? ==> x.faults == old(x.faults)
    ensures x.faults == old(x.faults) ==> x.sent == HostSends(old(x.arriving), context, generate, finish)
    ensures root.Some? ==> x.received == [Frame(KE1, view.ke1), Frame(KE3, view.ke3), view.MacFrame(Guest)]
    ensures root.Some? ==> x.sent == [Frame(KE2, view.ke2), view.MacFrame(Host)]
    ensures |x.sent| > 1 ==> x.received == [Frame(KE1, view.ke1), Frame(KE3, view.ke3), view.MacFrame(Guest)]
    ensures (forall t :: generate(t).Some? ==> MacFree(generate(t).value.ke2)) ==> HonestSends(x.sent, view, Host)
  {
    hide FrameAccepted, MacFree;
    root, view := None, View(context, 0, [], [], []);
    var ok, ke1, output, ke3 := Authenticate(x, generate, finish);
    if !ok { return; }
    view := View(context, output.secret, ke1, output.ke2, ke3);
    root := ConfirmAsHost(x, view);
  }

  /** What keeps the exchange's three messages from completing, whatever comes after them. */
  predicate HostRefuses(arriving: seq<Text>, generate: Text -> Option<ServerOutput>, finish: (Text, nat) -> bool) {
    || |arriving| < 2 || !FrameAccepted(arriving[0], KE1) || !FrameAccepted(arriving[1], KE3)
    || generate(arriving[0][HEADER..]).None? || |generate(arriving[0][HEADER..]).value.ke2| > MAX_PAYLOAD
    || !finish(arriving[1][HEADER..], generate(arriving[0][HEADER..]).value.clientMac)
  }

  /** The host's answer to a first frame, if it gives one. */
  function Answers(arriving: seq<Text>, generate: Text -> Option<ServerOutput>): seq<Text> {
    if Answerable(arriving, generate) then [Frame(KE2, generate(arriving[0][HEADER..]).value.ke2)] else []
  }

  /** The three messages of pairHost before the confirmations. */
  method Authenticate(x: Exchange, generate: Text -> Option<ServerOutput>, finish: (Text, nat) -> bool)
    returns (ok: bool, ke1: Text, output: ServerOutput, ke3: Text)
    requires x.sent == [] && x.received == []
    modifies x
    ensures ok ==> old(x.arriving) == [Frame(KE1, ke1), Frame(KE3, ke3)] + x.arriving && generate(ke1) == Some(output)
    ensures ok ==> !HostRefuses(old(x.arriving), generate, finish)
    ensures ok ==> Frame(KE1, ke1)[HEADER..] == ke1 && Frame(KE3, ke3)[HEADER..] == ke3
    ensures ok ==> |ke1| <= MAX_PAYLOAD && |output.ke2| <= MAX_PAYLOAD && |ke3| <= MAX_PAYLOAD
    ensures ok ==> x.received == [Frame(KE1, ke1), Frame(KE3, ke3)]
    ensures !ok && x.faults == old(x.faults) ==> HostRefuses(old(x.arriving), generate, finish)
    ensures ok ==> x.sent == [Frame(KE2, output.ke2)] && x.faults == old(x.faults)
    ensures |x.sent| <= 1 && x.faults >= old(x.faults)
    ensures x.faults == old(x.faults) ==> x.sent == Answers(old(x.arriving), generate)
    ensures (forall t :: generate(t).Some? ==> MacFree(generate(t).value.ke2)) ==>
      forall f :: f in x.sent ==> MacFree(f)
  {
    ke3 := [];
    ok, ke1, output := AnswerRequest(x, generate);
    if !ok { return; }
    ok, ke3 := ReceiveFrame(x, KE3);
    if !ok { return; }
    FrameRoundTrip(KE3, KE3, ke3);
    ok := finish(ke3, output.clientMac);
  }

  /** The first exchange of pairHost: the guest's request and the answer to it. */
  method AnswerRequest(x: Exchange, generate: Text -> Option<ServerOutput>)
    returns (ok: bool, ke1: Text, output: ServerOutput)
    requires x.sent == [] && x.received == []
    modifies x
    ensures ok ==> old(x.arriving) == [Frame(KE1, ke1)] + x.arriving && generate(ke1) == Some(output)
    ensures ok ==> FrameAccepted(Frame(KE1, ke1), KE1) && Frame(KE1, ke1)[HEADER..] == ke1
    ensures ok ==> |ke1| <= MAX_PAYLOAD && |output.ke2| <= MAX_PAYLOAD && x.received == [Frame(KE1, ke1)]
    ensures x.faults == old(x.faults) ==>
      ok == Answerable(old(x.arriving), generate) && x.sent == Answers(old(x.arriving), generate)
    ensures ok ==> x.sent == [Frame(KE2, output.ke2)] && x.faults == old(x.faults)
    ensures |x.sent| <= 1
    ensures (forall t :: generate(t).Some? ==> MacFree(generate(t).value.ke2)) ==>
      forall f :: f in x.sent ==> MacFree(f)
    ensures x.faults >= old(x.faults)
  {
    output := ServerOutput([], 0, 0);
    ok, ke1 := ReceiveFrame(x, KE1);
    if !ok { return; }
    FrameRoundTrip(KE1, KE1, ke1);
    var answer := generate(ke1);
    if answer.None? { return false, ke1, output; }
    output := answer.value;
    if MacFree(output.ke2) { FrameIsMacFree(KE2, output.ke2); }
    ok := SendFrame(x, KE2, output.ke2);
  }

  /** The rest of pairHost: check the guest's confirmation, then send the host's. */
  method ConfirmAsHost(x: Exchange, view: View) returns (root: Option<Text>)
    modifies x
    ensures root.Some? ==> root == Some(view.Key()) && old(x.arriving) != []
    ensures root.Some? ==> old(x.arriving)[0] == view.MacFrame(Guest)
    ensures root.None? && x.faults == old(x.faults) ==>
      old(x.arriving) == [] || old(x.arriving)[0] != view.MacFrame(Guest)
    ensures root.Some? ==> x.received == old(x.received) + [view.MacFrame(Guest)]
    ensures root.Some? ==> x.sent == old(x.sent) + [view.MacFrame(Host)]
    ensures x.sent == old(x.sent) || x.sent == old(x.sent) + [view.MacFrame(Host)]
    ensures x.sent != old(x.sent) ==> x.received == old(x.received) + [view.MacFrame(Guest)]
    ensures root.None? && x.faults == old(x.faults) ==> x.sent == old(x.sent)
    ensures root.Some? ==> x.faults == old(x.faults)
    ensures x.faults >= old(x.faults)
  {
    root := None;
    var transcript := HashTranscript(view.context, [Frame(KE1, view.ke1), Frame(KE2, view.ke2), Frame(KE3, view.ke3)]);
    var key := Root(view.secret, transcript, view.context);
    var ok, mac := ReceiveFrame(x, GuestMac);
    FrameRoundTrip(GuestMac, GuestMac, Confirmation(key, Guest, transcript));
    if !ok { return; }
    FrameRoundTrip(GuestMac, GuestMac, mac);
    if |mac| != DIGEST_SIZE || mac != Confirmation(key, Guest, transcript) { return; }
    ok := SendFrame(x, HostMac, Confirmation(key, Host, transcript));
    if !ok { return; }
    root := Some(key);
  }

  datatype ClientOutput = ClientOutput(ke3: Text, secret: Secret)

  function GuestView(arriving: seq<Text>, context: Text, ke1: Text,
                     respond: Text -> Option<ClientOutput>): Option<View> {
    if |arriving| < 2 || |ke1| > MAX_PAYLOAD || !FrameAccepted(arriving[0], KE2) then None
    else match respond(arriving[0][HEADER..])
      case None => None
      case Some(output) =>
        var v := View(context, output.secret, ke1, arriving[0][HEADER..], output.ke3);
        if |v.ke3| <= MAX_PAYLOAD && arriving[1] == v.MacFrame(Host) then Some(v) else None
  }

  /** What makes a guest give up before it sends the exchange's third message. */
  predicate GuestRefuses(arriving: seq<Text>, ke1: Text, respond: Text -> Option<ClientOutput>) {
    || |ke1| > MAX_PAYLOAD || arriving == [] || !FrameAccepted(arriving[0], KE2)
    || respond(arriving[0][HEADER..]).None? || |respond(arriving[0][HEADER..]).value.ke3| > MAX_PAYLOAD
  }

  /** What a guest has sent by the time it waits for more than has arrived, or is done. */
  function GuestSends(arriving: seq<Text>, context: Text, ke1: Text,
                      respond: Text -> Option<ClientOutput>): seq<Text> {
    if GuestRefuses(arriving, ke1, respond) then Requests(arriving, ke1, respond)
    else
      var output := respond(arriving[0][HEADER..]).value;
      var view := View(context, output.secret, ke1, arriving[0][HEADER..], output.ke3);
      Requests(arriving, ke1, respond) + [view.MacFrame(Guest)]
  }

  /** The messages of the exchange among them. */
  function Requests(arriving: seq<Text>, ke1: Text, respond: Text -> Option<ClientOutput>): seq<Text> {
    if |ke1| > MAX_PAYLOAD then []
    else if GuestRefuses(arriving, ke1, respond) then [Frame(KE1, ke1)]
    else [Frame(KE1, ke1), Frame(KE3, respond(arriving[0][HEADER..]).value.ke3)]
  }

  /**
  pairGuest, with the same promises.  Its first frame waits for nothing, and its
  confirmation for the host's answer only.
  */
  method PairGuest(x: Exchange, context: Text, ke1: Text, respond: Text -> Option<ClientOutput>)
    returns (root: Option<Text>, view: View)
    requires |context| <= MAX_CONTEXT && x.sent == [] && x.received == []
    modifies x
    ensures view.context == context
    ensures root.Some? ==> GuestView(old(x.arriving), context, ke1, respond) == Some(view)
    ensures root.Some? ==> view.Sized() && root == Some(view.Key())
    ensures root.None? && x.faults == old(x.faults) ==> GuestView(old(x.arriving), context, ke1, respond) == None
    ensures root.Some? ==> x.faults == old(x.faults)
    ensures x.faults == old(x.faults) ==> x.sent == GuestSends(old(x.arriving), context, ke1, respond)
    ensures root.Some? ==> x.received == [Frame(KE2, view.ke2), view.MacFrame(Host)]
    ensures root.Some? ==> x.sent == [Frame(KE1, view.ke1), Frame(KE3, view.ke3), view.MacFrame(Guest)]
    ensures MacFree(ke1) && (forall t :: respond(t).Some? ==> MacFree(respond(t).value.ke3)) ==>
      HonestSends(x.sent, view, Guest)
  {
    hide FrameAccepted, MacFree, Frame, LengthOf;
    root, view := None, View(context, 0, ke1, [], []);
    var ok, ke2, output := Request(x, ke1, respond);
    if !ok { return; }
    view := View(context, output.secret, ke1, ke2, output.ke3);
    root := ConfirmAsGuest(x, view);
  }

  /** The three messages of pairGuest before the confirmations. */
  method Request(x: Exchange, ke1: Text, respond: Text -> Option<ClientOutput>)
    returns (ok: bool, ke2: Text, output: ClientOutput)
    requires x.sent == [] && x.received == []
    modifies x
    ensures ok ==> old(x.arriving) == [Frame(KE2, ke2)] + x.arriving && respond(ke2) == Some(output)
    ensures ok ==> FrameAccepted(Frame(KE2, ke2), KE2) && Frame(KE2, ke2)[HEADER..] == ke2
    ensures ok ==> |ke1| <= MAX_PAYLOAD && |ke2| <= MAX_PAYLOAD
    ensures ok ==> |output.ke3| <= MAX_PAYLOAD && x.received == [Frame(KE2, ke2)]
    ensures x.faults == old(x.faults) ==>
      ok == !GuestRefuses(old(x.arriving), ke1, respond) && x.sent == Requests(old(x.arriving), ke1, respond)
    ensures ok ==> x.sent == [Frame(KE1, ke1), Frame(KE3, output.ke3)] && x.faults == old(x.faults)
    ensures MacFree(ke1) && (forall t :: respond(t).Some? ==> MacFree(respond(t).value.ke3)) ==>
      forall f :: f in x.sent ==> MacFree(f)
    ensures x.faults >= old(x.faults)
  {
    ke2, output := [], ClientOutput([], 0);
    if MacFree(ke1) { FrameIsMacFree(KE1, ke1); }
    ok := SendFrame(x, KE1, ke1);
    if !ok { return; }
    ok, ke2 := ReceiveFrame(x, KE2);
    if !ok { return; }
    FrameRoundTrip(KE2, KE2, ke2);
    var answer := respond(ke2);
    if answer.None? { return false, ke2, output; }
    output := answer.value;
    if MacFree(output.ke3) { FrameIsMacFree(KE3, output.ke3); }
    ok := SendFrame(x, KE3, output.ke3);
  }

  /** The rest of pairGuest: send the guest's confirmation, then check the host's. */
  method ConfirmAsGuest(x: Exchange, view: View) returns (root: Option<Text>)
    modifies x
    ensures root.Some? ==> root == Some(view.Key()) && old(x.arriving) != []
    ensures root.Some? ==> old(x.arriving)[0] == view.MacFrame(Host)
    ensures root.None? && x.faults == old(x.faults) ==>
      old(x.arriving) == [] || old(x.arriving)[0] != view.MacFrame(Host)
    ensures root.Some? ==> x.received == old(x.received) + [view.MacFrame(Host)]
    ensures root.Some? ==> x.sent == old(x.sent) + [view.MacFrame(Guest)]
    ensures x.sent == old(x.sent) || x.sent == old(x.sent) + [view.MacFrame(Guest)]
    ensures x.faults == old(x.faults) ==> x.sent == old(x.sent) + [view.MacFrame(Guest)]
    ensures root.Some? ==> x.faults == old(x.faults)
    ensures x.faults >= old(x.faults)
  {
    root := None;
    var transcript := HashTranscript(view.context, [Frame(KE1, view.ke1), Frame(KE2, view.ke2), Frame(KE3, view.ke3)]);
    var key := Root(view.secret, transcript, view.context);
    var ok := SendFrame(x, GuestMac, Confirmation(key, Guest, transcript));
    if !ok { return; }
    var mac;
    ok, mac := ReceiveFrame(x, HostMac);
    FrameRoundTrip(HostMac, HostMac, Confirmation(key, Host, transcript));
    if !ok { return; }
    FrameRoundTrip(HostMac, HostMac, mac);
    if |mac| != DIGEST_SIZE || mac != Confirmation(key, Host, transcript) { return; }
    root := Some(key);
  }

  /** What host and guest have sent when everything sent has been delivered and answered so many times. */
  function Exchanged(rounds: nat, context: Text, ke1: Text, generate: Text -> Option<ServerOutput>,
                     finish: (Text, nat) -> bool, respond: Text -> Option<ClientOutput>): (seq<Text>, seq<Text>) {
    if rounds == 0 then ([], [])
    else
      var (host, guest) := Exchanged(rounds - 1, context, ke1, generate, finish, respond);
      (HostSends(guest, context, generate, finish), GuestSends(host, context, ke1, respond))
  }

  /**
  With one context and an exchange that works, two sides that start with nothing
  complete the same view in four rounds of delivery: neither waits for the other in vain.
  */
  lemma {:induction false} HonestRunSucceeds(context: Text, ke1: Text, generate: Text -> Option<ServerOutput>,
                                             finish: (Text, nat) -> bool, respond: Text -> Option<ClientOutput>)
    returns (v: View)
    requires generate(ke1).Some? && respond(generate(ke1).value.ke2).Some?
    requires respond(generate(ke1).value.ke2).value.secret == generate(ke1).value.secret
    requires finish(respond(generate(ke1).value.ke2).value.ke3, generate(ke1).value.clientMac)
    requires |ke1| <= MAX_PAYLOAD && |generate(ke1).value.ke2| <= MAX_PAYLOAD
    requires |respond(generate(ke1).value.ke2).value.ke3| <= MAX_PAYLOAD
    ensures v.context == context && v.ke1 == ke1
    ensures var (host, guest) := Exchanged(4, context, ke1, generate, finish, respond);
      HostView(guest, context, generate, finish) == Some(v) == GuestView(host, context, ke1, respond)
  {
    var output := generate(ke1).value;
    v := View(context, output.secret, ke1, output.ke2, respond(output.ke2).value.ke3);
    FrameRoundTrip(KE1, KE1, v.ke1);
    FrameRoundTrip(KE2, KE2, v.ke2);
    FrameRoundTrip(KE3, KE3, v.ke3);
    var requested, answered := [Frame(KE1, v.ke1)], [Frame(KE2, v.ke2)];
    var done := [Frame(KE1, v.ke1), Frame(KE3, v.ke3), v.MacFrame(Guest)];
    assert Exchanged(1, context, ke1, generate, finish, respond) == ([], requested);
    assert HostSends(requested, context, generate, finish) == answered;
    assert Exchanged(2, context, ke1, generate, finish, respond) == (answered, requested);
    assert GuestSends(answered, context, ke1, respond) == done;
    assert Exchanged(3, context, ke1, generate, finish, respond) == (answered, done);
    assert HostSends(done, context, generate, finish) == answered + [v.MacFrame(Host)];
    assert Exchanged(4, context, ke1, generate, finish, respond) == (answered + [v.MacFrame(Host)], done);
  }

  // ----- Agreement -----

  lemma ViewsAgree(a: View, b: View, side: Role, side': Role)
    requires a.Sized() && b.Sized()
    requires Confirmation(a.Key(), side, a.Digest()) == Confirmation(b.Key(), side', b.Digest())
    ensures a == b && side == side'
  {
    ConfirmationInjective(a.Key(), side, a.Digest(), b.Key(), side', b.Digest());
    RootInjective(a.secret, a.Digest(), a.context, b.secret, b.Digest(), b.context);
    var fa := [Frame(KE1, a.ke1), Frame(KE2, a.ke2), Frame(KE3, a.ke3)];
    var fb := [Frame(KE1, b.ke1), Frame(KE2, b.ke2), Frame(KE3, b.ke3)];
    assert forall f :: f in [a.context] + fa ==> |f| <= MAX_FRAME;
    assert forall f :: f in [b.context] + fb ==> |f| <= MAX_FRAME;
    TranscriptInjective(a.context, fa, b.context, fb);
    assert fa[0] == fb[0] && fa[1] == fb[1] && fa[2] == fb[2];
    FrameRoundTrip(KE1, KE1, a.ke1);
    FrameRoundTrip(KE1, KE1, b.ke1);
    FrameRoundTrip(KE2, KE2, a.ke2);
    FrameRoundTrip(KE2, KE2, b.ke2);
    FrameRoundTrip(KE3, KE3, a.ke3);
    FrameRoundTrip(KE3, KE3, b.ke3);
  }

  /**
  Unforgeability: bytes of a MAC under this root that arrive in some frame are in a
  frame one of the two sides sent, as they alone know a root.
  */
  ghost predicate Unforged(root: Text, arrived: seq<Text>, sent: seq<Text>) {
    forall f, i :: f in arrived && 0 <= i < |f| && MacUnder(f[i], root) ==> exists g :: g in sent && f[i] in g
  }

  predicate MacUnder(o: Octet, root: Text) { o.Out? && o.of.Mac? && o.of.key == root }

  /** A frame accepted as the peer's confirmation can only be the peer's own, and then the views agree. */
  lemma ConfirmedMeansAgreed(mine: View, side: Role, arrived: seq<Text>, sent: seq<Text>, theirs: View,
                             peerSent: seq<Text>)
    requires mine.Sized() && HonestSends(sent, mine, side)
    requires var other := side.Other();
      mine.MacFrame(other) in arrived && HonestSends(peerSent, theirs, other)
    requires Unforged(mine.Key(), arrived, sent + peerSent)
    ensures theirs == mine
  {
    var other := side.Other();
    var f := mine.MacFrame(other);
    var tag := Mac(mine.Key(), ConfirmationInput(other, mine.Digest()));
    assert f[HEADER] == Out(tag, 0);
    var g :| g in sent + peerSent && f[HEADER] in g;
    assert g in sent || g in peerSent;
    if g in sent {
      TagInFrame(mine, side, tag);
      ViewsAgree(mine, mine, other, side);
    } else {
      TagInFrame(theirs, other, tag);
      ViewsAgree(mine, theirs, other, other);
    }
  }

  lemma TagInFrame(v: View, side: Role, tag: Term)
    ensures Out(tag, 0) in v.MacFrame(side) ==> Output(tag) == Confirmation(v.Key(), side, v.Digest())
  {
    var own := Mac(v.Key(), ConfirmationInput(side, v.Digest()));
    var f := v.MacFrame(side);
    if Out(tag, 0) in f {
      var i :| 0 <= i < |f| && f[i] == Out(tag, 0);
      assert i >= HEADER;
      assert f[i] == Output(own)[i - HEADER];
    }
  }

  /**
  Both sides of one pairing, whatever the network delivers to either: as each side's
  arrivals are arbitrary, running one after the other loses nothing.  If the host or
  the guest accepts, and nobody else can make confirmations, the other side holds the
  same context, secret, messages and so the same root.
  */
  method PairBoth(hostSide: Exchange, guestSide: Exchange, hostContext: Text, guestContext: Text,
                  generate: Text -> Option<ServerOutput>, finish: (Text, nat) -> bool,
                  ke1: Text, respond: Text -> Option<ClientOutput>)
    returns (hostRoot: Option<Text>, guestRoot: Option<Text>, ghost host: View, ghost guest: View)
    requires hostSide != guestSide && |hostContext| <= MAX_CONTEXT && |guestContext| <= MAX_CONTEXT
    requires hostSide.sent == [] && hostSide.received == [] && guestSide.sent == [] && guestSide.received == []
    requires MacFree(ke1) && (forall t :: generate(t).Some? ==> MacFree(generate(t).value.ke2))
    requires forall t :: respond(t).Some? ==> MacFree(respond(t).value.ke3)
    modifies hostSide, guestSide
    ensures hostRoot.Some? <==> hostSide.faults == old(hostSide.faults)
                                && HostView(old(hostSide.arriving), hostContext, generate, finish).Some?
    ensures guestRoot.Some? <==> guestSide.faults == old(guestSide.faults)
                                 && GuestView(old(guestSide.arriving), guestContext, ke1, respond).Some?
    ensures hostRoot.Some? && Unforged(host.Key(), hostSide.received, hostSide.sent + guestSide.sent) ==>
      host == guest && hostContext == guestContext && hostRoot == Some(guest.Key())
    ensures guestRoot.Some? && Unforged(guest.Key(), guestSide.received, guestSide.sent + hostSide.sent) ==>
      host == guest && hostContext == guestContext && guestRoot == Some(host.Key())
  {
    hide FrameAccepted, HostView, GuestView;
    hostRoot, host := PairHost(hostSide, hostContext, generate, finish);
    guestRoot, guest := PairGuest(guestSide, guestContext, ke1, respond);
    if hostRoot.Some? && Unforged(host.Key(), hostSide.received, hostSide.sent + guestSide.sent) {
      assert host.MacFrame(Guest) in hostSide.received;
      ConfirmedMeansAgreed(host, Host, hostSide.received, hostSide.sent, guest, guestSide.sent);
    }
    if guestRoot.Some? && Unforged(guest.Key(), guestSide.received, guestSide.sent + hostSide.sent) {
      assert guest.MacFrame(Host) in guestSide.received;
      ConfirmedMeansAgreed(guest, Guest, guestSide.received, guestSide.sent, host, hostSide.sent);
    }
  }
}
