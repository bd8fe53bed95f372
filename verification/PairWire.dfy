/**
Bytes of the pairing protocol (internal/secure/pair.go): length-prefixed fields,
frames, the transcript and the two confirmations.

An Octet is an ordinary byte or one byte of the output of an ideal function, named
by the term that was its input; so hashing, key derivation and the MAC are injective
and their outputs equal nothing else.
*/
module PairWire {
  import opened Common
  import opened Words

  /** Secrets are what the password-authenticated exchange agrees on. */
  type Secret = nat

  datatype Octet = Plain(v: Byte) | Out(of: Term, index: nat)
  datatype Term = Hash(input: seq<Octet>) | Kdf(secret: Secret, salt: seq<Octet>, info: seq<Octet>)
                | Mac(key: seq<Octet>, input: seq<Octet>)

  type Text = seq<Octet>

  const DIGEST_SIZE := 32

  function Output(t: Term): Text { seq(DIGEST_SIZE, (i: nat) => Out(t, i)) }

  lemma OutputInjective(t: Term, t': Term)
    requires Output(t) == Output(t')
    ensures t == t'
  {
    assert Output(t)[0] == Out(t, 0) && Output(t')[0] == Out(t', 0);
  }

  // ----- Numbers -----

  function Lifted(b: Bytes): Text { seq(|b|, i requires 0 <= i < |b| => Plain(b[i])) }

  predicate AllPlain(t: Text) { forall i :: 0 <= i < |t| ==> t[i].Plain? }

  function Values(t: Text): Bytes
    requires AllPlain(t)
  {
    seq(|t|, i requires 0 <= i < |t| => t[i].v)
  }

  /** The low `width` bytes of n, most significant first. */
  function LengthBytes(n: nat, width: nat): (t: Text)
    ensures |t| == width
  {
    Lifted(BigEndian(n, width))
  }

  /** Reading an ideal output as a number gives nothing a length could equal. */
  function LengthOf(t: Text): Option<nat> {
    if AllPlain(t) then Some(Number(Values(t))) else None
  }

  lemma LengthRestores(n: nat, width: nat)
    requires n < Power(width)
    ensures LengthOf(LengthBytes(n, width)) == Some(n)
  {
    NumberOfBigEndian(n, width);
    assert Values(LengthBytes(n, width)) == BigEndian(n, width);
  }

  lemma BytesOfLength(t: Text)
    requires LengthOf(t).Some?
    ensures t == LengthBytes(LengthOf(t).value, |t|)
  {
    BigEndianOfNumber(Values(t));
    assert t == Lifted(Values(t));
  }

  // ----- Length-prefixed fields -----

  const LENGTH_LIMIT: nat := 0x1_0000_0000

  /** writeContextField and writeHashField: a length beyond 32 bits is cut off. */
  function Field(value: Text): Text { LengthBytes(|value|, 4) + value }

  function Fields(values: seq<Text>): Text {
    if values == [] then [] else Field(values[0]) + Fields(values[1..])
  }

  ghost predicate Encodable(values: seq<Text>) {
    forall v :: v in values ==> |v| < LENGTH_LIMIT
  }

  lemma FieldPrefix(v: Text, v': Text, rest: Text, rest': Text)
    requires |v| < LENGTH_LIMIT && |v'| < LENGTH_LIMIT && Field(v) + rest == Field(v') + rest'
    ensures v == v' && rest == rest'
  {
    var whole, whole' := Field(v) + rest, Field(v') + rest';
    assert Power(4) == LENGTH_LIMIT;
    LengthRestores(|v|, 4);
    LengthRestores(|v'|, 4);
    assert whole[..4] == LengthBytes(|v|, 4) && whole'[..4] == LengthBytes(|v'|, 4);
    assert whole[4..4 + |v|] == v && whole'[4..4 + |v'|] == v';
    assert whole[4 + |v|..] == rest && whole'[4 + |v'|..] == rest';
  }

  /** No two lists of fields, of whatever lengths, are written alike. */
  lemma {:induction false} FieldsInjective(values: seq<Text>, values': seq<Text>)
    requires Encodable(values) && Encodable(values') && Fields(values) == Fields(values')
    ensures values == values'
    decreases |values|
  {
    if values != [] && values' != [] {
      assert values[0] in values && values'[0] in values';
      FieldPrefix(values[0], values'[0], Fields(values[1..]), Fields(values'[1..]));
      FieldsInjective(values[1..], values'[1..]);
      assert values == [values[0]] + values[1..] && values' == [values'[0]] + values'[1..];
    }
  }

  lemma {:induction false} FieldsExtend(values: seq<Text>, v: Text)
    ensures Fields(values + [v]) == Fields(values) + Field(v)
  {
    if values == [] {
      assert Fields([v]) == Field(v) + Fields([v][1..]);
    } else {
      assert (values + [v])[1..] == values[1..] + [v];
      FieldsExtend(values[1..], v);
    }
  }

  function Ascii(s: string): Text { seq(|s|, i requires 0 <= i < |s| => Plain(s[i] as int % 256)) }

  // ----- The context -----

  const MAX_CONTEXT := 1024
  const CONTEXT_TAG := "wire-connect/opaque-context/v1"
  const HOST_ROLE := "wire-connect/role/host/v1"
  const GUEST_ROLE := "wire-connect/role/guest/v1"

  /** PairContext, from the canonical server address and the room. */
  function PairContext(server: Text, room: Text): Option<Text> {
    var b := Ascii(CONTEXT_TAG) + Fields([server, room, Ascii(HOST_ROLE), Ascii(GUEST_ROLE)]);
    if |b| > MAX_CONTEXT then None else Some(b)
  }

  lemma ContextInjective(server: Text, room: Text, server': Text, room': Text)
    requires PairContext(server, room).Some? && PairContext(server, room) == PairContext(server', room')
    ensures server == server' && room == room'
  {
    var fs := [server, room, Ascii(HOST_ROLE), Ascii(GUEST_ROLE)];
    var fs' := [server', room', Ascii(HOST_ROLE), Ascii(GUEST_ROLE)];
    var tag := Ascii(CONTEXT_TAG);
    assert (tag + Fields(fs))[|tag|..] == Fields(fs) && (tag + Fields(fs'))[|tag|..] == Fields(fs');
    FieldsAreLonger(fs);
    FieldsAreLonger(fs');
    FieldsInjective(fs, fs');
    assert server == fs[0] && server' == fs'[0] && room == fs[1] && room' == fs'[1];
  }

  lemma {:induction false} FieldsAreLonger(values: seq<Text>)
    ensures forall v :: v in values ==> |v| <= |Fields(values)|
  {
    if values != [] {
      FieldsAreLonger(values[1..]);
      assert forall v :: v in values ==> v == values[0] || v in values[1..];
    }
  }

  // ----- Frames -----

  const HEADER := 8
  const MAX_PAYLOAD := 0x4000
  const MAX_FRAME := HEADER + MAX_PAYLOAD
  const VERSION: Byte := 1
  const MAGIC: Text := [Plain(0x57), Plain(0x43), Plain(0x50), Plain(0x31)]

  datatype Kind = KE1 | KE2 | KE3 | GuestMac | HostMac {
    function Code(): Byte { match this case KE1 => 1 case KE2 => 2 case KE3 => 3 case GuestMac => 4 case HostMac => 5 }
  }

  /** appendPairFrame */
  function Frame(kind: Kind, payload: Text): Text {
    MAGIC + [Plain(VERSION), Plain(kind.Code())] + LengthBytes(|payload|, 2) + payload
  }

  /** The checks of receivePairFrame. */
  predicate FrameAccepted(frame: Text, expected: Kind) {
    && HEADER <= |frame| <= MAX_FRAME && frame[..4] == MAGIC
    && frame[4] == Plain(VERSION) && frame[5] == Plain(expected.Code())
    && LengthOf(frame[6..8]) == Some(|frame| - HEADER)
  }

  /** A frame is accepted exactly if it is the encoding of what is read from it. */
  lemma AcceptedIsFrame(frame: Text, kind: Kind)
    ensures FrameAccepted(frame, kind) <==> HEADER <= |frame| <= MAX_FRAME && frame == Frame(kind, frame[HEADER..])
  {
    if HEADER <= |frame| <= MAX_FRAME {
      var payload := frame[HEADER..];
      assert frame == frame[..4] + [frame[4], frame[5]] + frame[6..8] + payload;
      assert Power(2) == 0x1_0000;
      LengthRestores(|payload|, 2);
      if FrameAccepted(frame, kind) {
        BytesOfLength(frame[6..8]);
      }
      if frame == Frame(kind, payload) {
        assert frame[..4] == MAGIC && frame[6..8] == LengthBytes(|payload|, 2);
      }
    }
  }

  lemma FrameRoundTrip(kind: Kind, kind': Kind, payload: Text)
    requires |payload| <= MAX_PAYLOAD
    ensures Frame(kind, payload)[HEADER..] == payload
    ensures FrameAccepted(Frame(kind, payload), kind') <==> kind' == kind
  {
    var frame := Frame(kind, payload);
    assert frame[HEADER..] == payload;
    AcceptedIsFrame(frame, kind);
    assert frame[5] == Plain(kind.Code());
  }

  // ----- Transcript, root and confirmations -----

  function SideName(side: Role): Text { if side.Host? then Ascii("host") else Ascii("guest") }

  function Transcript(context: Text, frames: seq<Text>): Text {
    Output(Hash(Ascii("wire-connect/pair-transcript/v1") + Fields([context] + frames)))
  }

  function Root(secret: Secret, transcript: Text, context: Text): Text {
    Output(Kdf(secret, transcript, Ascii("wire-connect/pair-root/v1\0") + context))
  }

  function ConfirmationInput(side: Role, transcript: Text): Text {
    Ascii("wire-connect/pair-confirm/v1\0") + Fields([SideName(side), transcript])
  }

  function Confirmation(root: Text, side: Role, transcript: Text): Text {
    Output(Mac(root, ConfirmationInput(side, transcript)))
  }

  /** PairID */
  function PairId(root: Text): Text {
    if root == [] then [] else Output(Mac(root, Ascii("wire-connect/pair-id/v1")))
  }

  lemma TranscriptInjective(context: Text, frames: seq<Text>, context': Text, frames': seq<Text>)
    requires Encodable([context] + frames) && Encodable([context'] + frames')
    requires Transcript(context, frames) == Transcript(context', frames')
    ensures context == context' && frames == frames'
  {
    var tag := Ascii("wire-connect/pair-transcript/v1");
    OutputInjective(Hash(tag + Fields([context] + frames)), Hash(tag + Fields([context'] + frames')));
    assert (tag + Fields([context] + frames))[|tag|..] == Fields([context] + frames);
    assert (tag + Fields([context'] + frames'))[|tag|..] == Fields([context'] + frames');
    FieldsInjective([context] + frames, [context'] + frames');
    assert ([context] + frames)[0] == context && ([context] + frames)[1..] == frames;
    assert ([context'] + frames')[0] == context' && ([context'] + frames')[1..] == frames';
  }

  lemma ConfirmationInjective(root: Text, side: Role, transcript: Text, root': Text, side': Role, transcript': Text)
    requires |transcript| == DIGEST_SIZE == |transcript'|
    requires Confirmation(root, side, transcript) == Confirmation(root', side', transcript')
    ensures root == root' && side == side' && transcript == transcript'
  {
    var tag := Ascii("wire-connect/pair-confirm/v1\0");
    OutputInjective(Mac(root, ConfirmationInput(side, transcript)), Mac(root', ConfirmationInput(side', transcript')));
    var fs, fs' := [SideName(side), transcript], [SideName(side'), transcript'];
    assert (tag + Fields(fs))[|tag|..] == Fields(fs) && (tag + Fields(fs'))[|tag|..] == Fields(fs');
    FieldsInjective(fs, fs');
    assert fs[0] == fs'[0] && fs[1] == fs'[1];
    assert |Ascii("host")| == 4 && |Ascii("guest")| == 5;
  }

  lemma RootInjective(secret: Secret, transcript: Text, context: Text, secret': Secret, transcript': Text,
                      context': Text)
    requires Root(secret, transcript, context) == Root(secret', transcript', context')
    ensures secret == secret' && transcript == transcript' && context == context'
  {
    var tag := Ascii("wire-connect/pair-root/v1\0");
    OutputInjective(Kdf(secret, transcript, tag + context), Kdf(secret', transcript', tag + context'));
    assert (tag + context)[|tag|..] == context && (tag + context')[|tag|..] == context';
  }

  /** Two pairings have the same identifier exactly if they have the same root. */
  lemma PairIdIdentifies(root: Text, root': Text)
    ensures PairId(root) == PairId(root') <==> root == root'
  {
    var tag := Ascii("wire-connect/pair-id/v1");
    if root != [] && root' != [] && PairId(root) == PairId(root') {
      OutputInjective(Mac(root, tag), Mac(root', tag));
    }
    if root != [] { assert PairId(root)[0] == Out(Mac(root, tag), 0); }
    if root' != [] { assert PairId(root')[0] == Out(Mac(root', tag), 0); }
  }
}
