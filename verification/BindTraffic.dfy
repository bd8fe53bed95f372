/**
Packets and byte counters of the transport (internal/transport/bind.go): sendOne,
the bounded receive queue, and the WireGuard receive callback.
*/
module BindTraffic {
  import opened Common

  const MAX_PACKET_SIZE := 0xFFFF
  const QUEUE_DEPTH := 128

  datatype TrafficPath = Direct | Relay

  datatype Entry = Entry(path: TrafficPath, packet: Bytes)

  function TotalBytes(log: seq<Entry>): nat {
    if log == [] then 0 else TotalBytes(log[..|log| - 1]) + |log[|log| - 1].packet|
  }

  function BytesOn(log: seq<Entry>, path: TrafficPath): nat {
    if log == [] then 0
    else BytesOn(log[..|log| - 1], path) + (if log[|log| - 1].path == path then |log[|log| - 1].packet| else 0)
  }

  lemma {:induction false} PathsPartitionBytes(log: seq<Entry>)
    ensures TotalBytes(log) == BytesOn(log, Direct) + BytesOn(log, Relay)
  {
    if log != [] { PathsPartitionBytes(log[..|log| - 1]); }
  }

  ghost predicate Counts(log: seq<Entry>, total: nat, direct: nat, relay: nat) {
    total == TotalBytes(log) && direct == BytesOn(log, Direct) && relay == BytesOn(log, Relay)
  }

  lemma CountsOneMore(log: seq<Entry>, e: Entry, total: nat, direct: nat, relay: nat)
    requires Counts(log, total, direct, relay)
    ensures Counts(log + [e], total + |e.packet|, direct + (if e.path.Direct? then |e.packet| else 0),
                   relay + (if e.path.Relay? then |e.packet| else 0))
  {
    assert (log + [e])[..|log|] == log;
  }

  /** What a write on a path did; Absent: the path was not there. */
  datatype Written = Absent | Wrote(n: nat) | WriteFailed

  datatype SendResult = Sent | SendFailed | NoTransport | SendClosed

  datatype Received = Packet(packet: Bytes) | ShortBuffer(prefix: Bytes) | NetClosed | Blocked

  class Traffic {
    var bytesSent: nat
    var directSent: nat
    var relaySent: nat
    var bytesReceived: nat
    var directReceived: nat
    var relayReceived: nat
    var inbound: seq<Bytes>
    var stopped: bool

    /** Packets a send reported as sent; packets admitted to the queue, in order. */
    ghost var sent: seq<Entry>
    ghost var admitted: seq<Entry>
    /** How many admitted packets have left the queue, and which of those reached WireGuard. */
    ghost var taken: nat
    ghost var delivered: seq<nat>
    ghost var discarded: set<nat>

    ghost predicate Valid() reads this {
      && Counts(sent, bytesSent, directSent, relaySent)
      && Counts(admitted, bytesReceived, directReceived, relayReceived)
      && QueueFits(inbound, admitted, taken, delivered, discarded) && |inbound| <= QUEUE_DEPTH
    }

    static ghost predicate QueueFits(inbound: seq<Bytes>, admitted: seq<Entry>, taken: nat, delivered: seq<nat>,
                                     discarded: set<nat>) {
      && taken <= |admitted| && |inbound| == |admitted| - taken
      && (forall i :: 0 <= i < |inbound| ==> inbound[i] == admitted[taken + i].packet)
      && (forall i :: 0 <= i < |delivered| ==> delivered[i] < taken)
      && (forall i, j :: 0 <= i < j < |delivered| ==> delivered[i] < delivered[j])
      && (forall k :: 0 <= k < taken ==> (k in delivered <==> k !in discarded))
      && (forall k :: k in discarded ==> k < taken)
    }

    static lemma AdmitOne(inbound: seq<Bytes>, admitted: seq<Entry>, taken: nat, delivered: seq<nat>,
                          discarded: set<nat>, e: Entry)
      requires QueueFits(inbound, admitted, taken, delivered, discarded)
      ensures QueueFits(inbound + [e.packet], admitted + [e], taken, delivered, discarded)
    {}

    /** The oldest packet leaves the queue, to WireGuard or to nobody. */
    static lemma TakeOne(inbound: seq<Bytes>, admitted: seq<Entry>, taken: nat, delivered: seq<nat>,
                         discarded: set<nat>)
      requires QueueFits(inbound, admitted, taken, delivered, discarded) && inbound != []
      ensures taken < |admitted| && inbound[0] == admitted[taken].packet
      ensures QueueFits(inbound[1..], admitted, taken + 1, delivered + [taken], discarded)
      ensures QueueFits(inbound[1..], admitted, taken + 1, delivered, discarded + {taken})
    {}

    constructor ()
      ensures Valid() && sent == [] && admitted == [] && delivered == [] && discarded == {} && !stopped
    {
      bytesSent, directSent, relaySent, bytesReceived, directReceived, relayReceived := 0, 0, 0, 0, 0, 0;
      inbound, stopped := [], false;
      sent, admitted, taken, delivered, discarded := [], [], 0, [], {};
    }

    method RecordSent(path: TrafficPath, packet: Bytes)
      requires Counts(sent, bytesSent, directSent, relaySent)
      modifies this`bytesSent, this`directSent, this`relaySent, this`sent
      ensures Counts(sent, bytesSent, directSent, relaySent)
      ensures sent == old(sent) + [Entry(path, packet)]
    {
      CountsOneMore(sent, Entry(path, packet), bytesSent, directSent, relaySent);
      sent := sent + [Entry(path, packet)];
      if |packet| == 0 { return; }
      bytesSent := bytesSent + |packet|;
      match path
      case Direct => directSent := directSent + |packet|;
      case Relay => relaySent := relaySent + |packet|;
    }

    /** sendOne, given what the writes it may attempt would do. */
    method SendOne(packet: Bytes, direct: Written, relay: Written) returns (r: SendResult)
      requires Valid()
      modifies this`bytesSent, this`directSent, this`relaySent, this`sent
      ensures Valid()
      ensures r.Sent? <==> direct == Wrote(|packet|) || relay.Wrote?
      ensures r.Sent? ==> sent == old(sent) + [Entry(if direct == Wrote(|packet|) then Direct else Relay, packet)]
      ensures !r.Sent? ==> sent == old(sent)
      ensures r.NoTransport? <==> !stopped && direct.Absent? && relay.Absent?
      ensures r.SendClosed? <==> stopped && !(direct == Wrote(|packet|) || relay.Wrote?)
    {
      var failed := false;
      if !direct.Absent? {
        if direct == Wrote(|packet|) {
          RecordSent(Direct, packet);
          return Sent;
        }
        failed := true;
      }
      if !relay.Absent? {
        if relay.Wrote? {
          RecordSent(Relay, packet);
          return Sent;
        }
        failed := true;
      }
      return if stopped then SendClosed else if failed then SendFailed else NoTransport;
    }

    method RecordReceived(path: TrafficPath, packet: Bytes)
      requires Counts(admitted, bytesReceived, directReceived, relayReceived)
      modifies this`bytesReceived, this`directReceived, this`relayReceived, this`admitted
      ensures Counts(admitted, bytesReceived, directReceived, relayReceived)
      ensures admitted == old(admitted) + [Entry(path, packet)]
    {
      CountsOneMore(admitted, Entry(path, packet), bytesReceived, directReceived, relayReceived);
      admitted := admitted + [Entry(path, packet)];
      if |packet| == 0 { return; }
      bytesReceived := bytesReceived + |packet|;
      match path
      case Direct => directReceived := directReceived + |packet|;
      case Relay => relayReceived := relayReceived + |packet|;
    }

    /** enqueue: a full queue drops the packet, and a dropped packet is not counted. */
    method Enqueue(path: TrafficPath, packet: Bytes)
      requires Valid()
      modifies this`inbound, this`bytesReceived, this`directReceived, this`relayReceived, this`admitted
      ensures Valid()
      ensures admitted == if 0 < |packet| <= MAX_PACKET_SIZE && !stopped && |old(inbound)| < QUEUE_DEPTH
                          then old(admitted) + [Entry(path, packet)] else old(admitted)
    {
      hide QueueFits, Counts;
      if |packet| == 0 || |packet| > MAX_PACKET_SIZE || stopped { return; }
      if |inbound| == QUEUE_DEPTH { return; }
      AdmitOne(inbound, admitted, taken, delivered, discarded, Entry(path, packet));
      inbound := inbound + [packet];
      RecordReceived(path, packet);
    }

    /**
    The callback of one generation, which may be closed before the call, be found
    closed by the select, or close after a packet was taken.  `room` is the length
    of the first buffer.
    */
    method Receive(room: nat, closedBefore: bool, selectsClosed: bool, closedAfter: bool) returns (r: Received)
      requires Valid()
      modifies this`inbound, this`taken, this`delivered, this`discarded
      ensures Valid()
      ensures closedBefore || stopped ==> r == NetClosed && taken == old(taken)
      ensures r.Blocked? <==> old(inbound) == [] && !closedBefore && !stopped && !selectsClosed
      ensures r.Blocked? ==> taken == old(taken)
      ensures r.NetClosed? <==>
        closedBefore || stopped || selectsClosed || (old(inbound) != [] && closedAfter)
      ensures !closedBefore && !stopped && !selectsClosed && old(inbound) != [] ==> taken == old(taken) + 1
      ensures !closedBefore && !stopped && !selectsClosed && !closedAfter && old(inbound) != [] ==>
        r == if |old(inbound)[0]| <= room then Packet(old(inbound)[0]) else ShortBuffer(old(inbound)[0][..room])
      ensures r.Packet? ==> taken == old(taken) + 1 && delivered == old(delivered) + [old(taken)]
      ensures r.Packet? ==> discarded == old(discarded)
      ensures r.Packet? ==> r.packet == admitted[old(taken)].packet && |r.packet| <= room && !closedAfter
      ensures !r.Packet? ==> delivered == old(delivered)
      ensures r.NetClosed? && taken == old(taken) ==> discarded == old(discarded)
      ensures r.NetClosed? && taken != old(taken) ==> closedAfter && taken == old(taken) + 1
      ensures r.NetClosed? && taken != old(taken) ==> discarded == old(discarded) + {old(taken)}
      ensures r.ShortBuffer? ==> taken == old(taken) + 1 && discarded == old(discarded) + {old(taken)}
      ensures r.ShortBuffer? ==> room < |admitted[old(taken)].packet| && r.prefix == admitted[old(taken)].packet[..room]
      ensures inbound == old(inbound)[taken - old(taken)..]
    {
      hide Counts;
      if closedBefore || stopped || selectsClosed { return NetClosed; }
      if inbound == [] { return Blocked; }
      TakeOne(inbound, admitted, taken, delivered, discarded);
      hide QueueFits;
      var packet := inbound[0];
      inbound := inbound[1..];
      taken := taken + 1;
      if closedAfter {
        discarded := discarded + {taken - 1};
        return NetClosed;
      }
      if |packet| > room {
        discarded := discarded + {taken - 1};
        return ShortBuffer(packet[..room]);
      }
      delivered := delivered + [taken - 1];
      return Packet(packet);
    }
  }
}
