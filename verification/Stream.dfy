/** From an Annex B access unit to the receiver and back. */
module Stream {
  import opened Bytes
  import opened Wrappers
  import opened Payload
  import opened AnnexB
  import opened RtpPacket
  import opened Depacketizer
  import opened RtpState
  import opened RtpConnection
  import opened FanOut

  /** Splitting, packetizing and depacketizing return the units of the access
      unit, in order, for any mix of start codes and any unit sizes. */
  lemma StreamRoundTrip(c: Codec, frames: seq<Framed>)
    requires Splittable(frames)
    requires forall f :: f in frames ==> c.Carries(f.nal)
    ensures Depacketize(c, Packetize(c, Split(Join(frames)), 0), Option.None) == Some(Nals(frames))
  {
    hide Split, Join, Splittable, Depacketize, Packetize, Codec.Carries;
    var nals := Nals(frames);
    JoinThenSplit(frames);
    forall nal | nal in nals
      ensures c.Carries(nal)
    {
      var k :| 0 <= k < |nals| && nals[k] == nal;
      assert frames[k] in frames;
    }
    RoundTrip(c, nals, 0);
    assert nals[0..] == nals;
  }

  /** What a sink saw when `HandleFrame` reported success is enough for the
      receiver to rebuild the access unit. */
  lemma ReceiverRebuilds(c: Codec, frames: seq<Framed>, accept: nat -> bool, before: seq<Packet>, after: seq<Packet>)
    requires Splittable(frames)
    requires forall f :: f in frames ==> c.Carries(f.nal)
    requires Delivered(accept, before, after, Packetize(c, Split(Join(frames)), 0), true)
    ensures before <= after && Depacketize(c, after[|before|..], Option.None) == Some(Nals(frames))
  {
    hide Split, Join, Splittable, Depacketize, Packetize, Codec.Carries;
    StreamRoundTrip(c, frames);
    var packets := Packetize(c, Split(Join(frames)), 0);
    assert packets[..|packets|] == packets && after[|before|..] == packets;
  }

  // ---------------------------------------------------------------------------
  // Through a client's transport
  // ---------------------------------------------------------------------------

  /** The packets a receiver reads from the messages of a client. The frame type
      does not travel. */
  function Received(messages: seq<seq<Byte>>): (packets: seq<Packet>)
    ensures |packets| == |messages|
  {
    seq(|messages|, k requires 0 <= k < |messages| =>
      match ReadWire(messages[k])
      case None => Packet([], false, FrameType.None)
      case Some(rtp) => Packet(rtp.payload, rtp.marker, FrameType.None))
  }

  /** A receiver looks at the payloads only. */
  lemma {:induction false} PayloadsDecide(c: Codec, a: seq<Packet>, b: seq<Packet>, partial: Option<Nal>)
    requires |a| == |b| && forall k :: 0 <= k < |a| ==> a[k].payload == b[k].payload
    ensures Depacketize(c, a, partial) == Depacketize(c, b, partial)
  {
    hide Parse;
    if a != [] {
      assert forall k :: 0 <= k < |a[1..]| ==> a[1..][k].payload == b[1..][k].payload;
      match Parse(c, a[0].payload)
      case Piece(first, last, header, body) =>
        PayloadsDecide(c, a[1..], b[1..], Option.None);
        var start := if first then header else if partial.Some? then partial.value else [];
        PayloadsDecide(c, a[1..], b[1..], Some(start + body));
      case _ => PayloadsDecide(c, a[1..], b[1..], Option.None);
    }
  }

  /** When the packets of some units are the tasks of a playing client that has seen a
      key frame, or sees one first, the receiver behind its transport rebuilds exactly
      these units, whatever clients share the packet buffers and the scheduler. */
  lemma ClientRebuilds(c: Codec, units: seq<Nal>, client: RtpConnection, s: Sender, infos: seq<Info>, taken: nat -> bool)
    requires forall nal :: nal in units ==> c.Carries(nal)
    requires ConnInv(s.conn) && AllFlow(client, s.conn, infos)
    requires forall i :: 0 <= i < |infos| && infos[i].conn == client ==> infos[i].media.Fits() && taken(i)
    requires var own, packets := OwnInfos(client, infos), Packetize(c, units, 0);
             && (s.conn.has_key_frame || (own != [] && own[0].media.IsKey()))
             && |own| == |packets| && forall k :: 0 <= k < |own| ==> own[k].media.payload == packets[k].payload
    ensures var r := OwnTasks(client, s, infos, taken, |infos|);
            && |s.wire| <= |r.wire| && Depacketize(c, Received(r.wire[|s.wire|..]), Option.None) == Some(units)
            && Arrived(s.conn, s.wire, r.wire, OwnInfos(client, infos))
  {
    hide Depacketize, Packetize, Codec.Carries, OwnInfos, OwnTasks, AllFlow, ConnInv, SameIdentity, Shown, OwnMessage;
    RoundTrip(c, units, 0);
    assert units[0..] == units;
    EveryPacketArrives(client, s, infos, taken, |infos|);
    assert infos[..|infos|] == infos;
    var r, own := OwnTasks(client, s, infos, taken, |infos|), OwnInfos(client, infos);
    ShownAll(own, s.conn.has_key_frame);
    var messages := r.wire[|s.wire|..];
    forall k | 0 <= k < |messages|
      ensures Received(messages)[k].payload == own[k].media.payload
    {
      OwnPayload(r.wire[|s.wire| + k], s.conn, own[k]);
    }
    PayloadsDecide(c, Received(messages), Packetize(c, units, 0), Option.None);
  }

  lemma OwnPayload(bytes: seq<Byte>, c: Conn, t: Info)
    requires t.chn < |c.channels| && OwnMessage(bytes, c, t)
    ensures ReadWire(bytes).Some? && ReadWire(bytes).value.payload == t.media.payload
  {
  }
}
