/** The client sender of rtsp-server/xop/RtpConnection.cpp. The packet buffer it
    writes its header into is shared with other clients. */
module RtpConnection {
  import opened Bytes
  import opened Wrappers
  import opened Payload
  import opened RtpState
  import opened RtpPacket

  /** A client's state and the messages it has handed to its transport. */
  datatype Sender = Sender(conn: Conn, wire: seq<seq<Byte>>)

  /** The client after one task. */
  function AfterMedia(s: Sender, chn: nat, m: Media, taken: bool): Sender
    requires chn < |s.conn.channels|
  {
    var out := HandedByTask(s.conn, chn, m);
    Sender(AfterTask(s.conn, chn, m, taken), if out.None? then s.wire else s.wire + [out.value])
  }

  ghost function MediaOf(pkt: RtpPacket): Media
    requires pkt.Valid() && HEAD <= pkt.size
    reads pkt, pkt.data
  {
    Media(pkt.data[HEAD..pkt.size], pkt.last, pkt.timestamp, pkt.kind)
  }

  lemma FrameIs(ch: Channel, m: Media, size: nat)
    requires |ch.ssrc| == 4 && size == HEAD + |m.payload|
    ensures [0x24, ch.rtp_channel] + Be16(size - 4) + (Header(ch, m) + m.payload) == Interleaved(ch, m)
  {
    hide Header;
  }

  class RtpConnection {
    const attached: bool
    var channels: seq<Channel>
    var transport: Transport
    var is_closed: bool
    var has_key_frame: bool
    var wire: seq<seq<Byte>>

    ghost function Model(): Conn
      reads this
    {
      Conn(attached, channels, transport, is_closed, has_key_frame)
    }

    ghost function State(): Sender
      reads this
    {
      Sender(Model(), wire)
    }

    constructor (attached: bool, channels: seq<Channel>)
      ensures Model() == Conn(attached, channels, NoTransport, false, false) && wire == []
    {
      this.attached := attached;
      this.channels := channels;
      transport := NoTransport;
      is_closed, has_key_frame := false, false;
      wire := [];
    }

    method SetupRtpOverTcp(chn: nat, rtp_channel: Byte) returns (ok: bool)
      requires chn < |channels|
      modifies this`channels, this`transport
      ensures ok == attached && Model() == SetUpTcp(old(Model()), chn, rtp_channel)
      ensures transport == (if ok then OverTcp else old(transport))
      ensures channels == if ok then old(channels)[chn := old(channels)[chn].(rtp_channel := rtp_channel, is_setup := true)]
                          else old(channels)
    {
      if !attached {
        return false;
      }
      channels := channels[chn := channels[chn].(rtp_channel := rtp_channel, is_setup := true)];
      transport := OverTcp;
      return true;
    }

    /** `bound` tells whether ten random port pairs were enough to bind one. */
    method SetupRtpOverUdp(chn: nat, bound: bool) returns (ok: bool)
      requires chn < |channels|
      modifies this`channels, this`transport
      ensures ok == (attached && bound) && Model() == SetUpUdp(old(Model()), chn, bound)
      ensures transport == (if ok then OverUdp else old(transport))
      ensures channels == if ok then old(channels)[chn := old(channels)[chn].(is_setup := true)] else old(channels)
    {
      if !attached || !bound {
        return false;
      }
      channels := channels[chn := channels[chn].(is_setup := true)];
      transport := OverUdp;
      return true;
    }

    method SetupRtpOverMulticast(chn: nat, bound: bool) returns (ok: bool)
      requires chn < |channels|
      modifies this`channels, this`transport
      ensures ok == bound && Model() == SetUpMulticast(old(Model()), chn, bound)
      ensures transport == (if ok then OverMulticast else old(transport))
      ensures channels == if ok then old(channels)[chn := old(channels)[chn].(is_setup := true)] else old(channels)
    {
      if !bound {
        return false;
      }
      channels := channels[chn := channels[chn].(is_setup := true)];
      transport := OverMulticast;
      return true;
    }

    method Start(record: bool)
      modifies this`channels
      ensures Model() == Played(old(Model()), record)
    {
      var chn := 0;
      while chn < |channels|
        invariant chn <= |channels| == |old(channels)|
        invariant forall i :: 0 <= i < chn ==> channels[i] == Played(old(Model()), record).channels[i]
        invariant forall i :: chn <= i < |channels| ==> channels[i] == old(channels)[i]
      {
        if channels[chn].is_setup {
          if record {
            channels := channels[chn := channels[chn].(is_record := true)];
          }
          channels := channels[chn := channels[chn].(is_play := true)];
        }
        chn := chn + 1;
      }
    }

    method Play()
      modifies this`channels
      ensures Model() == Played(old(Model()), false)
      ensures |channels| == |old(channels)|
      ensures forall i :: 0 <= i < |channels| ==>
                var was := old(channels)[i];
                channels[i] == was.(is_play := was.is_play || was.is_setup)
    {
      Start(false);
    }

    method Record()
      modifies this`channels
      ensures Model() == Played(old(Model()), true)
      ensures |channels| == |old(channels)|
      ensures forall i :: 0 <= i < |channels| ==>
                var was := old(channels)[i];
                channels[i] == was.(is_play := was.is_play || was.is_setup, is_record := was.is_record || was.is_setup)
    {
      Start(true);
    }

    method Teardown()
      modifies this`channels, this`is_closed
      ensures Model() == TornDown(old(Model())) && |channels| == |old(channels)|
      ensures is_closed == (old(is_closed) || !transport.OverMulticast?)
      ensures forall i :: 0 <= i < |channels| ==>
                var was := old(channels)[i];
                channels[i] == if old(is_closed) || transport.OverMulticast? then was
                               else was.(is_play := false, is_record := false)
    {
      if !is_closed && !transport.OverMulticast? {
        is_closed := true;
        var chn := 0;
        while chn < |channels|
          invariant is_closed && chn <= |channels| == |old(channels)|
          invariant forall i :: 0 <= i < chn ==> channels[i] == TornDown(old(Model())).channels[i]
          invariant forall i :: chn <= i < |channels| ==> channels[i] == old(channels)[i]
        {
          channels := channels[chn := channels[chn].(is_play := false, is_record := false)];
          chn := chn + 1;
        }
        assert channels == TornDown(old(Model())).channels;
      }
    }

    method SetFrameType(kind: FrameType)
      modifies this`has_key_frame
      ensures has_key_frame == (old(has_key_frame) || kind == FrameType.None || kind == VideoFrameIdr)
    {
      if !has_key_frame && (kind == FrameType.None || kind == VideoFrameIdr) {
        has_key_frame := true;
      }
    }

    /** Writes this client's header into the shared buffer, over whatever the
        client before left there. */
    method SetRtpHeader(chn: nat, pkt: RtpPacket)
      requires chn < |channels| && |channels[chn].ssrc| == 4
      requires pkt.Valid() && HEAD <= pkt.size
      modifies this`channels, pkt.data
      ensures var ch := old(channels[chn]);
              if ch.Active() && has_key_frame
              then Model() == NumberUsed(old(Model()), chn) && pkt.data[4..HEAD] == Header(ch, old(MediaOf(pkt)))
              else Model() == old(Model())
      ensures pkt.data[HEAD..] == old(pkt.data[HEAD..]) && MediaOf(pkt) == old(MediaOf(pkt))
    {
      var ch := channels[chn];
      if ch.Active() && has_key_frame {
        var header := Header(ch, Media([], pkt.last, pkt.timestamp, pkt.kind));
        channels := channels[chn := ch.(packet_seq := (ch.packet_seq + 1) % SEQ_MOD)];
        forall k | 0 <= k < RTP_HEADER_SIZE {
          pkt.data[4 + k] := header[k];
        }
        assert pkt.data[4..HEAD] == header == Header(ch, old(MediaOf(pkt)));
        assert pkt.data[HEAD..pkt.size] == old(pkt.data[HEAD..pkt.size]);
      }
    }

    /** Frames the packet in the buffer and has the RTSP connection copy it. */
    method SendRtpOverTcp(ch: Channel, pkt: RtpPacket)
      requires pkt.Valid() && HEAD <= pkt.size
      modifies this`wire, pkt.data
      ensures pkt.data[4..] == old(pkt.data[4..])
      ensures wire == old(wire) +
                      if attached then [[0x24, ch.rtp_channel] + Be16(pkt.size - 4) + old(pkt.data[4..pkt.size])] else []
    {
      hide FromNat;
      if !attached {
        return;
      }
      pkt.data[0] := 0x24;
      pkt.data[1] := ch.rtp_channel;
      pkt.data[2] := FromNat((pkt.size - 4) / 256);
      pkt.data[3] := FromNat(pkt.size - 4);
      assert pkt.data[..pkt.size] == [0x24, ch.rtp_channel] + Be16(pkt.size - 4) + pkt.data[4..pkt.size];
      wire := wire + [pkt.data[..pkt.size]];
    }

    method SendRtpOverUdp(pkt: RtpPacket, taken: bool)
      requires pkt.Valid() && HEAD <= pkt.size
      modifies this`wire, this`channels, this`is_closed
      ensures wire == old(wire) + [pkt.data[4..pkt.size]]
      ensures Model() == if taken then old(Model()) else TornDown(old(Model()))
    {
      wire := wire + [pkt.data[4..pkt.size]];
      if !taken {
        Teardown();
      }
    }

    /** Hands the packet in the buffer, header included, to the transport. */
    method Transmit(ch: Channel, pkt: RtpPacket, taken: bool, ghost m: Media)
      requires pkt.Valid() && HEAD <= pkt.size == HEAD + |m.payload| && |ch.ssrc| == 4
      requires pkt.data[4..pkt.size] == Header(ch, m) + m.payload
      modifies this`wire, this`channels, this`is_closed, pkt.data
      ensures pkt.data[HEAD..] == old(pkt.data[HEAD..])
      ensures Model() == if (transport.OverUdp? || transport.OverMulticast?) && !taken
                         then TornDown(old(Model())) else old(Model())
      ensures wire == old(wire) +
                      match transport
                      case OverTcp => if attached then [Interleaved(ch, m)] else []
                      case NoTransport => []
                      case _ => [Header(ch, m) + m.payload]
    {
      hide Header, Interleaved, FromNat, TornDown;
      if transport.OverTcp? {
        FrameIs(ch, m, pkt.size);
        ghost var behind := pkt.data[4..];
        SendRtpOverTcp(ch, pkt);
        assert pkt.data[HEAD..] == pkt.data[4..][RTP_HEADER_SIZE..] == behind[RTP_HEADER_SIZE..];
      } else if transport.OverUdp? || transport.OverMulticast? {
        SendRtpOverUdp(pkt, taken);
      }
    }

    /** The task that `SendRtpPacket` queues. */
    method RunTask(chn: nat, pkt: RtpPacket, taken: bool)
      requires chn < |channels| && |channels[chn].ssrc| == 4
      requires pkt.Valid() && HEAD <= pkt.size
      modifies this, pkt.data
      ensures State() == AfterMedia(old(State()), chn, old(MediaOf(pkt)), taken)
      ensures pkt.data[HEAD..] == old(pkt.data[HEAD..])
    {
      hide Header, Interleaved, TornDown;
      ghost var m, c := MediaOf(pkt), Model();
      var ch := channels[chn];
      SetFrameType(pkt.kind);
      assert Model() == SawFrame(c, m);
      SetRtpHeader(chn, pkt);
      assert Sends(c, chn, m) <==> ch.Active() && has_key_frame;
      if channels[chn].Active() && has_key_frame {
        assert pkt.data[4..pkt.size] == pkt.data[4..HEAD] + pkt.data[HEAD..pkt.size];
        Transmit(ch, pkt, taken, m);
      }
    }
  }
}
