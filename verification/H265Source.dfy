/** The packetizer of rtsp-server/xop/H265Source.cpp. */
module H265Source {
  import opened Bytes
  import opened Payload
  import opened RtpPacket
  import AnnexB

  const C := H265

  /** Aggregation packet: units nal_index..end_index in one packet. */
  method SendAggregate(nals: seq<Nal>, nal_index: nat, end_index: nat, size_count: nat, pkt: RtpPacket, sink: FrameSink)
    returns (ok: bool)
    requires pkt.Valid() && nal_index <= end_index < |nals|
    requires size_count == 2 + Total(nals, nal_index, end_index + 1) <= MAX_RTP_PAYLOAD_SIZE
    modifies pkt, pkt.data, sink
    ensures pkt.Valid()
    ensures Delivered(sink.accept, old(sink.log), sink.log, [Aggregate(C, nals[nal_index..end_index + 1])], ok)
  {
    hide GroupKind, MinLayerId, MinTemporalId, Entries, Total, Delivered;
    var data := pkt.data;
    pkt.size := HEAD + size_count;
    pkt.last := true;
    var lowest_layer_id, lowest_temporal_id, all_frame_type;
    ghost var head;
    lowest_layer_id, lowest_temporal_id, all_frame_type, head := FillAggregate(nals, nal_index, end_index, data);
    ghost var entries := Entries(nals[nal_index..end_index + 1]);
    assert data[HEAD + 2..HEAD + size_count] == data[..HEAD + size_count][HEAD + 2..] == entries;
    WritePayloadHeader(lowest_layer_id, lowest_temporal_id, data, size_count);
    pkt.kind := all_frame_type;
    assert pkt.Snapshot() == Aggregate(C, nals[nal_index..end_index + 1]);
    SentOnly(sink.accept, sink.log, pkt.Snapshot(), sink.accept(|sink.log|));
    ok := sink.Send(pkt);
  }

  method WritePayloadHeader(layer_id: Byte, temporal_id: Byte, data: array<Byte>, size_count: nat)
    requires data.Length == BUFFER_SIZE && 2 <= size_count <= MAX_RTP_PAYLOAD_SIZE
    modifies data
    ensures data[HEAD..HEAD + size_count] ==
            [((layer_id & 0x3f) >> 5) | (48 << 1), ((layer_id & 0x3f) << 3) | (temporal_id & 0x07)]
            + old(data[HEAD + 2..HEAD + size_count])
  {
    data[HEAD] := ((layer_id & 0x3f) >> 5) | (48 << 1);
    data[HEAD + 1] := ((layer_id & 0x3f) << 3) | (temporal_id & 0x07);
  }

  method FillAggregate(nals: seq<Nal>, nal_index: nat, end_index: nat, data: array<Byte>)
    returns (lowest_layer_id: Byte, lowest_temporal_id: Byte, all_frame_type: FrameType, ghost head: seq<Byte>)
    requires nal_index <= end_index < |nals| && data.Length == BUFFER_SIZE
    requires 2 + Total(nals, nal_index, end_index + 1) <= MAX_RTP_PAYLOAD_SIZE
    modifies data
    ensures var group, size := nals[nal_index..end_index + 1], 2 + Total(nals, nal_index, end_index + 1);
            && |head| == HEAD + 2 && data[..HEAD + size] == head + Entries(group)
            && lowest_layer_id == MinLayerId(group) && lowest_temporal_id == MinTemporalId(group)
            && all_frame_type == GroupKind(C, group)
  {
    hide GroupKind, MaxRefIdc, MinLayerId, MinTemporalId, Entries, Total, Be16;
    hide Codec.RtpFrameType, GetRefIdc, GetLayerId, GetTemporalId;
    var skip := 2;
    lowest_layer_id, lowest_temporal_id := 0x3f, 0x07;
    all_frame_type := FrameType.None;
    var i := nal_index;
    head := data[..HEAD + 2];
    NoUnits(C, nals, nal_index);
    while i <= end_index
      invariant nal_index <= i <= end_index + 1
      invariant skip == 2 + Total(nals, nal_index, i) <= MAX_RTP_PAYLOAD_SIZE
      invariant data[..HEAD + skip] == head + Entries(nals[nal_index..i])
      invariant lowest_layer_id == MinLayerId(nals[nal_index..i])
      invariant lowest_temporal_id == MinTemporalId(nals[nal_index..i])
      invariant all_frame_type == GroupKind(C, nals[nal_index..i])
    {
      var nal_unit := nals[i];
      TotalGrows(nals, nal_index, i + 1, end_index + 1);
      NextUnit(C, nals, nal_index, i);
      var layer_id, temporal_id, frame_type := GetLayerId(nal_unit), GetTemporalId(nal_unit), C.RtpFrameType(nal_unit);
      lowest_layer_id := if lowest_layer_id > layer_id then layer_id else lowest_layer_id;
      lowest_temporal_id := if lowest_temporal_id > temporal_id then temporal_id else lowest_temporal_id;
      all_frame_type :=
        if frame_type == VideoFrameIdr then VideoFrameIdr
        else if all_frame_type == FrameType.None then frame_type
        else all_frame_type;
      skip := AppendUnit(C, nals, nal_index, i, skip, data, head);
      i := i + 1;
    }
  }

  /** Payload header and FU header, before the start bit is set. */
  method WriteFuHeader(nal_unit: Nal, data: array<Byte>)
    requires |nal_unit| > 2 && data.Length == BUFFER_SIZE
    modifies data
    ensures data[HEAD] == (nal_unit[0] & 0x81) | (49 << 1) && data[HEAD + 1] == nal_unit[1]
    ensures data[HEAD + 2] == C.GetType(nal_unit) & 0x3f
  {
    var n := CopyData(nal_unit, data, HEAD, 2, 0);
    assert data[HEAD] == data[HEAD..HEAD + 2][0] && data[HEAD + 1] == data[HEAD..HEAD + 2][1];
    data[HEAD] := data[HEAD] & 0x81;
    data[HEAD] := data[HEAD] | (49 << 1);
    data[HEAD + 2] := C.GetType(nal_unit) & 0x3f;
  }

  /** Fragmentation units: the header bytes are patched in place while the body
      runs through the same buffer. */
  method SendFragments(nal_unit: Nal, pkt: RtpPacket, sink: FrameSink) returns (ok: bool)
    requires pkt.Valid() && |nal_unit| > MAX_RTP_PAYLOAD_SIZE
    modifies pkt, pkt.data, sink
    ensures pkt.Valid()
    ensures Delivered(sink.accept, old(sink.log), sink.log, Alone(C, nal_unit), ok)
  {
    hide Left, Alone, FragmentHeader, HeaderStands, Delivered, Codec.GetType, Codec.RtpFrameType;
    var data := pkt.data;
    var skip;
    ghost var sent;
    PatchBits(nal_unit);

    // first
    WriteFuHeader(nal_unit, data);
    ok, skip, sent := SendFirst(nal_unit, pkt, sink);
    if !ok {
      return;
    }

    // middle
    data[HEAD + 2] := data[HEAD + 2] & 0x3f;
    HeaderBytes(nal_unit, false, false, pkt);
    ok, skip, sent := SendMiddle(C, nal_unit, skip, pkt, sink, old(sink.log), sent);
    if !ok {
      return;
    }

    // last
    data[HEAD + 2] := data[HEAD + 2] | 0x40;
    pkt.last := true;
    HeaderBytes(nal_unit, false, true, pkt);
    ok := SendLastPiece(C, nal_unit, skip, pkt, sink, old(sink.log), sent);
  }

  method SendFirst(nal_unit: Nal, pkt: RtpPacket, sink: FrameSink) returns (ok: bool, skip: nat, ghost sent: seq<Packet>)
    requires pkt.Valid() && |nal_unit| > MAX_RTP_PAYLOAD_SIZE
    requires pkt.data[HEAD] == (nal_unit[0] & 0x81) | (49 << 1) && pkt.data[HEAD + 1] == nal_unit[1]
    requires pkt.data[HEAD + 2] == C.GetType(nal_unit) & 0x3f
    modifies pkt, pkt.data, sink
    ensures pkt.Valid() && pkt.size == HEAD + MAX_RTP_PAYLOAD_SIZE && !pkt.last && pkt.kind == C.RtpFrameType(nal_unit)
    ensures pkt.data[HEAD] == (nal_unit[0] & 0x81) | (49 << 1) && pkt.data[HEAD + 1] == nal_unit[1]
    ensures pkt.data[HEAD + 2] == (C.GetType(nal_unit) & 0x3f) | 0x80
    ensures skip == ChunkSize(C)
    ensures Alone(C, nal_unit) == sent + Left(C, nal_unit, skip, false)
    ensures Delivered(sink.accept, old(sink.log), sink.log, if ok then sent else Alone(C, nal_unit), ok)
  {
    hide Left, Alone, FragmentHeader, HeaderStands, Delivered, Codec.GetType, Codec.RtpFrameType;
    var n;
    ghost var p;
    WholeUnit(C, nal_unit);
    PatchBits(nal_unit);
    NothingSent(sink.accept, sink.log);
    skip := 0;
    pkt.size := HEAD + MAX_RTP_PAYLOAD_SIZE;
    pkt.last := false;
    pkt.kind := C.RtpFrameType(nal_unit);
    pkt.data[HEAD + 2] := pkt.data[HEAD + 2] | 0x80;
    HeaderBytes(nal_unit, true, false, pkt);
    n, ok, p := SendPiece(C, nal_unit, skip, true, pkt, sink);
    skip := skip + n;
    sent := [p];
    SentOne(sink.accept, old(sink.log), old(sink.log), [], p, Left(C, nal_unit, skip, false), ok);
    assert [] + sent == sent && [] + Alone(C, nal_unit) == Alone(C, nal_unit);
  }

  lemma HeaderBytes(nal: Nal, first: bool, last: bool, pkt: RtpPacket)
    requires pkt.Valid() && |nal| >= 2
    requires [pkt.data[HEAD], pkt.data[HEAD + 1], pkt.data[HEAD + 2]] == FragmentHeader(C, nal, first, last)
    ensures HeaderStands(C, nal, first, last, pkt)
  {
    assert pkt.data[HEAD..HEAD + 3] == [pkt.data[HEAD], pkt.data[HEAD + 1], pkt.data[HEAD + 2]];
  }

  /** Patching the FU header in place gives the header of each fragment. */
  lemma PatchBits(nal: Nal)
    requires |nal| >= 2
    ensures var h, t := (nal[0] & 0x81) | (49 << 1), C.GetType(nal) & 0x3f;
            && FragmentHeader(C, nal, true, false) == [h, nal[1], t | 0x80]
            && FragmentHeader(C, nal, false, false) == [h, nal[1], (t | 0x80) & 0x3f]
            && FragmentHeader(C, nal, false, true) == [h, nal[1], ((t | 0x80) & 0x3f) | 0x40]
  {
    var b := (nal[0] & 0x7e) >> 1;
    assert (b & 0x3f) | 0 == ((b & 0x3f) | 0x80) & 0x3f;
  }

  /** One round of the packetizing loop. */
  method SendNext(nals: seq<Nal>, nal_index: nat, pkt: RtpPacket, sink: FrameSink)
    returns (ok: bool, next: nat, ghost sent: seq<Packet>)
    requires pkt.Valid() && nal_index < |nals|
    modifies pkt, pkt.data, sink
    ensures pkt.Valid() && nal_index < next <= |nals|
    ensures Packetize(C, nals, nal_index) == sent + Packetize(C, nals, next)
    ensures Delivered(sink.accept, old(sink.log), sink.log, sent, ok)
  {
    hide Delivered, GroupEnd, Total, Aggregate, Alone, Packetize;
    PacketizeStep(C, nals, nal_index);
    var end_index, size_count := FindGroup(C, nals, nal_index);
    if end_index > nal_index {
      sent := [Aggregate(C, nals[nal_index..end_index + 1])];
      ok := SendAggregate(nals, nal_index, end_index, size_count, pkt, sink);
      next := end_index + 1;
    } else {
      var nal_unit := nals[nal_index];
      next := nal_index + 1;
      sent := Alone(C, nal_unit);
      if |nal_unit| <= MAX_RTP_PAYLOAD_SIZE {
        ok := SendSingle(C, nal_unit, pkt, sink);
      } else {
        ok := SendFragments(nal_unit, pkt, sink);
      }
    }
  }

  /** Sends the packets of one access unit, in order, until one is refused. */
  method HandleFrame(frame: seq<Byte>, addr: nat, sink: FrameSink) returns (ok: bool)
    modifies sink
    ensures AnnexB.Split(frame) == [] ==> !ok && sink.log == old(sink.log)
    ensures AnnexB.Split(frame) != [] ==>
              Delivered(sink.accept, old(sink.log), sink.log, Packetize(C, AnnexB.Split(frame), 0), ok)
  {
    hide Delivered, Packetize, AnnexB.Split;
    var pkt := new RtpPacket();
    var list := AnnexB.BuildList(frame, addr);
    var nals := list[..];
    if |nals| == 0 {
      return false;
    }
    var nal_index := 0;
    ghost var sent := [];
    NothingSent(sink.accept, sink.log);
    while nal_index < |nals|
      invariant nal_index <= |nals|
      invariant pkt.Valid() && fresh(pkt) && fresh(pkt.data)
      invariant Packetize(C, nals, 0) == sent + Packetize(C, nals, nal_index)
      invariant Delivered(sink.accept, old(sink.log), sink.log, sent, true)
    {
      ghost var log, packets := sink.log, [];
      ok, nal_index, packets := SendNext(nals, nal_index, pkt, sink);
      DeliveredThen(sink.accept, old(sink.log), log, sink.log, sent, packets, ok);
      ghost var rest := Packetize(C, nals, nal_index);
      assert sent + (packets + rest) == (sent + packets) + rest;
      sent := sent + packets;
      if !ok {
        RefusedThen(sink.accept, old(sink.log), sink.log, sent, rest);
        return false;
      }
    }
    NothingToSend(C, nals);
    assert sent + [] == sent;
    return true;
  }
}
