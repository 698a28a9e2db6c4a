/** The packetizer of rtsp-server/xop/H264Source.cpp. */
module H264Source {
  import opened Bytes
  import opened Payload
  import opened RtpPacket
  import AnnexB

  const C := H264

  /** Single-time aggregation packet: units nal_index..end_index in one packet. */
  method SendAggregate(nals: seq<Nal>, nal_index: nat, end_index: nat, size_count: nat, pkt: RtpPacket, sink: FrameSink)
    returns (ok: bool)
    requires pkt.Valid() && nal_index <= end_index < |nals|
    requires size_count == 1 + Total(nals, nal_index, end_index + 1) <= MAX_RTP_PAYLOAD_SIZE
    modifies pkt, pkt.data, sink
    ensures pkt.Valid()
    ensures Delivered(sink.accept, old(sink.log), sink.log, [Aggregate(C, nals[nal_index..end_index + 1])], ok)
  {
    hide GroupKind, MaxRefIdc, Entries, Total, Delivered;
    var data := pkt.data;
    pkt.size := HEAD + size_count;
    pkt.last := true;
    var maximum_ref_idc, all_frame_type;
    ghost var head;
    maximum_ref_idc, all_frame_type, head := FillAggregate(nals, nal_index, end_index, data);
    ghost var entries := Entries(nals[nal_index..end_index + 1]);
    assert data[HEAD + 1..HEAD + size_count] == data[..HEAD + size_count][HEAD + 1..] == entries;
    data[HEAD] := ((maximum_ref_idc & 0x03) << 5) | 24;
    pkt.kind := all_frame_type;
    assert data[HEAD..HEAD + size_count] == [data[HEAD]] + entries;
    assert pkt.Snapshot() == Aggregate(C, nals[nal_index..end_index + 1]);
    SentOnly(sink.accept, sink.log, pkt.Snapshot(), sink.accept(|sink.log|));
    ok := sink.Send(pkt);
  }

  method FillAggregate(nals: seq<Nal>, nal_index: nat, end_index: nat, data: array<Byte>)
    returns (maximum_ref_idc: Byte, all_frame_type: FrameType, ghost head: seq<Byte>)
    requires nal_index <= end_index < |nals| && data.Length == BUFFER_SIZE
    requires 1 + Total(nals, nal_index, end_index + 1) <= MAX_RTP_PAYLOAD_SIZE
    modifies data
    ensures var group, size := nals[nal_index..end_index + 1], 1 + Total(nals, nal_index, end_index + 1);
            && |head| == HEAD + 1 && data[..HEAD + size] == head + Entries(group)
            && maximum_ref_idc == MaxRefIdc(group)
            && all_frame_type == GroupKind(C, group)
  {
    hide GroupKind, MaxRefIdc, MinLayerId, MinTemporalId, Entries, Total, Be16;
    hide Codec.RtpFrameType, GetRefIdc, GetLayerId, GetTemporalId;
    var skip := 1;
    maximum_ref_idc := 0;
    all_frame_type := FrameType.None;
    var i := nal_index;
    head := data[..HEAD + 1];
    NoUnits(C, nals, nal_index);
    while i <= end_index
      invariant nal_index <= i <= end_index + 1
      invariant skip == 1 + Total(nals, nal_index, i) <= MAX_RTP_PAYLOAD_SIZE
      invariant data[..HEAD + skip] == head + Entries(nals[nal_index..i])
      invariant maximum_ref_idc == MaxRefIdc(nals[nal_index..i])
      invariant all_frame_type == GroupKind(C, nals[nal_index..i])
    {
      var nal_unit := nals[i];
      TotalGrows(nals, nal_index, i + 1, end_index + 1);
      NextUnit(C, nals, nal_index, i);
      var ref_idc, frame_type := GetRefIdc(nal_unit), C.RtpFrameType(nal_unit);
      maximum_ref_idc := if maximum_ref_idc < ref_idc then ref_idc else maximum_ref_idc;
      all_frame_type :=
        if frame_type == VideoFrameIdr then VideoFrameIdr
        else if all_frame_type == FrameType.None then frame_type
        else all_frame_type;
      skip := AppendUnit(C, nals, nal_index, i, skip, data, head);
      i := i + 1;
    }
  }

  /** Payload header and FU header, before the start bit is set. */
  method WriteFuHeader(nal_unit: Nal, data: array<Byte>)
    requires |nal_unit| > 1 && data.Length == BUFFER_SIZE
    modifies data
    ensures data[HEAD] == (nal_unit[0] & 0xe0) | 28 && data[HEAD + 1] == C.GetType(nal_unit) & 0x1f
  {
    var n := CopyData(nal_unit, data, HEAD, 1, 0);
    assert data[HEAD] == data[HEAD..HEAD + 1][0] == nal_unit[0];
    data[HEAD] := data[HEAD] & 0xe0;
    data[HEAD] := data[HEAD] | 28;
    data[HEAD + 1] := C.GetType(nal_unit) & 0x1f;
  }

  /** Fragmentation units: the header bytes are patched in place while the body
      runs through the same buffer. */
  method SendFragments(nal_unit: Nal, pkt: RtpPacket, sink: FrameSink) returns (ok: bool)
    requires pkt.Valid() && |nal_unit| > MAX_RTP_PAYLOAD_SIZE
    modifies pkt, pkt.data, sink
    ensures pkt.Valid()
    ensures Delivered(sink.accept, old(sink.log), sink.log, Alone(C, nal_unit), ok)
  {
    hide Left, Alone, FragmentHeader, HeaderStands, Delivered, Codec.GetType, Codec.RtpFrameType;
    var data := pkt.data;
    var skip;
    ghost var sent;
    PatchBits(nal_unit);

    // first
    WriteFuHeader(nal_unit, data);
    ok, skip, sent := SendFirst(nal_unit, pkt, sink);
    if !ok {
      return;
    }

    // middle
    data[HEAD + 1] := data[HEAD + 1] & 0x1f;
    HeaderBytes(nal_unit, false, false, pkt);
    ok, skip, sent := SendMiddle(C, nal_unit, skip, pkt, sink, old(sink.log), sent);
    if !ok {
      return;
    }

    // last
    data[HEAD + 1] := data[HEAD + 1] | 0x40;
    pkt.last := true;
    HeaderBytes(nal_unit, false, true, pkt);
    ok := SendLastPiece(C, nal_unit, skip, pkt, sink, old(sink.log), sent);
  }

  method SendFirst(nal_unit: Nal, pkt: RtpPacket, sink: FrameSink) returns (ok: bool, skip: nat, ghost sent: seq<Packet>)
    requires pkt.Valid() && |nal_unit| > MAX_RTP_PAYLOAD_SIZE
    requires pkt.data[HEAD] == (nal_unit[0] & 0xe0) | 28
    requires pkt.data[HEAD + 1] == C.GetType(nal_unit) & 0x1f
    modifies pkt, pkt.data, sink
    ensures pkt.Valid() && pkt.size == HEAD + MAX_RTP_PAYLOAD_SIZE && !pkt.last && pkt.kind == C.RtpFrameType(nal_unit)
    ensures pkt.data[HEAD] == (nal_unit[0] & 0xe0) | 28
    ensures pkt.data[HEAD + 1] == (C.GetType(nal_unit) & 0x1f) | 0x80
    ensures skip == ChunkSize(C)
    ensures Alone(C, nal_unit) == sent + Left(C, nal_unit, skip, false)
    ensures Delivered(sink.accept, old(sink.log), sink.log, if ok then sent else Alone(C, nal_unit), ok)
  {
    hide Left, Alone, FragmentHeader, HeaderStands, Delivered, Codec.GetType, Codec.RtpFrameType;
    var n;
    ghost var p;
    WholeUnit(C, nal_unit);
    PatchBits(nal_unit);
    NothingSent(sink.accept, sink.log);
    skip := 0;
    pkt.size := HEAD + MAX_RTP_PAYLOAD_SIZE;
    pkt.last := false;
    pkt.kind := C.RtpFrameType(nal_unit);
    pkt.data[HEAD + 1] := pkt.data[HEAD + 1] | 0x80;
    HeaderBytes(nal_unit, true, false, pkt);
    n, ok, p := SendPiece(C, nal_unit, skip, true, pkt, sink);
    skip := skip + n;
    sent := [p];
    SentOne(sink.accept, old(sink.log), old(sink.log), [], p, Left(C, nal_unit, skip, false), ok);
    assert [] + sent == sent && [] + Alone(C, nal_unit) == Alone(C, nal_unit);
  }

  lemma HeaderBytes(nal: Nal, first: bool, last: bool, pkt: RtpPacket)
    requires pkt.Valid() && |nal| >= 1
    requires [pkt.data[HEAD], pkt.data[HEAD + 1]] == FragmentHeader(C, nal, first, last)
    ensures HeaderStands(C, nal, first, last, pkt)
  {
    assert pkt.data[HEAD..HEAD + 2] == [pkt.data[HEAD], pkt.data[HEAD + 1]];
  }

  /** Patching the FU header in place gives the header of each fragment. */
  lemma PatchBits(nal: Nal)
    requires |nal| >= 1
    ensures var t := C.GetType(nal) & 0x1f;
            && FragmentHeader(C, nal, true, false) == [(nal[0] & 0xe0) | 28, t | 0x80]
            && FragmentHeader(C, nal, false, false) == [(nal[0] & 0xe0) | 28, (t | 0x80) & 0x1f]
            && FragmentHeader(C, nal, false, true) == [(nal[0] & 0xe0) | 28, ((t | 0x80) & 0x1f) | 0x40]
  {
    var b := nal[0];
    assert ((b & 0x1f) & 0x1f) | 0 == (((b & 0x1f) & 0x1f) | 0x80) & 0x1f;
  }

  /** One round of the packetizing loop. */
  method SendNext(nals: seq<Nal>, nal_index: nat, pkt: RtpPacket, sink: FrameSink)
    returns (ok: bool, next: nat, ghost sent: seq<Packet>)
    requires pkt.Valid() && nal_index < |nals|
    modifies pkt, pkt.data, sink
    ensures pkt.Valid() && nal_index < next <= |nals|
    ensures Packetize(C, nals, nal_index) == sent + Packetize(C, nals, next)
    ensures Delivered(sink.accept, old(sink.log), sink.log, sent, ok)
  {
    hide Delivered, GroupEnd, Total, Aggregate, Alone, Packetize;
    PacketizeStep(C, nals, nal_index);
    var end_index, size_count := FindGroup(C, nals, nal_index);
    if end_index > nal_index {
      sent := [Aggregate(C, nals[nal_index..end_index + 1])];
      ok := SendAggregate(nals, nal_index, end_index, size_count, pkt, sink);
      next := end_index + 1;
    } else {
      var nal_unit := nals[nal_index];
      next := nal_index + 1;
      sent := Alone(C, nal_unit);
      if |nal_unit| <= MAX_RTP_PAYLOAD_SIZE {
        ok := SendSingle(C, nal_unit, pkt, sink);
      } else {
        ok := SendFragments(nal_unit, pkt, sink);
      }
    }
  }

  /** Sends the packets of one access unit, in order, until one is refused. */
  method HandleFrame(frame: seq<Byte>, addr: nat, sink: FrameSink) returns (ok: bool)
    modifies sink
    ensures AnnexB.Split(frame) == [] ==> !ok && sink.log == old(sink.log)
    ensures AnnexB.Split(frame) != [] ==>
              Delivered(sink.accept, old(sink.log), sink.log, Packetize(C, AnnexB.Split(frame), 0), ok)
  {
    hide Delivered, Packetize, AnnexB.Split;
    var pkt := new RtpPacket();
    var list := AnnexB.BuildList(frame, addr);
    var nals := list[..];
    if |nals| == 0 {
      return false;
    }
    var nal_index := 0;
    ghost var sent := [];
    NothingSent(sink.accept, sink.log);
    while nal_index < |nals|
      invariant nal_index <= |nals|
      invariant pkt.Valid() && fresh(pkt) && fresh(pkt.data)
      invariant Packetize(C, nals, 0) == sent + Packetize(C, nals, nal_index)
      invariant Delivered(sink.accept, old(sink.log), sink.log, sent, true)
    {
      ghost var log, packets := sink.log, [];
      ok, nal_index, packets := SendNext(nals, nal_index, pkt, sink);
      DeliveredThen(sink.accept, old(sink.log), log, sink.log, sent, packets, ok);
      ghost var rest := Packetize(C, nals, nal_index);
      assert sent + (packets + rest) == (sent + packets) + rest;
      sent := sent + packets;
      if !ok {
        RefusedThen(sink.accept, old(sink.log), sink.log, sent, rest);
        return false;
      }
    }
    NothingToSend(C, nals);
    assert sent + [] == sent;
    return true;
  }
}
