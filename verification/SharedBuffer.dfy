/** The packet buffer that rtsp-server/xop/MediaSession.cpp shares between clients,
    when their tasks run on any number of schedulers: SetRtpHeader, SendRtpOverTcp
    and SendRtpOverUdp of rtsp-server/xop/RtpConnection.cpp as interleaved steps.

    A scheduler runs one task at a time; each task writes its header, over TCP also
    the framing bytes in front of it, and then has the transport copy the packet. */
module SharedBuffer {
  import opened Bytes
  import opened Wrappers
  import opened Payload
  import opened RtpState
  import opened RtpPacket

  /** One client's task on the buffer: the channel its header is made from, its
      transport and the scheduler that runs it. */
  datatype Client = Client(channel: Channel, tcp: bool, scheduler: nat)

  datatype Stage =
    | Waiting
    | HeaderDone
    | Framed
    | Copied(message: seq<Byte>)
  {
    predicate Busy() {
      HeaderDone? || Framed?
    }
  }

  datatype Machine = Machine(clients: seq<Client>, media: Media, buffer: seq<Byte>, stages: seq<Stage>)

  datatype Event =
    | WriteHeader(i: nat)  // memcpy of the RTP header to data + 4
    | WriteFrame(i: nat)   // data[0..4], over TCP
    | Copy(i: nat)         // Send or sendto

  predicate Enabled(s: Machine, e: Event) {
    && e.i < |s.clients| == |s.stages|
    && match e
       case WriteHeader(i) =>
         && s.stages[i].Waiting?
         && forall j :: 0 <= j < |s.clients| && s.clients[j].scheduler == s.clients[i].scheduler ==> !s.stages[j].Busy()
       case WriteFrame(i) => s.stages[i].HeaderDone? && s.clients[i].tcp
       case Copy(i) => if s.clients[i].tcp then s.stages[i].Framed? else s.stages[i].HeaderDone?
  }

  function Framing(ch: Channel, m: Media): (s: seq<Byte>)
    ensures |s| == RTP_TCP_HEAD_SIZE
  {
    [0x24, ch.rtp_channel] + Be16(RTP_HEADER_SIZE + |m.payload|)
  }

  function Apply(s: Machine, e: Event): Machine
    requires Enabled(s, e) && |s.buffer| >= HEAD
  {
    var ch := s.clients[e.i].channel;
    match e
    case WriteHeader(i) =>
      s.(buffer := s.buffer[..4] + Header(ch, s.media) + s.buffer[HEAD..], stages := s.stages[i := HeaderDone])
    case WriteFrame(i) =>
      s.(buffer := Framing(ch, s.media) + s.buffer[4..], stages := s.stages[i := Framed])
    case Copy(i) =>
      s.(stages := s.stages[i := Copied(if s.clients[i].tcp then s.buffer else s.buffer[4..])])
  }

  /** The message client i should send. */
  function Own(s: Machine, i: nat): seq<Byte>
    requires i < |s.clients|
  {
    var ch := s.clients[i].channel;
    if s.clients[i].tcp then Interleaved(ch, s.media) else Header(ch, s.media) + s.media.payload
  }

  predicate Init(s: Machine) {
    && |s.buffer| == HEAD + |s.media.payload| && s.buffer[HEAD..] == s.media.payload
    && |s.stages| == |s.clients|
    && (forall i :: 0 <= i < |s.clients| ==> s.stages[i].Waiting? && |s.clients[i].channel.ssrc| == 4)
  }

  ghost predicate Run(states: seq<Machine>, events: seq<Event>) {
    && |states| == |events| + 1 && Init(states[0])
    && (forall i :: 0 <= i < |events| ==>
          && Enabled(states[i], events[i]) && |states[i].buffer| >= HEAD
          && states[i + 1] == Apply(states[i], events[i]))
  }

  // ---------------------------------------------------------------------------
  // Who wrote last
  // ---------------------------------------------------------------------------

  function LastHeader(events: seq<Event>): Option<nat> {
    if events == [] then Option.None
    else
      var e := events[|events| - 1];
      if e.WriteHeader? then Some(e.i) else LastHeader(events[..|events| - 1])
  }

  function LastFrame(events: seq<Event>): Option<nat> {
    if events == [] then Option.None
    else
      var e := events[|events| - 1];
      if e.WriteFrame? then Some(e.i) else LastFrame(events[..|events| - 1])
  }

  /** The buffer holds the header and the framing bytes that were written last, and
      always the payload. */
  ghost predicate Inv(s: Machine, events: seq<Event>) {
    && |s.stages| == |s.clients|
    && |s.buffer| == HEAD + |s.media.payload| && s.buffer[HEAD..] == s.media.payload
    && (forall i :: 0 <= i < |s.clients| ==> |s.clients[i].channel.ssrc| == 4)
    && (forall i :: 0 <= i < |s.clients| && s.stages[i].Busy() ==> LastHeader(events).Some?)
    && (forall i :: 0 <= i < |s.clients| && s.stages[i].Framed? ==> LastFrame(events).Some?)
    && (match LastHeader(events)
        case None => true
        case Some(j) => j < |s.clients| && s.buffer[4..HEAD] == Header(s.clients[j].channel, s.media))
    && (match LastFrame(events)
        case None => true
        case Some(j) => j < |s.clients| && s.buffer[..4] == Framing(s.clients[j].channel, s.media))
  }

  lemma StepKeepsInv(s: Machine, events: seq<Event>, e: Event)
    requires Inv(s, events) && Enabled(s, e)
    ensures Inv(Apply(s, e), events + [e])
    ensures Apply(s, e).clients == s.clients && Apply(s, e).media == s.media
  {
    hide Header, Framing;
    assert (events + [e])[..|events|] == events;
    var t := Apply(s, e);
    match e
    case WriteHeader(i) =>
      var h := Header(s.clients[i].channel, s.media);
      assert t.buffer[4..HEAD] == h && t.buffer[HEAD..] == s.buffer[HEAD..] && t.buffer[..4] == s.buffer[..4];
    case WriteFrame(i) =>
      var f := Framing(s.clients[i].channel, s.media);
      assert t.buffer[..4] == f && t.buffer[4..] == s.buffer[4..];
      assert t.buffer[4..HEAD] == t.buffer[4..][..12] && s.buffer[4..HEAD] == s.buffer[4..][..12];
      assert t.buffer[HEAD..] == t.buffer[4..][12..] && s.buffer[HEAD..] == s.buffer[4..][12..];
    case Copy(_) =>
  }

  lemma InitInv(s: Machine)
    requires Init(s)
    ensures Inv(s, [])
  {
  }

  lemma {:induction false} RunKeepsInv(states: seq<Machine>, events: seq<Event>, n: nat)
    requires Run(states, events) && n <= |events|
    ensures Inv(states[n], events[..n])
    ensures states[n].clients == states[0].clients && states[n].media == states[0].media
  {
    hide Inv, Enabled, Apply, Init;
    if n == 0 {
      InitInv(states[0]);
    } else {
      RunKeepsInv(states, events, n - 1);
      StepKeepsInv(states[n - 1], events[..n - 1], events[n - 1]);
      assert events[..n] == events[..n - 1] + [events[n - 1]];
    }
  }

  // ---------------------------------------------------------------------------
  // When a copied message is the client's own
  // ---------------------------------------------------------------------------

  lemma MessageParts(s: Machine, i: nat)
    requires i < |s.clients| && |s.clients[i].channel.ssrc| == 4
    ensures var ch, own := s.clients[i].channel, Own(s, i);
            if s.clients[i].tcp then
              |own| == HEAD + |s.media.payload| && own[..4] == Framing(ch, s.media)
              && own[4..HEAD] == Header(ch, s.media) && own[HEAD..] == s.media.payload
            else |own| == 12 + |s.media.payload| && own[..12] == Header(ch, s.media) && own[12..] == s.media.payload
  {
    hide Header;
  }

  lemma SameFraming(a: Channel, b: Channel, m: Media)
    ensures Framing(a, m) == Framing(b, m) <==> a.rtp_channel == b.rtp_channel
  {
    hide Be16;
    assert Framing(a, m)[1] == a.rtp_channel && Framing(b, m)[1] == b.rtp_channel;
  }

  /** Over every run: a copied message is the client's own if and only if the header
      written last before the copy equals its own and, over TCP, the framing written
      last carries its own channel number. */
  lemma CopiedExactly(states: seq<Machine>, events: seq<Event>, n: nat)
    requires Run(states, events) && n < |events| && events[n].Copy?
    ensures Inv(states[n], events[..n])
    ensures var s, i := states[n], events[n].i;
            && i < |s.clients| == |s.stages| == |states[n + 1].stages| && s.stages[i].Busy()
            && var ch := s.clients[i].channel;
            && LastHeader(events[..n]).Some? && (s.clients[i].tcp ==> LastFrame(events[..n]).Some?)
            && states[n + 1].stages[i].Copied?
            && (states[n + 1].stages[i].message == Own(s, i) <==>
                  && Header(s.clients[LastHeader(events[..n]).value].channel, s.media) == Header(ch, s.media)
                  && (s.clients[i].tcp ==>
                        s.clients[LastFrame(events[..n]).value].channel.rtp_channel == ch.rtp_channel))
  {
    hide Header, Framing, Own, LastHeader, LastFrame, Init;
    RunKeepsInv(states, events, n);
    var s, i := states[n], events[n].i;
    var b := s.buffer;
    MessageParts(s, i);
    var own := Own(s, i);
    if s.clients[i].tcp {
      SameFraming(s.clients[LastFrame(events[..n]).value].channel, s.clients[i].channel, s.media);
      assert b == b[..4] + b[4..HEAD] + b[HEAD..] && own == own[..4] + own[4..HEAD] + own[HEAD..];
    } else {
      var m := b[4..];
      assert m[..12] == b[4..HEAD] && m[12..] == b[HEAD..];
      assert m == m[..12] + m[12..] && own == own[..12] + own[12..];
    }
  }

  lemma DifferentSources(a: Channel, b: Channel, m: Media)
    requires |a.ssrc| == |b.ssrc| == 4 && Header(a, m) == Header(b, m)
    ensures a.ssrc == b.ssrc
  {
    hide Be16, Be32, FromNat;
    assert Header(a, m)[8..] == a.ssrc && Header(b, m)[8..] == b.ssrc;
  }

  /** No client writes a header between client i's own header and event n. */
  predicate HeaderUndisturbed(events: seq<Event>, i: nat, n: nat)
    requires n <= |events|
  {
    forall h, k :: 0 <= h < k < n && events[h] == WriteHeader(i) ==> !events[k].WriteHeader?
  }

  lemma {:induction false} LastHeaderIsLast(events: seq<Event>, n: nat)
    requires n <= |events| && LastHeader(events[..n]).Some?
    ensures exists h :: 0 <= h < n && events[h] == WriteHeader(LastHeader(events[..n]).value)
                        && forall k :: h < k < n ==> !events[k].WriteHeader?
  {
    assert events[..n][..n - 1] == events[..n - 1];
    if !events[n - 1].WriteHeader? {
      LastHeaderIsLast(events, n - 1);
    } else {
      assert events[n - 1] == WriteHeader(LastHeader(events[..n]).value);
    }
  }

  /** A task past its first step has written its header. */
  lemma {:induction false} BusyWrote(states: seq<Machine>, events: seq<Event>, n: nat, i: nat)
    requires Run(states, events) && n <= |events| && i < |states[n].clients| == |states[n].stages|
    requires !states[n].stages[i].Waiting?
    ensures exists h :: 0 <= h < n && events[h] == WriteHeader(i)
  {
    if n > 0 {
      var s, e := states[n - 1], events[n - 1];
      assert states[n] == Apply(s, e);
      if e != WriteHeader(i) {
        BusyWrote(states, events, n - 1, i);
      }
    }
  }

  /** Over every run of clients with different sources: a copied message is the
      client's own if and only if no other client's header was written between its
      own header and its copy and, over TCP, the framing written last carries its own
      channel number. */
  lemma OwnIffUndisturbed(states: seq<Machine>, events: seq<Event>, n: nat)
    requires Run(states, events) && n < |events| && events[n].Copy?
    requires forall i, j :: 0 <= i < j < |states[0].clients| ==>
               states[0].clients[i].channel.ssrc != states[0].clients[j].channel.ssrc
    ensures var s, i := states[n], events[n].i;
            && i < |s.clients| == |states[n + 1].stages| && states[n + 1].stages[i].Copied?
            && (s.clients[i].tcp ==> LastFrame(events[..n]).Some? && LastFrame(events[..n]).value < |s.clients|)
            && (states[n + 1].stages[i].message == Own(s, i) <==>
                  && HeaderUndisturbed(events, i, n)
                  && (s.clients[i].tcp ==>
                        s.clients[LastFrame(events[..n]).value].channel.rtp_channel == s.clients[i].channel.rtp_channel))
  {
    hide Header, Own, LastHeader, LastFrame, Init, Apply, Enabled, HeaderUndisturbed;
    CopiedExactly(states, events, n);
    RunKeepsInv(states, events, n);
    var s, i := states[n], events[n].i;
    var j := LastHeader(events[..n]).value;
    BusyWrote(states, events, n, i);
    OneHeaderEach(states, events, n, i);
    LastIsOwn(events, n, i);
    if Header(s.clients[j].channel, s.media) == Header(s.clients[i].channel, s.media) {
      DifferentSources(s.clients[j].channel, s.clients[i].channel, s.media);
    }
  }

  /** The header written last is client i's if and only if its own was not disturbed. */
  lemma LastIsOwn(events: seq<Event>, n: nat, i: nat)
    requires n <= |events| && LastHeader(events[..n]).Some?
    requires exists h :: 0 <= h < n && events[h] == WriteHeader(i)
    requires forall h, k :: 0 <= h < k < n && events[h] == WriteHeader(i) ==> events[k] != WriteHeader(i)
    ensures LastHeader(events[..n]).value == i <==> HeaderUndisturbed(events, i, n)
  {
    hide LastHeader;
    var j := LastHeader(events[..n]).value;
    LastHeaderIsLast(events, n);
    var h :| 0 <= h < n && events[h] == WriteHeader(j) && forall k :: h < k < n ==> !events[k].WriteHeader?;
    var own :| 0 <= own < n && events[own] == WriteHeader(i);
    if j != i {
      assert own < h;
    }
  }

  /** A client writes its header once. */
  lemma {:induction false} OneHeaderEach(states: seq<Machine>, events: seq<Event>, n: nat, i: nat)
    requires Run(states, events) && n <= |events|
    ensures forall h, k :: 0 <= h < k < n && events[h] == WriteHeader(i) ==> events[k] != WriteHeader(i)
  {
    if n > 0 {
      hide Apply, Init;
      OneHeaderEach(states, events, n - 1, i);
      if events[n - 1] == WriteHeader(i) {
        forall h | 0 <= h < n - 1
          ensures events[h] != WriteHeader(i)
        {
          if events[h] == WriteHeader(i) {
            HeaderLeaves(states[h], i);
            StageMovesOn(states, events, h + 1, n - 1, i);
          }
        }
      }
    }
  }

  lemma HeaderLeaves(s: Machine, i: nat)
    requires Enabled(s, WriteHeader(i)) && |s.buffer| >= HEAD
    ensures i < |Apply(s, WriteHeader(i)).stages| && !Apply(s, WriteHeader(i)).stages[i].Waiting?
  {
  }

  lemma {:induction false} StageMovesOn(states: seq<Machine>, events: seq<Event>, h: nat, n: nat, i: nat)
    requires Run(states, events) && h <= n <= |events|
    requires i < |states[h].stages| && !states[h].stages[i].Waiting?
    ensures i < |states[n].stages| && !states[n].stages[i].Waiting?
    decreases n - h
  {
    if h < n {
      StageMovesOn(states, events, h, n - 1, i);
      assert states[n] == Apply(states[n - 1], events[n - 1]);
    }
  }

  // ---------------------------------------------------------------------------
  // One scheduler suffices
  // ---------------------------------------------------------------------------

  predicate OneScheduler(clients: seq<Client>) {
    forall i, j :: 0 <= i < |clients| && 0 <= j < |clients| ==> clients[i].scheduler == clients[j].scheduler
  }

  ghost predicate OneInv(s: Machine, events: seq<Event>) {
    && |s.stages| == |s.clients|
    && (forall i :: 0 <= i < |s.stages| && s.stages[i].Busy() ==> LastHeader(events) == Some(i))
    && (forall i :: 0 <= i < |s.stages| && s.stages[i].Framed? ==> LastFrame(events) == Some(i))
  }

  lemma {:induction false} OneAtATime(states: seq<Machine>, events: seq<Event>, n: nat)
    requires Run(states, events) && n <= |events| && OneScheduler(states[0].clients)
    ensures OneInv(states[n], events[..n])
  {
    hide Inv, OneInv, Enabled, Apply, Init, OneScheduler, LastHeader, LastFrame;
    if n == 0 {
      NobodyBusy(states[0]);
    } else {
      OneAtATime(states, events, n - 1);
      RunKeepsInv(states, events, n - 1);
      OneStep(states[n - 1], events[..n - 1], events[n - 1]);
      assert events[..n] == events[..n - 1] + [events[n - 1]];
    }
  }

  lemma NobodyBusy(s: Machine)
    requires Init(s)
    ensures OneInv(s, [])
  {
  }

  lemma OneStep(s: Machine, events: seq<Event>, e: Event)
    requires OneInv(s, events) && Enabled(s, e) && |s.buffer| >= HEAD && OneScheduler(s.clients)
    ensures OneInv(Apply(s, e), events + [e])
  {
    hide Header, Framing;
    assert (events + [e])[..|events|] == events;
  }

  /** Event n copies the client's own message. */
  ghost predicate SendsOwn(states: seq<Machine>, events: seq<Event>, n: nat)
    requires |states| == |events| + 1 && n < |events| && events[n].Copy?
  {
    var i := events[n].i;
    && i < |states[n].clients| && i < |states[n + 1].stages|
    && states[n + 1].stages[i] == Copied(Own(states[n], i))
  }

  /** When all clients of a buffer run on one scheduler, every copied message is the
      client's own, over every run. */
  lemma OneSchedulerSuffices(states: seq<Machine>, events: seq<Event>, n: nat)
    requires Run(states, events) && n < |events| && events[n].Copy? && OneScheduler(states[0].clients)
    ensures SendsOwn(states, events, n)
  {
    hide Header, Own, LastHeader, LastFrame, Init;
    OneAtATime(states, events, n);
    CopiedExactly(states, events, n);
  }

  // ---------------------------------------------------------------------------
  // Two do not
  // ---------------------------------------------------------------------------

  lemma NoEvents(s: Machine) returns (states: seq<Machine>, events: seq<Event>)
    requires Init(s)
    ensures Run(states, events) && events == [] && states == [s]
  {
    states, events := [s], [];
  }

  lemma Then(states: seq<Machine>, events: seq<Event>, e: Event) returns (longer: seq<Machine>, more: seq<Event>)
    requires Run(states, events) && Enabled(states[|events|], e) && |states[|events|].buffer| >= HEAD
    ensures Run(longer, more) && more == events + [e] && longer == states + [Apply(states[|events|], e)]
  {
    hide Enabled, Apply;
    longer, more := states + [Apply(states[|events|], e)], events + [e];
  }

  /** Any two clients of different sources on different schedulers, over TCP or UDP,
      have a run that mixes them: the second header lands between the first client's
      header and its copy, and the first client does not send its own message. */
  lemma TwoSchedulersMix(s: Machine, i: nat, j: nat) returns (states: seq<Machine>, events: seq<Event>, n: nat)
    requires Init(s) && i < |s.clients| && j < |s.clients| && s.clients[i].scheduler != s.clients[j].scheduler
    requires s.clients[i].channel.ssrc != s.clients[j].channel.ssrc
    ensures Run(states, events) && states[0] == s && n < |events| && events[n] == Copy(i) && !SendsOwn(states, events, n)
  {
    hide Header, Own, Framing;
    states, events := NoEvents(s);
    InitInv(s);
    states, events := Then(states, events, WriteHeader(i));
    states, events := Then(states, events, WriteHeader(j));
    if s.clients[i].tcp {
      states, events := Then(states, events, WriteFrame(i));
    }
    n := |events|;
    states, events := Then(states, events, Copy(i));
    ForeignHeader(states, events, n, i, j);
  }

  /** Client i copies behind a header of client j. */
  lemma ForeignHeader(states: seq<Machine>, events: seq<Event>, n: nat, i: nat, j: nat)
    requires Run(states, events) && n < |events| && events[n] == Copy(i) && LastHeader(events[..n]) == Some(j)
    requires i < |states[n].clients| && j < |states[n].clients|
    requires states[n].clients[i].channel.ssrc != states[n].clients[j].channel.ssrc
    ensures !SendsOwn(states, events, n)
  {
    hide Header, Own, Framing, Apply, Enabled, Init;
    CopiedExactly(states, events, n);
    var s := states[n];
    if Header(s.clients[j].channel, s.media) == Header(s.clients[i].channel, s.media) {
      DifferentSources(s.clients[j].channel, s.clients[i].channel, s.media);
    }
  }

  /** Alone, every client sends its own message. */
  lemma AloneSendsOwn(s: Machine, i: nat) returns (states: seq<Machine>, events: seq<Event>, n: nat)
    requires Init(s) && i < |s.clients|
    ensures Run(states, events) && states[0] == s && n < |events| && events[n] == Copy(i) && SendsOwn(states, events, n)
  {
    hide Header, Own, Framing;
    states, events := NoEvents(s);
    InitInv(s);
    states, events := Then(states, events, WriteHeader(i));
    if s.clients[i].tcp {
      states, events := Then(states, events, WriteFrame(i));
    }
    n := |events|;
    states, events := Then(states, events, Copy(i));
    OwnHeader(states, events, n, i);
  }

  lemma OwnHeader(states: seq<Machine>, events: seq<Event>, n: nat, i: nat)
    requires Run(states, events) && n < |events| && events[n] == Copy(i) && LastHeader(events[..n]) == Some(i)
    requires i < |states[n].clients| && (states[n].clients[i].tcp ==> LastFrame(events[..n]) == Some(i))
    ensures SendsOwn(states, events, n)
  {
    hide Header, Own, Framing, Apply, Enabled, Init;
    CopiedExactly(states, events, n);
  }

  ghost predicate AlwaysOwn(s: Machine) {
    forall states: seq<Machine>, events: seq<Event>, n: nat ::
      Run(states, events) && states[0] == s && n < |events| && events[n].Copy? ==> SendsOwn(states, events, n)
  }

  /** Clients of different sources send their own messages over every run if and only if
      they share one scheduler. */
  lemma SafeExactly(s: Machine)
    requires Init(s)
    requires forall i, j :: 0 <= i < j < |s.clients| ==> s.clients[i].channel.ssrc != s.clients[j].channel.ssrc
    ensures AlwaysOwn(s) <==> OneScheduler(s.clients)
  {
    hide Init, Enabled, Apply, SendsOwn;
    if OneScheduler(s.clients) {
      forall states: seq<Machine>, events: seq<Event>, n: nat |
          Run(states, events) && states[0] == s && n < |events| && events[n].Copy?
        ensures SendsOwn(states, events, n)
      {
        OneSchedulerSuffices(states, events, n);
      }
    } else {
      var i, j :| 0 <= i < |s.clients| && 0 <= j < |s.clients| && s.clients[i].scheduler != s.clients[j].scheduler;
      var states, events, n := TwoSchedulersMix(s, i, j);
    }
  }
}
