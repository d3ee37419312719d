/** A session that is left alone does serve its client: there is a schedule that gets through everything. */
module SessionService {
  import opened MachineWords
  import opened Protocol
  import opened Framing
  import opened SessionModel
  import opened SessionLaws
  import opened SessionRuns
  import opened SessionStops

  /** Not stopped, and every operation under way was begun on the open socket. */
  predicate Open(s: State) {
    !s.isStopped && (forall r | r in s.reading :: r.live) && (forall w | w in s.writing :: w.live)
  }

  /** Bounds on the turns that a handler still leads to. */
  function Weight(h: Handler): nat {
    match h
    case Stopping => 1
    case Sending(_) => 6
    case HeaderDone(_) => 7
    case PayloadDone(_, _) => 7
    case WriteDone(ok) => if ok then 1 else 2
  }

  function Load(strand: seq<Handler>): nat {
    if strand == [] then 0 else Load(strand[..|strand| - 1]) + Weight(strand[|strand| - 1])
  }

  lemma {:induction false} LoadAppended(strand: seq<Handler>, h: Handler)
    ensures Load(strand + [h]) == Load(strand) + Weight(h)
  {
    assert (strand + [h])[..|strand|] == strand;
  }

  lemma {:induction false} LoadTakenOff(strand: seq<Handler>)
    requires strand != []
    ensures Load(strand) == Weight(strand[0]) + Load(strand[1..])
  {
    var last := |strand| - 1;
    if last > 0 {
      LoadTakenOff(strand[..last]);
      assert strand[..last][1..] == strand[1..][..last - 1];
    }
  }

  function Work(s: State): nat
    requires s.consumed <= |s.input|
  {
    8 * (|s.input| - s.consumed) + Load(s.strand) + 3 * |s.writeQueue| + 2 * |s.writing|
  }

  predicate HasWork(s: State) {
    s.strand != [] || s.writing != [] || (s.reading != [] && s.consumed + Need(s.reading[0]) <= |s.input|)
  }

  function Choice(s: State): Step {
    if s.strand != [] then Turn else if s.writing != [] then WriteSucceeds(0) else ReadSucceeds(0)
  }

  /** A step of progress: the session stops, or stays open with less to do. */
  predicate Progress(s: State, t: State) {
    s.consumed <= |s.input| && t.consumed <= |t.input| && (t.isStopped || (Open(t) && Work(t) < Work(s)))
  }

  lemma ProcessWork(s: State, p: Packet)
    requires Open(s)
    ensures var t := DoReadHeader(ProcessPacket(s, p));
            && Open(t) && Load(t.strand) <= Load(s.strand) + 6
            && t.input == s.input && t.consumed == s.consumed && t.writeQueue == s.writeQueue && t.writing == s.writing
  {
    hide Load, EncodePacket;
    LoadAppended(s.strand, Stopping);
    LoadAppended(s.strand, Sending(EncodePacket(CreatePongPacket())));
    LoadAppended(s.strand, Sending(EncodePacket(CreateEchoResponse(p.payload))));
  }

  lemma HeaderProgress(s: State)
    requires s.consumed <= |s.input| && Open(s) && s.strand != [] && s.strand[0].HeaderDone?
    ensures Progress(s, Next(s, Turn))
  {
    hide Load, ParseHeader, ProcessPacket;
    LoadTakenOff(s.strand);
    var t := s.(strand := s.strand[1..]);
    LoadAppended(t.strand, Stopping);
    if |s.headerBuffer| >= HEADER_SIZE {
      ProcessWork(t, Packet(ParseHeader(s.headerBuffer), []));
    }
  }

  lemma PayloadProgress(s: State)
    requires s.consumed <= |s.input| && Open(s) && s.strand != [] && s.strand[0].PayloadDone?
    ensures Progress(s, Next(s, Turn))
  {
    hide Load, ProcessPacket;
    LoadTakenOff(s.strand);
    var t := s.(strand := s.strand[1..]);
    LoadAppended(t.strand, Stopping);
    ProcessWork(t, Packet(s.strand[0].h, s.payloadBuffer));
  }

  lemma OtherProgress(s: State)
    requires s.consumed <= |s.input| && Open(s) && s.strand != [] && !IsRead(s.strand[0])
    ensures Progress(s, Next(s, Turn))
  {
    hide Load;
    LoadTakenOff(s.strand);
    LoadAppended(s.strand[1..], Stopping);
  }

  lemma CompletionProgress(s: State)
    requires Inv(s) && Open(s) && HasWork(s) && s.strand == []
    ensures Enabled(s, Choice(s)) && Progress(s, Next(s, Choice(s)))
  {
    hide Load, ReadsOn, WritesOn, SendsOn, WriterOk, PostsOk, StopsOk, RejectionOk, Answers, EncodeAll, EncodeHeader;
    if s.writing != [] {
      LoadAppended(s.strand, WriteDone(true));
    } else {
      LoadAppended(s.strand, Outcome(s.reading[0], true));
    }
  }

  lemma StepMakesProgress(s: State)
    requires Inv(s) && Open(s) && HasWork(s)
    ensures Enabled(s, Choice(s)) && Progress(s, Next(s, Choice(s)))
  {
    ReaderIsOk(s);
    hide Inv, Next, Open, Progress;
    if s.strand == [] {
      CompletionProgress(s);
    } else {
      match s.strand[0]
      case HeaderDone(_) => HeaderProgress(s);
      case PayloadDone(_, _) => PayloadProgress(s);
      case _ => OtherProgress(s);
    }
  }

  /** From any open state a calm schedule leads to a stop, or to where nothing is left to do. */
  lemma {:induction false} WorkRunsOut(input: seq<u8>, steps: seq<Step>) returns (more: seq<Step>)
    requires Open(Run(input, steps)) && Run(input, steps).consumed <= |Run(input, steps).input|
    ensures Calm(more)
    ensures var t := Run(input, steps + more); t.isStopped || (Open(t) && !HasWork(t))
    decreases Work(Run(input, steps))
  {
    hide Run, Inv, Next, Enabled, Open, HasWork, Work, Calm;
    var s := Run(input, steps);
    if !HasWork(s) {
      more := [];
      assert steps + more == steps;
      CalmConcat(more, more);
    } else {
      RunKeepsInv(input, steps);
      StepMakesProgress(s);
      RunOneMore(input, steps, Choice(s));
      more := [Choice(s)];
      ChoiceIsCalm(s);
      if !Next(s, Choice(s)).isStopped {
        var later := WorkRunsOut(input, steps + more);
        assert (steps + more) + later == steps + (more + later);
        CalmConcat(more, later);
        more := more + later;
      }
    }
  }

  lemma CalmConcat(a: seq<Step>, b: seq<Step>)
    ensures Calm([]) && (Calm(a) && Calm(b) ==> Calm(a + b))
  {
  }

  lemma ChoiceIsCalm(s: State)
    ensures Calm([Choice(s)])
  {
  }

  /** Whatever bytes the client sends, if they hold no disconnect and no bad header, some schedule without
      failures or outside stops processes every packet in them and delivers every answer, which the client
      then decodes. */
  lemma {:induction false} EveryClientCanBeServed(input: seq<u8>) returns (steps: seq<Step>)
    requires forall p | p in Decode(input).packets :: p.header.kind != 0x00FF
    requires Decode(input).stuck.NeedHeader? || Decode(input).stuck.NeedPayload?
    ensures Calm(steps)
    ensures var s := Run(input, steps);
            && !s.isStopped && s.processed == Decode(input).packets
            && s.wire == Concat(Answers(Decode(input).packets))
            && Decode(s.wire).packets == NormalisedAll(AnswerPackets(Decode(input).packets))
  {
    StartIsOpen(input);
    steps := WorkRunsOut(input, []);
    assert [] + steps == steps;
    CalmSessionStopsWhen(input, steps);
    ProcessesWhatDecodes(input, steps);
    RunKeepsInv(input, steps);
    hide Run, Inv, Decode, Calm, Concat, Answers, AnswerPackets;
    var s := Run(input, steps);
    forall p | p in s.processed ensures p.header.kind != 0x00FF {
      assert p in Decode(input).packets;
    }
    OutOfWorkIsQuiet(s);
    QuietMeansAnswered(input, steps);
    ReencodesConsumed(input);
    ConcatIsEncodeAll(Decode(input).packets);
    StreamRoundTrip(AnswerPackets(Decode(input).packets));
  }

  lemma {:induction false} StartIsOpen(input: seq<u8>)
    ensures var s := Run(input, []); Open(s) && s.consumed <= |s.input|
  {
  }

  lemma OutOfWorkIsQuiet(s: State)
    requires Inv(s) && Open(s) && !HasWork(s)
    ensures Quiet(s)
  {
    hide ReadsOn, WritesOn, SendsOn, WriterOk, PostsOk, StopsOk, RejectionOk, Answers, EncodeAll, EncodeHeader;
  }
}
