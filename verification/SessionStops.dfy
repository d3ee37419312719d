/** What a packet is answered with, and why a session stops, written out
    (01_AsyncNet_Server/src/Session.cpp:125-149). */
module SessionStops {
  import opened MachineWords
  import opened Protocol
  import opened Framing
  import opened SessionModel
  import opened SessionLaws
  import opened SessionRuns

  // ---------------------------------------------------------------------------------------------
  // Answers
  // ---------------------------------------------------------------------------------------------

  /** A ping is answered with a pong, an echo request with its own payload, and nothing else at all. */
  lemma AnswersAre(p: Packet)
    ensures p.header.kind == 0x0001 ==> Answer(p) == [Packet(Header(0x414E, 0x0002, 0), [])]
    ensures p.header.kind == 0x0003 ==>
              Answer(p) == [Packet(Header(0x414E, 0x0004, |p.payload| % 0x1_0000_0000), p.payload)]
    ensures p.header.kind != 0x0001 && p.header.kind != 0x0003 ==> Answer(p) == []
  {
  }

  /** What the client decodes from the bytes of the answer to an echo request is that payload, and from those
      of the answer to a ping one pong. */
  lemma AnswersOnTheWire(p: Packet)
    requires |p.payload| <= 65536
    ensures p.header.kind == 0x0001 ==>
              Decode(EncodeAll(Answer(p))) == Decoded([Packet(Header(0x414E, 0x0002, 0), [])], 8, NeedHeader)
    ensures p.header.kind == 0x0003 ==>
              Decode(EncodeAll(Answer(p)))
              == Decoded([Packet(Header(0x414E, 0x0004, |p.payload|), p.payload)], 8 + |p.payload|, NeedHeader)
    ensures p.header.kind != 0x0001 && p.header.kind != 0x0003 ==> EncodeAll(Answer(p)) == []
  {
    AnswersAre(p);
    hide Answer, Decode, EncodePacket;
    if Answer(p) != [] {
      assert Answer(p) == [Answer(p)[0]];
      StreamRoundTrip(Answer(p));
    }
  }

  /** Processing a packet puts on the strand the bytes of its answer, behind all that was there. */
  lemma AnswerIsPosted(s: State, p: Packet)
    ensures var t := ProcessPacket(s, p);
            && (p.header.kind == 0x0001 || p.header.kind == 0x0003 ==>
                  t.strand == s.strand + [Sending(EncodePacket(Answer(p)[0]))])
            && (p.header.kind != 0x0001 && p.header.kind != 0x0003 && p.header.kind != 0x00FF ==> t.strand == s.strand)
            && t.counted == s.counted + 1 && t.processed == s.processed + [p]
  {
  }

  // ---------------------------------------------------------------------------------------------
  // Stops
  // ---------------------------------------------------------------------------------------------

  /** The session has stopped or is about to. */
  predicate StopIsDue(s: State) {
    s.isStopped || Stopping in s.strand
  }

  /** Processing a packet asks for a stop exactly when it is a disconnect. */
  lemma DisconnectStops(s: State, p: Packet)
    ensures Stopping in ProcessPacket(s, p).strand <==> Stopping in s.strand || p.header.kind == 0x00FF
    ensures StopIsDue(ProcessPacket(s, p)) <==> StopIsDue(s) || p.header.kind == 0x00FF
  {
    hide EncodePacket;
  }

  predicate HasDisconnect(packets: seq<Packet>) {
    exists p :: p in packets && p.header.kind == 0x00FF
  }

  lemma DisconnectInOneMore(packets: seq<Packet>, p: Packet)
    ensures HasDisconnect(packets + [p]) <==> HasDisconnect(packets) || p.header.kind == 0x00FF
  {
    if p.header.kind == 0x00FF {
      assert p in packets + [p];
    }
    if HasDisconnect(packets) {
      var q :| q in packets && q.header.kind == 0x00FF;
      assert q in packets + [p];
    }
  }

  lemma TurnKeepsStopDue(s: State)
    requires s.strand != []
    ensures StopIsDue(s) ==> StopIsDue(Next(s, Turn))
    ensures HasDisconnect(Next(s, Turn).processed) ==> HasDisconnect(s.processed) || StopIsDue(Next(s, Turn))
  {
    hide HasDisconnect, ParseHeader, ProcessPacket, EncodePacket;
    var t := s.(strand := s.strand[1..]);
    assert s.strand == [s.strand[0]] + s.strand[1..];
    match s.strand[0]
    case HeaderDone(ok) =>
      if |s.headerBuffer| >= HEADER_SIZE {
        ProcessMayStop(t, Packet(ParseHeader(s.headerBuffer), []));
      }
    case PayloadDone(h, ok) => ProcessMayStop(t, Packet(h, s.payloadBuffer));
    case _ =>
  }

  lemma ProcessMayStop(s: State, p: Packet)
    ensures var t := ProcessPacket(s, p);
            && t.processed == s.processed + [p] && t.isStopped == s.isStopped
            && (Stopping in t.strand <==> Stopping in s.strand || p.header.kind == 0x00FF)
            && (HasDisconnect(t.processed) <==> HasDisconnect(s.processed) || p.header.kind == 0x00FF)
  {
    DisconnectStops(s, p);
    DisconnectInOneMore(s.processed, p);
    hide EncodePacket, HasDisconnect;
  }

  lemma StepKeepsStopDue(s: State, step: Step)
    requires Enabled(s, step)
    ensures StopIsDue(s) || step.CallStop? ==> StopIsDue(Next(s, step))
    ensures HasDisconnect(Next(s, step).processed) ==> HasDisconnect(s.processed) || StopIsDue(Next(s, step))
  {
    if step.Turn? {
      TurnKeepsStopDue(s);
    }
    hide HasDisconnect, Handle;
  }

  /** In every schedule a stop asked for from outside, a disconnect processed, a header refused and a write
      failed each stop the session, at the latest once its strand has run. */
  lemma {:induction false} EveryCauseStops(input: seq<u8>, steps: seq<Step>)
    ensures var s := Run(input, steps);
            (|| CallStop in steps
             || (exists p :: p in s.processed && p.header.kind == 0x00FF)
             || s.rejected || s.writeFailed)
            ==> s.isStopped || Stopping in s.strand
  {
    StopRunsOnce(input, steps);
    CalledOrDisconnected(input, steps);
    hide Run;
  }

  lemma {:induction false} CalledOrDisconnected(input: seq<u8>, steps: seq<Step>)
    ensures var s := Run(input, steps);
            CallStop in steps || HasDisconnect(s.processed) ==> StopIsDue(s)
  {
    hide HasDisconnect, Next, Enabled, StopIsDue;
    if steps == [] {
      StartIsFresh(input);
    } else {
      var front, step := steps[..|steps| - 1], steps[|steps| - 1];
      CalledOrDisconnected(input, front);
      assert steps == front + [step];
      RunOneMore(input, front, step);
      CallsAreTaken(Run(input, front), step);
      hide Run;
      if Enabled(Run(input, front), step) {
        StepKeepsStopDue(Run(input, front), step);
      }
    }
  }

  lemma CallsAreTaken(s: State, step: Step)
    ensures step.CallStop? ==> Enabled(s, step)
  {
  }

  lemma {:induction false} StartIsFresh(input: seq<u8>)
    ensures Run(input, []).processed == [] && !HasDisconnect([]) && Run(input, []).strand == []
    ensures !Run(input, []).isStopped
  {
  }

  /** Any read under way may fail, any write after any part of its bytes, and the failure joins the strand. */
  lemma {:induction false} AnyOperationMayFail(input: seq<u8>, steps: seq<Step>, i: nat, sent: nat)
    ensures var s, t := Run(input, steps), Run(input, steps + [ReadFails(i)]);
            i < |s.reading| ==>
              && t.reading == s.reading[..i] + s.reading[i + 1..] && t.wire == s.wire && t.consumed == s.consumed
              && t.strand == s.strand + [if s.reading[i].HeaderRead? then HeaderDone(false)
                                         else PayloadDone(s.reading[i].h, false)]
    ensures var s, t := Run(input, steps), Run(input, steps + [WriteFails(i, sent)]);
            i < |s.writing| && s.writing[i].live && sent <= |s.writing[i].data| ==>
              && t.writing == s.writing[..i] + s.writing[i + 1..] && t.wire == s.wire + s.writing[i].data[..sent]
              && t.strand == s.strand + [WriteDone(false)]
  {
    RunOneMore(input, steps, ReadFails(i));
    RunOneMore(input, steps, WriteFails(i, sent));
    hide Run;
  }

  // ---------------------------------------------------------------------------------------------
  // And nothing else does
  // ---------------------------------------------------------------------------------------------

  /** Nobody outside stops the session and no operation fails. */
  predicate Calm(steps: seq<Step>) {
    forall step | step in steps :: !step.CallStop? && !step.ReadFails? && !step.WriteFails?
  }

  predicate Failed(h: Handler) {
    h == HeaderDone(false) || h == WriteDone(false) || (h.PayloadDone? && !h.ok)
  }

  /** Nothing has failed, and a stop is due only for a disconnect or a refused header. */
  predicate Untroubled(s: State) {
    && !s.writeFailed && (forall h | h in s.strand :: !Failed(h))
    && (StopIsDue(s) ==> HasDisconnect(s.processed) || s.rejected)
  }

  lemma HeaderTurnUntroubled(s: State)
    requires Inv(s) && Untroubled(s) && s.strand != [] && s.strand[0].HeaderDone?
    ensures Untroubled(Next(s, Turn))
  {
    hide ReadsOn, WritesOn, SendsOn, WriterOk, PostsOk, StopsOk, RejectionOk, Answers, EncodeAll, HasDisconnect;
    hide ParseHeader, ProcessPacket;
    TakenOff(s.strand);
    var t := s.(strand := s.strand[1..]);
    assert s.strand == [s.strand[0]] + t.strand;
    assert !Failed(s.strand[0]) && forall h | h in t.strand :: !Failed(h);
    assert ReadsOn(s.strand)[0] == HeaderDone(true);
    var p := Packet(ParseHeader(s.headerBuffer), []);
    ProcessMayStop(t, p);
    ProcessAddsNoFailure(t, p);
  }

  lemma PayloadTurnUntroubled(s: State)
    requires Inv(s) && Untroubled(s) && s.strand != [] && s.strand[0].PayloadDone?
    ensures Untroubled(Next(s, Turn))
  {
    hide ReadsOn, WritesOn, SendsOn, WriterOk, PostsOk, StopsOk, RejectionOk, Answers, EncodeAll, HasDisconnect;
    hide ProcessPacket;
    var t := s.(strand := s.strand[1..]);
    assert s.strand == [s.strand[0]] + t.strand;
    assert !Failed(s.strand[0]) && forall h | h in t.strand :: !Failed(h);
    var p := Packet(s.strand[0].h, s.payloadBuffer);
    ProcessMayStop(t, p);
    ProcessAddsNoFailure(t, p);
  }

  lemma ProcessAddsNoFailure(s: State, p: Packet)
    ensures var t := ProcessPacket(s, p);
            && (forall h | h in t.strand :: h in s.strand || !Failed(h))
            && t.writeFailed == s.writeFailed && t.rejected == s.rejected
  {
    hide EncodePacket;
  }

  lemma OtherTurnUntroubled(s: State)
    requires Untroubled(s) && s.strand != [] && !IsRead(s.strand[0])
    ensures Untroubled(Next(s, Turn))
  {
    hide HasDisconnect;
    assert s.strand == [s.strand[0]] + s.strand[1..];
    assert !Failed(s.strand[0]);
  }

  lemma StepStaysUntroubled(s: State, step: Step)
    requires Inv(s) && Untroubled(s) && Enabled(s, step)
    requires !step.CallStop? && !step.ReadFails? && !step.WriteFails?
    ensures Untroubled(Next(s, step))
  {
    if step.Turn? {
      hide Inv, Next, Untroubled;
      match s.strand[0]
      case HeaderDone(_) => HeaderTurnUntroubled(s);
      case PayloadDone(_, _) => PayloadTurnUntroubled(s);
      case _ => OtherTurnUntroubled(s);
    } else {
      hide Inv, HasDisconnect;
    }
  }

  lemma {:induction false} CalmRunIsUntroubled(input: seq<u8>, steps: seq<Step>)
    requires Calm(steps)
    ensures Untroubled(Run(input, steps))
  {
    hide Next, Enabled, Inv;
    if steps == [] {
      StartIsFresh(input);
    } else {
      var front, step := steps[..|steps| - 1], steps[|steps| - 1];
      assert steps == front + [step];
      CalmRunIsUntroubled(input, front);
      RunKeepsInv(input, front);
      RunOneMore(input, front, step);
      hide Run, Untroubled;
      if Enabled(Run(input, front), step) {
        StepStaysUntroubled(Run(input, front), step);
      }
    }
  }

  /** Left alone, a session stops exactly when it has processed a disconnect or refused a header, and it
      refuses one only after all packets that the client's bytes decode to, where decoding meets a wrong
      magic or a payload that is too long. */
  lemma {:induction false} CalmSessionStopsWhen(input: seq<u8>, steps: seq<Step>)
    requires Calm(steps)
    ensures var s := Run(input, steps);
            && (s.isStopped || Stopping in s.strand
                <==> (exists p :: p in s.processed && p.header.kind == 0x00FF) || s.rejected)
            && (s.rejected ==>
                  && s.processed == Decode(input).packets
                  && (Decode(input).stuck.BadMagic? || Decode(input).stuck.TooLong?))
  {
    CalmRunIsUntroubled(input, steps);
    EveryCauseStops(input, steps);
    ProcessesWhatDecodes(input, steps);
    hide Run, Decode, Calm;
  }
}
