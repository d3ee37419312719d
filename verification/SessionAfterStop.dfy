/** What can still happen to a session once its stop body has run: exactly when one more packet is
    processed, and when one more message reaches the client (01_AsyncNet_Server/src/Session.cpp). */
module SessionAfterStop {
  import opened MachineWords
  import opened Protocol
  import opened Framing
  import opened SessionModel
  import opened SessionLaws
  import opened SessionRuns

  // ---------------------------------------------------------------------------------------------
  // Packets
  // ---------------------------------------------------------------------------------------------

  /** A header that the session accepts, of a packet without payload. */
  predicate NoPayload(b: seq<u8>) {
    |b| == HEADER_SIZE && !Refused(ParseHeader(b)) && ParseHeader(b).length == 0
  }

  /** A read under way that was begun on the open socket, that the client's bytes can satisfy, and that
      completes a packet. */
  predicate ReadCanComplete(s: State) {
    && |s.reading| == 1 && s.reading[0].live
    && var n := s.consumed + Need(s.reading[0]);
       n <= |s.input| && (s.reading[0].HeaderRead? ==> NoPayload(s.input[s.consumed..n]))
  }

  /** A read that has succeeded, waits on the strand and completes a packet. */
  predicate ReadHasCompleted(s: State) {
    var done := ReadsOn(s.strand);
    && |done| == 1
    && match done[0]
       case HeaderDone(true) => NoPayload(s.headerBuffer)
       case PayloadDone(_, true) => true
       case _ => false
  }

  predicate OneMoreCanCome(s: State) {
    ReadCanComplete(s) || ReadHasCompleted(s)
  }

  /** The packets processed, and the one that may still come. */
  function Late(s: State): nat {
    |s.processed| + if OneMoreCanCome(s) then 1 else 0
  }

  /** No step of a stopped session opens a way for another packet. */
  predicate NothingOpens(s: State, t: State) {
    t.isStopped && |s.processed| <= |t.processed| && Late(t) <= Late(s)
  }

  lemma LateAfterProcessing(s: State, p: Packet)
    requires s.isStopped && s.reading == [] && ReadsOn(s.strand) == []
    ensures var t := DoReadHeader(ProcessPacket(s, p));
            t.isStopped && |t.processed| == |s.processed| + 1 && Late(t) == |t.processed|
  {
    ProcessPosts(s, p);
    hide ReadsOn, WritesOn, SendsOn, EncodePacket;
  }

  lemma HeaderTurn(s: State)
    requires Inv(s) && s.isStopped && s.strand != [] && s.strand[0].HeaderDone?
    ensures var t := Next(s, Turn);
            NothingOpens(s, t) && (ReadHasCompleted(s) ==> |t.processed| == |s.processed| + 1)
  {
    hide ReadsOn, WritesOn, SendsOn, WriterOk, PostsOk, StopsOk, RejectionOk, Answers, EncodeAll, ProcessPacket;
    hide ParseHeader;
    TakenOff(s.strand);
    var rest := s.(strand := s.strand[1..]);
    Appended(rest.strand, Stopping);
    if |s.headerBuffer| >= HEADER_SIZE {
      LateAfterProcessing(rest, Packet(ParseHeader(s.headerBuffer), []));
    }
  }

  lemma PayloadTurn(s: State)
    requires Inv(s) && s.isStopped && s.strand != [] && s.strand[0].PayloadDone?
    ensures var t := Next(s, Turn);
            NothingOpens(s, t) && (ReadHasCompleted(s) ==> |t.processed| == |s.processed| + 1)
  {
    hide ReadsOn, WritesOn, SendsOn, WriterOk, PostsOk, StopsOk, RejectionOk, Answers, EncodeAll, ProcessPacket;
    TakenOff(s.strand);
    var rest := s.(strand := s.strand[1..]);
    Appended(rest.strand, Stopping);
    LateAfterProcessing(rest, Packet(s.strand[0].h, s.payloadBuffer));
  }

  /** The reader is where it was, though the strand has moved on. */
  predicate SameReader(s: State, t: State) {
    && t.isStopped && t.processed == s.processed && t.reading == s.reading && ReadsOn(t.strand) == ReadsOn(s.strand)
    && t.headerBuffer == s.headerBuffer && t.input == s.input && t.consumed == s.consumed
  }

  lemma SameReaderSameChance(s: State, t: State)
    requires SameReader(s, t)
    ensures OneMoreCanCome(t) == OneMoreCanCome(s) && ReadHasCompleted(t) == ReadHasCompleted(s)
  {
  }

  lemma OtherTurn(s: State)
    requires Inv(s) && s.isStopped && s.strand != [] && !IsRead(s.strand[0])
    ensures var t := Next(s, Turn);
            && t.isStopped && t.processed == s.processed && OneMoreCanCome(t) == OneMoreCanCome(s)
            && ReadHasCompleted(t) == ReadHasCompleted(s)
            && s.strand[1..] <= t.strand
  {
    hide ReadsOn, WritesOn, SendsOn, Inv, OneMoreCanCome, ReadHasCompleted;
    TakenOff(s.strand);
    Appended(s.strand[1..], Stopping);
    SameReaderSameChance(s, Next(s, Turn));
  }

  lemma ReadSucceedsOpensNothing(s: State, i: nat)
    requires Inv(s) && s.isStopped && Enabled(s, ReadSucceeds(i))
    ensures var t := Next(s, ReadSucceeds(i));
            t.isStopped && t.processed == s.processed && ReadHasCompleted(t) == OneMoreCanCome(t) == ReadCanComplete(s)
  {
    hide ReadsOn, WritesOn, SendsOn, WriterOk, PostsOk, StopsOk, RejectionOk, Answers, EncodeAll, NoPayload;
    Appended(s.strand, Outcome(s.reading[i], true));
  }

  lemma FailedReadOpensNothing(s: State, i: nat)
    requires Inv(s) && s.isStopped && Enabled(s, ReadFails(i))
    ensures NothingOpens(s, Next(s, ReadFails(i)))
  {
    hide ReadsOn, WritesOn, SendsOn, WriterOk, PostsOk, StopsOk, RejectionOk, Answers, EncodeAll, NoPayload;
    Appended(s.strand, Outcome(s.reading[i], false));
  }

  lemma OtherCompletionKeepsReader(s: State, step: Step)
    requires s.isStopped && Enabled(s, step) && (step.CallStop? || step.WriteSucceeds? || step.WriteFails?)
    ensures SameReader(s, Next(s, step))
  {
    hide ReadsOn, WritesOn, SendsOn;
    match step
    case CallStop => Appended(s.strand, Stopping);
    case WriteSucceeds(_) => Appended(s.strand, WriteDone(true));
    case WriteFails(_, _) => Appended(s.strand, WriteDone(false));
  }

  lemma StepOpensNothing(s: State, step: Step)
    requires Inv(s) && s.isStopped && Enabled(s, step)
    ensures NothingOpens(s, Next(s, step))
  {
    hide Inv, Next, OneMoreCanCome, ReadHasCompleted, ReadCanComplete;
    if step.ReadSucceeds? {
      ReadSucceedsOpensNothing(s, step.i);
      CanCompleteCounts(s);
    } else if step.ReadFails? {
      FailedReadOpensNothing(s, step.i);
    } else if !step.Turn? {
      OtherCompletionKeepsReader(s, step);
      SameReaderSameChance(s, Next(s, step));
    } else if s.strand[0].HeaderDone? {
      HeaderTurn(s);
    } else if s.strand[0].PayloadDone? {
      PayloadTurn(s);
    } else {
      OtherTurn(s);
    }
  }

  lemma CanCompleteCounts(s: State)
    ensures ReadCanComplete(s) || ReadHasCompleted(s) <==> OneMoreCanCome(s)
  {
  }

  lemma {:induction false} StoppedRun(input: seq<u8>, steps: seq<Step>, more: seq<Step>)
    requires Run(input, steps).isStopped
    ensures NothingOpens(Run(input, steps), Run(input, steps + more))
    decreases |more|
  {
    hide Run, Inv, Enabled, Next, Late;
    if more == [] {
      assert steps + more == steps;
    } else {
      var front, step := more[..|more| - 1], more[|more| - 1];
      StoppedRun(input, steps, front);
      assert steps + more == (steps + front) + [step];
      RunKeepsInv(input, steps + front);
      RunOneMore(input, steps + front, step);
      var s := Run(input, steps + front);
      if Enabled(s, step) {
        StepOpensNothing(s, step);
      }
    }
  }

  /** Processing does not check for a stop, but a stop lets at most one more packet through, and that
      one only if its read can complete or has. */
  lemma {:induction false} AtMostOnePacketAfterStop(input: seq<u8>, steps: seq<Step>, more: seq<Step>)
    requires Run(input, steps).isStopped
    ensures var s, t := Run(input, steps), Run(input, steps + more);
            |s.processed| <= |t.processed| <= |s.processed| + if OneMoreCanCome(s) then 1 else 0
  {
    StoppedRun(input, steps, more);
    hide Run, OneMoreCanCome;
  }

  /** Where the completed read waits. */
  lemma {:induction false} WhereTheReadIs(strand: seq<Handler>) returns (i: nat)
    requires ReadsOn(strand) != []
    ensures i < |strand| && IsRead(strand[i])
  {
    var last := |strand| - 1;
    if IsRead(strand[last]) {
      i := last;
    } else {
      i := WhereTheReadIs(strand[..last]);
    }
  }

  /** Turns of the strand reach the completed read, at place `i` or before, and process its packet. */
  lemma {:induction false} TurnsReachTheRead(input: seq<u8>, steps: seq<Step>, i: nat) returns (more: seq<Step>)
    requires var s := Run(input, steps);
             s.isStopped && ReadHasCompleted(s) && i < |s.strand| && IsRead(s.strand[i])
    ensures |Run(input, steps + more).processed| > |Run(input, steps).processed|
    decreases i
  {
    hide Run, Inv, Next, ReadHasCompleted;
    var s := Run(input, steps);
    RunKeepsInv(input, steps);
    RunOneMore(input, steps, Turn);
    more := [Turn];
    if s.strand[0].HeaderDone? {
      HeaderTurn(s);
    } else if s.strand[0].PayloadDone? {
      PayloadTurn(s);
    } else {
      OtherTurn(s);
      var t := Next(s, Turn);
      assert t.strand[i - 1] == s.strand[1..][i - 1];
      var later := TurnsReachTheRead(input, steps + more, i - 1);
      assert (steps + more) + later == steps + (more + later);
      more := more + later;
    }
  }

  lemma CompletedReadWaits(s: State)
    requires ReadHasCompleted(s)
    ensures ReadsOn(s.strand) != []
  {
  }

  lemma ReadCanSucceed(s: State)
    requires ReadCanComplete(s)
    ensures Enabled(s, ReadSucceeds(0))
  {
  }

  /** A schedule under which the one packet that can still come is processed. */
  lemma {:induction false} ThePacketComes(input: seq<u8>, steps: seq<Step>) returns (more: seq<Step>)
    requires Run(input, steps).isStopped && OneMoreCanCome(Run(input, steps))
    ensures |Run(input, steps + more).processed| > |Run(input, steps).processed|
  {
    hide Run, Inv, Next, Enabled, ReadCanComplete, ReadHasCompleted;
    var s := Run(input, steps);
    RunKeepsInv(input, steps);
    if ReadHasCompleted(s) {
      CompletedReadWaits(s);
      var i := WhereTheReadIs(s.strand);
      more := TurnsReachTheRead(input, steps, i);
    } else {
      ReadCanSucceed(s);
      ReadSucceedsOpensNothing(s, 0);
      RunOneMore(input, steps, ReadSucceeds(0));
      var t := Next(s, ReadSucceeds(0));
      CompletedReadWaits(t);
      var i := WhereTheReadIs(t.strand);
      var later := TurnsReachTheRead(input, steps + [ReadSucceeds(0)], i);
      more := [ReadSucceeds(0)] + later;
      assert (steps + [ReadSucceeds(0)]) + later == steps + more;
    }
  }

  /** Exactly when a stopped session can still process a packet: a read begun on the open socket that the
      client's bytes can satisfy, or one that has succeeded and waits on the strand, and in either case
      one that completes a packet, so a header without payload or a payload. */
  lemma {:induction false} PacketAfterStopWhen(input: seq<u8>, steps: seq<Step>)
    requires Run(input, steps).isStopped
    ensures var s := Run(input, steps);
            (exists more :: |Run(input, steps + more).processed| > |s.processed|) <==> OneMoreCanCome(s)
  {
    hide Run, OneMoreCanCome;
    var s := Run(input, steps);
    forall more | |Run(input, steps + more).processed| > |s.processed| ensures OneMoreCanCome(s) {
      AtMostOnePacketAfterStop(input, steps, more);
    }
    if OneMoreCanCome(s) {
      var more := ThePacketComes(input, steps);
    }
  }

  lemma {:induction false} StopOvertakesHeader(input: seq<u8>)
    requires |input| == HEADER_SIZE
    ensures var s := Run(input, [CallStop] + [ReadSucceeds(0)] + [Turn]);
            && s.isStopped && s.processed == [] && s.strand == [HeaderDone(true)]
            && s.headerBuffer == input
  {
    hide Run;
    RunNothing(input);
    RunOneMore(input, [], CallStop);
    var one: seq<Step> := [CallStop];
    assert [] + one == one;
    RunOneMore(input, one, ReadSucceeds(0));
    var t := Run(input, one + [ReadSucceeds(0)]);
    assert t.headerBuffer == input && t.strand == [Stopping] + [HeaderDone(true)] && t.processed == [];
    RunOneMore(input, one + [ReadSucceeds(0)], Turn);
  }

  lemma HeaderIsStillProcessed(s: State)
    requires s.strand == [HeaderDone(true)] && NoPayload(s.headerBuffer) && s.processed == []
    ensures |Next(s, Turn).processed| == 1
  {
    hide ParseHeader, EncodePacket;
  }

  /** So "nothing is processed after a stop" is false of the code: any packet without payload whose header
      completes behind a stop is. */
  lemma PacketProcessedAfterStop(h: Header)
    requires h.magic == MAGIC_HEADER && h.length == 0
    ensures var s := Run(EncodeHeader(h), [CallStop] + [ReadSucceeds(0)] + [Turn]);
            var t := Run(EncodeHeader(h), [CallStop] + [ReadSucceeds(0)] + [Turn] + [Turn]);
            s.isStopped && s.processed == [] && |t.processed| == 1
  {
    hide EncodeHeader, ParseHeader, Run, Handle;
    var input := EncodeHeader(h);
    EncodeThenParse(h, []);
    assert input + [] == input;
    StopOvertakesHeader(input);
    var steps := [CallStop] + [ReadSucceeds(0)] + [Turn];
    HeaderIsStillProcessed(Run(input, steps));
    RunOneMore(input, steps, Turn);
  }

  // ---------------------------------------------------------------------------------------------
  // Messages
  // ---------------------------------------------------------------------------------------------

  /** How many messages the client has whole. */
  function Delivered(s: State): nat {
    |s.popped| + if WritesOn(s.strand) == [WriteDone(true)] then 1 else 0
  }

  /** They are the first ones posted, and their bytes have reached it. */
  lemma {:induction false} DeliveredIsOnTheWire(input: seq<u8>, steps: seq<Step>)
    ensures var s := Run(input, steps);
            Delivered(s) <= |s.posted| && Concat(s.posted[..Delivered(s)]) <= s.wire
  {
    var s := Run(input, steps);
    RunKeepsInv(input, steps);
    hide Run, ReadsOn, WritesOn, SendsOn, ReaderOk, StopsOk, RejectionOk, Answers, Concat;
    if WritesOn(s.strand) == [WriteDone(true)] {
      ConcatAppended(s.popped, s.writeQueue[0]);
      assert s.posted[..|s.popped| + 1] == s.popped + [s.writeQueue[0]];
    } else {
      assert s.posted[..|s.popped|] == s.popped;
    }
  }

  /** A write begun on the open socket is under way. */
  predicate WriteCanComplete(s: State) {
    |s.writing| == 1 && s.writing[0].live
  }

  /** A stopped session takes in no more messages, and opens no way for another to be delivered. */
  predicate NothingIsSent(s: State, t: State) {
    && t.isStopped && t.popped + t.writeQueue == s.popped + s.writeQueue
    && Delivered(s) <= Delivered(t)
    && Delivered(t) + (if WriteCanComplete(t) then 1 else 0) <= Delivered(s) + (if WriteCanComplete(s) then 1 else 0)
  }

  /** The writer is where it was, though the strand has moved on. */
  predicate SameWriter(s: State, t: State) {
    && t.isStopped && t.popped == s.popped && t.writeQueue == s.writeQueue && t.writing == s.writing
    && WritesOn(t.strand) == WritesOn(s.strand)
  }

  lemma SameWriterSendsNothing(s: State, t: State)
    requires SameWriter(s, t)
    ensures NothingIsSent(s, t)
  {
  }

  lemma ProcessKeepsWriter(s: State, p: Packet)
    requires s.isStopped
    ensures SameWriter(s, DoReadHeader(ProcessPacket(s, p)))
  {
    ProcessPosts(s, p);
    hide ReadsOn, WritesOn, SendsOn, EncodePacket;
  }

  lemma ReadTurnKeepsWriter(s: State)
    requires s.isStopped && s.strand != [] && IsRead(s.strand[0])
    ensures SameWriter(s, Next(s, Turn))
  {
    hide ReadsOn, WritesOn, SendsOn, ParseHeader, ProcessPacket;
    TakenOff(s.strand);
    var rest := s.(strand := s.strand[1..]);
    Appended(rest.strand, Stopping);
    if s.strand[0].HeaderDone? {
      if |s.headerBuffer| >= HEADER_SIZE {
        ProcessKeepsWriter(rest, Packet(ParseHeader(s.headerBuffer), []));
      }
    } else {
      ProcessKeepsWriter(rest, Packet(s.strand[0].h, s.payloadBuffer));
    }
  }

  lemma QuietTurnKeepsWriter(s: State)
    requires s.isStopped && s.strand != [] && (s.strand[0].Stopping? || s.strand[0].Sending?)
    ensures SameWriter(s, Next(s, Turn))
  {
    hide ReadsOn, WritesOn, SendsOn;
    TakenOff(s.strand);
  }

  lemma WriteTurnSendsNothing(s: State)
    requires Inv(s) && s.isStopped && s.strand != [] && s.strand[0].WriteDone?
    ensures NothingIsSent(s, Next(s, Turn))
  {
    hide ReadsOn, WritesOn, SendsOn, ReaderOk, PostsOk, StopsOk, RejectionOk, Answers, Concat;
    TakenOff(s.strand);
    Appended(s.strand[1..], Stopping);
    if s.strand[0].ok {
      assert s.popped + s.writeQueue == (s.popped + [s.writeQueue[0]]) + s.writeQueue[1..];
    }
  }

  lemma OtherCompletionKeepsWriter(s: State, step: Step)
    requires s.isStopped && Enabled(s, step) && (step.CallStop? || step.ReadSucceeds? || step.ReadFails?)
    ensures SameWriter(s, Next(s, step))
  {
    hide ReadsOn, WritesOn, SendsOn;
    match step
    case CallStop => Appended(s.strand, Stopping);
    case ReadSucceeds(i) => Appended(s.strand, Outcome(s.reading[i], true));
    case ReadFails(i) => Appended(s.strand, Outcome(s.reading[i], false));
  }

  lemma WriteCompletionSendsNothing(s: State, step: Step)
    requires Inv(s) && s.isStopped && Enabled(s, step) && (step.WriteSucceeds? || step.WriteFails?)
    ensures NothingIsSent(s, Next(s, step))
  {
    hide ReadsOn, WritesOn, SendsOn, ReaderOk, PostsOk, StopsOk, RejectionOk, Answers, Concat;
    assert WritesOn(s.strand) == [];
    Appended(s.strand, WriteDone(step.WriteSucceeds?));
    assert WritesOn(Next(s, step).strand) == [WriteDone(step.WriteSucceeds?)];
  }

  lemma StepSendsNothing(s: State, step: Step)
    requires Inv(s) && s.isStopped && Enabled(s, step)
    ensures NothingIsSent(s, Next(s, step))
  {
    hide Inv, Next, NothingIsSent, SameWriter;
    if step.WriteSucceeds? || step.WriteFails? {
      WriteCompletionSendsNothing(s, step);
    } else if !step.Turn? {
      OtherCompletionKeepsWriter(s, step);
      SameWriterSendsNothing(s, Next(s, step));
    } else if s.strand[0].WriteDone? {
      WriteTurnSendsNothing(s);
    } else {
      if IsRead(s.strand[0]) {
        ReadTurnKeepsWriter(s);
      } else {
        QuietTurnKeepsWriter(s);
      }
      SameWriterSendsNothing(s, Next(s, Turn));
    }
  }

  /** After a stop the messages written and queued never change again, and at most one more is completely
      written, only if a write begun before the stop is still under way. */
  lemma {:induction false} AtMostOneMessageAfterStop(input: seq<u8>, steps: seq<Step>, more: seq<Step>)
    requires Run(input, steps).isStopped
    ensures NothingIsSent(Run(input, steps), Run(input, steps + more))
    decreases |more|
  {
    hide Run, Inv, Enabled, Next, Delivered, WriteCanComplete;
    if more == [] {
      assert steps + more == steps;
    } else {
      var front, step := more[..|more| - 1], more[|more| - 1];
      AtMostOneMessageAfterStop(input, steps, front);
      assert steps + more == (steps + front) + [step];
      RunKeepsInv(input, steps + front);
      RunOneMore(input, steps + front, step);
      var s := Run(input, steps + front);
      if Enabled(s, step) {
        StepSendsNothing(s, step);
      }
    }
  }

  lemma TheMessageArrives(s: State)
    requires Inv(s) && WriteCanComplete(s)
    ensures Enabled(s, WriteSucceeds(0)) && Delivered(Next(s, WriteSucceeds(0))) == Delivered(s) + 1
  {
    hide ReadsOn, WritesOn, SendsOn, ReaderOk, PostsOk, StopsOk, RejectionOk, Answers, Concat;
    Appended(s.strand, WriteDone(true));
  }

  /** Exactly when a stopped session can still deliver a message. */
  lemma {:induction false} MessageAfterStopWhen(input: seq<u8>, steps: seq<Step>)
    requires Run(input, steps).isStopped
    ensures var s := Run(input, steps);
            (exists more :: Delivered(Run(input, steps + more)) > Delivered(s)) <==> WriteCanComplete(s)
  {
    hide Run, WriteCanComplete, Delivered, Enabled, Next, Inv;
    var s := Run(input, steps);
    forall more | Delivered(Run(input, steps + more)) > Delivered(s) ensures WriteCanComplete(s) {
      AtMostOneMessageAfterStop(input, steps, more);
    }
    if WriteCanComplete(s) {
      RunKeepsInv(input, steps);
      TheMessageArrives(s);
      RunOneMore(input, steps, WriteSucceeds(0));
    }
  }
}
