/** What holds of a session in every state of every schedule. */
module SessionRuns {
  import opened MachineWords
  import opened Protocol
  import opened Framing
  import opened SessionModel
  import opened SessionLaws

  /** However often a stop is asked for, its body runs at most once, and every read or write
      error and every refused header is followed by one. */
  lemma {:induction false} StopRunsOnce(input: seq<u8>, steps: seq<Step>)
    ensures var s := Run(input, steps);
            && s.removals == (if s.isStopped then 1 else 0)
            && (s.writeFailed || s.rejected ==> s.isStopped || Stopping in s.strand)
            && (s.reading == [] && ReadsOn(s.strand) == [] ==> s.isStopped || Stopping in s.strand)
  {
    hide Run, ReadsOn, ReaderOk, WriterOk, PostsOk, RejectionOk;
    RunKeepsInv(input, steps);
  }

  /** At most one write is under way; until it completes its bytes are the untouched front of the
      queue, and its completion finds a front to pop. */
  lemma {:induction false} OneWriteAtATime(input: seq<u8>, steps: seq<Step>)
    ensures var s := Run(input, steps);
            && |s.writing| + |WritesOn(s.strand)| <= 1
            && (s.writing != [] ==> s.writeQueue != [] && s.writeQueue[0] == s.writing[0].data)
            && (WritesOn(s.strand) != [] ==> s.writeQueue != [])
  {
    hide Run, WritesOn, ReaderOk, PostsOk, StopsOk, RejectionOk;
    RunKeepsInv(input, steps);
  }

  /** No wake-up is lost: while no write has failed, a waiting message has a write under way or
      a completion on the strand. */
  lemma {:induction false} QueueIsBeingWritten(input: seq<u8>, steps: seq<Step>)
    ensures var s := Run(input, steps);
            s.writeQueue != [] && !s.writeFailed ==> |s.writing| + |WritesOn(s.strand)| == 1
  {
    hide Run, WritesOn, ReaderOk, PostsOk, StopsOk, RejectionOk;
    RunKeepsInv(input, steps);
  }

  /** At most one read is under way, so neither buffer is written while a handler's read waits. */
  lemma {:induction false} OneReadAtATime(input: seq<u8>, steps: seq<Step>)
    ensures var s := Run(input, steps);
            && |s.reading| + |ReadsOn(s.strand)| <= 1
            && (s.reading != [] && s.reading[0].PayloadRead? ==> |s.payloadBuffer| == s.reading[0].h.length)
  {
    hide Run, ReadsOn, WriterOk, PostsOk, StopsOk, RejectionOk;
    RunKeepsInv(input, steps);
  }

  /** The packets processed are those that decoding the input yields, in order, as far as the
      session has got; and a header is refused only where decoding is stuck on it. */
  lemma {:induction false} ProcessesWhatDecodes(input: seq<u8>, steps: seq<Step>)
    ensures var s := Run(input, steps);
            && s.processed <= Decode(input).packets && s.counted == |s.processed|
            && (s.rejected ==>
                  && s.processed == Decode(input).packets
                  && (Decode(input).stuck.BadMagic? || Decode(input).stuck.TooLong?))
  {
    var s := Run(input, steps);
    hide Run, ReadsOn, WriterOk, PostsOk, StopsOk, EncodeAll, Decode;
    RunKeepsInv(input, steps);
    var taken := input[..s.consumed];
    var rest := taken[|EncodeAll(s.processed)|..] + input[s.consumed..];
    assert input == EncodeAll(s.processed) + rest;
    DecodePast(s.processed, rest);
  }

  /** While the session is not stopped, every answer is popped, queued or waiting on the strand;
      a stop can only lose the last ones. */
  lemma {:induction false} AnswersAreKeptInOrder(input: seq<u8>, steps: seq<Step>)
    ensures var s := Run(input, steps);
            && s.popped + s.writeQueue <= Answers(s.processed)
            && (!s.isStopped ==> Answers(s.processed) == s.popped + s.writeQueue + SendsOn(s.strand))
            && Concat(s.popped) <= s.wire
  {
    hide Run, ReadsOn, WritesOn, SendsOn, ReaderOk, StopsOk, RejectionOk, Answers, Concat;
    RunKeepsInv(input, steps);
  }

  lemma {:induction false} ConcatOfPrefix(a: seq<seq<u8>>, b: seq<seq<u8>>)
    requires a <= b
    ensures Concat(a) <= Concat(b)
  {
    if a != [] {
      ConcatOfPrefix(a[1..], b[1..]);
    }
  }

  lemma {:induction false} AnswersOfPrefix(a: seq<Packet>, b: seq<Packet>)
    requires a <= b
    ensures Answers(a) <= Answers(b)
    decreases |b|
  {
    if a == b {
    } else {
      AnswersOfPrefix(a, b[..|b| - 1]);
    }
  }

  /** Whatever fails or stops, and whenever, the bytes that have reached the client are a prefix
      of the answers to the packets its own bytes decode to. */
  lemma {:induction false} WireIsPrefixOfAnswers(input: seq<u8>, steps: seq<Step>)
    ensures Run(input, steps).wire <= Concat(Answers(Decode(input).packets))
  {
    var s := Run(input, steps);
    RunKeepsInv(input, steps);
    ProcessesWhatDecodes(input, steps);
    AnswersOfPrefix(s.processed, Decode(input).packets);
    hide Run, ReadsOn, WritesOn, SendsOn, ReaderOk, StopsOk, RejectionOk, Answers, Concat, Decode;
    WireIsPrefixOfPosted(s);
    ConcatOfPrefix(s.posted, Answers(Decode(input).packets));
  }

  lemma WireIsPrefixOfPosted(s: State)
    requires Inv(s)
    ensures s.wire <= Concat(s.posted)
  {
    hide Concat, ReadsOn, WritesOn, SendsOn, ReaderOk, StopsOk, RejectionOk, Answers;
    if s.writeQueue == [] {
      ConcatOfPrefix(s.popped, s.posted);
    } else {
      ConcatAppended(s.popped, s.writeQueue[0]);
      assert s.popped + [s.writeQueue[0]] <= s.popped + s.writeQueue;
      ConcatOfPrefix(s.popped + [s.writeQueue[0]], s.posted);
    }
  }

  /** Nothing is left to happen but a stop from outside: no handler waits, no write is under way
      and the next read wants more than the client will send. */
  predicate Quiet(s: State) {
    && s.strand == [] && s.writing == [] && !s.isStopped
    && forall r | r in s.reading :: s.consumed + Need(r) > |s.input|
  }

  lemma {:induction false} StuckInPayload(h: Header, rest: seq<u8>)
    requires Announces(h) && |rest| < h.length
    ensures Decode(EncodeHeader(h) + rest).packets == []
  {
    hide EncodeHeader, ParseHeader;
    EncodeThenParse(h, rest);
  }

  lemma ReaderHasFinished(s: State)
    requires Inv(s) && Quiet(s)
    ensures s.processed == Decode(s.input).packets
  {
    hide WriterOk, PostsOk, Answers, EncodeAll, EncodeHeader, Decode, WritesOn, SendsOn;
    assert |s.reading| == 1;
    assert s.reading[0] in s.reading;
    var rest := s.input[s.consumed..];
    assert s.input == s.input[..s.consumed] + rest;
    if s.reading[0].HeaderRead? {
      DecodePast(s.processed, rest);
      TooShort(rest);
    } else {
      var h := s.reading[0].h;
      assert s.input == EncodeAll(s.processed) + (EncodeHeader(h) + rest);
      DecodePast(s.processed, EncodeHeader(h) + rest);
      StuckInPayload(h, rest);
    }
  }

  lemma {:induction false} TooShort(rest: seq<u8>)
    requires |rest| < HEADER_SIZE
    ensures Decode(rest).packets == []
  {
  }

  /** When a session falls quiet without a stop, every packet in the client's bytes has been
      processed and every answer has reached the client. */
  lemma {:induction false} QuietMeansAnswered(input: seq<u8>, steps: seq<Step>)
    requires Quiet(Run(input, steps))
    ensures var s := Run(input, steps);
            && s.processed == Decode(input).packets
            && s.wire == Concat(Answers(Decode(input).packets))
  {
    var s := Run(input, steps);
    RunKeepsInv(input, steps);
    ReaderHasFinished(s);
    assert s.popped + [] + [] == s.popped;
    hide Run, ReaderOk, Decode, Answers, Concat, RejectionOk;
  }

  /** The answers as packets. */
  function AnswerPackets(packets: seq<Packet>): seq<Packet> {
    if packets == [] then []
    else
      var last := |packets| - 1;
      AnswerPackets(packets[..last]) + Answer(packets[last])
  }

  lemma AnswerFits(p: Packet)
    requires Fits(p)
    ensures Answer(p) == [] || exists q :: Answer(p) == [q] && Fits(q) && Encoded(Answer(p)) == [EncodePacket(q)]
  {
    hide EncodePacket;
    if Answer(p) != [] {
      var q := Answer(p)[0];
      assert Answer(p) == [q] && Fits(q) && Encoded([q]) == [EncodePacket(q)];
    }
  }

  lemma {:induction false} ConcatIsEncodeAll(packets: seq<Packet>)
    requires AllFit(packets)
    ensures Concat(Answers(packets)) == EncodeAll(AnswerPackets(packets))
    ensures AllFit(AnswerPackets(packets))
  {
    if packets != [] {
      var front, p := packets[..|packets| - 1], packets[|packets| - 1];
      ConcatIsEncodeAll(front);
      AnswerFits(p);
      hide EncodePacket, Answer, Encoded, Fits, Concat, EncodeAll;
      if Answer(p) == [] {
        assert Encoded([]) == [] by { EncodedNone(); }
        assert Answers(packets) == Answers(front) && AnswerPackets(packets) == AnswerPackets(front);
      } else {
        var q :| Answer(p) == [q] && Fits(q) && Encoded(Answer(p)) == [EncodePacket(q)];
        ConcatAppended(Answers(front), EncodePacket(q));
        EncodeAllAppended(AnswerPackets(front), q);
      }
    }
  }

  lemma EncodedNone()
    ensures Encoded([]) == []
  {
  }

  /** A client that decodes what it receives gets the answers to what it sent, in order, and
      never meets a bad header. */
  lemma {:induction false} ClientDecodesAnswers(input: seq<u8>, steps: seq<Step>)
    ensures var d := Decode(Run(input, steps).wire);
            && d.packets <= NormalisedAll(AnswerPackets(Decode(input).packets))
            && (d.stuck.NeedHeader? || d.stuck.NeedPayload?)
  {
    WireIsPrefixOfAnswers(input, steps);
    ReencodesConsumed(input);
    var packets := Decode(input).packets;
    hide Run, Decode, Answers, AnswerPackets, Concat;
    ConcatIsEncodeAll(packets);
    var w := Run(input, steps).wire;
    assert w == EncodeAll(AnswerPackets(packets))[..|w|];
    TruncationIsNotAnError(AnswerPackets(packets), |w|);
  }

  lemma {:induction false} RunOneMore(input: seq<u8>, steps: seq<Step>, step: Step)
    ensures var s := Run(input, steps);
            Run(input, steps + [step]) == if Enabled(s, step) then Next(s, step) else s
  {
    assert (steps + [step])[..|steps|] == steps;
    hide Enabled, Next;
  }

  lemma {:induction false} RunNothing(input: seq<u8>)
    ensures Run(input, []) == Start(input)
  {
  }
}
