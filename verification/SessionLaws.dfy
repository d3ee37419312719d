/** What every schedule of a session keeps. */
module SessionLaws {
  import opened MachineWords
  import opened Protocol
  import opened Framing
  import opened SessionModel

  function Concat(messages: seq<seq<u8>>): seq<u8> {
    if messages == [] then [] else messages[0] + Concat(messages[1..])
  }

  /** The encoded answers to a run of packets, in order. */
  function Answers(packets: seq<Packet>): seq<seq<u8>> {
    if packets == [] then []
    else
      var last := |packets| - 1;
      Answers(packets[..last]) + Encoded(Answer(packets[last]))
  }

  function Encoded(packets: seq<Packet>): seq<seq<u8>> {
    if packets == [] then [] else [EncodePacket(packets[0])] + Encoded(packets[1..])
  }

  predicate IsRead(h: Handler) {
    h.HeaderDone? || h.PayloadDone?
  }

  /** The completed reads, the completed writes and the sends waiting on the strand, and whether
      a stop is. */
  function ReadsOn(strand: seq<Handler>): seq<Handler> {
    if strand == [] then []
    else
      var last := |strand| - 1;
      ReadsOn(strand[..last]) + if IsRead(strand[last]) then [strand[last]] else []
  }

  function WritesOn(strand: seq<Handler>): seq<Handler> {
    if strand == [] then []
    else
      var last := |strand| - 1;
      WritesOn(strand[..last]) + if strand[last].WriteDone? then [strand[last]] else []
  }

  function SendsOn(strand: seq<Handler>): seq<seq<u8>> {
    if strand == [] then []
    else
      var last := |strand| - 1;
      SendsOn(strand[..last]) + if strand[last].Sending? then [strand[last].data] else []
  }

  lemma {:induction false} Appended(strand: seq<Handler>, h: Handler)
    ensures ReadsOn(strand + [h]) == if IsRead(h) then ReadsOn(strand) + [h] else ReadsOn(strand)
    ensures WritesOn(strand + [h]) == if h.WriteDone? then WritesOn(strand) + [h] else WritesOn(strand)
    ensures SendsOn(strand + [h]) == if h.Sending? then SendsOn(strand) + [h.data] else SendsOn(strand)
    ensures Stopping in strand + [h] <==> Stopping in strand || h == Stopping
  {
    assert (strand + [h])[..|strand|] == strand;
  }

  lemma {:induction false} ReadsOnInFront(strand: seq<Handler>)
    requires strand != []
    ensures ReadsOn(strand) == (if IsRead(strand[0]) then [strand[0]] else []) + ReadsOn(strand[1..])
  {
    var last := |strand| - 1;
    if last > 0 {
      ReadsOnInFront(strand[..last]);
      assert strand[..last][1..] == strand[1..][..last - 1];
    }
  }

  lemma {:induction false} WritesOnInFront(strand: seq<Handler>)
    requires strand != []
    ensures WritesOn(strand) == (if strand[0].WriteDone? then [strand[0]] else []) + WritesOn(strand[1..])
  {
    var last := |strand| - 1;
    if last > 0 {
      WritesOnInFront(strand[..last]);
      assert strand[..last][1..] == strand[1..][..last - 1];
    }
  }

  lemma {:induction false} SendsOnInFront(strand: seq<Handler>)
    requires strand != []
    ensures SendsOn(strand) == (if strand[0].Sending? then [strand[0].data] else []) + SendsOn(strand[1..])
  {
    var last := |strand| - 1;
    if last > 0 {
      SendsOnInFront(strand[..last]);
      assert strand[..last][1..] == strand[1..][..last - 1];
    }
  }

  lemma {:induction false} TakenOff(strand: seq<Handler>)
    requires strand != []
    ensures var h := strand[0];
            && ReadsOn(strand) == (if IsRead(h) then [h] + ReadsOn(strand[1..]) else ReadsOn(strand[1..]))
            && WritesOn(strand) == (if h.WriteDone? then [h] + WritesOn(strand[1..]) else WritesOn(strand[1..]))
            && SendsOn(strand) == (if h.Sending? then [h.data] + SendsOn(strand[1..]) else SendsOn(strand[1..]))
            && (Stopping in strand <==> h == Stopping || Stopping in strand[1..])
  {
    hide ReadsOn, WritesOn, SendsOn;
    ReadsOnInFront(strand);
    WritesOnInFront(strand);
    SendsOnInFront(strand);
    assert strand == [strand[0]] + strand[1..];
  }

  /** A header that announces a payload the session will read. */
  predicate Announces(h: Header) {
    h.magic == MAGIC_HEADER && 0 < h.length <= MAX_PAYLOAD_SIZE
  }

  predicate Refused(h: Header) {
    h.magic != MAGIC_HEADER || h.length > MAX_PAYLOAD_SIZE
  }

  predicate Processed(packets: seq<Packet>) {
    AllFit(packets) && NormalisedAll(packets) == packets
  }

  /** Where the reader is: at most one read is under way or waiting to be handled, and what has
      been consumed is the encoding of what has been processed, with the frame in hand. */
  ghost predicate ReaderOk(taken: seq<u8>, headerBuffer: seq<u8>, payloadBuffer: seq<u8>,
                           reading: seq<Read>, done: seq<Handler>, processed: seq<Packet>)
  {
    && Processed(processed)
    && |reading| + |done| <= 1
    && (|reading| == 1 ==>
          match reading[0]
          case HeaderRead(_) => taken == EncodeAll(processed)
          case PayloadRead(h, _) =>
            Announces(h) && |payloadBuffer| == h.length && taken == EncodeAll(processed) + EncodeHeader(h))
    && (|done| == 1 ==>
          match done[0]
          case HeaderDone(true) => |headerBuffer| == HEADER_SIZE && taken == EncodeAll(processed) + headerBuffer
          case PayloadDone(h, true) =>
            && Announces(h) && |payloadBuffer| == h.length
            && taken == EncodeAll(processed) + EncodeHeader(h) + payloadBuffer
          case _ => EncodeAll(processed) <= taken)
    && EncodeAll(processed) <= taken
  }

  /** Where the writer is: at most one write is under way or waiting to be handled, its bytes are
      the untouched front of the queue, and the client has all that was popped before it. */
  ghost predicate WriterOk(popped: seq<seq<u8>>, queue: seq<seq<u8>>, writing: seq<Write>,
                           done: seq<Handler>, wire: seq<u8>, failed: bool)
  {
    && |writing| + |done| <= 1
    && (|writing| == 1 ==> queue != [] && queue[0] == writing[0].data && wire == Concat(popped))
    && (|done| == 1 ==>
          && queue != [] && done[0].WriteDone?
          && if done[0].ok then wire == Concat(popped) + queue[0]
             else Concat(popped) <= wire <= Concat(popped) + queue[0])
    && (failed ==> |writing| + |done| == 0 && queue != [] && Concat(popped) <= wire <= Concat(popped) + queue[0])
    && (|writing| + |done| == 0 && !failed ==> queue == [] && wire == Concat(popped))
  }

  /** Every message posted is popped, queued or on the strand, in the order of the posts; only a
      stop drops any, and only the last. */
  ghost predicate PostsOk(posted: seq<seq<u8>>, popped: seq<seq<u8>>, queue: seq<seq<u8>>,
                          sends: seq<seq<u8>>, isStopped: bool)
  {
    && popped + queue <= posted
    && (!isStopped ==> posted == popped + queue + sends)
  }

  /** The stop body runs once, and an error is always followed by a stop. */
  ghost predicate StopsOk(s: State) {
    && s.removals == (if s.isStopped then 1 else 0)
    && (s.writeFailed || s.rejected || |s.reading| + |ReadsOn(s.strand)| == 0 ==>
          s.isStopped || Stopping in s.strand)
  }

  /** A header is refused exactly where decoding the whole input gets stuck on it. */
  ghost predicate RejectionOk(s: State) {
    s.rejected ==>
      && |s.reading| + |ReadsOn(s.strand)| == 0
      && s.processed == Decode(s.input).packets
      && (Decode(s.input).stuck.BadMagic? || Decode(s.input).stuck.TooLong?)
  }

  ghost predicate Inv(s: State) {
    && s.consumed <= |s.input|
    && ReaderOk(s.input[..s.consumed], s.headerBuffer, s.payloadBuffer, s.reading, ReadsOn(s.strand), s.processed)
    && WriterOk(s.popped, s.writeQueue, s.writing, WritesOn(s.strand), s.wire, s.writeFailed)
    && PostsOk(s.posted, s.popped, s.writeQueue, SendsOn(s.strand), s.isStopped)
    && StopsOk(s) && RejectionOk(s)
    && s.posted == Answers(s.processed)
    && s.counted == |s.processed|
  }

  lemma {:induction false} ConcatAppended(messages: seq<seq<u8>>, m: seq<u8>)
    ensures Concat(messages + [m]) == Concat(messages) + m
  {
    if messages == [] {
      assert Concat([m]) == m + Concat([]);
    } else {
      ConcatAppended(messages[1..], m);
      assert (messages + [m])[1..] == messages[1..] + [m];
      assert messages[0] + (Concat(messages[1..]) + m) == (messages[0] + Concat(messages[1..])) + m;
    }
  }

  lemma {:induction false} ProcessedOneMore(packets: seq<Packet>, p: Packet)
    requires Processed(packets) && Fits(p) && Normalised(p) == p
    ensures Processed(packets + [p])
    ensures EncodeAll(packets + [p]) == EncodeAll(packets) + EncodePacket(p)
  {
    EncodeAllAppended(packets, p);
    assert forall q | q in packets + [p] :: q in packets || q == p;
  }

  lemma {:induction false} EncodeAllAppended(packets: seq<Packet>, p: Packet)
    ensures EncodeAll(packets + [p]) == EncodeAll(packets) + EncodePacket(p)
    ensures NormalisedAll(packets + [p]) == NormalisedAll(packets) + [Normalised(p)]
  {
    hide EncodePacket, Normalised;
    if packets == [] {
      EncodeCons([p]);
    } else {
      EncodeAllAppended(packets[1..], p);
      EncodeCons(packets + [p]);
      assert (packets + [p])[1..] == packets[1..] + [p];
    }
  }

  lemma {:induction false} AnswersAppended(packets: seq<Packet>, p: Packet)
    ensures Answers(packets + [p]) == Answers(packets) + Encoded(Answer(p))
  {
    assert (packets + [p])[..|packets|] == packets;
  }

  /** What processing a packet puts on the strand: its answer, or a stop. */
  lemma ProcessPosts(s: State, p: Packet)
    ensures var t := ProcessPacket(s, p);
            && ReadsOn(t.strand) == ReadsOn(s.strand) && WritesOn(t.strand) == WritesOn(s.strand)
            && SendsOn(t.strand) == SendsOn(s.strand) + Encoded(Answer(p))
            && t.posted == s.posted + Encoded(Answer(p))
            && (Stopping in s.strand ==> Stopping in t.strand)
  {
    hide ReadsOn, WritesOn, SendsOn, EncodePacket;
    var answer := Answer(p);
    if answer != [] {
      assert Encoded(answer) == [EncodePacket(answer[0])];
      Appended(s.strand, Sending(EncodePacket(answer[0])));
    } else {
      Appended(s.strand, Stopping);
    }
  }

  lemma StopTurn(s: State)
    requires Inv(s) && s.strand != [] && s.strand[0] == Stopping
    ensures Inv(Next(s, Turn))
  {
    hide ReadsOn, WritesOn, SendsOn, ReaderOk, WriterOk, Decode, Answers;
    TakenOff(s.strand);
  }

  lemma PostIsQueued(posted: seq<seq<u8>>, popped: seq<seq<u8>>, queue: seq<seq<u8>>, sends: seq<seq<u8>>, m: seq<u8>)
    requires PostsOk(posted, popped, queue, [m] + sends, false)
    ensures PostsOk(posted, popped, queue + [m], sends, false)
  {
    assert popped + (queue + [m]) + sends == popped + queue + ([m] + sends);
  }

  lemma PostIsDropped(posted: seq<seq<u8>>, popped: seq<seq<u8>>, queue: seq<seq<u8>>,
                      sends: seq<seq<u8>>, sends': seq<seq<u8>>)
    requires PostsOk(posted, popped, queue, sends, true)
    ensures PostsOk(posted, popped, queue, sends', true)
  {
  }

  lemma SendTurn(s: State)
    requires Inv(s) && s.strand != [] && s.strand[0].Sending?
    ensures Inv(Next(s, Turn))
  {
    hide ReadsOn, WritesOn, SendsOn, ReaderOk, PostsOk, Decode, Answers, Concat;
    TakenOff(s.strand);
    if !s.isStopped {
      PostIsQueued(s.posted, s.popped, s.writeQueue, SendsOn(s.strand[1..]), s.strand[0].data);
    } else {
      PostIsDropped(s.posted, s.popped, s.writeQueue, SendsOn(s.strand), SendsOn(s.strand[1..]));
    }
  }

  lemma WrittenTurn(s: State)
    requires Inv(s) && s.strand != [] && s.strand[0] == WriteDone(true)
    ensures Inv(Next(s, Turn))
  {
    hide ReadsOn, WritesOn, SendsOn, ReaderOk, Decode, Answers, Concat;
    TakenOff(s.strand);
    ConcatAppended(s.popped, s.writeQueue[0]);
    assert s.popped + s.writeQueue == (s.popped + [s.writeQueue[0]]) + s.writeQueue[1..];
  }

  lemma WriteFailedTurn(s: State)
    requires Inv(s) && s.strand != [] && s.strand[0] == WriteDone(false)
    ensures Inv(Next(s, Turn))
  {
    hide ReadsOn, WritesOn, SendsOn, ReaderOk, PostsOk, Decode, Answers, Concat;
    TakenOff(s.strand);
    Appended(s.strand[1..], Stopping);
  }

  lemma PostsGrow(posted: seq<seq<u8>>, popped: seq<seq<u8>>, queue: seq<seq<u8>>,
                  sends: seq<seq<u8>>, isStopped: bool, more: seq<seq<u8>>)
    requires PostsOk(posted, popped, queue, sends, isStopped)
    ensures PostsOk(posted + more, popped, queue, sends + more, isStopped)
  {
    assert popped + queue + (sends + more) == (popped + queue + sends) + more;
  }

  /** Processing the packet in hand and starting the next read. */
  lemma ProcessKeepsInv(s: State, p: Packet)
    requires Inv(s) && s.strand != [] && IsRead(s.strand[0])
    requires Fits(p) && Normalised(p) == p
    requires s.input[..s.consumed] == EncodeAll(s.processed) + EncodePacket(p)
    ensures Inv(DoReadHeader(ProcessPacket(s.(strand := s.strand[1..]), p)))
  {
    hide ReadsOn, WritesOn, SendsOn, WriterOk, PostsOk, Decode, Answers, EncodePacket, EncodeAll, Encoded, Answer;
    hide Processed, Fits, Normalised;
    TakenOff(s.strand);
    ProcessPosts(s.(strand := s.strand[1..]), p);
    PostsGrow(s.posted, s.popped, s.writeQueue, SendsOn(s.strand), s.isStopped, Encoded(Answer(p)));
    ProcessedOneMore(s.processed, p);
    AnswersAppended(s.processed, p);
  }

  lemma {:induction false} RefusedFirst(b: seq<u8>, rest: seq<u8>)
    requires |b| == HEADER_SIZE && Refused(ParseHeader(b))
    ensures var d := Decode(b + rest);
            d.packets == [] && (d.stuck.BadMagic? || d.stuck.TooLong?)
  {
    assert ParseHeader(b + rest) == ParseHeader(b);
  }

  /** Eight bytes that are no header the session accepts, met after whole packets, are where
      decoding the input gets stuck. */
  lemma {:induction false} RejectedThere(input: seq<u8>, consumed: nat, packets: seq<Packet>, b: seq<u8>)
    requires consumed <= |input| && |b| == HEADER_SIZE && Processed(packets)
    requires input[..consumed] == EncodeAll(packets) + b
    requires Refused(ParseHeader(b))
    ensures Decode(input).packets == packets
    ensures Decode(input).stuck.BadMagic? || Decode(input).stuck.TooLong?
  {
    hide EncodeAll, Decode;
    var rest := b + input[consumed..];
    assert input == EncodeAll(packets) + rest by {
      assert input == input[..consumed] + input[consumed..];
    }
    DecodePast(packets, rest);
    RefusedFirst(b, input[consumed..]);
  }

  lemma RefusedHeaderTurn(s: State)
    requires Inv(s) && s.strand != [] && s.strand[0] == HeaderDone(true)
    requires |s.headerBuffer| == HEADER_SIZE && Refused(ParseHeader(s.headerBuffer))
    ensures Inv(Next(s, Turn))
  {
    hide ReadsOn, WritesOn, SendsOn, WriterOk, PostsOk, Decode, Answers, EncodeAll, Processed;
    TakenOff(s.strand);
    Appended(s.strand[1..], Stopping);
    RejectedThere(s.input, s.consumed, s.processed, s.headerBuffer);
  }

  lemma ReadFailedTurn(s: State)
    requires Inv(s) && s.strand != [] && IsRead(s.strand[0]) && !s.strand[0].ok
    ensures Inv(Next(s, Turn))
  {
    hide ReadsOn, WritesOn, SendsOn, WriterOk, PostsOk, Decode, Answers, EncodeAll, Processed;
    TakenOff(s.strand);
    Appended(s.strand[1..], Stopping);
  }

  lemma HeaderTurn(s: State)
    requires Inv(s) && s.strand != [] && s.strand[0] == HeaderDone(true)
    requires |s.headerBuffer| == HEADER_SIZE && !Refused(ParseHeader(s.headerBuffer))
    ensures Inv(Next(s, Turn))
  {
    hide ReadsOn, WritesOn, SendsOn, WriterOk, PostsOk, Decode, Answers, EncodeAll, Processed, EncodeHeader;
    hide ParseHeader;
    TakenOff(s.strand);
    var h := ParseHeader(s.headerBuffer);
    ParseThenEncode(s.headerBuffer);
    if h.length == 0 {
      assert EncodePacket(Packet(h, [])) == EncodeHeader(h);
      ProcessKeepsInv(s, Packet(h, []));
    }
  }

  lemma PayloadTurn(s: State)
    requires Inv(s) && s.strand != [] && s.strand[0].PayloadDone? && s.strand[0].ok
    ensures Inv(Next(s, Turn))
  {
    hide ReadsOn, WritesOn, SendsOn, WriterOk, PostsOk, Decode, Answers, EncodeAll, Processed, EncodeHeader;
    TakenOff(s.strand);
    var h := s.strand[0].h;
    var p := Packet(h, s.payloadBuffer);
    assert EncodePacket(p) == EncodeHeader(h) + s.payloadBuffer;
    assert EncodeAll(s.processed) + EncodeHeader(h) + s.payloadBuffer
        == EncodeAll(s.processed) + EncodePacket(p);
    ProcessKeepsInv(s, p);
  }

  lemma TurnKeepsInv(s: State)
    requires Inv(s) && s.strand != []
    ensures Inv(Next(s, Turn))
  {
    hide Next, Handle, ParseHeader, ReadsOn, WritesOn, SendsOn, WriterOk, PostsOk, StopsOk, RejectionOk, Decode;
    hide Answers, EncodeAll, Processed;
    match s.strand[0]
    case Stopping => StopTurn(s);
    case Sending(_) => SendTurn(s);
    case WriteDone(ok) => if ok { WrittenTurn(s); } else { WriteFailedTurn(s); }
    case PayloadDone(_, ok) => if ok { PayloadTurn(s); } else { ReadFailedTurn(s); }
    case HeaderDone(ok) =>
      if !ok {
        ReadFailedTurn(s);
      } else {
        TakenOff(s.strand);
        if Refused(ParseHeader(s.headerBuffer)) {
          RefusedHeaderTurn(s);
        } else {
          HeaderTurn(s);
        }
      }
  }

  lemma CallStopKeepsInv(s: State)
    requires Inv(s)
    ensures Inv(Next(s, CallStop))
  {
    hide ReadsOn, WritesOn, SendsOn, ReaderOk, WriterOk, PostsOk, Decode, Answers;
    Appended(s.strand, Stopping);
  }

  lemma ReadIsAlone(taken: seq<u8>, hb: seq<u8>, pb: seq<u8>, reading: seq<Read>, done: seq<Handler>,
                    processed: seq<Packet>)
    requires ReaderOk(taken, hb, pb, reading, done, processed) && reading != []
    ensures reading == [reading[0]] && done == []
  {
  }

  /** The bytes that a read wanted have arrived in its buffer. */
  lemma HeaderIsIn(taken: seq<u8>, hb: seq<u8>, pb: seq<u8>, live: bool, processed: seq<Packet>, bytes: seq<u8>)
    requires ReaderOk(taken, hb, pb, [HeaderRead(live)], [], processed) && |bytes| == HEADER_SIZE
    ensures ReaderOk(taken + bytes, bytes, pb, [], [HeaderDone(true)], processed)
  {
    hide EncodeAll, EncodeHeader, Processed;
  }

  lemma PayloadIsIn(taken: seq<u8>, hb: seq<u8>, pb: seq<u8>, h: Header, live: bool, processed: seq<Packet>,
                    bytes: seq<u8>)
    requires ReaderOk(taken, hb, pb, [PayloadRead(h, live)], [], processed) && |bytes| == h.length
    ensures ReaderOk(taken + bytes, hb, bytes, [], [PayloadDone(h, true)], processed)
  {
    hide EncodeAll, EncodeHeader, Processed;
  }

  lemma ReaderFails(taken: seq<u8>, hb: seq<u8>, pb: seq<u8>, r: Read, processed: seq<Packet>)
    requires ReaderOk(taken, hb, pb, [r], [], processed)
    ensures ReaderOk(taken, hb, pb, [], [Outcome(r, false)], processed)
  {
    hide EncodeAll, EncodeHeader, Processed;
  }

  /** `s` and `t` differ in where the reader is, not in whether there is one, and in nothing else. */
  predicate OnlyReaderMoved(s: State, t: State) {
    && t.input == s.input && t.writeQueue == s.writeQueue && t.isStopped == s.isStopped && t.writing == s.writing
    && t.counted == s.counted && t.removals == s.removals && t.processed == s.processed && t.posted == s.posted
    && t.popped == s.popped && t.wire == s.wire && t.rejected == s.rejected && t.writeFailed == s.writeFailed
    && WritesOn(t.strand) == WritesOn(s.strand) && SendsOn(t.strand) == SendsOn(s.strand)
    && |t.reading| + |ReadsOn(t.strand)| == |s.reading| + |ReadsOn(s.strand)|
    && (Stopping in s.strand ==> Stopping in t.strand)
  }

  ghost predicate ReaderOkIn(s: State) {
    && s.consumed <= |s.input|
    && ReaderOk(s.input[..s.consumed], s.headerBuffer, s.payloadBuffer, s.reading, ReadsOn(s.strand), s.processed)
  }

  lemma ReaderMoves(s: State, t: State)
    requires Inv(s) && OnlyReaderMoved(s, t) && ReaderOkIn(t)
    ensures Inv(t)
  {
    hide ReadsOn, WritesOn, SendsOn, ReaderOk, WriterOk, PostsOk, Decode, Answers;
  }

  lemma ReaderIsOk(s: State)
    requires Inv(s)
    ensures ReaderOkIn(s)
  {
  }

  lemma SliceExtends(input: seq<u8>, m: nat, n: nat)
    requires m <= n <= |input|
    ensures input[..n] == input[..m] + input[m..n]
  {
  }

  lemma HeaderArrives(s: State, i: nat, live: bool)
    requires ReaderOkIn(s) && s.reading == [HeaderRead(live)] && ReadsOn(s.strand) == []
    requires Enabled(s, ReadSucceeds(i))
    ensures OnlyReaderMoved(s, Next(s, ReadSucceeds(i))) && ReaderOkIn(Next(s, ReadSucceeds(i)))
  {
    hide ReadsOn, WritesOn, SendsOn, ReaderOk;
    var n := s.consumed + HEADER_SIZE;
    SliceExtends(s.input, s.consumed, n);
    HeaderIsIn(s.input[..s.consumed], s.headerBuffer, s.payloadBuffer, live, s.processed, s.input[s.consumed..n]);
    Appended(s.strand, HeaderDone(true));
    assert Without(s.reading, i) == [] && ReadsOn(s.strand + [HeaderDone(true)]) == [HeaderDone(true)];
  }

  lemma PayloadArrives(s: State, i: nat, h: Header, live: bool)
    requires ReaderOkIn(s) && s.reading == [PayloadRead(h, live)] && ReadsOn(s.strand) == []
    requires Enabled(s, ReadSucceeds(i))
    ensures OnlyReaderMoved(s, Next(s, ReadSucceeds(i))) && ReaderOkIn(Next(s, ReadSucceeds(i)))
  {
    hide ReadsOn, WritesOn, SendsOn, ReaderOk;
    var n := s.consumed + h.length;
    SliceExtends(s.input, s.consumed, n);
    PayloadIsIn(s.input[..s.consumed], s.headerBuffer, s.payloadBuffer, h, live, s.processed, s.input[s.consumed..n]);
    Appended(s.strand, PayloadDone(h, true));
    assert Without(s.reading, i) == [] && ReadsOn(s.strand + [PayloadDone(h, true)]) == [PayloadDone(h, true)];
  }

  lemma ReadSucceedsKeepsInv(s: State, i: nat)
    requires Inv(s) && Enabled(s, ReadSucceeds(i))
    ensures Inv(Next(s, ReadSucceeds(i)))
  {
    ReaderIsOk(s);
    ReadIsAlone(s.input[..s.consumed], s.headerBuffer, s.payloadBuffer, s.reading, ReadsOn(s.strand), s.processed);
    hide Inv, Next, ReaderOkIn, OnlyReaderMoved;
    match s.reading[0] {
      case HeaderRead(live) => HeaderArrives(s, i, live);
      case PayloadRead(h, live) => PayloadArrives(s, i, h, live);
    }
    ReaderMoves(s, Next(s, ReadSucceeds(i)));
  }

  lemma ReadFailsKeepsInv(s: State, i: nat)
    requires Inv(s) && Enabled(s, ReadFails(i))
    ensures Inv(Next(s, ReadFails(i)))
  {
    hide ReadsOn, WritesOn, SendsOn, ReaderOk, Inv;
    ReaderIsOk(s);
    var taken, r := s.input[..s.consumed], s.reading[0];
    ReadIsAlone(taken, s.headerBuffer, s.payloadBuffer, s.reading, ReadsOn(s.strand), s.processed);
    Appended(s.strand, Outcome(r, false));
    ReaderFails(taken, s.headerBuffer, s.payloadBuffer, r, s.processed);
    var t := Next(s, ReadFails(i));
    assert t.reading == [] && ReadsOn(t.strand) == [Outcome(r, false)];
    ReaderMoves(s, t);
  }

  lemma WriteKeepsInv(s: State, step: Step)
    requires Inv(s) && Enabled(s, step) && (step.WriteSucceeds? || step.WriteFails?)
    ensures Inv(Next(s, step))
  {
    hide ReadsOn, WritesOn, SendsOn, ReaderOk, PostsOk, Decode, Answers, Concat;
    Appended(s.strand, WriteDone(step.WriteSucceeds?));
  }

  lemma StepKeepsInv(s: State, step: Step)
    requires Inv(s) && Enabled(s, step)
    ensures Inv(Next(s, step))
  {
    hide Inv, Next;
    match step
    case Turn => TurnKeepsInv(s);
    case CallStop => CallStopKeepsInv(s);
    case ReadSucceeds(i) => ReadSucceedsKeepsInv(s, i);
    case ReadFails(i) => ReadFailsKeepsInv(s, i);
    case WriteSucceeds(_) => WriteKeepsInv(s, step);
    case WriteFails(_, _) => WriteKeepsInv(s, step);
  }

  lemma InputStays(s: State, step: Step)
    requires Enabled(s, step)
    ensures Next(s, step).input == s.input
  {
    hide ParseHeader, EncodePacket, CreateEchoResponse, CreatePongPacket, Resize;
    if step.Turn? {
      match s.strand[0]
      case Stopping =>
      case Sending(_) =>
      case HeaderDone(_) =>
      case PayloadDone(_, _) =>
      case WriteDone(_) =>
    }
  }

  lemma StartIsOk(input: seq<u8>)
    ensures Inv(Start(input))
  {
  }

  lemma {:induction false} RunKeepsInv(input: seq<u8>, steps: seq<Step>)
    ensures Inv(Run(input, steps)) && Run(input, steps).input == input
  {
    hide Inv, Next, Enabled;
    StartIsOk(input);
    if steps != [] {
      var last := |steps| - 1;
      RunKeepsInv(input, steps[..last]);
      var s := Run(input, steps[..last]);
      if Enabled(s, steps[last]) {
        StepKeepsInv(s, steps[last]);
        InputStays(s, steps[last]);
      }
    }
  }
}
