/** The session as the object of 01_AsyncNet_Server/src/Session.cpp: its buffers, its write queue
    and its flag, updated by the handlers the strand runs. `reading` and `writing` are the
    operations handed to the socket, which will deliver `input` and has delivered `consumed` bytes of
    it; `counted` and `removals` are what the manager is told. */
module Sessions {
  import opened MachineWords
  import opened Protocol
  import opened SessionModel
  import opened SessionLaws
  import opened SessionRuns

  class Session {
    const headerBuffer: array<u8>
    var payloadBuffer: seq<u8>
    var writeQueue: seq<seq<u8>>
    var isStopped: bool
    var strand: seq<Handler>
    var reading: seq<Read>
    var writing: seq<Write>
    var counted: nat
    var removals: nat
    const input: seq<u8>
    var consumed: nat
    ghost var processed: seq<Packet>
    ghost var posted: seq<seq<u8>>
    ghost var popped: seq<seq<u8>>
    ghost var wire: seq<u8>
    ghost var rejected: bool
    ghost var writeFailed: bool

    ghost function Now(): State
      reads this, headerBuffer
    {
      State(input, consumed, headerBuffer[..], payloadBuffer, writeQueue, isStopped, strand, reading, writing,
            counted, removals, processed, posted, popped, wire, rejected, writeFailed)
    }

    constructor (input: seq<u8>)
      ensures fresh(headerBuffer)
      ensures headerBuffer.Length == HEADER_SIZE
      ensures Now() == SessionModel.Fresh(input)
    {
      headerBuffer := new u8[HEADER_SIZE](_ => 0);
      payloadBuffer, writeQueue, isStopped, strand, reading, writing := [], [], false, [], [], [];
      counted, removals := 0, 0;
      this.input := input;
      consumed, processed, posted, popped, wire, rejected, writeFailed := 0, [], [], [], [], false, false;
      new;
      assert headerBuffer[..] == seq(HEADER_SIZE, _ => 0);
    }

    method Start()
      modifies this`reading
      ensures Now() == SessionModel.DoReadHeader(old(Now()))
    {
      DoReadHeader();
    }

    method Stop()
      modifies this`strand
      ensures Now() == Post(old(Now()), Stopping)
    {
      strand := strand + [Stopping];
    }

    method Send(packet: Packet)
      modifies this`strand, this`posted
      ensures Now() == SessionModel.Send(old(Now()), packet)
    {
      var data := SerializePacket(packet);
      strand := strand + [Sending(data)];
      posted := posted + [data];
    }

    method DoReadHeader()
      modifies this`reading
      ensures Now() == SessionModel.DoReadHeader(old(Now()))
    {
      reading := reading + [HeaderRead(!isStopped)];
    }

    method DoReadPayload(h: Header)
      modifies this`reading, this`payloadBuffer
      ensures Now() == SessionModel.DoReadPayload(old(Now()), h)
    {
      payloadBuffer := Resize(payloadBuffer, h.length);
      reading := reading + [PayloadRead(h, !isStopped)];
    }

    method DoWrite()
      requires writeQueue != []
      modifies this`writing
      ensures Now() == SessionModel.DoWrite(old(Now()))
    {
      writing := writing + [Write(writeQueue[0], !isStopped)];
    }

    method ProcessPacket(header: Header, payload: seq<u8>)
      modifies this`strand, this`posted, this`counted, this`processed
      ensures Now() == SessionModel.ProcessPacket(old(Now()), Packet(header, payload))
      ensures Stopping in strand <==> Stopping in old(strand) || header.kind == 0x00FF
    {
      counted := counted + 1;
      processed := processed + [Packet(header, payload)];
      if header.kind == PING {
        Send(CreatePongPacket());
      } else if header.kind == ECHO_REQUEST {
        Send(CreateEchoResponse(payload));
      } else if header.kind == DISCONNECT {
        Stop();
      }
    }

    method RunStop()
      modifies this`isStopped, this`removals
      ensures Now() == OnStop(old(Now()))
    {
      if isStopped {
        return;
      }
      isStopped := true;
      removals := removals + 1;
    }

    method RunSend(data: seq<u8>)
      modifies this`writeQueue, this`writing
      ensures Now() == OnSend(old(Now()), data)
    {
      if isStopped {
        return;
      }
      var writeInProgress := writeQueue != [];
      writeQueue := writeQueue + [data];
      if !writeInProgress {
        DoWrite();
      }
    }

    method RunHeader(ok: bool)
      requires headerBuffer.Length == HEADER_SIZE
      modifies this`strand, this`posted, this`counted, this`processed, this`reading, this`payloadBuffer, this`rejected
      ensures Now() == OnHeader(old(Now()), ok)
    {
      if !ok {
        Stop();
        return;
      }
      var accepted, header := DeserializeHeader(headerBuffer, HEADER_SIZE, Header(MAGIC_HEADER, 0xFFFF, 0));
      HeaderIsParsed(headerBuffer[..], header);
      if !accepted {
        rejected := true;
        Stop();
        return;
      }
      if header.length > MAX_PAYLOAD_SIZE {
        rejected := true;
        Stop();
        return;
      }
      if header.length > 0 {
        DoReadPayload(header);
      } else {
        ProcessPacket(header, []);
        DoReadHeader();
      }
    }

    method RunPayload(header: Header, ok: bool)
      modifies this`strand, this`posted, this`counted, this`processed, this`reading
      ensures Now() == OnPayload(old(Now()), header, ok)
    {
      if !ok {
        Stop();
        return;
      }
      ProcessPacket(header, payloadBuffer);
      DoReadHeader();
    }

    method RunWrite(ok: bool)
      requires ok ==> writeQueue != []
      modifies this`strand, this`writeQueue, this`writing, this`popped, this`writeFailed
      ensures Now() == OnWrite(old(Now()), ok)
    {
      if !ok {
        writeFailed := true;
        Stop();
        return;
      }
      popped := popped + [writeQueue[0]];
      writeQueue := writeQueue[1..];
      if writeQueue != [] {
        DoWrite();
      }
    }

    method RunHandler(h: Handler)
      requires headerBuffer.Length == HEADER_SIZE
      requires h == WriteDone(true) ==> writeQueue != []
      modifies this`strand, this`posted, this`counted, this`processed, this`reading, this`payloadBuffer,
               this`rejected, this`writeQueue, this`writing, this`popped, this`writeFailed, this`isStopped,
               this`removals
      ensures Now() == Handle(old(Now()), h)
    {
      hide OnStop, OnSend, OnHeader, OnPayload, OnWrite;
      match h
      case Stopping => RunStop();
      case Sending(data) => RunSend(data);
      case HeaderDone(ok) => RunHeader(ok);
      case PayloadDone(header, ok) => RunPayload(header, ok);
      case WriteDone(ok) => RunWrite(ok);
    }

    /** The strand takes its first handler and runs it to the end. */
    method RunOne()
      requires Inv(Now()) && headerBuffer.Length == HEADER_SIZE && strand != []
      modifies this`strand, this`posted, this`counted, this`processed, this`reading, this`payloadBuffer,
               this`rejected, this`writeQueue, this`writing, this`popped, this`writeFailed, this`isStopped,
               this`removals
      ensures Now() == Next(old(Now()), Turn) && Inv(Now())
    {
      hide Inv, Handle;
      TurnKeepsInv(Now());
      FrontIsThere(Now());
      var h := strand[0];
      strand := strand[1..];
      RunHandler(h);
    }

    // -- what the socket and other threads do

    method FillHeader(bytes: seq<u8>)
      requires |bytes| == headerBuffer.Length
      modifies headerBuffer
      ensures headerBuffer[..] == bytes
    {
      forall k | 0 <= k < headerBuffer.Length {
        headerBuffer[k] := bytes[k];
      }
    }

    /** A read completes with the next bytes of the input in its buffer. */
    method ReadArrives(i: nat)
      requires headerBuffer.Length == HEADER_SIZE && Enabled(Now(), ReadSucceeds(i))
      modifies this`reading, this`consumed, this`payloadBuffer, this`strand, headerBuffer
      ensures Now() == Next(old(Now()), ReadSucceeds(i))
    {
      var r := reading[i];
      var bytes := input[consumed..consumed + Need(r)];
      reading, consumed := Without(reading, i), consumed + Need(r);
      if r.HeaderRead? {
        FillHeader(bytes);
      } else {
        payloadBuffer := bytes;
      }
      strand := strand + [Outcome(r, true)];
    }

    method ReadErrs(i: nat)
      requires Enabled(Now(), ReadFails(i))
      modifies this`reading, this`strand
      ensures Now() == Next(old(Now()), ReadFails(i))
    {
      strand := strand + [Outcome(reading[i], false)];
      reading := Without(reading, i);
    }

    method WriteArrives(i: nat)
      requires Enabled(Now(), WriteSucceeds(i))
      modifies this`writing, this`strand, this`wire
      ensures Now() == Next(old(Now()), WriteSucceeds(i))
    {
      strand := strand + [WriteDone(true)];
      wire := wire + writing[i].data;
      writing := Without(writing, i);
    }

    /** A write fails after `sent` of its bytes. */
    method WriteErrs(i: nat, ghost sent: nat)
      requires Enabled(Now(), WriteFails(i, sent))
      modifies this`writing, this`strand, this`wire
      ensures Now() == Next(old(Now()), WriteFails(i, sent))
    {
      strand := strand + [WriteDone(false)];
      wire := wire + writing[i].data[..sent];
      writing := Without(writing, i);
    }

    predicate CanTake(step: Step)
      reads this, headerBuffer
      ensures CanTake(step) == Enabled(Now(), step)
    {
      match step
      case Turn => strand != []
      case CallStop => true
      case ReadSucceeds(i) => i < |reading| && reading[i].live && consumed + Need(reading[i]) <= |input|
      case ReadFails(i) => i < |reading|
      case WriteSucceeds(i) => i < |writing| && writing[i].live
      case WriteFails(i, sent) => i < |writing| && sent <= |writing[i].data| && (writing[i].live || sent == 0)
    }

    method Take(step: Step)
      requires Inv(Now()) && headerBuffer.Length == HEADER_SIZE && CanTake(step)
      modifies this, headerBuffer
      ensures Now() == Next(old(Now()), step)
    {
      hide Inv, Next;
      match step
      case Turn => RunOne();
      case CallStop => PostedStop(Now()); Stop();
      case ReadSucceeds(i) => ReadArrives(i);
      case ReadFails(i) => ReadErrs(i);
      case WriteSucceeds(i) => WriteArrives(i);
      case WriteFails(i, sent) => WriteErrs(i, sent);
    }
  }

  lemma PostedStop(s: State)
    ensures Next(s, CallStop) == Post(s, Stopping)
  {
  }

  /** A session object taken through any schedule, from its construction, is in the state of the model's
      run; so all that holds of runs holds of the object. */
  method Serve(input: seq<u8>, steps: seq<Step>) returns (session: Session)
    ensures fresh(session) && session.Now() == Run(input, steps) && Inv(session.Now())
  {
    hide Run, Inv, Next, Enabled;
    session := new Session(input);
    session.Start();
    RunNothing(input);
    assert steps[..0] == [];
    for k := 0 to |steps|
      invariant fresh(session) && fresh(session.headerBuffer) && session.headerBuffer.Length == HEADER_SIZE
      invariant session.Now() == Run(input, steps[..k])
    {
      RunKeepsInv(input, steps[..k]);
      RunOneMore(input, steps[..k], steps[k]);
      assert steps[..k + 1] == steps[..k] + [steps[k]];
      if session.CanTake(steps[k]) {
        session.Take(steps[k]);
      }
    }
    RunKeepsInv(input, steps);
    assert steps[..|steps|] == steps;
  }

  lemma HeaderIsParsed(b: seq<u8>, h: Header)
    requires |b| == HEADER_SIZE && EncodeHeader(h) == b[..HEADER_SIZE]
    ensures ParseHeader(b) == h
  {
    EncodeThenParse(h, []);
    assert EncodeHeader(h) + [] == b;
  }

  lemma FrontIsThere(s: State)
    requires Inv(s) && s.strand != []
    ensures s.strand[0].WriteDone? ==> s.writeQueue != []
  {
    hide ReadsOn, WritesOn, SendsOn, ReaderOk, PostsOk, StopsOk, RejectionOk, Answers;
    TakenOff(s.strand);
  }
}
