/** One client session as a state machine (01_AsyncNet_Server/src/Session.cpp).

    The strand is a queue of handlers run one at a time. Reads, writes and outside calls of
    `stop` complete or happen at any moment and only ever append a handler; a list of steps is a
    schedule. */
module SessionModel {
  import opened MachineWords
  import opened Protocol
  import opened Framing

  /** An `async_read` under way; `live` if the socket was still open when it began. */
  datatype Read = HeaderRead(live: bool) | PayloadRead(h: Header, live: bool)

  /** An `async_write` of the bytes `data`. */
  datatype Write = Write(data: seq<u8>, live: bool)

  datatype Handler =
    | Stopping
    | Sending(data: seq<u8>)
    | HeaderDone(ok: bool)
    | PayloadDone(h: Header, ok: bool)
    | WriteDone(ok: bool)

  /** `input` is all the client will ever send and `wire` what has reached it; `posted`,
      `popped` and `processed` are histories. */
  datatype State = State(
    input: seq<u8>,
    consumed: nat,
    headerBuffer: seq<u8>,
    payloadBuffer: seq<u8>,
    writeQueue: seq<seq<u8>>,
    isStopped: bool,
    strand: seq<Handler>,
    reading: seq<Read>,
    writing: seq<Write>,
    counted: nat,
    removals: nat,
    processed: seq<Packet>,
    posted: seq<seq<u8>>,
    popped: seq<seq<u8>>,
    wire: seq<u8>,
    rejected: bool,
    writeFailed: bool)

  function Post(s: State, h: Handler): State {
    s.(strand := s.strand + [h])
  }

  /** `std::vector::resize`. */
  function Resize(b: seq<u8>, n: nat): (r: seq<u8>)
    ensures |r| == n
  {
    if n <= |b| then b[..n] else b + seq(n - |b|, _ => 0)
  }

  function DoReadHeader(s: State): State {
    s.(reading := s.reading + [HeaderRead(!s.isStopped)])
  }

  function DoReadPayload(s: State, h: Header): State {
    s.(payloadBuffer := Resize(s.payloadBuffer, h.length), reading := s.reading + [PayloadRead(h, !s.isStopped)])
  }

  function DoWrite(s: State): State
    requires s.writeQueue != []
  {
    s.(writing := s.writing + [Write(s.writeQueue[0], !s.isStopped)])
  }

  function Send(s: State, p: Packet): State {
    Post(s, Sending(EncodePacket(p))).(posted := s.posted + [EncodePacket(p)])
  }

  /** What a packet is answered with, if anything. */
  function Answer(p: Packet): seq<Packet> {
    if p.header.kind == PING then [CreatePongPacket()]
    else if p.header.kind == ECHO_REQUEST then [CreateEchoResponse(p.payload)]
    else []
  }

  function ProcessPacket(s: State, p: Packet): State {
    var s := s.(counted := s.counted + 1, processed := s.processed + [p]);
    if p.header.kind == PING then Send(s, CreatePongPacket())
    else if p.header.kind == ECHO_REQUEST then Send(s, CreateEchoResponse(p.payload))
    else if p.header.kind == DISCONNECT then Post(s, Stopping)
    else s
  }

  function OnStop(s: State): State {
    if s.isStopped then s else s.(isStopped := true, removals := s.removals + 1)
  }

  function OnSend(s: State, data: seq<u8>): State {
    if s.isStopped then s
    else
      var s' := s.(writeQueue := s.writeQueue + [data]);
      if s.writeQueue == [] then DoWrite(s') else s'
  }

  function OnHeader(s: State, ok: bool): State {
    if !ok || |s.headerBuffer| < HEADER_SIZE then Post(s, Stopping)
    else
      var h := ParseHeader(s.headerBuffer);
      if h.magic != MAGIC_HEADER || h.length > MAX_PAYLOAD_SIZE then Post(s, Stopping).(rejected := true)
      else if h.length > 0 then DoReadPayload(s, h)
      else DoReadHeader(ProcessPacket(s, Packet(h, [])))
  }

  function OnPayload(s: State, h: Header, ok: bool): State {
    if !ok then Post(s, Stopping)
    else DoReadHeader(ProcessPacket(s, Packet(h, s.payloadBuffer)))
  }

  function OnWrite(s: State, ok: bool): State {
    if !ok then Post(s, Stopping).(writeFailed := true)
    else if s.writeQueue == [] then s // cannot happen: a completed write left its bytes at the front
    else
      var s' := s.(writeQueue := s.writeQueue[1..], popped := s.popped + [s.writeQueue[0]]);
      if s'.writeQueue == [] then s' else DoWrite(s')
  }

  /** One handler, already taken off the strand. */
  function Handle(s: State, h: Handler): State {
    match h
    case Stopping => OnStop(s)
    case Sending(data) => OnSend(s, data)
    case HeaderDone(ok) => OnHeader(s, ok)
    case PayloadDone(h, ok) => OnPayload(s, h, ok)
    case WriteDone(ok) => OnWrite(s, ok)
  }

  datatype Step =
    | Turn
    | CallStop
    | ReadSucceeds(i: nat)
    | ReadFails(i: nat)
    | WriteSucceeds(i: nat)
    | WriteFails(i: nat, sent: nat)

  function Need(r: Read): nat {
    if r.HeaderRead? then HEADER_SIZE else r.h.length
  }

  function Outcome(r: Read, ok: bool): Handler {
    if r.HeaderRead? then HeaderDone(ok) else PayloadDone(r.h, ok)
  }

  function Without<T>(s: seq<T>, i: nat): seq<T>
    requires i < |s|
  {
    s[..i] + s[i + 1..]
  }

  /** An operation begun on a closed socket can only fail; one begun before may still succeed. */
  predicate Enabled(s: State, step: Step) {
    match step
    case Turn => s.strand != []
    case CallStop => true
    case ReadSucceeds(i) => i < |s.reading| && s.reading[i].live && s.consumed + Need(s.reading[i]) <= |s.input|
    case ReadFails(i) => i < |s.reading|
    case WriteSucceeds(i) => i < |s.writing| && s.writing[i].live
    case WriteFails(i, sent) => i < |s.writing| && sent <= |s.writing[i].data| && (s.writing[i].live || sent == 0)
  }

  function Next(s: State, step: Step): State
    requires Enabled(s, step)
  {
    match step
    case Turn => Handle(s.(strand := s.strand[1..]), s.strand[0])
    case CallStop => Post(s, Stopping)
    case ReadSucceeds(i) =>
      var n := s.consumed + Need(s.reading[i]);
      var bytes := s.input[s.consumed..n];
      var t := s.(reading := Without(s.reading, i), consumed := n);
      var u := if s.reading[i].HeaderRead? then t.(headerBuffer := bytes) else t.(payloadBuffer := bytes);
      Post(u, Outcome(s.reading[i], true))
    case ReadFails(i) => Post(s.(reading := Without(s.reading, i)), Outcome(s.reading[i], false))
    case WriteSucceeds(i) =>
      Post(s.(writing := Without(s.writing, i), wire := s.wire + s.writing[i].data), WriteDone(true))
    case WriteFails(i, sent) =>
      Post(s.(writing := Without(s.writing, i), wire := s.wire + s.writing[i].data[..sent]), WriteDone(false))
  }

  /** A newly constructed session. */
  function Fresh(input: seq<u8>): State {
    State(input, 0, seq(HEADER_SIZE, _ => 0), [], [], false, [], [], [], 0, 0, [], [], [], [], false, false)
  }

  /** A session once `start` has run. */
  function Start(input: seq<u8>): State {
    DoReadHeader(Fresh(input))
  }

  /** The state after a schedule; a step that cannot happen is skipped. */
  function Run(input: seq<u8>, steps: seq<Step>): State {
    if steps == [] then Start(input)
    else
      var s := Run(input, steps[..|steps| - 1]);
      if Enabled(s, steps[|steps| - 1]) then Next(s, steps[|steps| - 1]) else s
  }
}
