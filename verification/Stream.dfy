/** Completing a stream send: one `send_fds_all` as a task advanced by single system calls, the
    blocking loop that drives it, and any number of tasks interleaved on one socket. */
module Stream {
  import opened Wrappers
  import opened Bytes
  import opened Layout
  import opened Control
  import opened Payload
  import opened AncillaryBuffer

  // ---------------------------------------------------------------- the kernel's queue

  /** What the next `sendmsg` does. An accepted count beyond the bytes offered means all of them. */
  datatype SendStep = Interrupted | Failed(error: IoError) | Accepted(n: nat)

  /** One accepted send. Its descriptors ride its first byte. */
  datatype Segment = Segment(writer: nat, bytes: seq<byte>, fds: seq<Fd>)

  /** Everything ever queued on the socket, and the script of the coming sends. */
  datatype Wire = Wire(log: seq<Segment>, script: seq<SendStep>)

  /** With the script used up, the peer is gone. */
  function NextStep(w: Wire): SendStep {
    if w.script == [] then SendStep.Failed(Os(32)) else w.script[0]
  }

  function Consume(w: Wire): Wire {
    w.(script := if w.script == [] then [] else w.script[1..])
  }

  function Enqueue(w: Wire, writer: nat, bytes: seq<byte>, fds: seq<Fd>): Wire {
    if bytes == [] then w else w.(log := w.log + [Segment(writer, bytes, fds)])
  }

  /** `sendmsg(2)` on a stream: a failed or empty send queues nothing; otherwise the descriptors are
      the ones the kernel reads from the control bytes. */
  class StreamSocket {
    const p: Platform
    var wire: Wire

    constructor (p: Platform, wire: Wire)
      ensures this.p == p && this.wire == wire
    {
      this.p, this.wire := p, wire;
    }

    method Sendmsg(writer: nat, data: seq<byte>, control: seq<byte>) returns (step: SendStep)
      modifies this
      ensures match NextStep(old(wire))
        case Accepted(n) =>
          && step == Accepted(Min(n, |data|))
          && wire == Enqueue(Consume(old(wire)), writer, data[..step.n], AllRights(p, Parse(p, control, 0)))
        case other => step == other && wire == Consume(old(wire))
    {
      step := NextStep(wire);
      wire := Consume(wire);
      match step
      case Accepted(n) =>
        step := Accepted(Min(n, |data|));
        wire := Enqueue(wire, writer, data[..step.n], AllRights(p, Parse(p, control, 0)));
      case _ =>
    }
  }

  // ---------------------------------------------------------------- one task

  datatype Phase =
    | Attaching                                  // descriptors not sent yet
    | Streaming                                  // plain bytes left to send
    | Finished(result: Result<(), IoError>)
    | Cancelled

  datatype Task = Task(data: seq<byte>, fds: seq<Fd>, sent: nat, phase: Phase)

  predicate Live(t: Task) {
    t.phase.Attaching? || t.phase.Streaming?
  }

  function PhaseAfter(data: seq<byte>, sent: nat): Phase {
    if sent < |data| then Streaming else Finished(Ok(()))
  }

  /** The checks before the first system call: the stream payload rule, then the panic of
      `buffer_size_for_rights` on a size that does not exist. */
  function Begin(p: Platform, data: seq<byte>, fds: seq<Fd>): Task {
    Task(data, fds, 0,
      if data == [] && fds != [] then Finished(Err(InvalidInput))
      else if fds == [] then PhaseAfter(data, 0)
      else if BufferSizeForRights(p, |fds|).None? then Finished(Err(Panicked))
      else Attaching)
  }

  /** A task after one system call, and what it queued. */
  datatype Polled = Polled(task: Task, bytes: seq<byte>, fds: seq<Fd>)

  /** One system call of one task. A blocking task reports `WouldBlock`, an async one waits. */
  function Poll(t: Task, step: SendStep, blocking: bool): (r: Polled)
    requires Live(t) && t.sent <= |t.data|
    ensures r.task.data == t.data && r.task.fds == t.fds && r.task.sent <= |t.data|
    ensures r.task.sent == t.sent + |r.bytes| && r.bytes == t.data[t.sent..r.task.sent]
  {
    match step
    case Interrupted => Polled(t, [], [])
    case Failed(e) =>
      if e == WouldBlock && !blocking then Polled(t, [], [])
      else Polled(t.(phase := Finished(Err(e))), [], [])
    case Accepted(n) =>
      var k := Min(n, |t.data| - t.sent);
      if k == 0 then Polled(t.(phase := Finished(Err(WriteZero))), [], [])
      else
        Polled(t.(sent := t.sent + k, phase := PhaseAfter(t.data, t.sent + k)),
               t.data[t.sent..t.sent + k],
               if t.phase.Attaching? then t.fds else [])
  }

  // ---------------------------------------------------------------- what a task has queued

  function PayloadOf(segments: seq<Segment>): seq<byte> {
    if segments == [] then [] else segments[0].bytes + PayloadOf(segments[1..])
  }

  lemma {:induction false} PayloadConcat(a: seq<Segment>, b: seq<Segment>)
    ensures PayloadOf(a + b) == PayloadOf(a) + PayloadOf(b)
  {
    if a == [] {
      assert a + b == b;
    } else {
      assert (a + b)[1..] == a[1..] + b;
      PayloadConcat(a[1..], b);
    }
  }

  /** The descriptors ride the first segment and no other. */
  predicate AttachedOnce(segments: seq<Segment>, fds: seq<Fd>) {
    forall i :: 0 <= i < |segments| ==> segments[i].fds == if i == 0 then fds else []
  }

  /** `segments` is what task `t` has queued: exactly the first `sent` bytes, descriptors once. */
  predicate Accounts(t: Task, segments: seq<Segment>) {
    && t.sent <= |t.data|
    && PayloadOf(segments) == t.data[..t.sent]
    && AttachedOnce(segments, t.fds)
    && (segments == [] <==> t.sent == 0)
    && match t.phase
       case Attaching => t.sent == 0
       case Streaming => t.sent < |t.data| && (t.sent == 0 ==> t.fds == [])
       case Finished(Ok(_)) => t.sent == |t.data| && (t.sent == 0 ==> t.fds == [])
       case _ => true
  }

  lemma BeginAccounts(p: Platform, data: seq<byte>, fds: seq<Fd>)
    ensures Accounts(Begin(p, data, fds), [])
  {
  }

  function Queued(writer: nat, r: Polled): seq<Segment> {
    if r.bytes == [] then [] else [Segment(writer, r.bytes, r.fds)]
  }

  lemma {:induction false} PollAccounts(
    t: Task, step: SendStep, blocking: bool, writer: nat, segments: seq<Segment>)
    requires Live(t) && Accounts(t, segments)
    ensures var r := Poll(t, step, blocking); Accounts(r.task, segments + Queued(writer, r))
  {
    var r := Poll(t, step, blocking);
    if r.bytes == [] {
      assert segments + [] == segments;
    } else {
      PayloadConcat(segments, Queued(writer, r));
      assert PayloadOf(Queued(writer, r)) == r.bytes + PayloadOf([]);
      assert t.data[..t.sent] + r.bytes == t.data[..r.task.sent];
    }
  }

  // ---------------------------------------------------------------- the blocking call

  datatype Driven = Driven(wire: Wire, task: Task)

  /** Runs a blocking task to its end. Every step uses up script, so interruptions cannot keep it
      going for ever. */
  function Drive(w: Wire, writer: nat, t: Task): (r: Driven)
    requires t.sent <= |t.data|
    ensures !Live(r.task) && r.task.sent <= |t.data|
    decreases |w.script|, if Live(t) then 1 else 0
  {
    if !Live(t) then Driven(w, t)
    else
      var r := Poll(t, NextStep(w), true);
      Drive(Enqueue(Consume(w), writer, r.bytes, r.fds), writer, r.task)
  }

  /** `sendmsg_vectored`: the first outcome that is not an interruption. */
  datatype Sent = Sent(wire: Wire, result: Result<nat, IoError>)

  function SendRetrying(w: Wire, writer: nat, data: seq<byte>, fds: seq<Fd>): (r: Sent)
    ensures r.result.Ok? ==> r.result.value <= |data|
    decreases |w.script|
  {
    match NextStep(w)
    case Interrupted => SendRetrying(Consume(w), writer, data, fds)
    case Failed(e) => Sent(Consume(w), Err(e))
    case Accepted(n) =>
      var k := Min(n, |data|);
      Sent(Enqueue(Consume(w), writer, data[..k], fds), Ok(k))
  }

  /** A single send: interruptions are retried, the first other outcome is reported as it is, nothing
      behind it is read, and what was accepted is queued with all descriptors or, if that is no byte,
      not at all. */
  lemma {:induction false} SendDecides(
    w: Wire, writer: nat, data: seq<byte>, fds: seq<Fd>,
    noise: seq<SendStep>, step: SendStep, rest: seq<SendStep>)
    requires w.script == noise + [step] + rest && !step.Interrupted?
    requires forall i :: 0 <= i < |noise| ==> noise[i].Interrupted?
    ensures var r := SendRetrying(w, writer, data, fds);
      && r.wire.script == rest
      && match step
         case Failed(e) => r.result == Err(e) && r.wire.log == w.log
         case Accepted(n) =>
           var k := if n <= |data| then n else |data|;
           && r.result == Ok(k)
           && r.wire.log == if k == 0 then w.log else w.log + [Segment(writer, data[..k], fds)]
    decreases |noise|
  {
    if noise == [] {
      assert w.script[0] == step && w.script[1..] == rest;
    } else {
      assert w.script[0] == noise[0] && Consume(w).script == noise[1..] + [step] + rest;
      SendDecides(Consume(w), writer, data, fds, noise[1..], step, rest);
    }
  }

  method SendmsgVectored(socket: StreamSocket, writer: nat, data: seq<byte>, control: seq<byte>)
    returns (result: Result<nat, IoError>)
    modifies socket
    ensures Sent(socket.wire, result)
      == SendRetrying(old(socket.wire), writer, data, AllRights(socket.p, Parse(socket.p, control, 0)))
  {
    ghost var fds := AllRights(socket.p, Parse(socket.p, control, 0));
    hide Parse, AllRights;
    while true
      invariant SendRetrying(old(socket.wire), writer, data, fds) == SendRetrying(socket.wire, writer, data, fds)
      decreases |socket.wire.script|
    {
      var step := socket.Sendmsg(writer, data, control);
      match step
      case Interrupted =>
      case Failed(e) => return Err(e);
      case Accepted(n) => return Ok(n);
    }
  }

  method SendBytes(socket: StreamSocket, writer: nat, data: seq<byte>) returns (result: Result<nat, IoError>)
    modifies socket
    ensures Sent(socket.wire, result) == SendRetrying(old(socket.wire), writer, data, [])
  {
    assert Parse(socket.p, [], 0) == [];
    result := SendmsgVectored(socket, writer, data, []);
  }

  /** `cmsg_sendmsg`: refused in receive mode before any system call, otherwise one retried send of
      exactly the used control bytes. */
  method CmsgSendmsg(socket: StreamSocket, writer: nat, data: seq<byte>, ancillary: SocketAncillary)
    returns (result: Result<nat, IoError>)
    requires ancillary.Valid()
    modifies socket
    ensures match ControlToSend(ancillary.State())
      case Err(e) => result == Err(e) && socket.wire == old(socket.wire)
      case Ok(control) =>
        Sent(socket.wire, result)
          == SendRetrying(old(socket.wire), writer, data, AllRights(socket.p, Parse(socket.p, control, 0)))
  {
    if ancillary.receiveMode {
      return Err(InvalidInput);
    }
    assert ancillary.buffer[..ancillary.length] == ancillary.State().buffer[..ancillary.length];
    result := SendmsgVectored(socket, writer, data, ancillary.buffer[..ancillary.length]);
  }

  lemma {:induction false} LocateSingle(p: Platform, m: RawMessage)
    requires Encodable(m)
    ensures Locate(p, [m], 0) == [Located(p.headerLen, m)]
  {
    assert [m][1..] == [];
    assert Locate(p, [], 0 + Space(p, m)) == [];
  }

  /** A buffer of `buffer_size_for_rights(n)` bytes takes those `n` descriptors, is then full, and
      reads back as exactly them. */
  lemma {:induction false} SizedBufferTakesRights(p: Platform, empty: Ancillary, fds: seq<Fd>)
    requires fds != [] && BufferSizeForRights(p, |fds|) == Some(|empty.buffer|)
    requires empty.length == 0 && !empty.receiveMode
    ensures var r := AddRightsTo(p, empty, fds);
      r.ok && r.anc.length == |empty.buffer|
      && AllRights(p, Parse(p, r.anc.buffer[..r.anc.length], 0)) == fds
  {
    var m := RightsMessage(p, fds);
    FdsRoundTrip(p, fds);
    hide EncodeOne, EncodeFds, RightsIn, Parse, Locate, CmsgSpaceMacro;
    var r := AddRightsTo(p, empty, fds);
    assert r.anc.buffer[..r.anc.length] == EncodeOne(p, m);
    assert EncodeOne(p, m) + [] == EncodeOne(p, m);
    assert Encode(p, [m]) == EncodeOne(p, m) + Encode(p, []);
    ParseEncode(p, [m], 0);
    assert Locate(p, [m], 0) == [Located(p.headerLen, m)] by { LocateSingle(p, m); }
    var ms := Locate(p, [m], 0);
    assert AllRights(p, ms[1..]) == [];
  }

  /** `send_fds_impl`. Without descriptors it is a plain send with no control message; otherwise the
      control buffer is sized, filled in place, and handed over whole, and its `add_rights` cannot
      fail. */
  method SendFdsImpl(socket: StreamSocket, writer: nat, data: seq<byte>, fds: seq<Fd>)
    returns (result: Result<nat, IoError>)
    modifies socket
    ensures BufferSizeForRights(socket.p, |fds|).None? ==> result == Err(Panicked) && socket.wire == old(socket.wire)
    ensures BufferSizeForRights(socket.p, |fds|).Some? ==>
      Sent(socket.wire, result) == SendRetrying(old(socket.wire), writer, data, fds)
  {
    if |fds| == 0 {
      assert AllRights(socket.p, Parse(socket.p, [], 0)) == [];
      result := SendmsgVectored(socket, writer, data, []);
      return;
    }
    var size := BufferSizeForRights(socket.p, |fds|);
    if size.None? {
      return Err(Panicked);
    }
    var storage := new byte[size.value](_ => 0);
    var ancillary := new SocketAncillary(socket.p, storage);
    ghost var empty := ancillary.State();
    var ok := ancillary.AddRights(fds);
    SizedBufferTakesRights(socket.p, empty, fds);
    if !ok {
      return Err(InvalidInput);
    }
    assert storage[..ancillary.length] == ancillary.State().buffer[..ancillary.length];
    result := SendmsgVectored(socket, writer, data, storage[..ancillary.length]);
  }

  lemma BeginPhase(p: Platform, data: seq<byte>, fds: seq<Fd>)
    ensures var t := Begin(p, data, fds);
      && t == Task(data, fds, 0, t.phase)
      && (data == [] && fds != [] ==> t.phase == Finished(Err(InvalidInput)))
      && (fds == [] ==> t.phase == PhaseAfter(data, 0))
      && (data != [] && fds != [] ==>
        t.phase == if BufferSizeForRights(p, |fds|).None? then Finished(Err(Panicked)) else Attaching)
  {
  }

  lemma DriveStops(w: Wire, writer: nat, t: Task)
    requires t.sent <= |t.data|
    ensures !Live(t) ==> Drive(w, writer, t) == Driven(w, t)
  {
  }

  lemma {:induction false} DriveOnce(w: Wire, writer: nat, t: Task)
    requires Live(t) && t.sent <= |t.data|
    ensures var r := Poll(t, NextStep(w), true);
      Drive(w, writer, t) == Drive(Enqueue(Consume(w), writer, r.bytes, r.fds), writer, r.task)
  {
    hide Poll, Enqueue;
  }

  lemma {:induction false} SendOnce(w: Wire, writer: nat, data: seq<byte>, fds: seq<Fd>)
    ensures SendRetrying(w, writer, data, fds) ==
      match NextStep(w)
      case Interrupted => SendRetrying(Consume(w), writer, data, fds)
      case Failed(e) => Sent(Consume(w), Err(e))
      case Accepted(n) =>
        Sent(Enqueue(Consume(w), writer, data[..Min(n, |data|)], fds), Ok(Min(n, |data|)))
  {
  }

  /** How a live task goes on from the outcome of a retried send. */
  function Continue(r: Sent, writer: nat, t: Task): Driven
    requires t.sent <= |t.data| && (r.result.Ok? ==> t.sent + r.result.value <= |t.data|)
  {
    match r.result
    case Err(e) => Driven(r.wire, t.(phase := Finished(Err(e))))
    case Ok(n) =>
      if n == 0 then Driven(r.wire, t.(phase := Finished(Err(WriteZero))))
      else Drive(r.wire, writer, t.(sent := t.sent + n, phase := PhaseAfter(t.data, t.sent + n)))
  }

  function ToAttach(t: Task): seq<Fd> {
    if t.phase.Attaching? then t.fds else []
  }

  /** One retrying send is the task's steps up to its next outcome. */
  lemma {:induction false} DriveRetries(w: Wire, writer: nat, t: Task)
    requires Live(t) && t.sent <= |t.data|
    ensures Drive(w, writer, t) == Continue(SendRetrying(w, writer, t.data[t.sent..], ToAttach(t)), writer, t)
    decreases |w.script|
  {
    DriveOnce(w, writer, t);
    SendOnce(w, writer, t.data[t.sent..], ToAttach(t));
    hide Drive, SendRetrying;
    match NextStep(w)
    case Interrupted =>
      DriveRetries(Consume(w), writer, t);
    case Failed(e) =>
      DriveStops(Consume(w), writer, t.(phase := Finished(Err(e))));
    case Accepted(n) =>
      var k := Min(n, |t.data| - t.sent);
      assert t.data[t.sent..][..k] == t.data[t.sent..t.sent + k];
      DriveStops(Consume(w), writer, t.(phase := Finished(Err(WriteZero))));
  }

  /** The completion loop of `send_fds_all`. */
  method CompletePayload(socket: StreamSocket, writer: nat, data: seq<byte>, ghost fds: seq<Fd>, first: nat)
    returns (result: Result<(), IoError>)
    requires first <= |data|
    modifies socket
    ensures var r := Drive(old(socket.wire), writer, Task(data, fds, first, PhaseAfter(data, first)));
      socket.wire == r.wire && r.task.phase == Finished(result)
  {
    hide Drive, SendRetrying;
    var sent := first;
    ghost var t := Task(data, fds, sent, PhaseAfter(data, sent));
    while sent < |data|
      invariant sent <= |data| && t == Task(data, fds, sent, PhaseAfter(data, sent))
      invariant Drive(socket.wire, writer, t)
        == Drive(old(socket.wire), writer, Task(data, fds, first, PhaseAfter(data, first)))
    {
      DriveRetries(socket.wire, writer, t);
      var n := SendBytes(socket, writer, data[sent..]);
      if n.Err? {
        return Err(n.error);
      }
      if n.value == 0 {
        return Err(WriteZero);
      }
      sent := sent + n.value;
      t := Task(data, fds, sent, PhaseAfter(data, sent));
    }
    DriveStops(socket.wire, writer, t);
    result := Ok(());
  }

  /** `send_fds_all`: attach once, then complete the payload. */
  method SendFdsAll(socket: StreamSocket, writer: nat, data: seq<byte>, fds: seq<Fd>)
    returns (result: Result<(), IoError>)
    modifies socket
    ensures var r := Drive(old(socket.wire), writer, Begin(socket.p, data, fds));
      socket.wire == r.wire && r.task.phase == Finished(result)
  {
    var p := socket.p;
    ghost var t := Begin(p, data, fds);
    BeginPhase(p, data, fds);
    hide Begin, Drive, SendRetrying, BufferSizeForRights;
    DriveStops(socket.wire, writer, t);
    if |data| == 0 && |fds| != 0 {
      return Err(InvalidInput);
    }
    var sent := 0;
    if |fds| != 0 {
      if Live(t) { DriveRetries(socket.wire, writer, t); }
      assert data[0..] == data;
      var first := SendFdsImpl(socket, writer, data, fds);
      if first.Err? {
        return Err(first.error);
      }
      if first.value == 0 {
        return Err(WriteZero);
      }
      sent := first.value;
    }
    result := CompletePayload(socket, writer, data, fds, sent);
  }

  // ---------------------------------------------------------------- the async call

  function PollsAfter(step: SendStep, polls: nat): nat
    requires polls > 0
  {
    if step.Interrupted? then polls else polls - 1
  }

  /** Runs an async task on an executor that signals readiness `polls` times before it drops the
      future. An interruption is retried within the same poll. */
  function DriveAsync(w: Wire, writer: nat, t: Task, polls: nat): (r: Driven)
    requires t.sent <= |t.data|
    ensures !Live(r.task)
    decreases |w.script|, if Live(t) then 1 else 0
  {
    if !Live(t) then Driven(w, t)
    else if polls == 0 then Driven(w, t.(phase := Cancelled))
    else
      var step := NextStep(w);
      var r := Poll(t, step, false);
      DriveAsync(Enqueue(Consume(w), writer, r.bytes, r.fds), writer, r.task, PollsAfter(step, polls))
  }

  /** One `async_io(WRITABLE, ..).await`: no result when the future is dropped. */
  datatype Awaited = Awaited(wire: Wire, result: Option<Result<nat, IoError>>, polls: nat)

  function AwaitSend(w: Wire, writer: nat, data: seq<byte>, fds: seq<Fd>, polls: nat): (r: Awaited)
    ensures r.result.Some? && r.result.value.Ok? ==> r.result.value.value <= |data|
    decreases polls
  {
    if polls == 0 then Awaited(w, None, 0)
    else
      var s := SendRetrying(w, writer, data, fds);
      if s.result == Err(WouldBlock) then AwaitSend(s.wire, writer, data, fds, polls - 1)
      else Awaited(s.wire, Some(s.result), polls - 1)
  }

  /** The closure around `send_fds_impl`; a size that does not exist panics in the first poll. */
  method AwaitFds(socket: StreamSocket, writer: nat, data: seq<byte>, fds: seq<Fd>, polls: nat)
    returns (result: Option<Result<nat, IoError>>, left: nat)
    modifies socket
    ensures BufferSizeForRights(socket.p, |fds|).None? ==>
      socket.wire == old(socket.wire) && result == if polls == 0 then None else Some(Err(Panicked))
    ensures BufferSizeForRights(socket.p, |fds|).Some? ==>
      Awaited(socket.wire, result, left) == AwaitSend(old(socket.wire), writer, data, fds, polls)
  {
    hide SendRetrying, BufferSizeForRights;
    left := polls;
    while left > 0
      invariant BufferSizeForRights(socket.p, |fds|).None? ==> socket.wire == old(socket.wire) && left == polls
      invariant BufferSizeForRights(socket.p, |fds|).Some? ==>
        AwaitSend(socket.wire, writer, data, fds, left) == AwaitSend(old(socket.wire), writer, data, fds, polls)
    {
      var sent := SendFdsImpl(socket, writer, data, fds);
      left := left - 1;
      if sent != Err(WouldBlock) {
        return Some(sent), left;
      }
    }
    result := None;
  }

  /** The closure around `send_bytes`. */
  method AwaitBytes(socket: StreamSocket, writer: nat, data: seq<byte>, polls: nat)
    returns (result: Option<Result<nat, IoError>>, left: nat)
    modifies socket
    ensures Awaited(socket.wire, result, left) == AwaitSend(old(socket.wire), writer, data, [], polls)
  {
    hide SendRetrying;
    left := polls;
    while left > 0
      invariant AwaitSend(socket.wire, writer, data, [], left) == AwaitSend(old(socket.wire), writer, data, [], polls)
    {
      var sent := SendBytes(socket, writer, data);
      left := left - 1;
      if sent != Err(WouldBlock) {
        return Some(sent), left;
      }
    }
    result := None;
  }

  /** How a live task goes on from the outcome of an await. */
  function ContinueAsync(r: Awaited, writer: nat, t: Task): Driven
    requires t.sent <= |t.data|
    requires r.result.Some? && r.result.value.Ok? ==> t.sent + r.result.value.value <= |t.data|
  {
    match r.result
    case None => Driven(r.wire, t.(phase := Cancelled))
    case Some(Err(e)) => Driven(r.wire, t.(phase := Finished(Err(e))))
    case Some(Ok(n)) =>
      if n == 0 then Driven(r.wire, t.(phase := Finished(Err(WriteZero))))
      else DriveAsync(r.wire, writer, t.(sent := t.sent + n, phase := PhaseAfter(t.data, t.sent + n)), r.polls)
  }

  lemma AsyncStops(w: Wire, writer: nat, t: Task, polls: nat)
    requires t.sent <= |t.data|
    ensures !Live(t) ==> DriveAsync(w, writer, t, polls) == Driven(w, t)
    ensures Live(t) && polls == 0 ==> DriveAsync(w, writer, t, polls) == Driven(w, t.(phase := Cancelled))
  {
  }

  lemma {:induction false} AsyncOnce(w: Wire, writer: nat, t: Task, polls: nat)
    requires Live(t) && t.sent <= |t.data| && polls > 0
    ensures var r := Poll(t, NextStep(w), false);
      DriveAsync(w, writer, t, polls) ==
        DriveAsync(Enqueue(Consume(w), writer, r.bytes, r.fds), writer, r.task, PollsAfter(NextStep(w), polls))
  {
    hide Poll, Enqueue, PollsAfter;
  }

  /** One system call of an async task, by what it did. */
  lemma {:induction false} AsyncStep(w: Wire, writer: nat, t: Task, polls: nat)
    requires Live(t) && t.sent <= |t.data| && polls > 0
    ensures DriveAsync(w, writer, t, polls) ==
      match NextStep(w)
      case Interrupted => DriveAsync(Consume(w), writer, t, polls)
      case Failed(e) =>
        if e == WouldBlock then DriveAsync(Consume(w), writer, t, polls - 1)
        else Driven(Consume(w), t.(phase := Finished(Err(e))))
      case Accepted(n) =>
        var k := Min(n, |t.data| - t.sent);
        var next := Enqueue(Consume(w), writer, t.data[t.sent..][..k], ToAttach(t));
        ContinueAsync(Awaited(next, Some(Ok(k)), polls - 1), writer, t)
  {
    AsyncOnce(w, writer, t, polls);
    hide DriveAsync, NextStep, Consume;
    match NextStep(w)
    case Interrupted =>
    case Failed(e) =>
      AsyncStops(Consume(w), writer, t.(phase := Finished(Err(e))), polls - 1);
    case Accepted(n) =>
      var k := Min(n, |t.data| - t.sent);
      assert t.data[t.sent..][..k] == t.data[t.sent..t.sent + k];
      AsyncStops(Consume(w), writer, t.(phase := Finished(Err(WriteZero))), polls - 1);
  }

  /** One poll is one retrying send. */
  lemma {:induction false} AsyncRetries(w: Wire, writer: nat, t: Task, polls: nat)
    requires Live(t) && t.sent <= |t.data| && polls > 0
    ensures var s := SendRetrying(w, writer, t.data[t.sent..], ToAttach(t));
      DriveAsync(w, writer, t, polls) ==
        if s.result == Err(WouldBlock) then DriveAsync(s.wire, writer, t, polls - 1)
        else ContinueAsync(Awaited(s.wire, Some(s.result), polls - 1), writer, t)
    decreases |w.script|
  {
    AsyncStep(w, writer, t, polls);
    SendOnce(w, writer, t.data[t.sent..], ToAttach(t));
    hide DriveAsync, SendRetrying, Enqueue, ToAttach, Live;
    if NextStep(w).Interrupted? { AsyncRetries(Consume(w), writer, t, polls); }
  }

  /** One await is the task's steps up to its next outcome, or to the drop. */
  lemma {:induction false} AsyncAwaits(w: Wire, writer: nat, t: Task, polls: nat)
    requires Live(t) && t.sent <= |t.data|
    ensures DriveAsync(w, writer, t, polls) ==
      ContinueAsync(AwaitSend(w, writer, t.data[t.sent..], ToAttach(t), polls), writer, t)
    decreases polls
  {
    hide DriveAsync, SendRetrying, Live;
    if polls == 0 {
      AsyncStops(w, writer, t, polls);
    } else {
      AsyncRetries(w, writer, t, polls);
      var s := SendRetrying(w, writer, t.data[t.sent..], ToAttach(t));
      if s.result == Err(WouldBlock) { AsyncAwaits(s.wire, writer, t, polls - 1); }
    }
  }

  /** Where a call that reported `result` left its task. */
  function PhaseOf(result: Option<Result<(), IoError>>): Phase {
    match result case None => Cancelled case Some(r) => Finished(r)
  }

  /** The completion loop of the async `send_fds_all`. */
  method CompletePayloadAsync(
    socket: StreamSocket, writer: nat, data: seq<byte>, ghost fds: seq<Fd>, first: nat, polls: nat)
    returns (result: Option<Result<(), IoError>>)
    requires first <= |data|
    modifies socket
    ensures var r := DriveAsync(old(socket.wire), writer, Task(data, fds, first, PhaseAfter(data, first)), polls);
      socket.wire == r.wire && r.task.phase == PhaseOf(result)
  {
    hide DriveAsync, AwaitSend;
    var sent, left := first, polls;
    ghost var t := Task(data, fds, sent, PhaseAfter(data, sent));
    while sent < |data|
      invariant sent <= |data| && t == Task(data, fds, sent, PhaseAfter(data, sent))
      invariant DriveAsync(socket.wire, writer, t, left)
        == DriveAsync(old(socket.wire), writer, Task(data, fds, first, PhaseAfter(data, first)), polls)
    {
      AsyncAwaits(socket.wire, writer, t, left);
      var n;
      n, left := AwaitBytes(socket, writer, data[sent..], left);
      if n.None? {
        return None;
      }
      if n.value.Err? {
        return Some(Err(n.value.error));
      }
      if n.value.value == 0 {
        return Some(Err(WriteZero));
      }
      sent := sent + n.value.value;
      t := Task(data, fds, sent, PhaseAfter(data, sent));
    }
    AsyncStops(socket.wire, writer, t, left);
    result := Some(Ok(()));
  }

  /** The async `send_fds_all`: two awaits, and a drop at either leaves what was queued before. */
  method SendFdsAllAsync(socket: StreamSocket, writer: nat, data: seq<byte>, fds: seq<Fd>, polls: nat)
    returns (result: Option<Result<(), IoError>>)
    modifies socket
    ensures data != [] && fds != [] && BufferSizeForRights(socket.p, |fds|).None? ==>
      socket.wire == old(socket.wire) && result == if polls == 0 then None else Some(Err(Panicked))
    ensures data == [] || fds == [] || BufferSizeForRights(socket.p, |fds|).Some? ==>
      var r := DriveAsync(old(socket.wire), writer, Begin(socket.p, data, fds), polls);
      socket.wire == r.wire && r.task.phase == PhaseOf(result)
  {
    var p := socket.p;
    ghost var t := Begin(p, data, fds);
    BeginPhase(p, data, fds);
    hide Begin, DriveAsync, AwaitSend, BufferSizeForRights;
    AsyncStops(socket.wire, writer, t, polls);
    if |data| == 0 && |fds| != 0 {
      return Some(Err(InvalidInput));
    }
    var sent, left := 0, polls;
    if |fds| != 0 {
      if Live(t) { AsyncAwaits(socket.wire, writer, t, polls); }
      assert data[0..] == data;
      var first;
      first, left := AwaitFds(socket, writer, data, fds, polls);
      if first.None? {
        return None;
      }
      if first.value.Err? {
        return Some(Err(first.value.error));
      }
      if first.value.value == 0 {
        return Some(Err(WriteZero));
      }
      sent := first.value.value;
    }
    result := CompletePayloadAsync(socket, writer, data, fds, sent, left);
  }
}
