/** Runs of the stream protocol: one blocking call against every kernel script, and any number of
    `send_fds_all` tasks, receives and peeks interleaved on one connection. */
module Channel {
  import opened Wrappers
  import opened Bytes
  import opened Layout
  import opened Payload
  import opened Kernel
  import opened Receive
  import opened ReceiveProofs
  import opened AncillaryBuffer
  import opened Stream
  import Session

  // ---------------------------------------------------------------- one blocking call

  lemma SentInRange(t: Task, segments: seq<Segment>)
    requires Accounts(t, segments)
    ensures t.sent <= |t.data|
  {
  }

  lemma EnqueueLogs(w: Wire, writer: nat, r: Polled)
    ensures Enqueue(Consume(w), writer, r.bytes, r.fds).log == w.log + Queued(writer, r)
  {
  }

  /** A step uses up script, or ends the task. */
  lemma DriveShrinks(w: Wire, writer: nat, t: Task)
    requires Live(t) && t.sent <= |t.data|
    ensures var r := Poll(t, NextStep(w), true);
      var next := Enqueue(Consume(w), writer, r.bytes, r.fds);
      |next.script| < |w.script| || (|next.script| == |w.script| && !Live(r.task))
  {
  }

  lemma {:induction false} DriveAccounts(w: Wire, writer: nat, t: Task, before: seq<Segment>)
    requires Accounts(t, before)
    ensures var r := Drive(w, writer, t);
      w.log <= r.wire.log && Accounts(r.task, before + r.wire.log[|w.log|..])
    decreases |w.script|, if Live(t) then 1 else 0
  {
    hide Accounts, Poll, Drive, Enqueue, Queued, Consume;
    SentInRange(t, before);
    if !Live(t) {
      DriveStops(w, writer, t);
      assert w.log[|w.log|..] == [] && before + [] == before;
    } else {
      var r := Poll(t, NextStep(w), true);
      var next := Enqueue(Consume(w), writer, r.bytes, r.fds);
      DriveOnce(w, writer, t);
      PollAccounts(t, NextStep(w), true, writer, before);
      EnqueueLogs(w, writer, r);
      DriveShrinks(w, writer, t);
      DriveAccounts(next, writer, r.task, before + Queued(writer, r));
      var end := Drive(next, writer, r.task).wire.log;
      assert before + Queued(writer, r) + end[|next.log|..] == before + end[|w.log|..];
    }
  }

  lemma {:induction false} DriveFinishes(w: Wire, writer: nat, t: Task)
    requires t.sent <= |t.data| && !t.phase.Cancelled?
    ensures Drive(w, writer, t).task.phase.Finished?
    decreases |w.script|, if Live(t) then 1 else 0
  {
    if Live(t) {
      var r := Poll(t, NextStep(w), true);
      DriveFinishes(Enqueue(Consume(w), writer, r.bytes, r.fds), writer, r.task);
    }
  }

  lemma {:induction false} DriveKeepsJob(w: Wire, writer: nat, t: Task)
    requires t.sent <= |t.data|
    ensures var r := Drive(w, writer, t).task; r.data == t.data && r.fds == t.fds
    decreases |w.script|, if Live(t) then 1 else 0
  {
    if Live(t) {
      var r := Poll(t, NextStep(w), true);
      DriveKeepsJob(Enqueue(Consume(w), writer, r.bytes, r.fds), writer, r.task);
    }
  }

  /** Whatever the kernel does, `send_fds_all` queues exactly a prefix of the payload, all of it when it
      reports success, with the descriptors on the first queued byte and nowhere else. */
  lemma {:induction false} SendFdsAllDelivers(p: Platform, w: Wire, writer: nat, data: seq<byte>, fds: seq<Fd>)
    ensures var r := Drive(w, writer, Begin(p, data, fds));
      && w.log <= r.wire.log
      && var queued := r.wire.log[|w.log|..];
      && r.task.phase.Finished?
      && r.task.sent <= |data| && PayloadOf(queued) == data[..r.task.sent]
      && AttachedOnce(queued, fds)
      && (queued == [] <==> r.task.sent == 0)
      && (r.task.phase.result.Ok? ==> PayloadOf(queued) == data)
  {
    var t := Begin(p, data, fds);
    BeginAccounts(p, data, fds);
    DriveAccounts(w, writer, t, []);
    var r := Drive(w, writer, t);
    DriveFinishes(w, writer, t);
    DriveKeepsJob(w, writer, t);
    hide Drive, Begin, PayloadOf;
    var queued := r.wire.log[|w.log|..];
    assert [] + queued == queued;
    assert data[..|data|] == data;
  }

  /** Steps that cannot end a send: interruptions and short writes. */
  predicate Harmless(script: seq<SendStep>) {
    forall i :: 0 <= i < |script| ==> script[i].Interrupted? || (script[i].Accepted? && script[i].n > 0)
  }

  function Gain(step: SendStep): nat {
    if step.Accepted? then step.n else 0
  }

  /** How many bytes the kernel is ready to accept over a script. */
  function Room(script: seq<SendStep>): nat {
    if script == [] then 0 else Gain(script[0]) + Room(script[1..])
  }

  /** Steps that do end it, and how. */
  predicate Ends(step: SendStep) {
    step.Failed? || step == Accepted(0)
  }

  function EndResult(step: SendStep): IoError
    requires Ends(step)
  {
    match step case Failed(e) => e case Accepted(_) => WriteZero
  }

  lemma {:induction false} HarmlessPoll(t: Task, step: SendStep)
    requires Live(t) && t.sent < |t.data| && Harmless([step])
    ensures var r := Poll(t, step, true).task;
      && r == t.(sent := Min(t.sent + Gain(step), |t.data|), phase := r.phase)
      && if t.sent + Gain(step) < |t.data| then Live(r) else r.phase == Finished(Ok(()))
  {
    assert [step][0] == step;
  }

  /** One step of a script, as the run goes on after it. */
  lemma {:induction false} DriveAlong(w: Wire, writer: nat, t: Task, tail: seq<SendStep>)
    returns (next: Wire)
    requires Live(t) && t.sent <= |t.data| && w.script != [] && w.script[1..] == tail
    ensures next.script == tail
    ensures Drive(w, writer, t) == Drive(next, writer, Poll(t, w.script[0], true).task)
  {
    DriveOnce(w, writer, t);
    hide Drive, Poll;
    var r := Poll(t, NextStep(w), true);
    next := Enqueue(Consume(w), writer, r.bytes, r.fds);
  }

  /** Room for the rest before anything else happens: the call succeeds, whatever comes after, and reads
      no further than it needs. */
  lemma {:induction false} ProgressCompletes(w: Wire, writer: nat, t: Task, good: seq<SendStep>, rest: seq<SendStep>)
    requires Live(t) && t.sent < |t.data|
    requires w.script == good + rest && Harmless(good) && |t.data| - t.sent <= Room(good)
    ensures Drive(w, writer, t).task == t.(sent := |t.data|, phase := Finished(Ok(())))
    ensures good != [] && t.sent + Room(good[..|good| - 1]) < |t.data| ==> Drive(w, writer, t).wire.script == rest
    decreases |good|
  {
    hide Drive, Poll;
    assert w.script[0] == good[0] && [good[0]][0] == good[0];
    HarmlessPoll(t, good[0]);
    var next := DriveAlong(w, writer, t, good[1..] + rest);
    var t' := Poll(t, good[0], true).task;
    if |good| > 1 { assert good[..|good| - 1][1..] == good[1..][..|good| - 2]; }
    if Live(t') {
      ProgressCompletes(next, writer, t', good[1..], rest);
    } else {
      DriveStops(next, writer, t');
    }
  }

  lemma {:induction false} EndPoll(t: Task, end: SendStep)
    requires Live(t) && t.sent < |t.data| && Ends(end)
    ensures Poll(t, end, true).task == t.(phase := Finished(Err(EndResult(end))))
  {
  }

  /** Without that room, the first step that can end the call decides it: a kernel error is reported as
      it is, an accepted count of zero as `WriteZero`, and what was accepted before stays sent. */
  lemma {:induction false} FirstEndDecides(
    w: Wire, writer: nat, t: Task, good: seq<SendStep>, end: SendStep, rest: seq<SendStep>)
    requires Live(t) && t.sent < |t.data|
    requires w.script == good + [end] + rest && Harmless(good) && Ends(end) && t.sent + Room(good) < |t.data|
    ensures Drive(w, writer, t).task == t.(sent := t.sent + Room(good), phase := Finished(Err(EndResult(end))))
    ensures Drive(w, writer, t).wire.script == rest
    decreases |good|
  {
    hide Drive, Poll;
    if good == [] {
      assert w.script[0] == end;
      EndPoll(t, end);
      var next := DriveAlong(w, writer, t, rest);
      DriveStops(next, writer, Poll(t, end, true).task);
    } else {
      assert w.script[0] == good[0] && [good[0]][0] == good[0];
      HarmlessPoll(t, good[0]);
      var next := DriveAlong(w, writer, t, good[1..] + [end] + rest);
      FirstEndDecides(next, writer, Poll(t, good[0], true).task, good[1..], end, rest);
    }
  }

  /** A script that runs out before room for the rest: the peer is gone. */
  lemma {:induction false} ExhaustedScript(w: Wire, writer: nat, t: Task)
    requires Live(t) && t.sent < |t.data|
    requires Harmless(w.script) && t.sent + Room(w.script) < |t.data|
    ensures Drive(w, writer, t).task == t.(sent := t.sent + Room(w.script), phase := Finished(Err(Os(32))))
    decreases |w.script|
  {
    if w.script == [] {
      DriveOnce(w, writer, t);
    } else {
      hide Drive, Poll;
      assert [w.script[0]][0] == w.script[0];
      HarmlessPoll(t, w.script[0]);
      var next := DriveAlong(w, writer, t, w.script[1..]);
      ExhaustedScript(next, writer, Poll(t, w.script[0], true).task);
    }
  }

  /** The checks of a call come before any system call: a stream needs a payload byte for descriptors, an
      empty send is done at once, and a control size that does not exist panics. Past them nothing is
      sent yet, and the call goes on as above, or as below when it is async. */
  lemma {:induction false} ChecksComeFirst(
    p: Platform, w: Wire, writer: nat, data: seq<byte>, fds: seq<Fd>, polls: nat)
    ensures var t := Begin(p, data, fds);
      && t.data == data && t.fds == fds && t.sent == 0
      && (Live(t) <==> data != [] && 4 * |fds| <= I32_MAX)
      && (!Live(t) ==>
        && Drive(w, writer, t) == Driven(w, t)
        && DriveAsync(w, writer, t, polls) == Driven(w, t)
        && t.phase == Finished(
          if data != [] then Err(Panicked) else if fds == [] then Ok(()) else Err(InvalidInput)))
  {
    RightsSizeIsExact(p, |fds|);
    DriveStops(w, writer, Begin(p, data, fds));
    AsyncStops(w, writer, Begin(p, data, fds), polls);
    hide Drive, DriveAsync, BufferSizeForRights;
  }

  // ---------------------------------------------------------------- one async call

  /** Steps that cannot end an async send: also a kernel that is not ready. */
  predicate Patient(script: seq<SendStep>) {
    forall i :: 0 <= i < |script| ==>
      || script[i].Interrupted?
      || script[i] == SendStep.Failed(WouldBlock)
      || (script[i].Accepted? && script[i].n > 0)
  }

  /** How many readiness signals a script uses up: interruptions are retried within one. */
  function Signals(script: seq<SendStep>): nat {
    if script == [] then 0 else (if script[0].Interrupted? then 0 else 1) + Signals(script[1..])
  }

  lemma {:induction false} RoomNeedsSignals(script: seq<SendStep>)
    ensures Signals(script) == 0 ==> Room(script) == 0
  {
    if script != [] { RoomNeedsSignals(script[1..]); }
  }

  lemma {:induction false} PatientPoll(t: Task, step: SendStep)
    requires Live(t) && t.sent < |t.data| && Patient([step])
    ensures var r := Poll(t, step, false).task;
      && r == t.(sent := Min(t.sent + Gain(step), |t.data|), phase := r.phase)
      && if t.sent + Gain(step) < |t.data| then Live(r) else r.phase == Finished(Ok(()))
  {
    assert [step][0] == step;
  }

  lemma {:induction false} AsyncEndPoll(t: Task, end: SendStep)
    requires Live(t) && t.sent < |t.data| && Ends(end) && end != SendStep.Failed(WouldBlock)
    ensures Poll(t, end, false).task == t.(phase := Finished(Err(EndResult(end))))
  {
  }

  lemma {:induction false} AsyncAlong(w: Wire, writer: nat, t: Task, polls: nat, tail: seq<SendStep>)
    returns (next: Wire)
    requires Live(t) && t.sent <= |t.data| && polls > 0 && w.script != [] && w.script[1..] == tail
    ensures next.script == tail
    ensures DriveAsync(w, writer, t, polls)
      == DriveAsync(next, writer, Poll(t, w.script[0], false).task, PollsAfter(w.script[0], polls))
  {
    AsyncOnce(w, writer, t, polls);
    hide DriveAsync, Poll, PollsAfter;
    var r := Poll(t, NextStep(w), false);
    next := Enqueue(Consume(w), writer, r.bytes, r.fds);
  }

  /** Interruptions, short writes and a kernel that is not ready cannot stop an async call: once they have
      made room for the payload within the signals given, it is done, whatever would come after. */
  lemma {:induction false} AsyncProgressCompletes(
    w: Wire, writer: nat, t: Task, polls: nat, good: seq<SendStep>, rest: seq<SendStep>)
    requires Live(t) && t.sent < |t.data|
    requires w.script == good + rest && Patient(good) && Signals(good) <= polls
    requires |t.data| - t.sent <= Room(good)
    ensures DriveAsync(w, writer, t, polls).task == t.(sent := |t.data|, phase := Finished(Ok(())))
    ensures good != [] && t.sent + Room(good[..|good| - 1]) < |t.data| ==>
      DriveAsync(w, writer, t, polls).wire.script == rest
    decreases |good|
  {
    RoomNeedsSignals(good);
    hide DriveAsync, Poll;
    assert w.script[0] == good[0] && [good[0]][0] == good[0];
    PatientPoll(t, good[0]);
    var next := AsyncAlong(w, writer, t, polls, good[1..] + rest);
    var t', left := Poll(t, good[0], false).task, PollsAfter(good[0], polls);
    if |good| > 1 { assert good[..|good| - 1][1..] == good[1..][..|good| - 2]; }
    if Live(t') {
      AsyncProgressCompletes(next, writer, t', left, good[1..], rest);
    } else {
      AsyncStops(next, writer, t', left);
    }
  }

  /** Without that room, the first other step decides, if a signal is left for it. */
  lemma {:induction false} AsyncFirstEndDecides(
    w: Wire, writer: nat, t: Task, polls: nat, good: seq<SendStep>, end: SendStep, rest: seq<SendStep>)
    requires Live(t) && t.sent < |t.data|
    requires w.script == good + [end] + rest && Patient(good) && Signals(good) < polls
    requires Ends(end) && end != SendStep.Failed(WouldBlock) && t.sent + Room(good) < |t.data|
    ensures DriveAsync(w, writer, t, polls).task
      == t.(sent := t.sent + Room(good), phase := Finished(Err(EndResult(end))))
    ensures DriveAsync(w, writer, t, polls).wire.script == rest
    decreases |good|
  {
    hide DriveAsync, Poll;
    if good == [] {
      assert w.script[0] == end;
      AsyncEndPoll(t, end);
      var next := AsyncAlong(w, writer, t, polls, rest);
      AsyncStops(next, writer, Poll(t, end, false).task, PollsAfter(end, polls));
    } else {
      assert w.script[0] == good[0] && [good[0]][0] == good[0];
      PatientPoll(t, good[0]);
      var next := AsyncAlong(w, writer, t, polls, good[1..] + [end] + rest);
      AsyncFirstEndDecides(
        next, writer, Poll(t, good[0], false).task, PollsAfter(good[0], polls), good[1..], end, rest);
    }
  }

  /** When the signals run out first the future is dropped, and what was accepted by then stays sent. */
  lemma {:induction false} AsyncRunsOut(
    w: Wire, writer: nat, t: Task, polls: nat, good: seq<SendStep>, rest: seq<SendStep>)
    requires Live(t) && t.sent < |t.data|
    requires w.script == good + rest && Patient(good) && Signals(good) == polls
    requires t.sent + Room(good) < |t.data|
    ensures DriveAsync(w, writer, t, polls).task == t.(sent := t.sent + Room(good), phase := Cancelled)
    decreases |good|
  {
    RoomNeedsSignals(good);
    hide DriveAsync, Poll;
    if polls == 0 {
      AsyncStops(w, writer, t, polls);
    } else {
      assert w.script[0] == good[0] && [good[0]][0] == good[0];
      PatientPoll(t, good[0]);
      var next := AsyncAlong(w, writer, t, polls, good[1..] + rest);
      AsyncRunsOut(next, writer, Poll(t, good[0], false).task, PollsAfter(good[0], polls), good[1..], rest);
    }
  }

  /** A script that runs out before the signals and before room for the rest: the peer is gone. */
  lemma {:induction false} AsyncExhausted(w: Wire, writer: nat, t: Task, polls: nat)
    requires Live(t) && t.sent < |t.data|
    requires Patient(w.script) && Signals(w.script) < polls && t.sent + Room(w.script) < |t.data|
    ensures DriveAsync(w, writer, t, polls).task
      == t.(sent := t.sent + Room(w.script), phase := Finished(Err(Os(32))))
    decreases |w.script|
  {
    if w.script == [] {
      AsyncOnce(w, writer, t, polls);
      AsyncEndPoll(t, SendStep.Failed(Os(32)));
      AsyncStops(w, writer, t.(phase := Finished(Err(Os(32)))), polls - 1);
      hide DriveAsync;
    } else {
      hide DriveAsync, Poll;
      assert [w.script[0]][0] == w.script[0];
      PatientPoll(t, w.script[0]);
      var next := AsyncAlong(w, writer, t, polls, w.script[1..]);
      AsyncExhausted(next, writer, Poll(t, w.script[0], false).task, PollsAfter(w.script[0], polls));
    }
  }

  lemma {:induction false} OtherStepsFinish(w: Wire, writer: nat, t: Task, polls: nat)
    requires Live(t) && t.sent < |t.data| && polls > 0
    requires w.script == [] || !Patient(w.script[..1])
    ensures DriveAsync(w, writer, t, polls).task.phase.Finished?
  {
    AsyncOnce(w, writer, t, polls);
    AsyncEndPoll(t, NextStep(w));
    hide DriveAsync, Poll;
    var r := Poll(t, NextStep(w), false);
    AsyncStops(Enqueue(Consume(w), writer, r.bytes, r.fds), writer, r.task, PollsAfter(NextStep(w), polls));
  }

  /** And a call is dropped in no other way. */
  lemma {:induction false} CancelledOnlyByPolls(w: Wire, writer: nat, t: Task, polls: nat) returns (k: nat)
    requires Live(t) && t.sent < |t.data| && DriveAsync(w, writer, t, polls).task.phase.Cancelled?
    ensures k <= |w.script| && Patient(w.script[..k]) && Signals(w.script[..k]) == polls
    ensures t.sent + Room(w.script[..k]) < |t.data|
    decreases |w.script|
  {
    k := 0;
    if polls > 0 {
      hide DriveAsync, Poll;
      if w.script == [] || !Patient(w.script[..1]) {
        OtherStepsFinish(w, writer, t, polls);
      } else {
        var step := w.script[0];
        assert w.script[..1] == [step];
        PatientPoll(t, step);
        var next := AsyncAlong(w, writer, t, polls, w.script[1..]);
        var t', left := Poll(t, step, false).task, PollsAfter(step, polls);
        AsyncStops(next, writer, t', left);
        k := CancelledOnlyByPolls(next, writer, t', left);
        k := k + 1;
        assert w.script[..k][1..] == w.script[1..][..k - 1];
      }
    }
  }

  lemma {:induction false} AsyncShrinks(w: Wire, writer: nat, t: Task)
    requires Live(t) && t.sent <= |t.data|
    ensures var r := Poll(t, NextStep(w), false);
      var next := Enqueue(Consume(w), writer, r.bytes, r.fds);
      |next.script| < |w.script| || (|next.script| == |w.script| && !Live(r.task))
  {
  }

  lemma {:induction false} AsyncAccounts(w: Wire, writer: nat, t: Task, polls: nat, before: seq<Segment>)
    requires Accounts(t, before)
    ensures var r := DriveAsync(w, writer, t, polls);
      w.log <= r.wire.log && Accounts(r.task, before + r.wire.log[|w.log|..])
    decreases |w.script|, if Live(t) then 1 else 0
  {
    hide Poll, DriveAsync, Enqueue, Queued, Consume, PayloadOf, AttachedOnce;
    SentInRange(t, before);
    AsyncStops(w, writer, t, polls);
    if !Live(t) || polls == 0 {
      assert w.log[|w.log|..] == [] && before + [] == before;
    } else {
      hide Accounts;
      var r, left := Poll(t, NextStep(w), false), PollsAfter(NextStep(w), polls);
      var next := Enqueue(Consume(w), writer, r.bytes, r.fds);
      AsyncOnce(w, writer, t, polls);
      PollAccounts(t, NextStep(w), false, writer, before);
      EnqueueLogs(w, writer, r);
      AsyncShrinks(w, writer, t);
      AsyncAccounts(next, writer, r.task, left, before + Queued(writer, r));
      var end := DriveAsync(next, writer, r.task, left).wire.log;
      assert before + Queued(writer, r) + end[|next.log|..] == before + end[|w.log|..];
    }
  }

  lemma {:induction false} AsyncKeepsJob(w: Wire, writer: nat, t: Task, polls: nat)
    requires t.sent <= |t.data|
    ensures var r := DriveAsync(w, writer, t, polls).task; r.data == t.data && r.fds == t.fds
    decreases |w.script|, if Live(t) then 1 else 0
  {
    AsyncStops(w, writer, t, polls);
    if Live(t) && polls > 0 {
      AsyncOnce(w, writer, t, polls);
      AsyncShrinks(w, writer, t);
      hide DriveAsync, PollsAfter;
      var r := Poll(t, NextStep(w), false);
      AsyncKeepsJob(Enqueue(Consume(w), writer, r.bytes, r.fds), writer, r.task, PollsAfter(NextStep(w), polls));
    }
  }

  /** However an async call ends, dropped or not, it has queued exactly a prefix of the payload, all of it
      when it reports success, with the descriptors on the first queued byte and nowhere else. */
  lemma {:induction false} SendFdsAllAsyncDelivers(
    p: Platform, w: Wire, writer: nat, data: seq<byte>, fds: seq<Fd>, polls: nat)
    ensures var r := DriveAsync(w, writer, Begin(p, data, fds), polls);
      && w.log <= r.wire.log
      && var queued := r.wire.log[|w.log|..];
      && r.task.sent <= |data| && PayloadOf(queued) == data[..r.task.sent]
      && AttachedOnce(queued, fds)
      && (queued == [] <==> r.task.sent == 0)
      && (r.task.phase == Finished(Ok(())) ==> PayloadOf(queued) == data)
  {
    var t := Begin(p, data, fds);
    BeginAccounts(p, data, fds);
    AsyncAccounts(w, writer, t, polls, []);
    AsyncKeepsJob(w, writer, t, polls);
    var r := DriveAsync(w, writer, t, polls);
    hide DriveAsync, Begin, PayloadOf, AttachedOnce;
    var queued := r.wire.log[|w.log|..];
    assert [] + queued == queued;
    assert data[..|data|] == data;
  }

  // ---------------------------------------------------------------- many tasks, one connection

  function FdsIn(segments: seq<Segment>): seq<Fd> {
    if segments == [] then [] else segments[0].fds + FdsIn(segments[1..])
  }

  /** How many segments carry descriptors. */
  function Carriers(segments: seq<Segment>): nat {
    if segments == [] then 0 else (if segments[0].fds != [] then 1 else 0) + Carriers(segments[1..])
  }

  /** One receive that found something on the queue: the pieces of the senders' segments it took, the
      descriptor numbers it brought into the process, and what the crate reported. */
  datatype Outcome =
    | Convenience(pieces: seq<Segment>, numbers: seq<Fd>, mode: CountMode, result: Result<Core, IoError>)
    | LowLevel(pieces: seq<Segment>, numbers: seq<Fd>, report: Result<RecvResult, IoError>)
  {
    function Bytes(): seq<byte> { PayloadOf(pieces) }

    /** The descriptors the senders attached to what was taken. */
    function Batch(): seq<Fd> { FdsIn(pieces) }
  }

  /** `log` is everything ever queued and `queue` what is still to be received. `outcomes` are the
      receives, `peeks` the peeks, and `low` the receiving process: its descriptor table, the script of
      its system calls, and its `SocketAncillary` with the iterators over it. */
  datatype World = World(
    tasks: seq<Task>, log: seq<Segment>, queue: seq<Segment>,
    outcomes: seq<Outcome>, peeks: seq<Outcome>, low: Session.Session)

  datatype Event =
    | Turn(which: nat, step: SendStep, blocking: bool)   // one system call of one task
    | Cancel(which: nat)                                 // its future is dropped at an await
    | Recv(iov: seq<byte>, mode: CountMode)              // one convenience receive
    | RecvLow(cap: nat)                                  // one cmsg_recvmsg
    | Peek(cap: nat)                                     // one cmsg_recvmsg_peek
    | Local(op: Session.Op)                              // any other use of the buffer and its iterators

  /** What a receive of `n` bytes takes off the queue. A segment may be cut; its descriptors go with
      its first byte. */
  datatype Taken = Taken(pieces: seq<Segment>, rest: seq<Segment>)

  function Take(queue: seq<Segment>, n: nat): Taken
    decreases |queue|
  {
    if n == 0 || queue == [] then Taken([], queue)
    else
      var head := queue[0];
      if n < |head.bytes| then
        Taken([head.(bytes := head.bytes[..n])], [head.(bytes := head.bytes[n..], fds := [])] + queue[1..])
      else
        var more := Take(queue[1..], n - |head.bytes|);
        Taken([head] + more.pieces, more.rest)
  }

  /** The environment contract between queue and delivery: the bytes are the front of the queue, at most
      one descriptor-bearing segment is touched, its descriptors arrive one for one, or cut short under
      MSG_CTRUNC, and a stream never truncates payload. */
  predicate Matches(p: Platform, queue: seq<Segment>, d: Delivery) {
    var pieces := Take(queue, |d.data|).pieces;
    var attached, arrived := |FdsIn(pieces)|, |SentRights(p, d.messages)|;
    && d.data == PayloadOf(pieces)
    && Carriers(pieces) <= 1
    && (if d.ctrunc then arrived <= attached else arrived == attached)
    && !d.dtrunc
  }

  /** `recv_core` in the receiving process. An attempt that delivers nothing takes nothing; a delivery
      that does not match the queue is not one the kernel makes. */
  function DoRecv(p: Platform, w: World, iov: seq<byte>, mode: CountMode): World {
    var r := RecvCoreSpec(p, w.low.sys, iov, SocketKind.Stream, mode);
    var low := w.low.(sys := r.sys);
    match CoreDelivery(p, w.low.sys, iov, mode)
    case None => w.(low := low)
    case Some(d) =>
      if !Matches(p, w.queue, d) then w
      else
        var t := Take(w.queue, |d.data|);
        var outcome := Convenience(t.pieces, SentRights(p, d.messages), mode, r.result);
        w.(queue := t.rest, low := low, outcomes := w.outcomes + [outcome])
  }

  /** The delivery a low-level receive is about to get. */
  function LowDelivery(p: Platform, s: Session.Session, cap: nat): (r: Option<Delivery>)
    ensures r.Some? ==> WellFormed(p, r.value)
  {
    match RecvRaw(p, DropFds(s.sys, Flatten(s.anc.received)), cap, |s.anc.buffer|).result
    case Err(_) => None
    case Ok(d) => Some(d)
  }

  /** `recv_into_ancillary` in the receiving process; a peek leaves the queue as it is. */
  function DoLow(p: Platform, w: World, cap: nat, peek: bool): World {
    var low := Session.DoReceive(p, w.low, cap);
    match LowDelivery(p, w.low, cap)
    case None => w.(low := low)
    case Some(d) =>
      if !Matches(p, w.queue, d) then w
      else
        var t := Take(w.queue, |d.data|);
        var report := ReceiveInto(p, w.low.anc, w.low.sys, cap).result;
        var outcome := LowLevel(t.pieces, Flatten(low.anc.received), report);
        if peek then w.(low := low, peeks := w.peeks + [outcome])
        else w.(queue := t.rest, low := low, outcomes := w.outcomes + [outcome])
  }

  predicate CanTurn(w: World, i: nat) {
    i < |w.tasks| && Live(w.tasks[i]) && w.tasks[i].sent <= |w.tasks[i].data|
  }

  function DoTurn(w: World, i: nat, step: SendStep, blocking: bool): World
    requires CanTurn(w, i)
  {
    var r := Poll(w.tasks[i], step, blocking);
    w.(tasks := w.tasks[i := r.task], log := w.log + Queued(i, r), queue := w.queue + Queued(i, r))
  }

  function DoCancel(w: World, i: nat): World {
    if i < |w.tasks| && Live(w.tasks[i]) then w.(tasks := w.tasks[i := w.tasks[i].(phase := Cancelled)]) else w
  }

  /** Peeks exist on Linux only; receiving needs the buffer free of iterators. */
  function Next(p: Platform, w: World, e: Event): World {
    match e
    case Turn(i, step, blocking) => if CanTurn(w, i) then DoTurn(w, i, step, blocking) else w
    case Cancel(i) => DoCancel(w, i)
    case Recv(iov, mode) => DoRecv(p, w, iov, mode)
    case RecvLow(cap) => if Session.Usable(w.low) then DoLow(p, w, cap, false) else w
    case Peek(cap) => if Session.Usable(w.low) && p.linux then DoLow(p, w, cap, true) else w
    case Local(op) =>
      if w.low.anc.Valid() && !op.RecvMsg? then w.(low := Session.Step(p, w.low, op)) else w
  }

  function RunEvents(p: Platform, w: World, events: seq<Event>): World
    decreases |events|
  {
    if events == [] then w else RunEvents(p, Next(p, w, events[0]), events[1..])
  }

  datatype Job = Job(data: seq<byte>, fds: seq<Fd>)

  function Opening(p: Platform, jobs: seq<Job>, buffer: seq<byte>, sys: Sys): World {
    World(seq(|jobs|, i requires 0 <= i < |jobs| => Begin(p, jobs[i].data, jobs[i].fds)),
          [], [], [], [], Session.Start(buffer, sys))
  }

  // ---------------------------------------------------------------- a call as turns

  /** What a call does to a connection: its task becomes `t` and `more` is queued. */
  function Advanced(w: World, i: nat, t: Task, more: seq<Segment>): World
    requires i < |w.tasks|
  {
    w.(tasks := w.tasks[i := t], log := w.log + more, queue := w.queue + more)
  }

  lemma AdvancedTwice(w: World, i: nat, t: Task, a: seq<Segment>, t': Task, b: seq<Segment>)
    requires i < |w.tasks|
    ensures Advanced(Advanced(w, i, t, a), i, t', b) == Advanced(w, i, t', a + b)
    ensures Advanced(w, i, w.tasks[i], []) == w
  {
  }

  lemma LogSuffix(log: seq<Segment>, more: seq<Segment>, end: seq<Segment>)
    requires log + more <= end
    ensures log <= end && more + end[|log + more|..] == end[|log|..]
  {
  }

  /** Nothing happens after the end of a run. */
  lemma RunOnce(p: Platform, w: World, e: Event, rest: seq<Event>)
    ensures RunEvents(p, w, [e] + rest) == RunEvents(p, Next(p, w, e), rest)
    ensures RunEvents(p, w, []) == w
  {
    hide Next;
    assert ([e] + rest)[1..] == rest;
  }

  /** A turn is a step of the task's own wire. */
  lemma TurnAdvances(p: Platform, w: World, i: nat, step: SendStep, blocking: bool)
    requires CanTurn(w, i)
    ensures var r := Poll(w.tasks[i], step, blocking);
      Next(p, w, Turn(i, step, blocking)) == Advanced(w, i, r.task, Queued(i, r))
  {
    hide Poll, Queued;
  }

  /** A blocking call in a connection: one turn for each step of its script until it ends. */
  function Turns(i: nat, t: Task, wire: Wire): seq<Event>
    requires t.sent <= |t.data|
    decreases |wire.script|, if Live(t) then 1 else 0
  {
    if !Live(t) then []
    else
      var r := Poll(t, NextStep(wire), true);
      [Turn(i, NextStep(wire), true)] + Turns(i, r.task, Enqueue(Consume(wire), i, r.bytes, r.fds))
  }

  /** So the blocking call is a run of turns: task and queue end as `Drive` says, and nothing else
      changes. */
  lemma {:induction false} DriveIsTurns(p: Platform, w: World, i: nat, wire: Wire)
    requires i < |w.tasks| && w.tasks[i].sent <= |w.tasks[i].data|
    ensures var r := Drive(wire, i, w.tasks[i]);
      && wire.log <= r.wire.log
      && RunEvents(p, w, Turns(i, w.tasks[i], wire)) == Advanced(w, i, r.task, r.wire.log[|wire.log|..])
    decreases |wire.script|, if Live(w.tasks[i]) then 1 else 0
  {
    var t, step := w.tasks[i], NextStep(wire);
    if !Live(t) {
      DriveStops(wire, i, t);
      AdvancedTwice(w, i, t, [], t, []);
    } else {
      var r := Poll(t, step, true);
      var next := Enqueue(Consume(wire), i, r.bytes, r.fds);
      DriveOnce(wire, i, t);
      DriveShrinks(wire, i, t);
      EnqueueLogs(wire, i, r);
      TurnAdvances(p, w, i, step, true);
      RunOnce(p, w, Turn(i, step, true), Turns(i, r.task, next));
      var w' := Advanced(w, i, r.task, Queued(i, r));
      assert w'.tasks[i] == r.task;
      assert Turns(i, t, wire) == [Turn(i, step, true)] + Turns(i, r.task, next);
      hide Drive, Poll, Queued, Enqueue, Consume, NextStep, Live, RunEvents, Advanced, Next, Turns;
      DriveIsTurns(p, w', i, next);
      var end := Drive(next, i, r.task);
      AdvancedTwice(w, i, r.task, Queued(i, r), end.task, end.wire.log[|next.log|..]);
      LogSuffix(wire.log, Queued(i, r), end.wire.log);
    }
  }

  /** An async call: one turn for each system call, and a cancellation where the future is dropped. */
  function AsyncTurns(i: nat, t: Task, wire: Wire, polls: nat): seq<Event>
    requires t.sent <= |t.data|
    decreases |wire.script|, if Live(t) then 1 else 0
  {
    if !Live(t) then []
    else if polls == 0 then [Cancel(i)]
    else
      var step := NextStep(wire);
      var r := Poll(t, step, false);
      [Turn(i, step, false)]
      + AsyncTurns(i, r.task, Enqueue(Consume(wire), i, r.bytes, r.fds), PollsAfter(step, polls))
  }

  lemma CancelAdvances(p: Platform, w: World, i: nat)
    requires i < |w.tasks| && Live(w.tasks[i])
    ensures RunEvents(p, w, [Cancel(i)]) == Advanced(w, i, w.tasks[i].(phase := Cancelled), [])
  {
    hide Live;
    RunOnce(p, w, Cancel(i), []);
    assert [Cancel(i)] + [] == [Cancel(i)];
    RunOnce(p, Next(p, w, Cancel(i)), Cancel(i), []);
  }

  lemma {:induction false} AsyncTurnsOnce(p: Platform, w: World, i: nat, wire: Wire, polls: nat)
    requires CanTurn(w, i) && polls > 0
    ensures var step := NextStep(wire);
      var r := Poll(w.tasks[i], step, false);
      var next, w' := Enqueue(Consume(wire), i, r.bytes, r.fds), Advanced(w, i, r.task, Queued(i, r));
      && w'.tasks[i] == r.task
      && RunEvents(p, w, AsyncTurns(i, w.tasks[i], wire, polls))
        == RunEvents(p, w', AsyncTurns(i, r.task, next, PollsAfter(step, polls)))
  {
    hide Poll, Queued, Enqueue, Consume, NextStep, PollsAfter, Next, RunEvents;
    var t, step := w.tasks[i], NextStep(wire);
    var r := Poll(t, step, false);
    var next, left := Enqueue(Consume(wire), i, r.bytes, r.fds), PollsAfter(step, polls);
    TurnAdvances(p, w, i, step, false);
    RunOnce(p, w, Turn(i, step, false), AsyncTurns(i, r.task, next, left));
    assert AsyncTurns(i, t, wire, polls) == [Turn(i, step, false)] + AsyncTurns(i, r.task, next, left);
  }

  lemma {:induction false} AsyncEnds(p: Platform, w: World, i: nat, wire: Wire, polls: nat)
    requires i < |w.tasks| && w.tasks[i].sent <= |w.tasks[i].data|
    requires !Live(w.tasks[i]) || polls == 0
    ensures var r := DriveAsync(wire, i, w.tasks[i], polls);
      && r.wire == wire
      && RunEvents(p, w, AsyncTurns(i, w.tasks[i], wire, polls)) == Advanced(w, i, r.task, [])
  {
    AsyncStops(wire, i, w.tasks[i], polls);
    hide Next, Live;
    if Live(w.tasks[i]) {
      CancelAdvances(p, w, i);
    } else {
      AdvancedTwice(w, i, w.tasks[i], [], w.tasks[i], []);
    }
  }

  lemma {:induction false} AsyncIsTurns(p: Platform, w: World, i: nat, wire: Wire, polls: nat)
    requires i < |w.tasks| && w.tasks[i].sent <= |w.tasks[i].data|
    ensures var r := DriveAsync(wire, i, w.tasks[i], polls);
      && wire.log <= r.wire.log
      && RunEvents(p, w, AsyncTurns(i, w.tasks[i], wire, polls))
        == Advanced(w, i, r.task, r.wire.log[|wire.log|..])
    decreases |wire.script|, if Live(w.tasks[i]) then 1 else 0
  {
    var t, step := w.tasks[i], NextStep(wire);
    if !Live(t) || polls == 0 {
      AsyncEnds(p, w, i, wire, polls);
    } else {
      hide DriveAsync, Poll, Queued, Enqueue, Consume, NextStep, Live, PollsAfter;
      hide RunEvents, Advanced, Next, AsyncTurns;
      AsyncOnce(wire, i, t, polls);
      AsyncShrinks(wire, i, t);
      AsyncTurnsOnce(p, w, i, wire, polls);
      var r := Poll(t, step, false);
      EnqueueLogs(wire, i, r);
      var next, left := Enqueue(Consume(wire), i, r.bytes, r.fds), PollsAfter(step, polls);
      AsyncIsTurns(p, Advanced(w, i, r.task, Queued(i, r)), i, next, left);
      var end := DriveAsync(next, i, r.task, left);
      AdvancedTwice(w, i, r.task, Queued(i, r), end.task, end.wire.log[|next.log|..]);
      LogSuffix(wire.log, Queued(i, r), end.wire.log);
    }
  }

  // ---------------------------------------------------------------- per-writer accounting

  function IfOwn(s: Segment, i: nat): seq<Segment> {
    if s.writer == i then [s] else []
  }

  /** The segments one writer queued. */
  function Own(segments: seq<Segment>, i: nat): seq<Segment> {
    if segments == [] then [] else IfOwn(segments[0], i) + Own(segments[1..], i)
  }

  lemma {:induction false} OwnConcat(a: seq<Segment>, b: seq<Segment>, i: nat)
    ensures Own(a + b, i) == Own(a, i) + Own(b, i)
  {
    hide IfOwn;
    if a == [] {
      assert a + b == b;
    } else {
      assert (a + b)[1..] == a[1..] + b;
      OwnConcat(a[1..], b, i);
    }
  }

  lemma OwnQueued(i: nat, j: nat, r: Polled)
    ensures Own(Queued(i, r), j) == if i == j then Queued(i, r) else []
  {
    assert Own([], j) == [];
  }

  /** `segments` holds, writer by writer, what each task has sent of its job. */
  predicate EachAccounts(tasks: seq<Task>, segments: seq<Segment>, jobs: seq<Job>) {
    && |tasks| == |jobs|
    && (forall i :: 0 <= i < |jobs| ==> tasks[i].data == jobs[i].data && tasks[i].fds == jobs[i].fds)
    && (forall i :: 0 <= i < |jobs| ==> Accounts(tasks[i], Own(segments, i)))
  }

  lemma {:induction false} TurnAccounts(
    w: World, i: nat, step: SendStep, blocking: bool, segments: seq<Segment>, jobs: seq<Job>)
    requires EachAccounts(w.tasks, segments, jobs) && CanTurn(w, i)
    ensures var r := Poll(w.tasks[i], step, blocking);
      EachAccounts(w.tasks[i := r.task], segments + Queued(i, r), jobs)
  {
    var r := Poll(w.tasks[i], step, blocking);
    PollAccounts(w.tasks[i], step, blocking, i, Own(segments, i));
    hide Accounts, Own, Poll, Queued, Live;
    forall j | 0 <= j < |jobs|
      ensures Accounts(w.tasks[i := r.task][j], Own(segments + Queued(i, r), j))
    {
      OwnConcat(segments, Queued(i, r), j);
      OwnQueued(i, j, r);
      assert Own(segments, j) + [] == Own(segments, j);
    }
  }

  lemma CancelAccounts(w: World, i: nat, segments: seq<Segment>, jobs: seq<Job>)
    requires EachAccounts(w.tasks, segments, jobs)
    ensures EachAccounts(DoCancel(w, i).tasks, segments, jobs)
  {
    hide Own, PayloadOf, AttachedOnce;
  }

  /** Receiving touches neither tasks nor log. */
  lemma ReceivesLeaveSenders(p: Platform, w: World, e: Event)
    requires !e.Turn? && !e.Cancel?
    ensures Next(p, w, e).tasks == w.tasks && Next(p, w, e).log == w.log
  {
    hide Take, Matches, RecvCoreSpec, CoreDelivery, ReceiveInto, LowDelivery, Session.Step;
  }

  lemma {:induction false} NextAccounts(p: Platform, w: World, e: Event, jobs: seq<Job>)
    requires EachAccounts(w.tasks, w.log, jobs)
    ensures EachAccounts(Next(p, w, e).tasks, Next(p, w, e).log, jobs)
  {
    hide EachAccounts, DoRecv, DoLow, CanTurn, Session.Step, Session.Usable, Poll, Queued, Live;
    match e
    case Turn(i, step, blocking) =>
      if CanTurn(w, i) { TurnAccounts(w, i, step, blocking, w.log, jobs); }
    case Cancel(i) => CancelAccounts(w, i, w.log, jobs);
    case _ => ReceivesLeaveSenders(p, w, e);
  }

  lemma {:induction false} RunAccounts(p: Platform, w: World, events: seq<Event>, jobs: seq<Job>)
    requires EachAccounts(w.tasks, w.log, jobs)
    ensures EachAccounts(RunEvents(p, w, events).tasks, RunEvents(p, w, events).log, jobs)
    decreases |events|
  {
    hide Next, EachAccounts;
    if events != [] {
      NextAccounts(p, w, events[0], jobs);
      RunAccounts(p, Next(p, w, events[0]), events[1..], jobs);
    }
  }

  lemma OpeningAccounts(p: Platform, jobs: seq<Job>, buffer: seq<byte>, sys: Sys)
    ensures EachAccounts(Opening(p, jobs, buffer, sys).tasks, [], jobs)
  {
    forall i | 0 <= i < |jobs| ensures Accounts(Opening(p, jobs, buffer, sys).tasks[i], Own([], i)) {
      BeginAccounts(p, jobs[i].data, jobs[i].fds);
      hide Begin, Accounts;
    }
  }

  /** Any number of writers, any interleaving at await points, any cancellations, any kernel: what each
      writer has on the wire is a prefix of its own payload, the whole of it once it reports success,
      and its descriptors ride its first byte, once, if and only if it queued any byte. */
  lemma {:induction false} EveryWriterDeliversAPrefix(
    p: Platform, jobs: seq<Job>, buffer: seq<byte>, sys: Sys, events: seq<Event>, i: nat)
    requires i < |jobs|
    ensures var w := RunEvents(p, Opening(p, jobs, buffer, sys), events);
      && |w.tasks| == |jobs|
      && var own := Own(w.log, i);
      && PayloadOf(own) <= jobs[i].data
      && (w.tasks[i].phase == Finished(Ok(())) ==> PayloadOf(own) == jobs[i].data)
      && AttachedOnce(own, jobs[i].fds)
      && (own == [] <==> PayloadOf(own) == [])
  {
    var first := Opening(p, jobs, buffer, sys);
    OpeningAccounts(p, jobs, buffer, sys);
    assert first.log == [];
    RunAccounts(p, first, events, jobs);
    hide RunEvents, Opening, Own, PayloadOf;
    var w := RunEvents(p, first, events);
    var t, own := w.tasks[i], Own(w.log, i);
    assert Accounts(t, own);
    assert |t.data[..t.sent]| == t.sent;
    assert t.data[..|t.data|] == t.data;
  }
}
