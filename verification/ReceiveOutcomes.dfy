/** What every receive reports, step of the kernel by step: which error, which data, which descriptors
    and which entries, from `recvmsg_raw` up to the owned and the polled receive. */
module ReceiveOutcomes {
  import opened Wrappers
  import opened Bytes
  import opened Layout
  import opened Control
  import opened Payload
  import opened Kernel
  import opened Receive
  import opened ReceiveProofs
  import opened AncillaryBuffer

  // ---------------------------------------------------------------- recvmsg_raw

  predicate AllInterrupted(noise: seq<RecvStep>) {
    forall i :: 0 <= i < |noise| ==> noise[i].Interrupted?
  }

  /** The first outcome that is not an interruption is the result, and nothing behind it is read. */
  lemma {:induction false} RecvRawDecides(
    p: Platform, s: Sys, noise: seq<RecvStep>, step: RecvStep, rest: seq<RecvStep>, cap: nat, control: nat)
    requires s.script == noise + [step] + rest && AllInterrupted(noise) && !step.Interrupted?
    ensures var r := RecvRaw(p, s, cap, control);
      && r.sys.script == rest && r.sys.fcntl == s.fcntl
      && match step
         case Failed(e) => r.result == Err(e) && r.sys.table == s.table
         case Delivered(d) =>
           Admissible(p, d, cap, control, s.table.open) ==>
             && r.result == Ok(d)
             && r.sys.table.open == s.table.open + ToSet(InstalledFds(p, d))
             && r.sys.table.badCloses == s.table.badCloses
    decreases |noise|
  {
    hide Admissible, InstalledFds;
    if noise == [] {
      assert s.script[0] == step && s.script[1..] == rest;
    } else {
      var next := s.(script := s.script[1..]);
      assert s.script[0] == noise[0] && next.script == noise[1..] + [step] + rest;
      RecvRawDecides(p, next, noise[1..], step, rest, cap, control);
    }
  }

  /** A kernel error is the result of every kind of receive, at once and with nothing touched. */
  lemma {:induction false} KernelErrorIsReported(
    p: Platform, s: Sys, noise: seq<RecvStep>, e: IoError, rest: seq<RecvStep>,
    iov: seq<byte>, kind: SocketKind, mode: CountMode)
    requires s.script == noise + [RecvStep.Failed(e)] + rest && AllInterrupted(noise)
    requires Max(mode.n, p.maxRecvFds) * 4 <= I32_MAX
    ensures RecvCoreSpec(p, s, iov, kind, mode) == Receipt(s.(script := rest), iov, Err(e))
    ensures RecvOwnedSpec(p, s, iov, kind, mode) == Receipt(s.(script := rest), iov, Err(e))
  {
    BudgetDefined(p, mode);
    hide ControlBudget, RecvRaw;
    RecvRawDecides(p, s, noise, RecvStep.Failed(e), rest, |iov|, ControlBudget(p, mode).value);
  }

  /** The same for `cmsg_recvmsg`, which has closed the previous batch by then. */
  lemma {:induction false} KernelErrorLeavesNothing(
    p: Platform, a: Ancillary, s: Sys, noise: seq<RecvStep>, e: IoError, rest: seq<RecvStep>, cap: nat)
    requires s.script == noise + [RecvStep.Failed(e)] + rest && AllInterrupted(noise)
    ensures ReceiveInto(p, a, s, cap) == Reception(
      Ancillary(a.buffer, 0, false, [], true),
      Sys(CloseAll(s.table, Flatten(a.received)), rest, s.fcntl), Err(e))
  {
    hide RecvRaw, CloseAll, Flatten;
    RecvRawDecides(p, DropFds(s, Flatten(a.received)), noise, RecvStep.Failed(e), rest, cap, |a.buffer|);
  }

  lemma {:induction false} CloexecAllKeepsScript(s: Sys, fds: seq<Fd>)
    ensures CloexecAll(s, fds).sys.script == s.script
    decreases |fds|
  {
    if fds != [] { CloexecAllKeepsScript(SetCloexec(s, fds[0]).sys, fds[1..]); }
  }

  /** A delivery within the contract is the one every convenience receive works on, with nothing read
      behind it. */
  lemma {:induction false} DeliveryIsTaken(
    p: Platform, s: Sys, noise: seq<RecvStep>, d: Delivery, rest: seq<RecvStep>,
    iov: seq<byte>, kind: SocketKind, mode: CountMode)
    requires s.script == noise + [Delivered(d)] + rest && AllInterrupted(noise)
    requires ControlBudget(p, mode).Ok?
    requires Admissible(p, d, |iov|, ControlBudget(p, mode).value, s.table.open)
    ensures CoreDelivery(p, s, iov, mode) == Some(d)
    ensures RecvCoreSpec(p, s, iov, kind, mode).sys.script == rest
  {
    hide ControlBudget, RecvRaw, Admissible, Parse, CloexecAll, CloseAll, AllRights, AllPidfds, InstalledFds;
    var size := ControlBudget(p, mode).value;
    RecvRawDecides(p, s, noise, Delivered(d), rest, |iov|, size);
    var raw := RecvRaw(p, s, |iov|, size);
    var ms := Parse(p, ControlBytes(p, d), 0);
    CloexecAllKeepsScript(DropFds(raw.sys, AllPidfds(p, ms)), AllRights(p, ms));
  }

  /** A request beyond any control size panics before any system call. */
  lemma {:induction false} TooManyPanics(p: Platform, s: Sys, iov: seq<byte>, kind: SocketKind, mode: CountMode)
    requires Max(mode.n, p.maxRecvFds) * 4 > I32_MAX
    ensures RecvCoreSpec(p, s, iov, kind, mode) == Receipt(s, iov, Err(Panicked))
    ensures RecvOwnedSpec(p, s, iov, kind, mode) == Receipt(s, iov, Err(Panicked))
  {
    RightsSizeIsExact(p, Max(mode.n, p.maxRecvFds));
    hide BufferSizeForRights;
  }

  // ---------------------------------------------------------------- flagging

  predicate AllFlagSet(fcntl: seq<FcntlStep>) {
    forall i :: 0 <= i < |fcntl| ==> fcntl[i].FlagSet?
  }

  /** Flagging reports nothing when every call for the batch works, and otherwise the errno of the first
      that does not, from either fcntl. */
  lemma {:induction false} FaultIsExact(
    p: Platform, good: seq<FcntlStep>, errno: int, getting: bool, rest: seq<FcntlStep>, n: nat)
    requires AllFlagSet(good)
    ensures n <= |good| ==> Fault(p, good + rest, n) == None
    ensures Fault(p, good, n) == None
    ensures var bad := if getting then GetFailed(errno) else SetFailed(errno);
      n > |good| && !p.atomicCloexec ==> Fault(p, good + [bad] + rest, n) == Some(Os(errno))
    decreases |good|
  {
    var bad := if getting then GetFailed(errno) else SetFailed(errno);
    if good == [] {
      assert (good + [bad] + rest)[0] == bad;
    } else {
      assert (good + rest)[1..] == good[1..] + rest;
      assert (good + [bad] + rest)[1..] == good[1..] + [bad] + rest;
      FaultIsExact(p, good[1..], errno, getting, rest, if n == 0 then 0 else n - 1);
    }
  }

  // ---------------------------------------------------------------- the convenience receives

  /** What a convenience receive makes of a delivery it could flag. */
  predicate Refused(kind: SocketKind, mode: CountMode, d: Delivery, sent: nat) {
    d.ctrunc || (kind == Datagram && d.dtrunc) || (mode.Exact? && sent != mode.n)
  }

  lemma {:induction false} CoreFillsBuffer(p: Platform, s: Sys, iov: seq<byte>, kind: SocketKind, mode: CountMode)
    requires CoreDelivery(p, s, iov, mode).Some?
    ensures var d := CoreDelivery(p, s, iov, mode).value;
      |d.data| <= |iov| && RecvCoreSpec(p, s, iov, kind, mode).iov == d.data + iov[Min(|d.data|, |iov|)..]
  {
    DeliveryFits(p, s, iov, mode);
    hide ControlBudget, RecvRaw, CloexecAll, CloseAll, Parse, AllRights, AllPidfds;
  }

  lemma PolicyIsExact(kind: SocketKind, mode: CountMode, d: Delivery, sent: seq<Fd>)
    ensures var k := Min(mode.n, |sent|);
      Judge(kind, mode, sent, d.ctrunc, d.dtrunc) ==
        if Refused(kind, mode, d, |sent|) then Reject(InvalidData) else Accept(sent[..k], sent[k..])
  {
    assert sent[..|sent|] == sent && sent[|sent|..] == [];
  }

  lemma {:induction false} RecvCoreReports(p: Platform, s: Sys, iov: seq<byte>, kind: SocketKind, mode: CountMode)
    requires CoreDelivery(p, s, iov, mode).Some?
    ensures var d := CoreDelivery(p, s, iov, mode).value;
      var sent, r := SentRights(p, d.messages), RecvCoreSpec(p, s, iov, kind, mode);
      var k := Min(mode.n, |sent|);
      && r.iov == d.data + iov[Min(|d.data|, |iov|)..]
      && r.result ==
        match Fault(p, s.fcntl, |RightsOf(Installed(p, d))|)
        case Some(e) => Err(e)
        case None =>
          if Refused(kind, mode, d, |sent|) then Err(InvalidData)
          else Ok(Core(|d.data|, sent[..k], |sent| - k))
  {
    hide RecvCoreSpec, CoreDelivery, SentRights, Fault, Installed, RightsOf, Judge, Refused;
    CoreFollowsPolicy(p, s, iov, kind, mode);
    CoreFillsBuffer(p, s, iov, kind, mode);
    var d := CoreDelivery(p, s, iov, mode).value;
    PolicyIsExact(kind, mode, d, SentRights(p, d.messages));
  }

  /** The owned receive reports the very descriptors and counts of `recv_core`, with the payload. */
  lemma {:induction false} RecvOwnedReports(
    p: Platform, s: Sys, dataBuf: seq<byte>, kind: SocketKind, mode: CountMode)
    requires CoreDelivery(p, s, dataBuf, mode).Some?
    ensures var d := CoreDelivery(p, s, dataBuf, mode).value;
      var sent, r := SentRights(p, d.messages), RecvOwnedSpec(p, s, dataBuf, kind, mode);
      var k := Min(mode.n, |sent|);
      r.result ==
        match Fault(p, s.fcntl, |RightsOf(Installed(p, d))|)
        case Some(e) => Err(e)
        case None =>
          if Refused(kind, mode, d, |sent|) then Err(InvalidData)
          else Ok(ReceivedFds(d.data, sent[..k], |sent| - k))
  {
    hide RecvCoreSpec, CoreDelivery, SentRights, Fault, Installed, RightsOf, Refused;
    RecvCoreReports(p, s, dataBuf, kind, mode);
    DeliveryFits(p, s, dataBuf, mode);
    var d := CoreDelivery(p, s, dataBuf, mode).value;
    var iov := d.data + dataBuf[|d.data|..];
    assert iov[..Min(|d.data|, |iov|)] == d.data;
  }

  /** What an owned receive that started in `s` may have done: an error leaves the open descriptors as
      they were; success returns the first descriptors sent, in order, new, flagged and distinct, and
      closes and counts the others. */
  predicate OwnedOutcome(p: Platform, s: Sys, d: Option<Delivery>, mode: CountMode, r: Receipt<ReceivedFds>) {
    && r.sys.table.badCloses == s.table.badCloses
    && match r.result
       case Err(_) => r.sys.table.open == s.table.open
       case Ok(x) =>
         && d.Some?
         && var sent := SentRights(p, d.value.messages);
         && x.data == d.value.data
         && x.fds == sent[..Min(mode.n, |sent|)]
         && x.surplusClosed == |sent| - |x.fds|
         && NoDuplicates(x.fds) && ToSet(x.fds) !! s.table.open
         && r.sys.table.open == s.table.open + ToSet(x.fds)
         && ToSet(x.fds) <= r.sys.table.cloexec
  }

  lemma {:induction false} RecvOwnedAccounts(
    p: Platform, s: Sys, dataBuf: seq<byte>, kind: SocketKind, mode: CountMode)
    ensures var r, d := RecvOwnedSpec(p, s, dataBuf, kind, mode), CoreDelivery(p, s, dataBuf, mode);
      && OwnedOutcome(p, s, d, mode, r)
      && (r.result.Ok? <==>
        && d.Some?
        && var sent := |SentRights(p, d.value.messages)|;
        && !Refused(kind, mode, d.value, sent) && Fault(p, s.fcntl, sent).None?)
  {
    RecvCoreAccounts(p, s, dataBuf, kind, mode);
    RecvCoreAcceptsExactly(p, s, dataBuf, kind, mode);
    DataBufferStaysForRetry(p, s, dataBuf, kind, mode);
    hide RecvCoreSpec, CoreDelivery, SentRights, Fault, NoDuplicates;
  }

  // ---------------------------------------------------------------- the polled receive

  lemma {:induction false} BudgetErrors(p: Platform, mode: CountMode)
    ensures ControlBudget(p, mode).Err? ==> ControlBudget(p, mode).error == Panicked
  {
    BudgetDefined(p, mode);
    RightsSizeIsExact(p, Max(mode.n, p.maxRecvFds));
    hide BufferSizeForRights, CmsgSpaceMacro;
  }

  lemma {:induction false} BlockedCore(p: Platform, s: Sys, iov: seq<byte>, kind: SocketKind, mode: CountMode)
    requires ControlBudget(p, mode).Err? ==> ControlBudget(p, mode).error == Panicked
    requires RecvCoreSpec(p, s, iov, kind, mode).result == Err(WouldBlock)
    ensures ControlBudget(p, mode).Ok?
    ensures var raw := RecvRaw(p, s, |iov|, ControlBudget(p, mode).value);
      raw.result == Err(WouldBlock) && RecvCoreSpec(p, s, iov, kind, mode) == Receipt(raw.sys, iov, Err(WouldBlock))
  {
    hide ControlBudget, RecvRaw, Parse, CloexecAll, CloseAll, AllRights, AllPidfds;
    var raw := RecvRaw(p, s, |iov|, ControlBudget(p, mode).value);
    if raw.result.Ok? {
      var ms := Parse(p, ControlBytes(p, raw.result.value), 0);
      CloexecErrors(DropFds(raw.sys, AllPidfds(p, ms)), AllRights(p, ms));
    }
  }

  lemma {:induction false} RawErrorReads(p: Platform, s: Sys, cap: nat, control: nat) returns (read: nat)
    requires RecvRaw(p, s, cap, control).result.Err?
    ensures read <= |s.script| && RecvRaw(p, s, cap, control).sys == s.(script := s.script[read..])
    decreases |s.script|
  {
    hide Admissible;
    read := 0;
    if s.script != [] {
      read := 1;
      if s.script[0].Interrupted? {
        read := RawErrorReads(p, s.(script := s.script[1..]), cap, control);
        read := read + 1;
      }
    }
  }

  lemma {:induction false} BlockedAttempt(
    p: Platform, s: Sys, dataBuf: seq<byte>, kind: SocketKind, mode: CountMode) returns (read: nat)
    requires RecvOwnedSpec(p, s, dataBuf, kind, mode).result == Err(WouldBlock)
    ensures read <= |s.script|
    ensures RecvOwnedSpec(p, s, dataBuf, kind, mode)
      == Receipt(s.(script := s.script[read..]), dataBuf, Err(WouldBlock))
  {
    read := 0;
    hide ControlBudget;
    BudgetErrors(p, mode);
    BlockedCore(p, s, dataBuf, kind, mode);
    hide RecvCoreSpec;
    read := RawErrorReads(p, s, |dataBuf|, ControlBudget(p, mode).value);
  }

  /** Any polled receive is one attempt, made once the calls before it have found nothing, on a process
      that has changed in nothing but the script. */
  lemma {:induction false} PolledIsOneAttempt(
    p: Platform, s: Sys, dataBuf: seq<byte>, kind: SocketKind, mode: CountMode, polls: nat)
    returns (at: Sys, read: nat)
    ensures read <= |s.script| && at == s.(script := s.script[read..])
    ensures RecvPolled(p, s, dataBuf, kind, mode, polls) == RecvOwnedSpec(p, at, dataBuf, kind, mode)
    decreases polls
  {
    at, read := s, 0;
    var r := RecvOwnedSpec(p, s, dataBuf, kind, mode);
    if polls > 0 && r.result == Err(WouldBlock) {
      var k := BlockedAttempt(p, s, dataBuf, kind, mode);
      hide RecvOwnedSpec;
      at, read := PolledIsOneAttempt(p, r.sys, r.iov, kind, mode, polls - 1);
      read := k + read;
    }
  }

  /** So a polled receive accounts for every descriptor as one attempt does. */
  lemma {:induction false} RecvPolledAccounts(
    p: Platform, s: Sys, dataBuf: seq<byte>, kind: SocketKind, mode: CountMode, polls: nat)
    returns (at: Sys, read: nat)
    ensures read <= |s.script| && at == s.(script := s.script[read..])
    ensures var r, d := RecvPolled(p, s, dataBuf, kind, mode, polls), CoreDelivery(p, at, dataBuf, mode);
      && OwnedOutcome(p, s, d, mode, r)
      && (r.result.Ok? <==>
        && d.Some?
        && var sent := |SentRights(p, d.value.messages)|;
        && !Refused(kind, mode, d.value, sent) && Fault(p, s.fcntl, sent).None?)
  {
    hide RecvPolled, RecvOwnedSpec, CoreDelivery, SentRights, Refused, Fault;
    at, read := PolledIsOneAttempt(p, s, dataBuf, kind, mode, polls);
    RecvOwnedAccounts(p, at, dataBuf, kind, mode);
  }

  lemma {:induction false} InterruptionIsInvisible(
    p: Platform, s: Sys, dataBuf: seq<byte>, kind: SocketKind, mode: CountMode, polls: nat)
    requires s.script != [] && s.script[0].Interrupted? && Max(mode.n, p.maxRecvFds) * 4 <= I32_MAX
    ensures RecvPolled(p, s, dataBuf, kind, mode, polls)
      == RecvPolled(p, s.(script := s.script[1..]), dataBuf, kind, mode, polls)
  {
    BudgetDefined(p, mode);
    hide ControlBudget;
    var next, size := s.(script := s.script[1..]), ControlBudget(p, mode).value;
    assert RecvRaw(p, s, |dataBuf|, size) == RecvRaw(p, next, |dataBuf|, size);
    SameRaw(p, s, next, dataBuf, kind, mode);
    SamePolled(p, s, next, dataBuf, kind, mode, polls);
  }

  /** After any mix of interruptions and blocked attempts the first real error is reported, and
      `WouldBlock` itself only when readiness is signalled no more; nothing is touched either way. */
  lemma {:induction false} PolledErrorIsReported(
    p: Platform, s: Sys, noise: seq<RecvStep>, e: IoError, rest: seq<RecvStep>,
    dataBuf: seq<byte>, kind: SocketKind, mode: CountMode, polls: nat)
    requires s.script == noise + [RecvStep.Failed(e)] + rest && Max(mode.n, p.maxRecvFds) * 4 <= I32_MAX
    requires forall i :: 0 <= i < |noise| ==> Noise(noise[i])
    requires if e == WouldBlock then CountBlocks(noise) == polls else CountBlocks(noise) <= polls
    ensures RecvPolled(p, s, dataBuf, kind, mode, polls) == Receipt(s.(script := rest), dataBuf, Err(e))
    decreases |noise|
  {
    hide RecvOwnedSpec;
    if noise == [] {
      KernelErrorIsReported(p, s, [], e, rest, dataBuf, kind, mode);
    } else {
      var next := s.(script := s.script[1..]);
      var tail := noise[1..] + [RecvStep.Failed(e)] + rest;
      assert s.script[0] == noise[0] && next.script == tail;
      if noise[0].Interrupted? {
        InterruptionIsInvisible(p, s, dataBuf, kind, mode, polls);
        PolledErrorIsReported(p, next, noise[1..], e, rest, dataBuf, kind, mode, polls);
      } else {
        assert s.script == [] + [RecvStep.Failed(WouldBlock)] + tail;
        KernelErrorIsReported(p, s, [], WouldBlock, tail, dataBuf, kind, mode);
        PolledErrorIsReported(p, next, noise[1..], e, rest, dataBuf, kind, mode, polls - 1);
      }
    }
  }

  // ---------------------------------------------------------------- recv_into_ancillary

  predicate HoldsDelivery(p: Platform, d: Delivery, received: seq<Received>)
    requires WellFormed(p, d)
  {
    var sent := Yielding(p, Clip(Locate(p, d.messages, 0), d.copied));
    && Flatten(received) == RightsOf(Installed(p, d))
    && CredentialsIn(received) == CredsOf(Installed(p, d))
    && |received| == |sent|
    && forall k :: 0 <= k < |received| ==> EntryOf(p, sent[k], received[k])
  }

  lemma {:induction false} ReceivedIsDelivery(p: Platform, d: Delivery)
    requires WellFormed(p, d)
    ensures HoldsDelivery(p, d, AllReceived(p, Parse(p, ControlBytes(p, d), 0)))
  {
    hide Parse, Slots, AllReceived, AllRights, RightsOf, Installed, Encode, Locate, Clip, Yielding, EntryOf;
    var ms := Parse(p, ControlBytes(p, d), 0);
    FlatForm(p, d);
    FlatRefinesMessages(p, ms);
    CredentialsAreSlots(p, ms);
    ParserFindsInstalled(p, d);
    ParseEncodePrefix(p, d.messages, d.copied);
    EntriesAreExact(p, ms);
  }

  /** A delivery into a `SocketAncillary`: what is reported, and what the buffer then holds. Descriptors
      and credentials are those whose bytes arrived whole, and there is one entry for each rights message
      and each whole credentials message among the messages as far as they were copied, in order; pidfds
      and foreign messages leave none. */
  lemma {:induction false} ReceptionReports(p: Platform, a: Ancillary, s: Sys, cap: nat, d: Delivery)
    requires RecvRaw(p, DropFds(s, Flatten(a.received)), cap, |a.buffer|).result == Ok(d)
    ensures WellFormed(p, d)
    ensures var r := ReceiveInto(p, a, s, cap);
      match Fault(p, s.fcntl, |RightsOf(Installed(p, d))|)
      case Some(e) => r.result == Err(e) && r.anc.received == [] && r.anc.length == 0 && !r.anc.truncated
      case None =>
        && r.result == Ok(RecvResult(|d.data|, d.ctrunc, d.dtrunc))
        && r.anc.truncated == d.ctrunc && r.anc.length == d.copied
        && r.anc.buffer == ControlBytes(p, d) + a.buffer[Min(d.copied, |a.buffer|)..]
        && HoldsDelivery(p, d, r.anc.received)
  {
    var s0 := DropFds(s, Flatten(a.received));
    RecvRawDelivers(p, s0, cap, |a.buffer|);
    hide Parse, Installed, CloexecAll, CloseAll, RightsOf, PidfdsOf, AllRights, AllPidfds, AllReceived, RecvRaw;
    hide Encode, Flatten, FirstFault, HoldsDelivery;
    var ms := Parse(p, ControlBytes(p, d), 0);
    ReceivedIsDelivery(p, d);
    FlatForm(p, d);
    FlatRefinesMessages(p, ms);
    OwnedAfterDelivery(p, s0.table, d, cap, |a.buffer|);
    var raw := RecvRaw(p, s0, cap, |a.buffer|);
    hide Admissible;
    CloexecAllReports(DropFds(raw.sys, AllPidfds(p, ms)), Flatten(AllReceived(p, ms)));
  }
}
