/** What every receive guarantees, whatever the kernel does. */
module ReceiveProofs {
  import opened Wrappers
  import opened Bytes
  import opened Layout
  import opened Control
  import opened Payload
  import opened Kernel
  import opened Receive

  // ---------------------------------------------------------------- building blocks

  lemma {:induction false} RecvRawDelivers(p: Platform, s: Sys, cap: nat, control: nat)
    ensures var r := RecvRaw(p, s, cap, control);
      match r.result
      case Err(_) => r.sys.table == s.table
      case Ok(d) =>
        && Admissible(p, d, cap, control, s.table.open)
        && r.sys.table == Install(p, s.table, InstalledFds(p, d))
    decreases |s.script|
  {
    hide Admissible;
    var call := Recvmsg(p, s, cap, control);
    if call.outcome.Interrupted? { RecvRawDelivers(p, call.sys, cap, control); }
  }

  /** Flagging never opens or closes anything; success flags the whole list. */
  lemma {:induction false} CloexecAllKeepsOpen(s: Sys, fds: seq<Fd>)
    ensures var r := CloexecAll(s, fds);
      && r.sys.table.open == s.table.open
      && r.sys.table.badCloses == s.table.badCloses
      && s.table.cloexec <= r.sys.table.cloexec
      && (r.result.Ok? ==> ToSet(fds) <= r.sys.table.cloexec)
    decreases |fds|
  {
    if fds != [] {
      var first := SetCloexec(s, fds[0]);
      if first.result.Ok? {
        CloexecAllKeepsOpen(first.sys, fds[1..]);
        assert fds == [fds[0]] + fds[1..];
      }
    }
  }

  lemma {:induction false} SplitDistinct(a: seq<Fd>, b: seq<Fd>)
    requires NoDuplicates(a + b)
    ensures NoDuplicates(a) && NoDuplicates(b)
    ensures ToSet(a) !! ToSet(b) && ToSet(a + b) == ToSet(a) + ToSet(b)
  {
    var c := a + b;
    forall i, j | 0 <= i < j < |a| ensures a[i] != a[j] { assert c[i] == a[i] && c[j] == a[j]; }
    forall i, j | 0 <= i < j < |b| ensures b[i] != b[j] { assert c[|a| + i] == b[i] && c[|a| + j] == b[j]; }
    forall i, j | 0 <= i < |a| && 0 <= j < |b| ensures a[i] != b[j] {
      assert c[i] == a[i] && c[|a| + j] == b[j];
    }
  }

  /** Close-on-exec applied to a table of owned descriptors, either way. */
  lemma {:induction false} CloexecOutcome(p: Platform, s: Sys, fds: seq<Fd>)
    requires p.atomicCloexec ==> ToSet(fds) <= s.table.cloexec
    ensures var r := Cloexec(p, s, fds);
      && r.sys.table.open == s.table.open
      && r.sys.table.badCloses == s.table.badCloses
      && (r.result.Ok? ==> ToSet(fds) <= r.sys.table.cloexec)
      && (p.atomicCloexec ==> r.result.Ok?)
  {
    CloexecAllKeepsOpen(s, fds);
  }

  // ---------------------------------------------------------------- recv_fds

  /** After a delivery, once the pidfds are closed, exactly the rights are open and new. */
  lemma {:induction false} OwnedAfterDelivery(p: Platform, t: Table, d: Delivery, cap: nat, control: nat)
    requires Admissible(p, d, cap, control, t.open)
    ensures var rights := RightsOf(Installed(p, d));
      var owned := CloseAll(Install(p, t, InstalledFds(p, d)), PidfdsOf(Installed(p, d)));
      && NoDuplicates(rights) && ToSet(rights) !! t.open
      && owned.open == t.open + ToSet(rights)
      && owned.badCloses == t.badCloses
      && (p.atomicCloexec ==> ToSet(rights) <= owned.cloexec)
  {
    hide Installed, WellFormed;
    var rights, pidfds := RightsOf(Installed(p, d)), PidfdsOf(Installed(p, d));
    var fds := rights + pidfds;
    SplitDistinct(rights, pidfds);
    hide RightsOf, PidfdsOf;
    assert ToSet(fds) !! t.open;
    CloseOwned(Install(p, t, fds), pidfds);
    hide CloseAll;
    assert t.open + ToSet(fds) - ToSet(pidfds) == t.open + ToSet(rights);
  }

  lemma {:induction false} FlatForm(p: Platform, d: Delivery)
    requires WellFormed(p, d)
    ensures var ms := Parse(p, ControlBytes(p, d), 0);
      && AllRights(p, ms) == RightsOf(Installed(p, d))
      && AllPidfds(p, ms) == PidfdsOf(Installed(p, d))
  {
    hide Parse, Installed, Slots;
    ParserFindsInstalled(p, d);
    SlotValues(p, Parse(p, ControlBytes(p, d), 0));
  }

  lemma {:induction false} RecvFdsAccounts(p: Platform, s: Sys, iov: seq<byte>, control: nat)
    ensures var r := RecvFdsSpec(p, s, iov, control);
      && r.sys.table.badCloses == s.table.badCloses
      && |r.iov| == |iov|
      && match r.result
         case Err(_) => r.sys.table.open == s.table.open
         case Ok((d, fds)) =>
           && RecvRaw(p, s, |iov|, control).result == Ok(d)
           && Admissible(p, d, |iov|, control, s.table.open)
           && fds == RightsOf(Installed(p, d))
           && NoDuplicates(fds) && ToSet(fds) !! s.table.open
           && r.sys.table.open == s.table.open + ToSet(fds)
           && ToSet(fds) <= r.sys.table.cloexec
           && r.iov == Overwrite(iov, d.data)
  {
    hide Parse, Installed, CloexecAll, CloseAll, RightsOf, PidfdsOf, AllRights, AllPidfds;
    var raw := RecvRaw(p, s, |iov|, control);
    RecvRawDelivers(p, s, |iov|, control);
    if raw.result.Ok? {
      var d := raw.result.value;
      FlatForm(p, d);
      OwnedAfterDelivery(p, s.table, d, |iov|, control);
      var fds := RightsOf(Installed(p, d));
      var owned := DropFds(raw.sys, PidfdsOf(Installed(p, d)));
      CloexecOutcome(p, owned, fds);
      var flagged := Cloexec(p, owned, fds);
      CloseOwned(flagged.sys.table, fds);
      assert s.table.open + ToSet(fds) - ToSet(fds) == s.table.open;
    }
  }

  // ---------------------------------------------------------------- recv_core

  /** The descriptors a peer attached, read off the messages as sent. */
  function SentRights(p: Platform, ms: seq<RawMessage>): seq<Fd> {
    if ms == [] then [] else RightsFrom(p, ms[0]) + SentRights(p, ms[1..])
  }

  lemma {:induction false} LocatedRights(p: Platform, ms: seq<RawMessage>, at: nat)
    requires AllEncodable(ms)
    ensures AllRights(p, Locate(p, ms, at)) == SentRights(p, ms)
    decreases |ms|
  {
    if ms != [] {
      var rest := Locate(p, ms[1..], at + Space(p, ms[0]));
      LocatedRights(p, ms[1..], at + Space(p, ms[0]));
      var all := Locate(p, ms, at);
      assert all[0].raw == ms[0] && all[1..] == rest;
    }
  }

  lemma {:induction false} CompleteRights(p: Platform, d: Delivery)
    requires WellFormed(p, d)
    requires forall m :: m in Locate(p, d.messages, 0) ==> m.End() <= d.copied
    ensures RightsOf(Installed(p, d)) == SentRights(p, d.messages)
  {
    hide Parse, Installed, Locate;
    CompleteDelivery(p, d);
    FlatForm(p, d);
    LocatedRights(p, d.messages, 0);
  }

  /** The delivery a convenience receive consumed, if it got that far. */
  function CoreDelivery(p: Platform, s: Sys, iov: seq<byte>, mode: CountMode): (d: Option<Delivery>)
    ensures d.Some? ==> WellFormed(p, d.value)
  {
    match ControlBudget(p, mode)
    case Err(_) => None
    case Ok(size) =>
      match RecvRaw(p, s, |iov|, size).result
      case Err(_) => None
      case Ok(d) => Some(d)
  }

  predicate CountAllowed(mode: CountMode, delivered: nat) {
    mode.Exact? ==> delivered == mode.n
  }

  lemma {:induction false} KeepPrefix(t: Table, before: set<Fd>, fds: seq<Fd>, k: nat)
    requires k <= |fds| && NoDuplicates(fds) && ToSet(fds) !! before
    requires t.open == before + ToSet(fds) && ToSet(fds) <= t.cloexec
    ensures NoDuplicates(fds[..k]) && ToSet(fds[..k]) !! before
    ensures var t' := CloseAll(t, fds[k..]);
      && t'.open == before + ToSet(fds[..k])
      && t'.badCloses == t.badCloses
      && ToSet(fds[..k]) <= t'.cloexec
  {
    assert fds == fds[..k] + fds[k..];
    SplitDistinct(fds[..k], fds[k..]);
    CloseOwned(t, fds[k..]);
  }

  lemma NothingSurplus(t: Table)
    ensures CloseAll(t, []) == t
  {
  }

  /** Every descriptor the peer sent is accounted for. `Ok` returns the first ones in order, newly
      open, flagged and distinct, and the rest of the batch is closed and counted; an error leaves
      the table as it was. Nothing is ever closed that was not open. */
  lemma {:induction false} RecvCoreAccounts(p: Platform, s: Sys, iov: seq<byte>, kind: SocketKind, mode: CountMode)
    ensures var r := RecvCoreSpec(p, s, iov, kind, mode);
      && r.sys.table.badCloses == s.table.badCloses
      && |r.iov| == |iov|
      && match r.result
         case Err(_) => r.sys.table.open == s.table.open
         case Ok(core) =>
           && CoreDelivery(p, s, iov, mode).Some?
           && var d := CoreDelivery(p, s, iov, mode).value;
              var sent := SentRights(p, d.messages);
           && !d.ctrunc && (kind.Datagram? ==> !d.dtrunc)
           && core.bytesRead == |d.data|
           && r.iov == Overwrite(iov, d.data)
           && core.fds == sent[..Min(mode.n, |sent|)]
           && core.surplusClosed == |sent| - |core.fds|
           && CountAllowed(mode, |sent|)
           && NoDuplicates(core.fds)
           && ToSet(core.fds) !! s.table.open
           && r.sys.table.open == s.table.open + ToSet(core.fds)
           && ToSet(core.fds) <= r.sys.table.cloexec
  {
    hide ControlBudget, RecvFdsSpec, Installed, SentRights, CloseAll, RightsOf;
    var budget := ControlBudget(p, mode);
    if budget.Ok? {
      var r := RecvFdsSpec(p, s, iov, budget.value);
      RecvFdsAccounts(p, s, iov, budget.value);
      if r.result.Ok? {
        var (d, fds) := r.result.value;
        CloseOwned(r.sys.table, fds);
        assert s.table.open + ToSet(fds) - ToSet(fds) == s.table.open;
        if !d.ctrunc { CompleteRights(p, d); }
        var k := Min(mode.n, |fds|);
        KeepPrefix(r.sys.table, s.table.open, fds, k);
        assert fds[..|fds|] == fds;
        NothingSurplus(r.sys.table);
      }
    }
  }

  /** The first failure among the next `n` fcntl calls. */
  function FirstFault(fcntl: seq<FcntlStep>, n: nat): Option<IoError>
    decreases n
  {
    if n == 0 || fcntl == [] then None
    else
      match fcntl[0]
      case FlagSet => FirstFault(fcntl[1..], n - 1)
      case GetFailed(e) => Some(Os(e))
      case SetFailed(e) => Some(Os(e))
  }

  /** What flagging `n` received descriptors reports; nothing where the kernel sets the flag itself. */
  function Fault(p: Platform, fcntl: seq<FcntlStep>, n: nat): Option<IoError> {
    if p.atomicCloexec then None else FirstFault(fcntl, n)
  }

  lemma {:induction false} CloexecAllReports(s: Sys, fds: seq<Fd>)
    requires ToSet(fds) <= s.table.open
    ensures CloexecAll(s, fds).result ==
      match FirstFault(s.fcntl, |fds|) case None => Ok(()) case Some(e) => Err(e)
    decreases |fds|
  {
    if fds != [] {
      assert fds[0] in ToSet(fds);
      var first := SetCloexec(s, fds[0]);
      if first.result.Ok? {
        assert ToSet(fds[1..]) <= ToSet(fds);
        CloexecAllReports(first.sys, fds[1..]);
      }
    }
  }

  lemma {:induction false} RecvFdsReports(p: Platform, s: Sys, iov: seq<byte>, control: nat)
    ensures var raw := RecvRaw(p, s, |iov|, control);
      RecvFdsSpec(p, s, iov, control).result ==
        match raw.result
        case Err(e) => Err(e)
        case Ok(d) =>
          var rights := RightsOf(Installed(p, d));
          match Fault(p, s.fcntl, |rights|) case None => Ok((d, rights)) case Some(e) => Err(e)
  {
    hide Parse, Installed, CloexecAll, CloseAll, RightsOf, PidfdsOf, AllRights, AllPidfds, FirstFault;
    var raw := RecvRaw(p, s, |iov|, control);
    RecvRawDelivers(p, s, |iov|, control);
    if raw.result.Ok? {
      var d := raw.result.value;
      FlatForm(p, d);
      OwnedAfterDelivery(p, s.table, d, |iov|, control);
      CloexecAllReports(DropFds(raw.sys, PidfdsOf(Installed(p, d))), RightsOf(Installed(p, d)));
    }
  }

  /** Once something was delivered, the result is completely determined: a flagging failure comes
      first, then the documented policy on the descriptors as the peer sent them. */
  lemma {:induction false} CoreFollowsPolicy(p: Platform, s: Sys, iov: seq<byte>, kind: SocketKind, mode: CountMode)
    requires CoreDelivery(p, s, iov, mode).Some?
    ensures var d := CoreDelivery(p, s, iov, mode).value;
      RecvCoreSpec(p, s, iov, kind, mode).result ==
        match Fault(p, s.fcntl, |RightsOf(Installed(p, d))|)
        case Some(e) => Err(e)
        case None =>
          match Judge(kind, mode, SentRights(p, d.messages), d.ctrunc, d.dtrunc)
          case Accept(kept, surplus) => Ok(Core(|d.data|, kept, |surplus|))
          case Reject(e) => Err(e)
  {
    hide ControlBudget, Installed, SentRights, CloseAll, RightsOf, RecvFdsSpec, FirstFault;
    var size := ControlBudget(p, mode).value;
    RecvRawDelivers(p, s, |iov|, size);
    RecvFdsReports(p, s, iov, size);
    var d := CoreDelivery(p, s, iov, mode).value;
    if !d.ctrunc { CompleteRights(p, d); }
  }

  lemma {:induction false} DeliveryIsComplete(p: Platform, s: Sys, iov: seq<byte>, mode: CountMode)
    requires CoreDelivery(p, s, iov, mode).Some?
    ensures var d := CoreDelivery(p, s, iov, mode).value;
      !d.ctrunc ==> RightsOf(Installed(p, d)) == SentRights(p, d.messages)
  {
    hide ControlBudget, Installed, SentRights, RightsOf;
    RecvRawDelivers(p, s, |iov|, ControlBudget(p, mode).value);
    var d := CoreDelivery(p, s, iov, mode).value;
    if !d.ctrunc { CompleteRights(p, d); }
  }

  /** A delivery that never happens is an error; one that does succeeds exactly when it passes the
      documented checks and, where the flag has to be set afterwards, fcntl works on every descriptor. */
  lemma {:induction false} RecvCoreAcceptsExactly(
    p: Platform, s: Sys, iov: seq<byte>, kind: SocketKind, mode: CountMode)
    ensures RecvCoreSpec(p, s, iov, kind, mode).result.Ok? <==>
      && CoreDelivery(p, s, iov, mode).Some?
      && var d := CoreDelivery(p, s, iov, mode).value;
         var sent := SentRights(p, d.messages);
      && !d.ctrunc && (kind.Datagram? ==> !d.dtrunc) && CountAllowed(mode, |sent|)
      && Fault(p, s.fcntl, |sent|).None?
  {
    hide SentRights, RecvCoreSpec, Installed, RightsOf, FirstFault;
    RecvCoreAccounts(p, s, iov, kind, mode);
    if CoreDelivery(p, s, iov, mode).Some? {
      CoreFollowsPolicy(p, s, iov, kind, mode);
      DeliveryIsComplete(p, s, iov, mode);
    }
  }

  // ---------------------------------------------------------------- budget

  /** The control messages the budget is planned for. */
  datatype Planned = RightsAlone | CredentialsFirst | CredentialsLast

  function PlannedMessages(p: Platform, plan: Planned, fds: seq<Fd>, c: Credentials): seq<RawMessage> {
    match plan
    case RightsAlone => [RightsMessage(p, fds)]
    case CredentialsFirst => [CredentialsMessage(p, c), RightsMessage(p, fds)]
    case CredentialsLast => [RightsMessage(p, fds), CredentialsMessage(p, c)]
  }

  lemma BudgetDefined(p: Platform, mode: CountMode)
    ensures ControlBudget(p, mode).Ok? <==> Max(mode.n, p.maxRecvFds) * FD_SIZE <= I32_MAX
    ensures ControlBudget(p, mode).Ok? ==>
      (ControlBudget(p, mode).value ==
        CmsgSpace(p, Max(mode.n, p.maxRecvFds) * FD_SIZE).value
        + (if p.linux then CmsgSpace(p, CRED_SIZE).value else 0))
  {
    hide CmsgSpaceMacro;
  }

  /** Asking for no more than the platform budget never panics, whatever the process limit. */
  lemma DefaultBudgetIsDefined(p: Platform, mode: CountMode, nofile: Option<nat>)
    requires p.maxRecvFds == ClampNofile(p.usizeMax, nofile) && mode.n <= p.maxRecvFds
    ensures ControlBudget(p, mode).Ok?
  {
    BudgetDefined(p, mode);
  }

  lemma {:induction false} OneMessage(p: Platform, ms: seq<RawMessage>)
    requires |ms| == 1 && AllEncodable(ms)
    ensures |Encode(p, ms)| == Space(p, ms[0])
  {
    assert Encode(p, ms[1..]) == [];
  }

  lemma {:induction false} TwoMessages(p: Platform, ms: seq<RawMessage>)
    requires |ms| == 2 && AllEncodable(ms)
    ensures |Encode(p, ms)| == Space(p, ms[0]) + Space(p, ms[1])
  {
    OneMessage(p, ms[1..]);
  }

  /** A rights message with as many descriptors as asked for or allowed, and on Linux a credentials
      message before or after it, always fits. */
  lemma {:induction false} BudgetSuffices(p: Platform, mode: CountMode, plan: Planned, fds: seq<Fd>, c: Credentials)
    requires ControlBudget(p, mode).Ok?
    requires |fds| <= Max(mode.n, p.maxRecvFds) && (p.linux || plan.RightsAlone?)
    ensures AllEncodable(PlannedMessages(p, plan, fds, c))
    ensures |Encode(p, PlannedMessages(p, plan, fds, c))| <= ControlBudget(p, mode).value
  {
    BudgetDefined(p, mode);
    var most := Max(mode.n, p.maxRecvFds) * FD_SIZE;
    assert |fds| * FD_SIZE <= most;
    SpaceMonotone(p, |fds| * FD_SIZE, most);
    hide CmsgSpaceMacro, EncodeOne, EncodeFds, EncodeCredentials;
    var ms := PlannedMessages(p, plan, fds, c);
    if |ms| == 1 {
      OneMessage(p, ms);
    } else {
      TwoMessages(p, ms);
    }
  }

  lemma {:induction false} PlannedRights(p: Platform, plan: Planned, fds: seq<Fd>, c: Credentials)
    ensures SentRights(p, PlannedMessages(p, plan, fds, c)) == fds
  {
    FdsRoundTrip(p, fds);
    hide EncodeFds, EncodeCredentials, RightsIn;
    var ms := PlannedMessages(p, plan, fds, c);
    assert SentRights(p, []) == [];
    if |ms| == 2 { assert SentRights(p, ms[1..]) == RightsFrom(p, ms[1]) + SentRights(p, ms[1..][1..]); }
  }

  /** So a kernel that cuts control data only for want of space delivers such a message whole, and an
      exact receive of its count returns all of it. */
  lemma {:induction false} ExactReceiveOfPlannedMessage(
    p: Platform, s: Sys, iov: seq<byte>, kind: SocketKind, plan: Planned, fds: seq<Fd>, c: Credentials, d: Delivery)
    requires p.linux || plan.RightsAlone?
    requires Fault(p, s.fcntl, |fds|).None?
    requires CoreDelivery(p, s, iov, Exact(|fds|)) == Some(d)
    requires d.messages == PlannedMessages(p, plan, fds, c)
    requires CutsOnlyForSpace(p, d, ControlBudget(p, Exact(|fds|)).value) && (kind.Datagram? ==> !d.dtrunc)
    ensures var r := RecvCoreSpec(p, s, iov, kind, Exact(|fds|));
      && r.result == Ok(Core(|d.data|, fds, 0))
      && r.sys.table.open == s.table.open + ToSet(fds)
      && Parse(p, ControlBytes(p, d), 0) == Locate(p, d.messages, 0)
  {
    hide Encode, Locate, Installed, InstalledFds, ControlBudget, PlannedMessages, SentRights, RecvCoreSpec, Parse;
    hide FirstFault;
    var mode := Exact(|fds|);
    BudgetSuffices(p, mode, plan, fds, c);
    RecvRawDelivers(p, s, |iov|, ControlBudget(p, mode).value);
    assert !d.ctrunc;
    CompleteDelivery(p, d);
    PlannedRights(p, plan, fds, c);
    RecvCoreAcceptsExactly(p, s, iov, kind, mode);
    RecvCoreAccounts(p, s, iov, kind, mode);
    assert fds[..|fds|] == fds;
  }

  // ---------------------------------------------------------------- retries

  predicate Noise(step: RecvStep) {
    step.Interrupted? || step == Failed(WouldBlock)
  }

  function CountBlocks(noise: seq<RecvStep>): nat {
    if noise == [] then 0
    else (if noise[0] == Failed(WouldBlock) then 1 else 0) + CountBlocks(noise[1..])
  }

  lemma {:induction false} CloexecErrors(s: Sys, fds: seq<Fd>)
    ensures var r := CloexecAll(s, fds); r.result.Err? ==> r.result.error.Os?
    decreases |fds|
  {
    if fds != [] {
      var first := SetCloexec(s, fds[0]);
      if first.result.Ok? { CloexecErrors(first.sys, fds[1..]); }
    }
  }

  lemma {:induction false} DeliveryNeverBlocks(
    p: Platform, s: Sys, dataBuf: seq<byte>, kind: SocketKind, mode: CountMode)
    requires s.script != [] && s.script[0].Delivered?
    ensures RecvOwnedSpec(p, s, dataBuf, kind, mode).result != Err(WouldBlock)
  {
    hide Parse, AllRights, AllPidfds, CloseAll, CloexecAll, Admissible, ControlBytes, CmsgSpaceMacro;
    var budget := ControlBudget(p, mode);
    if budget.Ok? {
      var raw := RecvRaw(p, s, |dataBuf|, budget.value);
      if raw.result.Ok? {
        var ms := Parse(p, ControlBytes(p, raw.result.value), 0);
        CloexecErrors(DropFds(raw.sys, AllPidfds(p, ms)), AllRights(p, ms));
      }
    }
  }

  lemma {:induction false} SameRaw(p: Platform, a: Sys, b: Sys, dataBuf: seq<byte>, kind: SocketKind, mode: CountMode)
    requires ControlBudget(p, mode).Ok?
    requires var size := ControlBudget(p, mode).value;
      RecvRaw(p, a, |dataBuf|, size) == RecvRaw(p, b, |dataBuf|, size)
    ensures RecvOwnedSpec(p, a, dataBuf, kind, mode) == RecvOwnedSpec(p, b, dataBuf, kind, mode)
  {
    hide ControlBudget, RecvRaw, Parse, AllRights, AllPidfds, CloexecAll, CloseAll;
  }

  lemma {:induction false} SamePolled(
    p: Platform, a: Sys, b: Sys, dataBuf: seq<byte>, kind: SocketKind, mode: CountMode, polls: nat)
    requires RecvOwnedSpec(p, a, dataBuf, kind, mode) == RecvOwnedSpec(p, b, dataBuf, kind, mode)
    ensures RecvPolled(p, a, dataBuf, kind, mode, polls) == RecvPolled(p, b, dataBuf, kind, mode, polls)
  {
    hide RecvOwnedSpec;
  }

  lemma {:induction false} RawErrorIsResult(
    p: Platform, s: Sys, dataBuf: seq<byte>, kind: SocketKind, mode: CountMode)
    requires ControlBudget(p, mode).Ok?
    ensures var raw := RecvRaw(p, s, |dataBuf|, ControlBudget(p, mode).value);
      raw.result.Err? ==>
        RecvOwnedSpec(p, s, dataBuf, kind, mode) == Receipt(raw.sys, dataBuf, Err(raw.result.error))
  {
    hide ControlBudget, RecvRaw;
  }

  /** Any mix of interrupted and blocked attempts before a delivery is invisible: the polled receive
      ends exactly as one attempt on the remaining script does, with the buffer untouched until then. */
  lemma {:induction false} RetriesAreInvisible(
    p: Platform, s: Sys, noise: seq<RecvStep>, tail: seq<RecvStep>,
    dataBuf: seq<byte>, kind: SocketKind, mode: CountMode, polls: nat)
    requires s.script == noise + tail && ControlBudget(p, mode).Ok?
    requires forall i :: 0 <= i < |noise| ==> Noise(noise[i])
    requires tail != [] && tail[0].Delivered?
    requires CountBlocks(noise) <= polls
    ensures RecvPolled(p, s, dataBuf, kind, mode, polls)
      == RecvOwnedSpec(p, s.(script := tail), dataBuf, kind, mode)
    decreases |noise|
  {
    hide ControlBudget, RecvOwnedSpec;
    var size := ControlBudget(p, mode).value;
    if noise == [] {
      assert s.script == tail;
      DeliveryNeverBlocks(p, s, dataBuf, kind, mode);
    } else {
      var next := s.(script := s.script[1..]);
      assert next.script == noise[1..] + tail;
      if noise[0].Interrupted? {
        assert RecvRaw(p, s, |dataBuf|, size) == RecvRaw(p, next, |dataBuf|, size);
        SameRaw(p, s, next, dataBuf, kind, mode);
        SamePolled(p, s, next, dataBuf, kind, mode, polls);
        RetriesAreInvisible(p, next, noise[1..], tail, dataBuf, kind, mode, polls);
      } else {
        assert RecvRaw(p, s, |dataBuf|, size) == Fallible(next, Err(WouldBlock));
        RawErrorIsResult(p, s, dataBuf, kind, mode);
        RetriesAreInvisible(p, next, noise[1..], tail, dataBuf, kind, mode, polls - 1);
      }
    }
  }

  lemma {:induction false} WouldBlockMovesNothing(
    p: Platform, s: Sys, iov: seq<byte>, kind: SocketKind, mode: CountMode)
    ensures var r := RecvCoreSpec(p, s, iov, kind, mode);
      r.result == Err(WouldBlock) ==> r.iov == iov && r.sys.table == s.table
  {
    hide CmsgSpaceMacro, Parse, CloexecAll, CloseAll, AllRights, AllPidfds, RecvRaw;
    var budget := ControlBudget(p, mode);
    if budget.Ok? {
      var raw := RecvRaw(p, s, |iov|, budget.value);
      RecvRawDelivers(p, s, |iov|, budget.value);
      if raw.result.Ok? {
        var ms := Parse(p, ControlBytes(p, raw.result.value), 0);
        CloexecErrors(DropFds(raw.sys, AllPidfds(p, ms)), AllRights(p, ms));
      }
    }
  }

  lemma {:induction false} DeliveryFits(p: Platform, s: Sys, iov: seq<byte>, mode: CountMode)
    requires CoreDelivery(p, s, iov, mode).Some?
    ensures |CoreDelivery(p, s, iov, mode).value.data| <= |iov|
  {
    hide ControlBudget;
    RecvRawDelivers(p, s, |iov|, ControlBudget(p, mode).value);
  }

  /** What the caller's vector is after a receive: consumed and cut to the payload on success, in
      place at full length on any error, and untouched with no descriptor moved when it would block. */
  lemma {:induction false} DataBufferStaysForRetry(
    p: Platform, s: Sys, dataBuf: seq<byte>, kind: SocketKind, mode: CountMode)
    ensures var r := RecvOwnedSpec(p, s, dataBuf, kind, mode);
      && (r.result.Err? ==> |r.iov| == |dataBuf| && r.sys.table.open == s.table.open)
      && (r.result == Err(WouldBlock) ==> r.iov == dataBuf && r.sys.table == s.table)
      && (r.result.Ok? ==>
        && r.iov == [] && CoreDelivery(p, s, dataBuf, mode).Some?
        && r.result.value.data == CoreDelivery(p, s, dataBuf, mode).value.data)
  {
    RecvCoreAccounts(p, s, dataBuf, kind, mode);
    WouldBlockMovesNothing(p, s, dataBuf, kind, mode);
    hide RecvCoreSpec, SentRights;
    var r := RecvCoreSpec(p, s, dataBuf, kind, mode);
    if r.result.Ok? {
      var d := CoreDelivery(p, s, dataBuf, mode).value;
      DeliveryFits(p, s, dataBuf, mode);
      assert Overwrite(dataBuf, d.data)[..|d.data|] == d.data;
    }
  }
}
