/** Whole runs of one `SocketAncillary` with its iterators: every sequence of operations, against
    every kernel script. */
module Session {
  import opened Wrappers
  import opened Bytes
  import opened Layout
  import opened Control
  import opened Payload
  import opened Kernel
  import opened Receive
  import opened ReceiveProofs
  import opened AncillaryBuffer

  /** `draining` is a live `Messages`, `iterators` the live `ScmRights`, `caller` the descriptors
      yielded and not yet closed by the caller. `added` records the additions since the last clear. */
  datatype Session = Session(
    anc: Ancillary, alive: bool, draining: Option<seq<Received>>, iterators: seq<seq<Fd>>,
    caller: seq<Fd>, sys: Sys, added: seq<Received>)

  datatype Op =
    | AddFds(fds: seq<Fd>)
    | AddCredentials(creds: Credentials)
    | RecvMsg(cap: nat)         // cmsg_recvmsg or cmsg_recvmsg_peek
    | TakeMessages
    | NextMessage
    | NextFd(which: nat)
    | DropMessages
    | DropIterator(which: nat)
    | Clear
    | DropBuffer
    | CallerClose(which: nat)

  function Start(buffer: seq<byte>, sys: Sys): Session {
    Session(Ancillary(buffer, 0, false, [], false), true, None, [], [], sys, [])
  }

  /** Iterators borrow the buffer, so it can be used only when none is live. */
  predicate Usable(s: Session) {
    s.alive && s.draining.None? && s.iterators == []
  }

  function Without<T>(xs: seq<T>, i: nat): seq<T>
    requires i < |xs|
  {
    xs[..i] + xs[i + 1..]
  }

  // ---------------------------------------------------------------- one operation

  function DoAdd(s: Session, added: Added, what: seq<Received>): Session {
    if added.ok then s.(anc := added.anc, added := s.added + what) else s
  }

  function DoReceive(p: Platform, s: Session, cap: nat): Session {
    var r := ReceiveInto(p, s.anc, s.sys, cap);
    s.(anc := r.anc, sys := r.sys, added := [])
  }

  function DoNextMessage(s: Session): Session {
    if s.draining.None? || s.draining.value == [] then s
    else
      var rest := s.(draining := Some(s.draining.value[1..]));
      match s.draining.value[0]
      case Rights(fds) => rest.(iterators := s.iterators + [fds])
      case Creds(_) => rest
  }

  function DoNextFd(s: Session, i: nat): Session {
    if i >= |s.iterators| || s.iterators[i] == [] then s
    else s.(iterators := s.iterators[i := s.iterators[i][1..]], caller := s.caller + [s.iterators[i][0]])
  }

  function DoDropMessages(s: Session): Session {
    if s.draining.None? then s
    else s.(draining := None, sys := DropFds(s.sys, Flatten(s.draining.value)))
  }

  function DoDropIterator(s: Session, i: nat): Session {
    if i >= |s.iterators| then s
    else s.(iterators := Without(s.iterators, i), sys := DropFds(s.sys, s.iterators[i]))
  }

  function DoClear(s: Session): Session {
    s.(anc := Cleared(s.anc), sys := DropFds(s.sys, Flatten(s.anc.received)), added := [])
  }

  function DoDropBuffer(s: Session): Session {
    s.(alive := false, anc := s.anc.(received := []), sys := DropFds(s.sys, Flatten(s.anc.received)))
  }

  function DoCallerClose(s: Session, i: nat): Session {
    if i >= |s.caller| then s
    else s.(caller := Without(s.caller, i), sys := DropFds(s.sys, [s.caller[i]]))
  }

  function Step(p: Platform, s: Session, op: Op): (r: Session)
    requires s.anc.Valid()
    ensures r.anc.Valid()
  {
    match op
    case NextMessage => DoNextMessage(s)
    case NextFd(i) => DoNextFd(s, i)
    case DropMessages => DoDropMessages(s)
    case DropIterator(i) => DoDropIterator(s, i)
    case CallerClose(i) => DoCallerClose(s, i)
    case AddFds(fds) =>
      if Usable(s) then DoAdd(s, AddRightsTo(p, s.anc, fds), if fds == [] then [] else [Rights(fds)]) else s
    case AddCredentials(c) =>
      if Usable(s) && p.linux then DoAdd(s, Append(p, s.anc, CredentialsMessage(p, c)), [Creds(c)]) else s
    case RecvMsg(cap) => if Usable(s) then DoReceive(p, s, cap) else s
    case TakeMessages =>
      if Usable(s) then s.(anc := s.anc.(received := []), draining := Some(s.anc.received)) else s
    case Clear => if Usable(s) then DoClear(s) else s
    case DropBuffer => if Usable(s) then DoDropBuffer(s) else s
  }

  // ---------------------------------------------------------------- ownership

  function Concat(fds: seq<seq<Fd>>): seq<Fd> {
    if fds == [] then [] else fds[0] + Concat(fds[1..])
  }

  function DrainingFds(s: Session): seq<Fd> {
    match s.draining case None => [] case Some(ms) => Flatten(ms)
  }

  /** Everything some owner holds. */
  function Held(s: Session): multiset<Fd> {
    multiset(Flatten(s.anc.received)) + multiset(DrainingFds(s)) + multiset(Concat(s.iterators)) + multiset(s.caller)
  }

  /** The descriptors in `held` are open, each held once, and they are all the open ones apart from
      the process's `foreign` ones. */
  predicate Holds(t: Table, foreign: set<Fd>, held: multiset<Fd>) {
    foreign <= t.open && held == multiset(t.open - foreign)
  }

  /** Exactly the received descriptors are held, each by one owner, and no close ever missed. */
  predicate Owned(s: Session, foreign: set<Fd>, badCloses: nat) {
    Holds(s.sys.table, foreign, Held(s)) && s.sys.table.badCloses == badCloses
  }

  lemma {:induction false} CloseHeld(t: Table, foreign: set<Fd>, fds: seq<Fd>, rest: multiset<Fd>)
    requires Holds(t, foreign, multiset(fds) + rest)
    ensures Holds(CloseAll(t, fds), foreign, rest)
    ensures CloseAll(t, fds).badCloses == t.badCloses
    decreases |fds|
  {
    if fds == [] {
      assert multiset(fds) + rest == rest;
    } else {
      var fd := fds[0];
      assert fds == [fd] + fds[1..];
      assert multiset(fds) == multiset{fd} + multiset(fds[1..]);
      assert (multiset(fds) + rest)[fd] >= 1;
      assert fd in t.open - foreign;
      var t' := CloseOne(t, fd);
      assert t'.open - foreign == t.open - foreign - {fd};
      assert multiset(t'.open - foreign) == multiset(t.open - foreign) - multiset{fd};
      assert multiset(fds[1..]) + rest == (multiset(fds) + rest) - multiset{fd};
      CloseHeld(t', foreign, fds[1..], rest);
    }
  }

  lemma OneMore(fd: Fd, fds: set<Fd>)
    requires fd !in fds
    ensures multiset({fd} + fds) == multiset{fd} + multiset(fds)
  {
  }

  lemma {:induction false} DistinctMultiset(fds: seq<Fd>)
    requires NoDuplicates(fds)
    ensures multiset(fds) == multiset(ToSet(fds))
  {
    if fds != [] {
      var rest := fds[1..];
      assert fds == [fds[0]] + rest;
      assert NoDuplicates(rest) by {
        forall i, j | 0 <= i < j < |rest| ensures rest[i] != rest[j] {
          assert rest[i] == fds[i + 1] && rest[j] == fds[j + 1];
        }
      }
      assert fds[0] !in rest by {
        forall i | 0 <= i < |rest| ensures rest[i] != fds[0] { assert rest[i] == fds[i + 1]; }
      }
      DistinctMultiset(rest);
      hide NoDuplicates;
      assert ToSet(fds) == {fds[0]} + ToSet(rest);
      OneMore(fds[0], ToSet(rest));
    }
  }

  lemma {:induction false} OpenFresh(t: Table, t': Table, foreign: set<Fd>, held: multiset<Fd>, fds: seq<Fd>)
    requires Holds(t, foreign, held) && NoDuplicates(fds) && ToSet(fds) !! t.open
    requires t'.open == t.open + ToSet(fds)
    ensures Holds(t', foreign, multiset(fds) + held)
  {
    DistinctMultiset(fds);
    assert t'.open - foreign == (t.open - foreign) + ToSet(fds);
    assert multiset(t'.open - foreign) == multiset(t.open - foreign) + multiset(ToSet(fds));
  }

  lemma {:induction false} ConcatWithout(xs: seq<seq<Fd>>, i: nat)
    requires i < |xs|
    ensures multiset(Concat(xs)) == multiset(xs[i]) + multiset(Concat(Without(xs, i)))
  {
    var ys := Without(xs, i);
    if i == 0 {
      assert ys == xs[1..];
    } else {
      assert ys[0] == xs[0] && ys[1..] == Without(xs[1..], i - 1);
      assert xs[1..][i - 1] == xs[i];
      ConcatWithout(xs[1..], i - 1);
    }
  }

  lemma {:induction false} ConcatReplace(xs: seq<seq<Fd>>, i: nat, fds: seq<Fd>)
    requires i < |xs|
    ensures multiset(Concat(xs[i := fds])) == multiset(fds) + multiset(Concat(Without(xs, i)))
  {
    ConcatWithout(xs[i := fds], i);
    assert Without(xs[i := fds], i) == Without(xs, i);
  }

  lemma {:induction false} ConcatSnoc(xs: seq<seq<Fd>>, fds: seq<Fd>)
    ensures multiset(Concat(xs + [fds])) == multiset(Concat(xs)) + multiset(fds)
  {
    ConcatWithout(xs + [fds], |xs|);
    assert Without(xs + [fds], |xs|) == xs;
  }

  lemma {:induction false} DeliveryIsHeld(
    p: Platform, s0: Sys, raw: Fallible<Delivery>, cap: nat, control: nat, foreign: set<Fd>, rest: multiset<Fd>)
    requires raw.result.Ok? && Admissible(p, raw.result.value, cap, control, s0.table.open)
    requires raw.sys.table == Install(p, s0.table, InstalledFds(p, raw.result.value))
    requires Holds(s0.table, foreign, rest)
    ensures var ms := Parse(p, ControlBytes(p, raw.result.value), 0);
      var received := AllReceived(p, ms);
      var flagged := Cloexec(p, DropFds(raw.sys, AllPidfds(p, ms)), Flatten(received));
      && flagged.sys.table.badCloses == s0.table.badCloses
      && match flagged.result
         case Ok(_) =>
           Holds(flagged.sys.table, foreign, multiset(Flatten(received)) + rest)
           && ToSet(Flatten(received)) <= flagged.sys.table.cloexec
         case Err(_) =>
           var dropped := CloseAll(flagged.sys.table, Flatten(received));
           Holds(dropped, foreign, rest) && dropped.badCloses == s0.table.badCloses
  {
    hide Parse, Installed, CloexecAll, RightsOf, PidfdsOf, AllRights, AllPidfds, AllReceived, Holds;
    var d := raw.result.value;
    assert WellFormed(p, d);
    hide Admissible;
    var ms := Parse(p, ControlBytes(p, d), 0);
    FlatForm(p, d);
    FlatRefinesMessages(p, ms);
    OwnedAfterDelivery(p, s0.table, d, cap, control);
    var fds := Flatten(AllReceived(p, ms));
    var owned := DropFds(raw.sys, AllPidfds(p, ms));
    hide CloseAll, Install;
    CloexecOutcome(p, owned, fds);
    var flagged := Cloexec(p, owned, fds);
    OpenFresh(s0.table, flagged.sys.table, foreign, rest, fds);
    CloseHeld(flagged.sys.table, foreign, fds, rest);
  }

  /** A low-level receive: the old batch is closed, and afterwards the buffer holds exactly the newly
      installed rights, or nothing if it failed. */
  lemma {:induction false} ReceiveKeepsHeld(
    p: Platform, a: Ancillary, s: Sys, cap: nat, foreign: set<Fd>, rest: multiset<Fd>)
    requires Holds(s.table, foreign, multiset(Flatten(a.received)) + rest)
    ensures var r := ReceiveInto(p, a, s, cap);
      && Holds(r.sys.table, foreign, multiset(Flatten(r.anc.received)) + rest)
      && r.sys.table.badCloses == s.table.badCloses
      && (r.result.Ok? ==> ToSet(Flatten(r.anc.received)) <= r.sys.table.cloexec)
  {
    var s0 := DropFds(s, Flatten(a.received));
    CloseHeld(s.table, foreign, Flatten(a.received), rest);
    hide Holds, Parse, AllReceived, AllPidfds, CloexecAll, CloseAll, Installed;
    var raw := RecvRaw(p, s0, cap, |a.buffer|);
    RecvRawDelivers(p, s0, cap, |a.buffer|);
    assert Flatten([]) == [];
    if raw.result.Err? {
      assert multiset(Flatten([])) + rest == rest;
    } else {
      DeliveryIsHeld(p, s0, raw, cap, |a.buffer|, foreign, rest);
    }
  }

  lemma {:induction false} ReceiveKeepsOwnership(p: Platform, s: Session, cap: nat, foreign: set<Fd>, bad: nat)
    requires Owned(s, foreign, bad)
    ensures Owned(DoReceive(p, s, cap), foreign, bad)
  {
    var rest := multiset(DrainingFds(s)) + multiset(Concat(s.iterators)) + multiset(s.caller);
    assert Held(s) == multiset(Flatten(s.anc.received)) + rest;
    ReceiveKeepsHeld(p, s.anc, s.sys, cap, foreign, rest);
    hide ReceiveInto, Flatten, Holds;
    var s' := DoReceive(p, s, cap);
    assert Held(s') == multiset(Flatten(s'.anc.received)) + rest;
  }

  lemma {:induction false} DropsKeepOwnership(s: Session, i: nat, foreign: set<Fd>, bad: nat)
    requires Owned(s, foreign, bad)
    ensures Owned(DoDropMessages(s), foreign, bad)
    ensures Owned(DoDropIterator(s, i), foreign, bad)
  {
    hide Holds, CloseAll, Flatten;
    if s.draining.Some? {
      var rest := multiset(Flatten(s.anc.received)) + multiset(Concat(s.iterators)) + multiset(s.caller);
      assert Held(s) == multiset(DrainingFds(s)) + rest;
      CloseHeld(s.sys.table, foreign, DrainingFds(s), rest);
      assert Held(DoDropMessages(s)) == rest;
    }
    if i < |s.iterators| {
      ConcatWithout(s.iterators, i);
      var s' := DoDropIterator(s, i);
      assert Held(s) == multiset(s.iterators[i]) + Held(s');
      CloseHeld(s.sys.table, foreign, s.iterators[i], Held(s'));
    }
  }

  lemma {:induction false} ClearKeepsOwnership(s: Session, foreign: set<Fd>, bad: nat)
    requires Owned(s, foreign, bad)
    ensures Owned(DoClear(s), foreign, bad)
    ensures Owned(DoDropBuffer(s), foreign, bad)
  {
    var rest := multiset(DrainingFds(s)) + multiset(Concat(s.iterators)) + multiset(s.caller);
    assert Flatten([]) == [];
    hide Holds, CloseAll, Flatten, Concat;
    assert Held(s) == multiset(Flatten(s.anc.received)) + rest;
    CloseHeld(s.sys.table, foreign, Flatten(s.anc.received), rest);
    assert Held(DoClear(s)) == rest;
    assert Held(DoDropBuffer(s)) == rest;
  }

  lemma FlattenHead(ms: seq<Received>)
    requires ms != []
    ensures Flatten(ms) == FdsOf(ms[0]) + Flatten(ms[1..])
  {
  }

  lemma Move(a: multiset<Fd>, b: multiset<Fd>, c: multiset<Fd>, d: multiset<Fd>, x: multiset<Fd>)
    ensures a + (x + b) + c + d == a + b + (c + x) + d
  {
  }

  lemma {:induction false} NextMessageKeepsOwnership(s: Session, foreign: set<Fd>, bad: nat)
    requires Owned(s, foreign, bad)
    ensures Owned(DoNextMessage(s), foreign, bad)
  {
    if s.draining.Some? && s.draining.value != [] {
      FlattenHead(s.draining.value);
      hide Holds, Concat, Flatten;
      var m, rest := s.draining.value[0], s.draining.value[1..];
      ConcatSnoc(s.iterators, FdsOf(m));
      var s' := DoNextMessage(s);
      var x, b, c := multiset(FdsOf(m)), multiset(Flatten(rest)), multiset(Concat(s.iterators));
      assert multiset(FdsOf(m) + Flatten(rest)) == x + b;
      assert multiset(Concat(s'.iterators)) == c + x;
      Move(multiset(Flatten(s.anc.received)), b, c, multiset(s.caller), x);
      assert Held(s') == Held(s);
    }
  }

  lemma {:induction false} NextFdKeepsOwnership(s: Session, i: nat, foreign: set<Fd>, bad: nat)
    requires Owned(s, foreign, bad)
    ensures Owned(DoNextFd(s, i), foreign, bad)
  {
    hide Holds, Concat, Flatten;
    if i < |s.iterators| && s.iterators[i] != [] {
      var fds := s.iterators[i];
      ConcatWithout(s.iterators, i);
      ConcatReplace(s.iterators, i, fds[1..]);
      assert fds == [fds[0]] + fds[1..];
      assert multiset(fds) == multiset{fds[0]} + multiset(fds[1..]);
      hide Without;
      assert Held(DoNextFd(s, i)) == Held(s);
    }
  }

  lemma {:induction false} CallerCloseKeepsOwnership(s: Session, i: nat, foreign: set<Fd>, bad: nat)
    requires Owned(s, foreign, bad)
    ensures Owned(DoCallerClose(s, i), foreign, bad)
  {
    hide Holds, CloseAll, Flatten, Concat;
    if i < |s.caller| {
      var s' := DoCallerClose(s, i);
      assert s.caller == s.caller[..i] + [s.caller[i]] + s.caller[i + 1..];
      assert Held(s) == multiset([s.caller[i]]) + Held(s');
      CloseHeld(s.sys.table, foreign, [s.caller[i]], Held(s'));
    }
  }

  lemma {:induction false} TakeMessagesKeepsOwnership(p: Platform, s: Session, foreign: set<Fd>, bad: nat)
    requires s.anc.Valid() && Owned(s, foreign, bad)
    ensures Owned(Step(p, s, TakeMessages), foreign, bad)
  {
    assert Flatten([]) == [];
    hide Holds, Flatten, Concat;
    if Usable(s) {
      var s' := Step(p, s, TakeMessages);
      assert DrainingFds(s') == Flatten(s.anc.received) && DrainingFds(s) == [];
      assert Held(s') == Held(s);
    }
  }

  /** Every operation, in every state, against every kernel script. */
  lemma {:induction false} StepKeepsOwnership(p: Platform, s: Session, op: Op, foreign: set<Fd>, bad: nat)
    requires s.anc.Valid() && Owned(s, foreign, bad)
    ensures Owned(Step(p, s, op), foreign, bad)
  {
    hide Holds, CloseAll, ReceiveInto, Append, AddRightsTo, Flatten, Concat;
    match op
    case NextMessage => NextMessageKeepsOwnership(s, foreign, bad);
    case NextFd(i) => NextFdKeepsOwnership(s, i, foreign, bad);
    case DropMessages => DropsKeepOwnership(s, 0, foreign, bad);
    case DropIterator(i) => DropsKeepOwnership(s, i, foreign, bad);
    case CallerClose(i) => CallerCloseKeepsOwnership(s, i, foreign, bad);
    case RecvMsg(cap) => ReceiveKeepsOwnership(p, s, cap, foreign, bad);
    case Clear => ClearKeepsOwnership(s, foreign, bad);
    case DropBuffer => ClearKeepsOwnership(s, foreign, bad);
    case TakeMessages => TakeMessagesKeepsOwnership(p, s, foreign, bad);
    case _ =>
      assert Held(Step(p, s, op)) == Held(s);
  }

  // ---------------------------------------------------------------- mode and contents

  /** What an addition becomes on the wire. */
  function Outgoing(p: Platform, r: Received): RawMessage {
    match r case Rights(fds) => RightsMessage(p, fds) case Creds(c) => CredentialsMessage(p, c)
  }

  function OutgoingAll(p: Platform, added: seq<Received>): (ms: seq<RawMessage>)
    ensures |ms| == |added|
    ensures forall i :: 0 <= i < |added| ==> ms[i] == Outgoing(p, added[i])
  {
    if added == [] then [] else [Outgoing(p, added[0])] + OutgoingAll(p, added[1..])
  }

  /** Something an addition can have put in: a non-empty list, or credentials where they exist. */
  predicate Sendable(p: Platform, r: Received) {
    && Encodable(Outgoing(p, r))
    && match r case Rights(fds) => fds != [] case Creds(_) => p.linux
  }

  predicate AllSendable(p: Platform, added: seq<Received>) {
    forall i :: 0 <= i < |added| ==> Sendable(p, added[i])
  }

  /** In send mode the used part of the buffer is the encoding of the additions since the last clear;
      anything received implies receive mode. */
  predicate ModeOk(p: Platform, s: Session) {
    && s.anc.Valid()
    && (s.anc.received != [] ==> s.anc.receiveMode)
    && AllSendable(p, s.added)
    && (s.anc.receiveMode ==> s.added == [])
    && (!s.anc.receiveMode ==>
      && !s.anc.truncated
      && AllEncodable(OutgoingAll(p, s.added))
      && s.anc.buffer[..s.anc.length] == Encode(p, OutgoingAll(p, s.added)))
  }

  lemma {:induction false} OutgoingSnoc(p: Platform, added: seq<Received>, r: Received)
    ensures OutgoingAll(p, added + [r]) == OutgoingAll(p, added) + [Outgoing(p, r)]
  {
  }

  lemma {:induction false} AppendKeepsMode(p: Platform, s: Session, r: Received)
    requires ModeOk(p, s) && Sendable(p, r)
    ensures ModeOk(p, DoAdd(s, Append(p, s.anc, Outgoing(p, r)), [r]))
  {
    var m := Outgoing(p, r);
    hide EncodeOne, Outgoing, OutgoingAll, Encode, CmsgSpace;
    var next := Append(p, s.anc, m);
    if next.ok {
      OutgoingSnoc(p, s.added, r);
      EncodeAppend(p, OutgoingAll(p, s.added), m);
      var used := s.anc.buffer[..s.anc.length];
      assert next.anc.buffer[..next.anc.length] == used + EncodeOne(p, m);
    }
  }

  lemma {:induction false} ReceiveKeepsMode(p: Platform, s: Session, cap: nat)
    requires ModeOk(p, s)
    ensures ModeOk(p, DoReceive(p, s, cap))
  {
    hide ReceiveInto;
  }

  lemma {:induction false} ResetKeepsMode(p: Platform, s: Session)
    requires ModeOk(p, s)
    ensures ModeOk(p, DoClear(s)) && ModeOk(p, DoDropBuffer(s))
  {
    hide CloseAll, OutgoingAll;
    assert OutgoingAll(p, []) == [] && Encode(p, []) == [];
  }

  lemma StartOfRun(p: Platform, s: Session, ops: seq<Op>)
    requires ModeOk(p, s)
    ensures s.anc.Valid()
  {
  }

  lemma {:induction false} AddsKeepMode(p: Platform, s: Session, op: Op)
    requires ModeOk(p, s) && (op.AddFds? || op.AddCredentials?)
    ensures ModeOk(p, Step(p, s, op))
  {
    hide ModeOk;
    StartOfRun(p, s, []);
    match op
    case AddFds(fds) =>
      if Usable(s) && fds != [] && Encodable(RightsMessage(p, fds)) { AppendKeepsMode(p, s, Rights(fds)); }
      assert s.added + [] == s.added;
    case AddCredentials(c) =>
      if Usable(s) && p.linux { AppendKeepsMode(p, s, Creds(c)); }
  }

  lemma {:induction false} StepKeepsMode(p: Platform, s: Session, op: Op)
    requires ModeOk(p, s)
    ensures ModeOk(p, Step(p, s, op))
  {
    hide CloseAll, Append, OutgoingAll, ReceiveInto, Encode;
    match op
    case AddFds(_) => AddsKeepMode(p, s, op);
    case AddCredentials(_) => AddsKeepMode(p, s, op);
    case RecvMsg(cap) => ReceiveKeepsMode(p, s, cap);
    case Clear => ResetKeepsMode(p, s);
    case DropBuffer => ResetKeepsMode(p, s);
    case _ =>
  }

  // ---------------------------------------------------------------- runs

  function Run(p: Platform, s: Session, ops: seq<Op>): (r: Session)
    requires s.anc.Valid()
    ensures r.anc.Valid()
    decreases |ops|
  {
    if ops == [] then s else Run(p, Step(p, s, ops[0]), ops[1..])
  }

  lemma {:induction false} RunKeepsInvariants(p: Platform, s: Session, ops: seq<Op>, foreign: set<Fd>, bad: nat)
    requires ModeOk(p, s) && Owned(s, foreign, bad)
    ensures ModeOk(p, Run(p, s, ops)) && Owned(Run(p, s, ops), foreign, bad)
    decreases |ops|
  {
    hide Step, Owned, ModeOk;
    if ops != [] {
      StartOfRun(p, s, ops);
      StepKeepsOwnership(p, s, ops[0], foreign, bad);
      StepKeepsMode(p, s, ops[0]);
      RunKeepsInvariants(p, Step(p, s, ops[0]), ops[1..], foreign, bad);
    }
  }

  lemma {:induction false} StartIsOk(p: Platform, buffer: seq<byte>, sys: Sys)
    ensures ModeOk(p, Start(buffer, sys))
    ensures Owned(Start(buffer, sys), sys.table.open, sys.table.badCloses)
  {
    assert sys.table.open - sys.table.open == {};
  }

  /** Any run on any storage, against any kernel: the open descriptors are the process's own and,
      each held by exactly one of the buffer, the live `Messages`, the live `ScmRights` and the
      caller, the received ones; no close ever hit a number that was not open. */
  lemma {:induction false} EveryRunOwnsExactly(p: Platform, buffer: seq<byte>, sys: Sys, ops: seq<Op>)
    ensures var s := Run(p, Start(buffer, sys), ops);
      && sys.table.open <= s.sys.table.open
      && Held(s) == multiset(s.sys.table.open - sys.table.open)
      && s.sys.table.badCloses == sys.table.badCloses
  {
    StartIsOk(p, buffer, sys);
    hide Run, Held, ModeOk;
    RunKeepsInvariants(p, Start(buffer, sys), ops, sys.table.open, sys.table.badCloses);
  }

  /** Dropping the iterators still live, then the buffer. */
  function FinalDrops(iterators: nat): seq<Op> {
    if iterators == 0 then [DropMessages, DropBuffer] else [DropIterator(0)] + FinalDrops(iterators - 1)
  }

  lemma {:induction false} FinalDropsReleaseAll(p: Platform, s: Session)
    requires s.anc.Valid() && (s.alive || s.anc.received == [])
    ensures var s' := Run(p, s, FinalDrops(|s.iterators|));
      s'.draining.None? && s'.iterators == [] && s'.anc.received == [] && s'.caller == s.caller
    decreases |s.iterators|
  {
    hide CloseAll, Flatten;
    var ops := FinalDrops(|s.iterators|);
    if s.iterators == [] {
      assert ops[1..] == [DropBuffer] && ops[1..][1..] == [];
      var a := Step(p, s, DropMessages);
      assert Run(p, a, [DropBuffer]) == Run(p, Step(p, a, DropBuffer), []);
    } else {
      assert ops[1..] == FinalDrops(|s.iterators| - 1);
      FinalDropsReleaseAll(p, Step(p, s, DropIterator(0)));
    }
  }

  lemma {:induction false} StepKeepsDropped(p: Platform, s: Session, op: Op)
    requires s.anc.Valid() && (s.alive || s.anc.received == [])
    ensures var s' := Step(p, s, op); s'.alive || s'.anc.received == []
  {
    hide ReceiveInto, Append, CloseAll;
  }

  lemma {:induction false} RunKeepsDropped(p: Platform, s: Session, ops: seq<Op>)
    requires s.anc.Valid() && (s.alive || s.anc.received == [])
    ensures var s' := Run(p, s, ops); s'.alive || s'.anc.received == []
    decreases |ops|
  {
    if ops != [] {
      StepKeepsDropped(p, s, ops[0]);
      hide Step;
      RunKeepsDropped(p, Step(p, s, ops[0]), ops[1..]);
    }
  }

  /** When everything has been dropped, exactly the caller's descriptors remain, once each. */
  lemma {:induction false} OnlyTheCallersRemain(p: Platform, buffer: seq<byte>, sys: Sys, ops: seq<Op>)
    ensures var s := Run(p, Start(buffer, sys), ops);
      var end := Run(p, s, FinalDrops(|s.iterators|));
      && end.caller == s.caller
      && sys.table.open <= end.sys.table.open
      && multiset(s.caller) == multiset(end.sys.table.open - sys.table.open)
      && end.sys.table.badCloses == sys.table.badCloses
  {
    StartIsOk(p, buffer, sys);
    var first := Start(buffer, sys);
    RunKeepsDropped(p, first, ops);
    hide Run, ModeOk;
    RunKeepsInvariants(p, first, ops, sys.table.open, sys.table.badCloses);
    var s := Run(p, first, ops);
    FinalDropsReleaseAll(p, s);
    RunKeepsInvariants(p, s, FinalDrops(|s.iterators|), sys.table.open, sys.table.badCloses);
    var end := Run(p, s, FinalDrops(|s.iterators|));
    assert Held(end) == multiset(s.caller);
  }

  lemma {:induction false} OncePerElement(fds: seq<Fd>)
    requires forall fd :: fd in fds ==> multiset(fds)[fd] <= 1
    ensures NoDuplicates(fds)
  {
    forall i, j | 0 <= i < j < |fds| ensures fds[i] != fds[j] {
      assert fds == fds[..i] + [fds[i]] + fds[i + 1..j] + [fds[j]] + fds[j + 1..];
      assert fds[i] in fds;
    }
  }

  /** What has just been received and what the caller has drained before are pairwise distinct, and
      not the process's own. */
  lemma {:induction false} OwnedAreDistinct(s: Session, foreign: set<Fd>, bad: nat)
    requires Owned(s, foreign, bad)
    ensures NoDuplicates(Flatten(s.anc.received) + s.caller)
    ensures ToSet(Flatten(s.anc.received) + s.caller) !! foreign
  {
    hide Flatten, Concat;
    var fds := Flatten(s.anc.received) + s.caller;
    var received := s.sys.table.open - foreign;
    forall fd | fd in fds ensures fd in received && multiset(fds)[fd] <= 1 {
      assert multiset(fds)[fd] <= Held(s)[fd] == multiset(received)[fd];
    }
    OncePerElement(fds);
  }

  /** Whatever mix of peeks and receives they came from, descriptors drained to the caller are
      pairwise distinct. */
  lemma {:induction false} DrainedDescriptorsAreDistinct(p: Platform, buffer: seq<byte>, sys: Sys, ops: seq<Op>)
    ensures NoDuplicates(Run(p, Start(buffer, sys), ops).caller)
    ensures ToSet(Run(p, Start(buffer, sys), ops).caller) !! sys.table.open
  {
    EveryRunOwnsExactly(p, buffer, sys, ops);
    hide Run, Held, Flatten;
    var s := Run(p, Start(buffer, sys), ops);
    OwnedAreDistinct(s, sys.table.open, sys.table.badCloses);
    var fds := Flatten(s.anc.received);
    SplitDistinct(fds, s.caller);
  }

  // ---------------------------------------------------------------- what a send buffer holds

  lemma {:induction false} ReadBackOne(p: Platform, r: Received)
    requires Sendable(p, r)
    ensures ReceivedFrom(p, Outgoing(p, r)) == [r]
  {
    match r
    case Rights(fds) =>
      FdsRoundTrip(p, fds);
      hide RightsIn, EncodeFds;
    case Creds(c) =>
      CredentialsRoundTrip(p, c);
      hide DecodeCredentials, EncodeCredentials;
  }

  lemma {:induction false} ReadBackOutgoing(p: Platform, added: seq<Received>, at: nat)
    requires AllSendable(p, added) && AllEncodable(OutgoingAll(p, added))
    ensures AllReceived(p, Locate(p, OutgoingAll(p, added), at)) == added
    decreases |added|
  {
    if added != [] {
      var ms := OutgoingAll(p, added);
      assert ms[1..] == OutgoingAll(p, added[1..]);
      ReadBackOutgoing(p, added[1..], at + Space(p, ms[0]));
      ReadBackOne(p, added[0]);
      hide OutgoingAll, Outgoing, ReceivedFrom;
      var located := Locate(p, ms, at);
      assert located[1..] == Locate(p, ms[1..], at + Space(p, ms[0]));
      assert added == [added[0]] + added[1..];
    }
  }

  function TotalSpace(p: Platform, ms: seq<RawMessage>): nat
    requires AllEncodable(ms)
  {
    if ms == [] then 0 else Space(p, ms[0]) + TotalSpace(p, ms[1..])
  }

  lemma {:induction false} EncodeLength(p: Platform, ms: seq<RawMessage>)
    requires AllEncodable(ms)
    ensures |Encode(p, ms)| == TotalSpace(p, ms)
  {
    hide EncodeOne, CmsgSpace;
    if ms != [] { EncodeLength(p, ms[1..]); }
  }

  /** After any run, a buffer in send mode is exactly as long as its messages need, and parses to
      exactly the additions since the last clear, in order, with the same values. */
  lemma {:induction false} SendBufferHoldsAdditions(p: Platform, buffer: seq<byte>, sys: Sys, ops: seq<Op>)
    ensures var s := Run(p, Start(buffer, sys), ops);
      && (s.anc.received != [] ==> s.anc.receiveMode)
      && (!s.anc.receiveMode ==>
        && AllSendable(p, s.added) && AllEncodable(OutgoingAll(p, s.added))
        && ControlToSend(s.anc) == Ok(Encode(p, OutgoingAll(p, s.added)))
        && s.anc.length == TotalSpace(p, OutgoingAll(p, s.added))
        && AllReceived(p, Parse(p, ControlToSend(s.anc).value, 0)) == s.added)
  {
    StartIsOk(p, buffer, sys);
    hide Run, Held, Start, Parse;
    RunKeepsInvariants(p, Start(buffer, sys), ops, sys.table.open, sys.table.badCloses);
    var s := Run(p, Start(buffer, sys), ops);
    if !s.anc.receiveMode {
      hide OutgoingAll, Encode;
      EncodeLength(p, OutgoingAll(p, s.added));
      ParseEncode(p, OutgoingAll(p, s.added), 0);
      ReadBackOutgoing(p, s.added, 0);
    }
  }

  // ---------------------------------------------------------------- receive mode over runs

  lemma {:induction false} RunConcat(p: Platform, s: Session, a: seq<Op>, b: seq<Op>)
    requires s.anc.Valid()
    ensures Run(p, s, a + b) == Run(p, Run(p, s, a), b)
    decreases |a|
  {
    if a == [] {
      assert a + b == b;
    } else {
      assert (a + b)[0] == a[0] && (a + b)[1..] == a[1..] + b;
      hide Step;
      RunConcat(p, Step(p, s, a[0]), a[1..], b);
    }
  }

  /** An addition reports an error and leaves the buffer as it was. */
  predicate Refuses(p: Platform, s: Session, op: Op)
    requires s.anc.Valid()
  {
    match op
    case AddFds(fds) => AddRightsTo(p, s.anc, fds) == Added(s.anc, false)
    case AddCredentials(c) => Append(p, s.anc, CredentialsMessage(p, c)) == Added(s.anc, false)
    case _ => true
  }

  lemma {:induction false} StepRefuses(p: Platform, s: Session, op: Op)
    requires s.anc.Valid() && s.anc.receiveMode && !op.Clear?
    ensures Step(p, s, op).anc.receiveMode
    ensures op.AddFds? || op.AddCredentials? ==> Step(p, s, op) == s
    ensures Refuses(p, s, op)
  {
    hide ReceiveInto, CloseAll;
  }

  predicate NoClear(ops: seq<Op>) {
    forall i :: 0 <= i < |ops| ==> !ops[i].Clear?
  }

  lemma {:induction false} RunStaysInReceiveMode(p: Platform, s: Session, ops: seq<Op>)
    requires s.anc.Valid() && s.anc.receiveMode && NoClear(ops)
    ensures Run(p, s, ops).anc.receiveMode
    decreases |ops|
  {
    if ops != [] {
      StepRefuses(p, s, ops[0]);
      hide Step;
      RunStaysInReceiveMode(p, Step(p, s, ops[0]), ops[1..]);
    }
  }

  lemma {:induction false} RunSnoc(p: Platform, s: Session, ops: seq<Op>, op: Op)
    requires s.anc.Valid()
    ensures Run(p, s, ops + [op]) == Step(p, Run(p, s, ops), op)
  {
    RunConcat(p, s, ops, [op]);
    hide Step;
    var t := Run(p, s, ops);
    assert Run(p, t, [op]) == Run(p, Step(p, t, op), [op][1..]);
    assert Run(p, Step(p, t, op), []) == Step(p, t, op);
  }

  lemma {:induction false} ReceiveEnters(p: Platform, s: Session, cap: nat)
    requires s.anc.Valid() && Usable(s)
    ensures Step(p, s, RecvMsg(cap)).anc.receiveMode
  {
    hide ReceiveInto;
  }

  lemma NoClearPrefix(ops: seq<Op>, k: nat)
    requires NoClear(ops) && k <= |ops|
    ensures NoClear(ops[..k])
  {
  }

  /** In any run, a receive, successful or not, puts the buffer in receive mode, and until the next
      `clear` it stays there: sends are refused and every addition leaves everything as it was. */
  lemma {:induction false} RefusedUntilClear(
    p: Platform, buffer: seq<byte>, sys: Sys, before: seq<Op>, cap: nat, since: seq<Op>)
    requires Usable(Run(p, Start(buffer, sys), before)) && NoClear(since)
    ensures var s := Run(p, Start(buffer, sys), before + [RecvMsg(cap)] + since);
      s.anc.receiveMode && ControlToSend(s.anc) == Err(InvalidInput)
    ensures forall k :: 0 <= k < |since| && (since[k].AddFds? || since[k].AddCredentials?) ==>
      var s := Run(p, Start(buffer, sys), before + [RecvMsg(cap)] + since[..k]);
      Refuses(p, s, since[k]) && Run(p, Start(buffer, sys), before + [RecvMsg(cap)] + since[..k + 1]) == s
  {
    hide Step, Usable, NoClear, Refuses;
    var first, head := Start(buffer, sys), before + [RecvMsg(cap)];
    RunSnoc(p, first, before, RecvMsg(cap));
    ReceiveEnters(p, Run(p, first, before), cap);
    var s := Run(p, first, head);
    hide Run;
    RunConcat(p, first, head, since);
    RunStaysInReceiveMode(p, s, since);
    forall k | 0 <= k < |since| && (since[k].AddFds? || since[k].AddCredentials?)
      ensures Refuses(p, Run(p, first, head + since[..k]), since[k])
      ensures Run(p, first, head + since[..k + 1]) == Run(p, first, head + since[..k])
    {
      NoClearPrefix(since, k);
      RunConcat(p, first, head, since[..k]);
      RunStaysInReceiveMode(p, s, since[..k]);
      assert head + since[..k + 1] == head + since[..k] + [since[k]];
      RunSnoc(p, first, head + since[..k], since[k]);
      StepRefuses(p, Run(p, first, head + since[..k]), since[k]);
    }
  }

  /** `clear` ends it, in any run, and leaves the storage as new. */
  lemma {:induction false} ClearEndsReceiveMode(p: Platform, buffer: seq<byte>, sys: Sys, before: seq<Op>)
    requires Usable(Run(p, Start(buffer, sys), before))
    ensures var was, s := Run(p, Start(buffer, sys), before), Run(p, Start(buffer, sys), before + [Clear]);
      && s.anc == Ancillary(was.anc.buffer, 0, false, [], false)
      && ControlToSend(s.anc) == Ok([])
      && s.added == [] && s.caller == was.caller
  {
    RunSnoc(p, Start(buffer, sys), before, Clear);
    hide Run, CloseAll, Flatten;
  }

  // ---------------------------------------------------------------- from one buffer to another

  /** The same messages under new descriptor numbers: every list keeps its length and place, every
      credential its value. */
  predicate Renumbered(sent: seq<Received>, arrived: seq<Received>) {
    && |sent| == |arrived|
    && forall i :: 0 <= i < |sent| ==>
      match (sent[i], arrived[i])
      case (Rights(a), Rights(b)) => |a| == |b|
      case (Creds(a), Creds(b)) => a == b
      case _ => false
  }

  lemma {:induction false} RenumberedIsSendable(p: Platform, sent: seq<Received>, arrived: seq<Received>)
    requires AllSendable(p, sent) && Renumbered(sent, arrived)
    ensures AllSendable(p, arrived)
  {
    hide EncodeFds, EncodeCredentials;
    forall i | 0 <= i < |arrived| ensures Sendable(p, arrived[i]) {
      assert Sendable(p, sent[i]);
    }
  }

  /** Additions of one buffer, given new numbers by the kernel and delivered whole, come out of another
      as the same messages in the same order, with distinct numbers that were not open before. */
  lemma {:induction false} AdditionsArrive(
    p: Platform, added: seq<Received>, arrived: seq<Received>, d: Delivery, a: Ancillary, s: Sys, cap: nat)
    requires AllSendable(p, added) && Renumbered(added, arrived)
    requires WellFormed(p, d) && d.messages == OutgoingAll(p, arrived) && !d.ctrunc
    requires RecvRaw(p, DropFds(s, Flatten(a.received)), cap, |a.buffer|).result == Ok(d)
    ensures var r, fds := ReceiveInto(p, a, s, cap), Flatten(arrived);
      && NoDuplicates(fds) && ToSet(fds) !! CloseAll(s.table, Flatten(a.received)).open
      && (r.result.Ok? ==> r.anc.received == arrived && Renumbered(added, r.anc.received) && !r.anc.truncated)
      && (r.result.Ok? <==> Fault(p, s.fcntl, |fds|).None?)
  {
    hide Parse, Locate, OutgoingAll, Encode, CloseAll, AllReceived, AllPidfds, Flatten, Installed, Renumbered;
    hide FirstFault, AllRights, RightsOf, PidfdsOf;
    var s0, size := DropFds(s, Flatten(a.received)), |a.buffer|;
    RecvRawDelivers(p, s0, cap, size);
    CompleteDelivery(p, d);
    RenumberedIsSendable(p, added, arrived);
    ReadBackOutgoing(p, arrived, 0);
    var ms := Parse(p, ControlBytes(p, d), 0);
    FlatForm(p, d);
    FlatRefinesMessages(p, ms);
    OwnedAfterDelivery(p, s0.table, d, cap, size);
    var raw := RecvRaw(p, s0, cap, size);
    CloexecAllReports(DropFds(raw.sys, AllPidfds(p, ms)), Flatten(arrived));
    hide CloexecAll, Admissible;
  }

  /** The size the crate computes is exactly what an addition needs. */
  lemma AddFdsNeedsExactly(p: Platform, a: Ancillary, fds: seq<Fd>)
    requires a.Valid() && !a.receiveMode && fds != []
    ensures AddRightsTo(p, a, fds).ok <==>
      BufferSizeForRights(p, |fds|).Some? && a.length + BufferSizeForRights(p, |fds|).value <= |a.buffer|
    ensures AddRightsTo(p, a, fds).ok ==>
      AddRightsTo(p, a, fds).anc.length == a.length + BufferSizeForRights(p, |fds|).value
  {
    hide CmsgSpaceMacro, EncodeOne, EncodeFds;
  }

  /** Credentials go in exactly when their computed size fits the room left, the last byte included. */
  lemma AddCredentialsNeedsExactly(p: Platform, a: Ancillary, c: Credentials)
    requires a.Valid() && !a.receiveMode
    ensures var r := Append(p, a, CredentialsMessage(p, c));
      && (r.ok <==> a.length + BufferSizeForCredentials(p) <= |a.buffer|)
      && (r.ok ==> r.anc.length == a.length + BufferSizeForCredentials(p))
  {
    hide CmsgSpaceMacro, EncodeOne, EncodeCredentials;
  }

  /** In any run, an addition to a send buffer is taken exactly when it fits, takes exactly its computed
      size, and changes nothing when it does not fit or has no descriptors. */
  lemma {:induction false} AddFdsIsTaken(p: Platform, buffer: seq<byte>, sys: Sys, before: seq<Op>, fds: seq<Fd>)
    requires Usable(Run(p, Start(buffer, sys), before)) && !Run(p, Start(buffer, sys), before).anc.receiveMode
    ensures var s, s' := Run(p, Start(buffer, sys), before), Run(p, Start(buffer, sys), before + [AddFds(fds)]);
      var size := BufferSizeForRights(p, |fds|);
      if fds != [] && size.Some? && s.anc.length + size.value <= |s.anc.buffer|
      then s'.added == s.added + [Rights(fds)] && s'.anc.length == s.anc.length + size.value
      else s' == s && (AddRightsTo(p, s.anc, fds).ok <==> fds == [])
  {
    RunSnoc(p, Start(buffer, sys), before, AddFds(fds));
    hide Run, BufferSizeForRights;
    var s := Run(p, Start(buffer, sys), before);
    if fds != [] { AddFdsNeedsExactly(p, s.anc, fds); }
    hide RightsMessage, Append;
    assert s.added + [] == s.added;
  }

  lemma {:induction false} AddCredentialsIsTaken(
    p: Platform, buffer: seq<byte>, sys: Sys, before: seq<Op>, c: Credentials)
    requires p.linux
    requires Usable(Run(p, Start(buffer, sys), before)) && !Run(p, Start(buffer, sys), before).anc.receiveMode
    ensures var s, s' := Run(p, Start(buffer, sys), before), Run(p, Start(buffer, sys), before + [AddCredentials(c)]);
      if s.anc.length + BufferSizeForCredentials(p) <= |s.anc.buffer|
      then s'.added == s.added + [Creds(c)] && s'.anc.length == s.anc.length + BufferSizeForCredentials(p)
      else s' == s && !Append(p, s.anc, CredentialsMessage(p, c)).ok
  {
    RunSnoc(p, Start(buffer, sys), before, AddCredentials(c));
    hide Run, BufferSizeForCredentials;
    AddCredentialsNeedsExactly(p, Run(p, Start(buffer, sys), before).anc, c);
    hide CredentialsMessage, Append;
  }

  lemma AppendKeepsStorage(p: Platform, a: Ancillary, m: RawMessage)
    requires a.Valid()
    ensures |Append(p, a, m).anc.buffer| == |a.buffer| && Append(p, a, m).anc.receiveMode == a.receiveMode
  {
    hide EncodeOne, CmsgSpace;
  }

  lemma {:induction false} OneAddition(p: Platform, s: Session, r: Received)
    requires s.anc.Valid() && Usable(s) && !s.anc.receiveMode
    requires match r case Rights(fds) => fds != [] case Creds(_) => p.linux
    ensures var s' := Step(p, s, match r case Rights(fds) => AddFds(fds) case Creds(c) => AddCredentials(c));
      var size := match r
        case Rights(fds) => BufferSizeForRights(p, |fds|) case Creds(_) => Some(BufferSizeForCredentials(p));
      size.Some? && s.anc.length + size.value <= |s.anc.buffer| ==>
        && s'.added == s.added + [r] && s'.anc.length == s.anc.length + size.value
        && |s'.anc.buffer| == |s.anc.buffer| && !s'.anc.receiveMode && Usable(s')
  {
    hide BufferSizeForRights, BufferSizeForCredentials, RightsMessage, CredentialsMessage;
    match r
    case Rights(fds) =>
      AddFdsNeedsExactly(p, s.anc, fds);
      AppendKeepsStorage(p, s.anc, RightsMessage(p, fds));
    case Creds(c) =>
      AddCredentialsNeedsExactly(p, s.anc, c);
      AppendKeepsStorage(p, s.anc, CredentialsMessage(p, c));
    hide Append;
  }

  lemma {:induction false} RunCons(p: Platform, s: Session, op: Op, rest: seq<Op>)
    requires s.anc.Valid()
    ensures Run(p, s, [op] + rest) == Run(p, Step(p, s, op), rest)
    ensures Run(p, s, []) == s
  {
    hide Step;
    assert ([op] + rest)[1..] == rest;
  }

  lemma {:induction false} RunTwo(p: Platform, s: Session, a: Op, b: Op)
    requires s.anc.Valid()
    ensures Run(p, s, [a, b]) == Step(p, Step(p, s, a), b)
  {
    hide Step;
    assert [a, b] == [a] + [b] && [b] == [b] + [];
    RunCons(p, s, a, [b]);
    RunCons(p, Step(p, s, a), b, []);
    RunCons(p, Step(p, Step(p, s, a), b), b, []);
  }

  /** Storage of the two computed sizes takes both additions, in either order, and is then full. */
  lemma {:induction false} ComputedSizesHoldBoth(
    p: Platform, buffer: seq<byte>, sys: Sys, fds: seq<Fd>, c: Credentials, credentialsFirst: bool)
    requires p.linux && fds != [] && BufferSizeForRights(p, |fds|).Some?
    requires |buffer| == BufferSizeForRights(p, |fds|).value + BufferSizeForCredentials(p)
    ensures var ops := if credentialsFirst then [AddCredentials(c), AddFds(fds)] else [AddFds(fds), AddCredentials(c)];
      var s := Run(p, Start(buffer, sys), ops);
      && s.added == (if credentialsFirst then [Creds(c), Rights(fds)] else [Rights(fds), Creds(c)])
      && s.anc.length == |s.anc.buffer| == |buffer|
      && !s.anc.receiveMode
      && AllReceived(p, Parse(p, s.anc.buffer, 0)) == s.added
  {
    var first, second := if credentialsFirst then AddCredentials(c) else AddFds(fds),
      if credentialsFirst then AddFds(fds) else AddCredentials(c);
    var start := Start(buffer, sys);
    hide BufferSizeForRights, BufferSizeForCredentials, Step, Parse, AllReceived;
    RunTwo(p, start, first, second);
    OneAddition(p, start, if credentialsFirst then Creds(c) else Rights(fds));
    OneAddition(p, Step(p, start, first), if credentialsFirst then Rights(fds) else Creds(c));
    hide Run, Usable;
    SendBufferHoldsAdditions(p, buffer, sys, [first, second]);
    var s := Run(p, start, [first, second]);
    assert s.anc.buffer[..|s.anc.buffer|] == s.anc.buffer;
  }

  // ---------------------------------------------------------------- draining

  /** A caller that takes everything out: each message, and of it each descriptor. */
  function DrainOne(n: nat): seq<Op> {
    if n == 0 then [DropIterator(0)] else [NextFd(0)] + DrainOne(n - 1)
  }

  function DrainAll(received: seq<Received>): seq<Op> {
    if received == [] then [DropMessages]
    else
      [NextMessage]
      + (match received[0] case Rights(fds) => DrainOne(|fds|) case Creds(_) => [])
      + DrainAll(received[1..])
  }

  lemma {:induction false} DrainStep(p: Platform, s: Session, fds: seq<Fd>)
    requires s.anc.Valid() && s.iterators == [fds]
    ensures fds == [] ==> Step(p, s, DropIterator(0)) == s.(iterators := [])
    ensures fds != [] ==>
      Step(p, s, NextFd(0)) == s.(iterators := [fds[1..]], caller := s.caller + [fds[0]])
  {
    hide ReceiveInto, Append, AddRightsTo, Flatten;
  }

  lemma DrainOneHead(fds: seq<Fd>, rest: seq<Op>)
    ensures DrainOne(|fds|) + rest ==
      if fds == [] then [DropIterator(0)] + rest else [NextFd(0)] + (DrainOne(|fds[1..]|) + rest)
  {
  }

  lemma {:induction false} DrainsOne(p: Platform, s: Session, fds: seq<Fd>, rest: seq<Op>)
    requires s.anc.Valid() && s.iterators == [fds]
    ensures Run(p, s, DrainOne(|fds|) + rest) == Run(p, s.(iterators := [], caller := s.caller + fds), rest)
    decreases |fds|
  {
    DrainStep(p, s, fds);
    DrainOneHead(fds, rest);
    hide Run, Step, DrainOne;
    if fds == [] {
      RunCons(p, s, DropIterator(0), rest);
      assert s.caller + [] == s.caller;
    } else {
      RunCons(p, s, NextFd(0), DrainOne(|fds[1..]|) + rest);
      DrainsOne(p, Step(p, s, NextFd(0)), fds[1..], rest);
      assert s.caller + [fds[0]] + fds[1..] == s.caller + fds;
    }
  }

  lemma {:induction false} DrainsNothing(p: Platform, s: Session)
    requires s.anc.Valid() && s.draining == Some([])
    ensures Run(p, s, [DropMessages]) == s.(draining := None) == s.(draining := None, caller := s.caller + Flatten([]))
  {
    assert [DropMessages] == [DropMessages] + [];
    RunCons(p, s, DropMessages, []);
    RunCons(p, Step(p, s, DropMessages), DropMessages, []);
    hide Run;
    assert s.caller + [] == s.caller;
  }

  lemma {:induction false} MessageStep(p: Platform, s: Session, ms: seq<Received>)
    requires s.anc.Valid() && s.iterators == [] && s.draining == Some(ms) && ms != []
    ensures Step(p, s, NextMessage)
      == s.(draining := Some(ms[1..]), iterators := if ms[0].Rights? then [ms[0].fds] else [])
  {
    hide ReceiveInto, Append, AddRightsTo, Flatten;
  }

  lemma DrainAllHead(ms: seq<Received>)
    requires ms != []
    ensures DrainAll(ms) == [NextMessage] +
      match ms[0]
      case Rights(fds) => DrainOne(|fds|) + DrainAll(ms[1..])
      case Creds(_) => DrainAll(ms[1..])
  {
    hide DrainOne;
  }

  lemma {:induction false} DrainOnce(p: Platform, s: Session, ms: seq<Received>)
    requires s.anc.Valid() && s.iterators == [] && s.draining == Some(ms) && ms != []
    ensures Run(p, s, DrainAll(ms))
      == Run(p, s.(draining := Some(ms[1..]), caller := s.caller + FdsOf(ms[0])), DrainAll(ms[1..]))
  {
    MessageStep(p, s, ms);
    DrainAllHead(ms);
    hide Run, Step, DrainAll, DrainOne;
    var rest := DrainAll(ms[1..]);
    var s1 := Step(p, s, NextMessage);
    match ms[0]
    case Rights(fds) =>
      RunCons(p, s, NextMessage, DrainOne(|fds|) + rest);
      DrainsOne(p, s1, fds, rest);
    case Creds(_) =>
      RunCons(p, s, NextMessage, rest);
      assert s.caller + [] == s.caller;
  }

  lemma {:induction false} DrainEnds(s: Session, ms: seq<Received>)
    requires ms != []
    ensures s.(draining := None, caller := s.caller + FdsOf(ms[0]) + Flatten(ms[1..]))
      == s.(draining := None, caller := s.caller + Flatten(ms))
  {
    FlattenHead(ms);
    hide Flatten, FdsOf;
    assert s.caller + FdsOf(ms[0]) + Flatten(ms[1..]) == s.caller + Flatten(ms);
  }

  lemma {:induction false} DrainsAll(p: Platform, s: Session, ms: seq<Received>)
    requires s.anc.Valid() && s.iterators == [] && s.draining == Some(ms)
    ensures Run(p, s, DrainAll(ms)) == s.(draining := None, caller := s.caller + Flatten(ms))
    decreases |ms|
  {
    if ms == [] {
      DrainsNothing(p, s);
    } else {
      hide Run, DrainAll, Flatten, FdsOf, Step;
      DrainOnce(p, s, ms);
      DrainEnds(s, ms);
      DrainsAll(p, s.(draining := Some(ms[1..]), caller := s.caller + FdsOf(ms[0])), ms[1..]);
    }
  }

  /** Draining to the end, in any run: the caller gets every received descriptor, in the order received,
      nothing is closed, and the buffer is free again. */
  lemma {:induction false} DrainingKeepsOrder(p: Platform, buffer: seq<byte>, sys: Sys, before: seq<Op>)
    requires Usable(Run(p, Start(buffer, sys), before))
    ensures var s := Run(p, Start(buffer, sys), before);
      Run(p, Start(buffer, sys), before + [TakeMessages] + DrainAll(s.anc.received))
        == s.(anc := s.anc.(received := []), caller := s.caller + Flatten(s.anc.received))
  {
    var start := Start(buffer, sys);
    var s := Run(p, start, before);
    var ms := s.anc.received;
    RunSnoc(p, start, before, TakeMessages);
    hide Run, DrainAll, Flatten;
    RunConcat(p, start, before + [TakeMessages], DrainAll(ms));
    DrainsAll(p, Step(p, s, TakeMessages), ms);
  }
}
