/** The receiving process's side of the kernel: its descriptor table, and an arbitrary finite script
    of what the coming system calls do. Nothing in the crate can influence the script, so a property
    of every script is a property of every kernel behaviour the contract below allows. */
module Kernel {
  import opened Wrappers
  import opened Bytes
  import opened Layout
  import opened Control
  import opened Payload

  // ---------------------------------------------------------------- descriptor table

  /** `badCloses` counts closes of numbers that were not open: a double close, or a close of
      something never delivered, cannot go unnoticed. */
  datatype Table = Table(open: set<Fd>, cloexec: set<Fd>, badCloses: nat)

  function CloseOne(t: Table, fd: Fd): Table {
    if fd in t.open then Table(t.open - {fd}, t.cloexec - {fd}, t.badCloses)
    else t.(badCloses := t.badCloses + 1)
  }

  /** Dropping a `Vec<OwnedFd>` or its iterator: front to back. */
  function CloseAll(t: Table, fds: seq<Fd>): Table
    decreases |fds|
  {
    if fds == [] then t else CloseAll(CloseOne(t, fds[0]), fds[1..])
  }

  function ToSet(fds: seq<Fd>): set<Fd> {
    set fd | fd in fds
  }

  predicate NoDuplicates(fds: seq<Fd>) {
    forall i, j :: 0 <= i < j < |fds| ==> fds[i] != fds[j]
  }

  lemma {:induction false} CloseAllConcat(t: Table, a: seq<Fd>, b: seq<Fd>)
    ensures CloseAll(t, a + b) == CloseAll(CloseAll(t, a), b)
    decreases |a|
  {
    if a == [] {
      assert a + b == b;
    } else {
      assert (a + b)[1..] == a[1..] + b;
      CloseAllConcat(CloseOne(t, a[0]), a[1..], b);
    }
  }

  /** Closing distinct open descriptors closes each once. */
  lemma {:induction false} CloseOwned(t: Table, fds: seq<Fd>)
    requires NoDuplicates(fds) && ToSet(fds) <= t.open
    ensures CloseAll(t, fds) == Table(t.open - ToSet(fds), t.cloexec - ToSet(fds), t.badCloses)
    decreases |fds|
  {
    if fds == [] {
      assert ToSet(fds) == {};
    } else {
      var rest := fds[1..];
      assert ToSet(fds) == {fds[0]} + ToSet(rest);
      assert fds[0] !in ToSet(rest) by {
        forall i | 0 <= i < |rest| ensures rest[i] != fds[0] { assert rest[i] == fds[i + 1]; }
      }
      assert NoDuplicates(rest) by {
        forall i, j | 0 <= i < j < |rest| ensures rest[i] != rest[j] {
          assert rest[i] == fds[i + 1] && rest[j] == fds[j + 1];
        }
      }
      CloseOwned(CloseOne(t, fds[0]), rest);
      assert t.open - {fds[0]} - ToSet(rest) == t.open - ToSet(fds);
      assert t.cloexec - {fds[0]} - ToSet(rest) == t.cloexec - ToSet(fds);
    }
  }

  // ---------------------------------------------------------------- one receive

  /** One successful `recvmsg`: payload bytes, the control messages the kernel attached, how many
      bytes of their encoding it copied out, and MSG_CTRUNC / MSG_TRUNC. */
  datatype Delivery = Delivery(
    data: seq<byte>, messages: seq<RawMessage>, copied: nat, ctrunc: bool, dtrunc: bool)

  datatype RecvStep = Interrupted | Failed(error: IoError) | Delivered(delivery: Delivery)

  /** What fcntl does to one descriptor. */
  datatype FcntlStep = FlagSet | GetFailed(errno: int) | SetFailed(errno: int)

  /** The state one system call reads and changes. */
  datatype Sys = Sys(table: Table, script: seq<RecvStep>, fcntl: seq<FcntlStep>)

  predicate WellFormed(p: Platform, d: Delivery) {
    AllEncodable(d.messages) && d.copied <= |Encode(p, d.messages)|
  }

  /** The control bytes the process sees: a prefix of a well-formed encoding. */
  function ControlBytes(p: Platform, d: Delivery): (bs: seq<byte>)
    requires WellFormed(p, d)
    ensures |bs| == d.copied
  {
    Encode(p, d.messages)[..d.copied]
  }

  /** The values whose bytes were copied out whole. The kernel installs exactly these descriptors,
      computed from the layout of what it sent, not from the parser. */
  function Installed(p: Platform, d: Delivery): seq<Slot>
    requires WellFormed(p, d)
  {
    Within(Slots(p, Locate(p, d.messages, 0)), d.copied)
  }

  function InstalledFds(p: Platform, d: Delivery): seq<Fd>
    requires WellFormed(p, d)
  {
    RightsOf(Installed(p, d)) + PidfdsOf(Installed(p, d))
  }

  /** The environment contract of a successful receive into `cap` payload bytes and `control`
      control bytes: nothing overflows the storage, descriptor numbers are fresh and pairwise
      distinct, and MSG_CTRUNC is raised whenever message data did not fit. */
  predicate Admissible(p: Platform, d: Delivery, cap: nat, control: nat, open: set<Fd>) {
    && |d.data| <= cap
    && WellFormed(p, d)
    && d.copied <= control
    && NoDuplicates(InstalledFds(p, d))
    && (forall fd :: fd in InstalledFds(p, d) ==> fd !in open)
    && (!d.ctrunc ==> forall m :: m in Locate(p, d.messages, 0) ==> m.End() <= d.copied)
  }

  /** A kernel that truncates control data only when it does not fit. The contract above does not ask
      for it: a full descriptor table truncates too. */
  predicate CutsOnlyForSpace(p: Platform, d: Delivery, control: nat)
    requires WellFormed(p, d)
  {
    |Encode(p, d.messages)| <= control ==> !d.ctrunc
  }

  function Install(p: Platform, t: Table, fds: seq<Fd>): Table {
    Table(t.open + ToSet(fds), if p.atomicCloexec then t.cloexec + ToSet(fds) else t.cloexec - ToSet(fds),
          t.badCloses)
  }

  datatype Syscall = Syscall(sys: Sys, outcome: RecvStep)

  /** `recvmsg(2)`. An exhausted script has nothing to read; a scripted delivery the contract rules
      out reads as an error, so scripts need no precondition. */
  function Recvmsg(p: Platform, s: Sys, cap: nat, control: nat): (r: Syscall)
    ensures r.outcome.Delivered? ==> Admissible(p, r.outcome.delivery, cap, control, s.table.open)
    ensures !r.outcome.Delivered? ==> r.sys.table == s.table
    ensures r.sys.fcntl == s.fcntl
    ensures r.outcome.Interrupted? ==> |r.sys.script| < |s.script|
  {
    if s.script == [] then Syscall(s, Failed(WouldBlock))
    else
      var next := s.(script := s.script[1..]);
      match s.script[0]
      case Delivered(d) =>
        if Admissible(p, d, cap, control, s.table.open) then
          Syscall(next.(table := Install(p, s.table, InstalledFds(p, d))), Delivered(d))
        else Syscall(next, Failed(Os(22)))
      case step => Syscall(next, step)
  }

  datatype Fallible<T> = Fallible(sys: Sys, result: Result<T, IoError>)

  /** `F_GETFD` then `F_SETFD`. */
  function SetCloexec(s: Sys, fd: Fd): Fallible<()> {
    if fd !in s.table.open then Fallible(s, Err(Os(9)))
    else
      var step := if s.fcntl == [] then FlagSet else s.fcntl[0];
      var next := s.(fcntl := if s.fcntl == [] then [] else s.fcntl[1..]);
      match step
      case FlagSet => Fallible(next.(table := s.table.(cloexec := s.table.cloexec + {fd})), Ok(()))
      case GetFailed(e) => Fallible(next, Err(Os(e)))
      case SetFailed(e) => Fallible(next, Err(Os(e)))
  }

  /** The process as the crate's code sees it: every method is one system call. */
  class Process {
    const p: Platform
    var sys: Sys

    constructor (p: Platform, sys: Sys)
      ensures this.p == p && this.sys == sys
    {
      this.p := p;
      this.sys := sys;
    }

    method Close(fd: Fd)
      modifies this
      ensures sys == old(sys).(table := CloseOne(old(sys.table), fd))
    {
      sys := sys.(table := CloseOne(sys.table, fd));
    }

    /** Fills `buffer` from the front with the control bytes of a delivery and leaves it alone
        otherwise. */
    method Receive(cap: nat, buffer: array<byte>) returns (outcome: RecvStep)
      modifies this, buffer
      ensures Syscall(sys, outcome) == Recvmsg(p, old(sys), cap, buffer.Length)
      ensures buffer[..] ==
        if outcome.Delivered?
        then ControlBytes(p, outcome.delivery) + old(buffer[..])[outcome.delivery.copied..]
        else old(buffer[..])
    {
      var r := Recvmsg(p, sys, cap, buffer.Length);
      sys, outcome := r.sys, r.outcome;
      if outcome.Delivered? {
        var bytes := ControlBytes(p, outcome.delivery);
        ghost var was := buffer[..];
        hide ControlBytes, Recvmsg;
        forall i | 0 <= i < |bytes| { buffer[i] := bytes[i]; }
        assert buffer[..] == bytes + was[|bytes|..];
      }
    }

    method Fcntl(fd: Fd) returns (result: Result<(), IoError>)
      modifies this
      ensures Fallible(sys, result) == SetCloexec(old(sys), fd)
    {
      var r := SetCloexec(sys, fd);
      sys, result := r.sys, r.result;
    }
  }

  // ---------------------------------------------------------------- what the parser finds

  /** The parser finds in a delivery exactly what the kernel installed: nothing delivered whole is
      missed, and nothing else is taken for a descriptor. */
  lemma {:induction false} ParserFindsInstalled(p: Platform, d: Delivery)
    requires WellFormed(p, d)
    ensures var ms := Parse(p, ControlBytes(p, d), 0);
      && Slots(p, ms) == Installed(p, d)
      && AllRights(p, ms) + AllPidfds(p, ms) == InstalledFds(p, d)
  {
    hide Parse, Slots, Locate, Encode;
    ParseEncode(p, d.messages, 0);
    ParseEncodePrefix(p, d.messages, d.copied);
    LocateInOrder(p, d.messages, 0);
    CutSlots(p, Locate(p, d.messages, 0), 0, |Encode(p, d.messages)|, d.copied);
    SlotValues(p, Parse(p, ControlBytes(p, d), 0));
  }

  /** Without MSG_CTRUNC the parser returns the messages exactly as sent. */
  lemma {:induction false} CompleteDelivery(p: Platform, d: Delivery)
    requires WellFormed(p, d)
    requires forall m :: m in Locate(p, d.messages, 0) ==> m.End() <= d.copied
    ensures Parse(p, ControlBytes(p, d), 0) == Locate(p, d.messages, 0)
  {
    hide Parse, Slots, Locate, Encode, Clip;
    ParseEncodePrefix(p, d.messages, d.copied);
    ClipEverything(Locate(p, d.messages, 0), d.copied);
  }
}
