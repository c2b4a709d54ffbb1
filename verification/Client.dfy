/** A program using the crate's objects: each operation performed on the real buffer and iterators is
    the step of `Session`, so what is proved there about runs holds of the objects. */
module Client {
  import opened Wrappers
  import opened Bytes
  import opened Layout
  import opened Payload
  import opened Kernel
  import opened Receive
  import opened AncillaryBuffer
  import opened Session

  class Client {
    const process: Process
    const ancillary: SocketAncillary
    var alive: bool
    var messages: Messages?
    var iterators: seq<ScmRights>
    var caller: seq<Fd>
    ghost var added: seq<Received>

    ghost function Footprint(): set<object>
      reads this
    {
      {this, process, ancillary, ancillary.buffer} + (if messages == null then {} else {messages})
      + set it | it in iterators
    }

    ghost predicate Valid()
      reads this, ancillary
    {
      && ancillary.Valid() && ancillary.p == process.p
      && forall i, j :: 0 <= i < j < |iterators| ==> iterators[i] != iterators[j]
    }

    ghost function State(): Session
      reads Footprint()
    {
      Session(ancillary.State(), alive,
        if messages == null then None else Some(messages.inner),
        Inners(iterators), caller, process.sys, added)
    }

    static ghost function Inners(its: seq<ScmRights>): (r: seq<seq<Fd>>)
      reads set it | it in its
      ensures |r| == |its| && forall i :: 0 <= i < |its| ==> r[i] == its[i].inner
    {
      if its == [] then [] else [its[0].inner] + Inners(its[1..])
    }

    constructor (p: Platform, buffer: array<byte>, sys: Sys)
      requires buffer.Length <= p.usizeMax
      ensures Valid() && State() == Start(buffer[..], sys) && process.p == p
      ensures fresh(Footprint() - {buffer})
    {
      process := new Process(p, sys);
      ancillary := new SocketAncillary(p, buffer);
      alive, messages, iterators, caller, added := true, null, [], [], [];
    }

    method AddFds(fds: seq<Fd>)
      requires Valid()
      modifies this, ancillary, ancillary.buffer
      ensures Valid() && Footprint() == old(Footprint())
      ensures State() == Step(process.p, old(State()), Op.AddFds(fds))
    {
      if alive && messages == null && iterators == [] {
        var ok := ancillary.AddRights(fds);
        if ok && fds != [] { added := added + [Rights(fds)]; }
        assert added + [] == added;
      }
    }

    method AddCredentials(c: Credentials)
      requires Valid()
      modifies this, ancillary, ancillary.buffer
      ensures Valid() && Footprint() == old(Footprint())
      ensures State() == Step(process.p, old(State()), Op.AddCredentials(c))
    {
      if alive && messages == null && iterators == [] && process.p.linux {
        var ok := ancillary.AddCredentials(c);
        if ok { added := added + [Creds(c)]; }
      }
    }

    method RecvMsg(cap: nat)
      requires Valid()
      modifies this, process, ancillary, ancillary.buffer
      ensures Valid() && Footprint() == old(Footprint())
      ensures State() == Step(process.p, old(State()), Op.RecvMsg(cap))
    {
      if alive && messages == null && iterators == [] {
        var _ := RecvIntoAncillary(process, cap, ancillary);
        added := [];
      }
    }

    method TakeMessages()
      requires Valid()
      modifies this, ancillary
      ensures Valid() && fresh(Footprint() - old(Footprint()))
      ensures State() == Step(process.p, old(State()), Op.TakeMessages)
    {
      if alive && messages == null && iterators == [] {
        messages := ancillary.TakeMessages();
      }
    }

    lemma StepOnIterator(p: Platform, s: Session, which: nat)
      requires s.anc.Valid()
      ensures Step(p, s, Op.NextFd(which)) == DoNextFd(s, which)
      ensures Step(p, s, Op.DropIterator(which)) == DoDropIterator(s, which)
      ensures Step(p, s, Op.DropMessages) == DoDropMessages(s)
      ensures Step(p, s, Op.NextMessage) == DoNextMessage(s)
      ensures Step(p, s, Op.CallerClose(which)) == DoCallerClose(s, which)
    {
      hide ReceiveInto, AddRightsTo, Append, CloseAll, Flatten;
    }

    method NextMessage()
      requires Valid()
      modifies this, if messages == null then {} else {messages}
      ensures Valid() && fresh(Footprint() - old(Footprint()))
      ensures State() == Step(process.p, old(State()), Op.NextMessage)
    {
      hide Step, Inners, Flatten;
      ghost var s := State();
      StepOnIterator(process.p, s, 0);
      if messages != null {
        var data := messages.Next();
        if data.Some? && data.value.FromRights? {
          iterators := iterators + [data.value.rights];
          assert Inners(iterators) == s.iterators + [data.value.rights.inner];
        }
      }
      assert State() == DoNextMessage(s);
    }

    method Advance(which: nat) returns (fd: Option<Fd>)
      requires Valid() && which < |iterators|
      modifies iterators[which]
      ensures old(iterators[which].inner) == match fd case None => [] case Some(x) => [x] + iterators[which].inner
      ensures fd.None? ==> iterators[which].inner == []
      ensures Inners(iterators) == old(Inners(iterators))[which := iterators[which].inner]
    {
      fd := iterators[which].Next();
    }

    method NextFd(which: nat)
      requires Valid()
      modifies this`caller, set it | it in iterators
      ensures Valid() && Footprint() == old(Footprint())
      ensures State() == Step(process.p, old(State()), Op.NextFd(which))
    {
      hide Step, Inners, CloseAll, Flatten;
      ghost var s := State();
      StepOnIterator(process.p, s, which);
      if which < |iterators| {
        var fd := Advance(which);
        if fd.Some? {
          caller := caller + [fd.value];
          assert iterators[which].inner == s.iterators[which][1..];
        } else {
          assert s.iterators[which := []] == s.iterators;
        }
      }
      assert State() == DoNextFd(s, which);
    }

    method DropMessages()
      requires Valid()
      modifies this, process, if messages == null then {} else {messages}
      ensures Valid() && Footprint() <= old(Footprint())
      ensures State() == Step(process.p, old(State()), Op.DropMessages)
    {
      hide Step, Inners, CloseAll, Flatten;
      ghost var s := State();
      StepOnIterator(process.p, s, 0);
      if messages != null {
        messages.Drop(process);
        messages := null;
      }
      assert State() == DoDropMessages(s);
    }

    method DropIterator(which: nat)
      requires Valid()
      modifies this, process, set it | it in iterators
      ensures Valid() && Footprint() <= old(Footprint())
      ensures State() == Step(process.p, old(State()), Op.DropIterator(which))
    {
      hide Step, Inners, CloseAll, Flatten;
      ghost var s := State();
      StepOnIterator(process.p, s, which);
      if which < |iterators| {
        iterators[which].Drop(process);
        iterators := iterators[..which] + iterators[which + 1..];
        assert Inners(iterators) == Without(s.iterators, which);
      }
      assert State() == DoDropIterator(s, which);
    }

    method Clear()
      requires Valid()
      modifies this, process, ancillary
      ensures Valid() && Footprint() == old(Footprint())
      ensures State() == Step(process.p, old(State()), Op.Clear)
    {
      if alive && messages == null && iterators == [] {
        ancillary.Clear(process);
        added := [];
      }
    }

    method DropBuffer()
      requires Valid()
      modifies this, process, ancillary
      ensures Valid() && Footprint() == old(Footprint())
      ensures State() == Step(process.p, old(State()), Op.DropBuffer)
    {
      if alive && messages == null && iterators == [] {
        ancillary.Drop(process);
        alive := false;
      }
    }

    method CallerClose(which: nat)
      requires Valid()
      modifies this, process
      ensures Valid() && Footprint() == old(Footprint())
      ensures State() == Step(process.p, old(State()), Op.CallerClose(which))
    {
      hide Step, Inners, CloseAll, Flatten;
      ghost var s := State();
      StepOnIterator(process.p, s, which);
      if which < |caller| {
        CloseEach(process, [caller[which]]);
        caller := caller[..which] + caller[which + 1..];
      }
      assert State() == DoCallerClose(s, which);
    }

    method Do(op: Op)
      requires Valid()
      modifies Footprint()
      ensures Valid() && fresh(Footprint() - old(Footprint()))
      ensures State() == Step(process.p, old(State()), op)
    {
      hide Step, Inners;
      match op
      case AddFds(fds) => AddFds(fds);
      case AddCredentials(c) => AddCredentials(c);
      case RecvMsg(cap) => RecvMsg(cap);
      case TakeMessages => TakeMessages();
      case NextMessage => NextMessage();
      case NextFd(which) => NextFd(which);
      case DropMessages => DropMessages();
      case DropIterator(which) => DropIterator(which);
      case Clear => Clear();
      case DropBuffer => DropBuffer();
      case CallerClose(which) => CallerClose(which);
    }
  }

  /** Any program over the objects, on any storage, against any kernel: its objects hold exactly the
      open received descriptors, and no close missed. */
  method Execute(p: Platform, buffer: array<byte>, sys: Sys, ops: seq<Op>) returns (client: Client)
    requires buffer.Length <= p.usizeMax
    modifies buffer
    ensures client.Valid() && client.State() == Run(p, Start(old(buffer[..]), sys), ops)
    ensures Held(client.State()) == multiset(client.process.sys.table.open - sys.table.open)
    ensures client.process.sys.table.badCloses == sys.table.badCloses
  {
    client := new Client(p, buffer, sys);
    ghost var start := client.State();
    EveryRunOwnsExactly(p, buffer[..], sys, ops);
    hide Step, Held, Client.Inners;
    for i := 0 to |ops|
      invariant client.Valid() && client.process.p == p && fresh(client.Footprint() - {buffer})
      invariant Run(p, client.State(), ops[i..]) == Run(p, start, ops)
    {
      assert ops[i..][1..] == ops[i + 1..];
      client.Do(ops[i]);
    }
  }
}
