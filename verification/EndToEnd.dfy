/** Any number of senders and one receiving process on a stream, from `send_fds_all` to `recv_core`,
    `cmsg_recvmsg` and `cmsg_recvmsg_peek`: what every run conserves, where the descriptors arrive, who
    owns them, and what a peek foretells. */
module EndToEnd {
  import opened Wrappers
  import opened Bytes
  import opened Layout
  import opened Control
  import opened Payload
  import opened Kernel
  import opened Receive
  import opened ReceiveProofs
  import opened AncillaryBuffer
  import opened ReceiveOutcomes
  import opened Stream
  import opened Channel
  import Session

  // ---------------------------------------------------------------- what was taken

  /** Everything receives took, in order. */
  function Pieces(outcomes: seq<Outcome>): seq<Segment> {
    if outcomes == [] then [] else outcomes[0].pieces + Pieces(outcomes[1..])
  }

  /** Everything the senders queued, as far as receives have cut it up. */
  function Flow(w: World): seq<Segment> {
    Pieces(w.outcomes) + w.queue
  }

  /** The numbers a convenience receive handed to its caller. */
  function HandedBy(o: Outcome): seq<Fd> {
    if o.Convenience? && o.result.Ok? then o.result.value.fds else []
  }

  function Handed(outcomes: seq<Outcome>): seq<Fd> {
    if outcomes == [] then [] else HandedBy(outcomes[0]) + Handed(outcomes[1..])
  }

  lemma {:induction false} FdsInConcat(a: seq<Segment>, b: seq<Segment>)
    ensures FdsIn(a + b) == FdsIn(a) + FdsIn(b)
  {
    if a == [] {
      assert a + b == b;
    } else {
      assert (a + b)[1..] == a[1..] + b;
      FdsInConcat(a[1..], b);
    }
  }

  lemma {:induction false} PiecesSnoc(outcomes: seq<Outcome>, o: Outcome)
    ensures Pieces(outcomes + [o]) == Pieces(outcomes) + o.pieces
  {
    if outcomes == [] {
      assert outcomes + [o] == [o];
    } else {
      assert (outcomes + [o])[1..] == outcomes[1..] + [o];
      PiecesSnoc(outcomes[1..], o);
    }
  }

  lemma {:induction false} HandedSnoc(outcomes: seq<Outcome>, o: Outcome)
    ensures Handed(outcomes + [o]) == Handed(outcomes) + HandedBy(o)
  {
    hide HandedBy;
    if outcomes == [] {
      assert outcomes + [o] == [o];
    } else {
      assert (outcomes + [o])[1..] == outcomes[1..] + [o];
      HandedSnoc(outcomes[1..], o);
    }
  }

  // ---------------------------------------------------------------- cutting a segment

  /** A segment received in two parts. */
  function Cut(s: Segment, m: nat): seq<Segment>
    requires m <= |s.bytes|
  {
    [s.(bytes := s.bytes[..m]), s.(bytes := s.bytes[m..], fds := [])]
  }

  /** A receive leaves the queue in one piece, or cuts one segment. */
  lemma {:induction false} TakeCutsOnce(queue: seq<Segment>, n: nat)
    returns (a: seq<Segment>, s: Segment, m: nat, b: seq<Segment>)
    ensures var t := Take(queue, n);
      || t.pieces + t.rest == queue
      || (0 < m < |s.bytes| && queue == a + [s] + b && t.pieces + t.rest == a + Cut(s, m) + b)
    decreases |queue|
  {
    a, s, m, b := [], Segment(0, [], []), n, [];
    if n > 0 && queue != [] {
      var t := Take(queue, n);
      if n < |queue[0].bytes| {
        s, b := queue[0], queue[1..];
        assert queue == a + [s] + b;
        assert t.pieces + t.rest == a + Cut(s, m) + b;
      } else {
        var more := Take(queue[1..], n - |queue[0].bytes|);
        a, s, m, b := TakeCutsOnce(queue[1..], n - |queue[0].bytes|);
        assert t.pieces + t.rest == [queue[0]] + (more.pieces + more.rest);
        if more.pieces + more.rest == queue[1..] {
          assert t.pieces + t.rest == queue;
        } else {
          assert [queue[0]] + (a + [s] + b) == ([queue[0]] + a) + [s] + b;
          assert [queue[0]] + (a + Cut(s, m) + b) == ([queue[0]] + a) + Cut(s, m) + b;
          a := [queue[0]] + a;
        }
      }
    }
  }

  lemma CutAlone(s: Segment, m: nat)
    requires m <= |s.bytes|
    ensures PayloadOf(Cut(s, m)) == PayloadOf([s]) && FdsIn(Cut(s, m)) == FdsIn([s])
  {
    var cut := Cut(s, m);
    assert PayloadOf(cut[1..][1..]) == [] && FdsIn(cut[1..][1..]) == [];
    assert PayloadOf([s][1..]) == [] && FdsIn([s][1..]) == [];
    assert s.bytes[..m] + s.bytes[m..] == s.bytes;
    assert PayloadOf(cut) == cut[0].bytes + (cut[1].bytes + []);
  }

  lemma {:induction false} CutPayload(a: seq<Segment>, s: Segment, m: nat, b: seq<Segment>)
    requires m <= |s.bytes|
    ensures PayloadOf(a + Cut(s, m) + b) == PayloadOf(a + [s] + b)
    ensures FdsIn(a + Cut(s, m) + b) == FdsIn(a + [s] + b)
  {
    CutAlone(s, m);
    hide PayloadOf, FdsIn, Cut;
    PayloadConcat(a + [s], b);
    PayloadConcat(a, [s]);
    PayloadConcat(a + Cut(s, m), b);
    PayloadConcat(a, Cut(s, m));
    FdsInConcat(a + [s], b);
    FdsInConcat(a, [s]);
    FdsInConcat(a + Cut(s, m), b);
    FdsInConcat(a, Cut(s, m));
  }

  lemma {:induction false} OwnCut(s: Segment, m: nat, i: nat)
    requires m <= |s.bytes|
    ensures Own([s], i) == IfOwn(s, i)
    ensures Own(Cut(s, m), i) == if s.writer == i then Cut(s, m) else []
  {
    var cut := Cut(s, m);
    assert Own([s], i) == IfOwn(s, i) + Own([s][1..], i);
    assert Own(cut, i) == IfOwn(cut[0], i) + Own(cut[1..], i);
    assert Own(cut[1..], i) == IfOwn(cut[1], i) + Own(cut[1..][1..], i);
  }

  lemma {:induction false} CutOwn(a: seq<Segment>, s: Segment, m: nat, b: seq<Segment>, i: nat)
    requires m <= |s.bytes|
    ensures Own(a + [s] + b, i) == Own(a, i) + IfOwn(s, i) + Own(b, i)
    ensures Own(a + Cut(s, m) + b, i) == Own(a, i) + (if s.writer == i then Cut(s, m) else []) + Own(b, i)
  {
    var cut := Cut(s, m);
    OwnCut(s, m, i);
    hide Own, IfOwn, Cut;
    OwnConcat(a + [s], b, i);
    OwnConcat(a, [s], i);
    OwnConcat(a + cut, b, i);
    OwnConcat(a, cut, i);
  }

  lemma {:induction false} CutAccounts(t: Task, a: seq<Segment>, s: Segment, m: nat, b: seq<Segment>)
    requires Accounts(t, a + [s] + b) && 0 < m < |s.bytes|
    ensures Accounts(t, a + Cut(s, m) + b)
  {
    CutPayload(a, s, m, b);
    hide PayloadOf;
    var x, y := a + [s] + b, a + Cut(s, m) + b;
    forall j | 0 <= j < |y| ensures y[j].fds == if j == 0 then t.fds else [] {
      assert x[|a|] == s;
      if j <= |a| { assert y[j].fds == x[j].fds; } else if j > |a| + 1 { assert y[j] == x[j - 1]; }
    }
  }

  lemma {:induction false} CutEachAccounts(
    tasks: seq<Task>, jobs: seq<Job>, a: seq<Segment>, s: Segment, m: nat, b: seq<Segment>)
    requires EachAccounts(tasks, a + [s] + b, jobs) && 0 < m < |s.bytes|
    ensures EachAccounts(tasks, a + Cut(s, m) + b, jobs)
  {
    hide Accounts, Own, Cut;
    forall i | 0 <= i < |jobs| ensures Accounts(tasks[i], Own(a + Cut(s, m) + b, i)) {
      CutOwn(a, s, m, b, i);
      assert Accounts(tasks[i], Own(a + [s] + b, i));
      if s.writer == i {
        CutAccounts(tasks[i], Own(a, i), s, m, Own(b, i));
      }
    }
  }

  // ---------------------------------------------------------------- conservation

  /** Nothing empty, and every segment from one of the writers. */
  predicate Proper(segments: seq<Segment>, writers: nat) {
    forall j :: 0 <= j < |segments| ==> segments[j].bytes != [] && segments[j].writer < writers
  }

  /** What was taken and what is queued is what the senders queued: as one stream of bytes and
      descriptors, and sender by sender. */
  predicate Flows(w: World, jobs: seq<Job>) {
    && EachAccounts(w.tasks, Flow(w), jobs)
    && Proper(Flow(w), |jobs|)
    && PayloadOf(Flow(w)) == PayloadOf(w.log)
    && FdsIn(Flow(w)) == FdsIn(w.log)
  }

  lemma CutProper(a: seq<Segment>, s: Segment, m: nat, b: seq<Segment>, writers: nat)
    requires Proper(a + [s] + b, writers) && 0 < m < |s.bytes|
    ensures Proper(a + Cut(s, m) + b, writers)
  {
    var x, y := a + [s] + b, a + Cut(s, m) + b;
    assert x[|a|] == s;
    forall j | 0 <= j < |y| ensures y[j].bytes != [] && y[j].writer < writers {
      if j < |a| { assert y[j] == x[j]; } else if j > |a| + 1 { assert y[j] == x[j - 1]; }
    }
  }

  lemma {:induction false} TakeFlows(w: World, jobs: seq<Job>, n: nat, o: Outcome, low: Session.Session)
    requires Flows(w, jobs) && o.pieces == Take(w.queue, n).pieces
    ensures Flows(w.(queue := Take(w.queue, n).rest, outcomes := w.outcomes + [o], low := low), jobs)
  {
    hide EachAccounts, PayloadOf, FdsIn, Take, Pieces, Cut;
    var t := Take(w.queue, n);
    var w' := w.(queue := t.rest, outcomes := w.outcomes + [o], low := low);
    PiecesSnoc(w.outcomes, o);
    var before := Pieces(w.outcomes);
    assert Flow(w') == before + (t.pieces + t.rest);
    var a, s, m, b := TakeCutsOnce(w.queue, n);
    if t.pieces + t.rest != w.queue {
      assert Flow(w) == (before + a) + [s] + b;
      assert Flow(w') == (before + a) + Cut(s, m) + b;
      CutPayload(before + a, s, m, b);
      CutEachAccounts(w.tasks, jobs, before + a, s, m, b);
      CutProper(before + a, s, m, b, |jobs|);
    }
  }

  lemma QueuedProper(i: nat, r: Polled, writers: nat)
    requires i < writers
    ensures Proper(Queued(i, r), writers)
  {
  }

  lemma {:induction false} AppendFlows(w: World, tasks: seq<Task>, q: seq<Segment>, jobs: seq<Job>)
    requires Flows(w, jobs) && EachAccounts(tasks, Flow(w) + q, jobs) && Proper(q, |jobs|)
    ensures Flows(w.(tasks := tasks, log := w.log + q, queue := w.queue + q), jobs)
  {
    hide EachAccounts, PayloadOf, FdsIn, Pieces;
    var w' := w.(tasks := tasks, log := w.log + q, queue := w.queue + q);
    assert Flow(w') == Flow(w) + q;
    PayloadConcat(Flow(w), q);
    PayloadConcat(w.log, q);
    FdsInConcat(Flow(w), q);
    FdsInConcat(w.log, q);
  }

  lemma {:induction false} TurnFlows(w: World, i: nat, step: SendStep, blocking: bool, jobs: seq<Job>)
    requires Flows(w, jobs) && CanTurn(w, i)
    ensures Flows(DoTurn(w, i, step, blocking), jobs)
  {
    var r := Poll(w.tasks[i], step, blocking);
    QueuedProper(i, r, |jobs|);
    hide Poll, Queued, PayloadOf, FdsIn, Flow, Proper;
    TurnAccounts(w, i, step, blocking, Flow(w), jobs);
    AppendFlows(w, w.tasks[i := r.task], Queued(i, r), jobs);
    hide EachAccounts, CanTurn, Flows;
  }

  // ---------------------------------------------------------------- one receive

  /** What the crate reported, against what the senders attached. A convenience receive hands over the
      numbers of the first descriptors of the batch, in order, as many as the mode asks for, and counts
      the rest; a low-level one brings in a number for each, fewer only when it reports truncation, and
      none when it fails. */
  predicate Honest(o: Outcome) {
    match o
    case Convenience(_, numbers, mode, Ok(core)) =>
      && core.bytesRead == |o.Bytes()|
      && |numbers| == |o.Batch()|
      && core.fds == numbers[..Min(mode.n, |numbers|)]
      && core.surplusClosed == |o.Batch()| - |core.fds|
      && CountAllowed(mode, |o.Batch()|)
    case LowLevel(_, numbers, Ok(report)) =>
      && report.bytesRead == |o.Bytes()|
      && !report.dataTruncated
      && (if report.truncated then |numbers| <= |o.Batch()| else |numbers| == |o.Batch()|)
    case LowLevel(_, numbers, Err(_)) => numbers == []
    case _ => true
  }

  lemma {:induction false} ConvenienceIsHonest(p: Platform, w: World, iov: seq<byte>, mode: CountMode)
    requires CoreDelivery(p, w.low.sys, iov, mode).Some?
    requires Matches(p, w.queue, CoreDelivery(p, w.low.sys, iov, mode).value)
    ensures var d := CoreDelivery(p, w.low.sys, iov, mode).value;
      Honest(Convenience(Take(w.queue, |d.data|).pieces, SentRights(p, d.messages), mode,
                         RecvCoreSpec(p, w.low.sys, iov, SocketKind.Stream, mode).result))
  {
    RecvCoreAccounts(p, w.low.sys, iov, SocketKind.Stream, mode);
    hide RecvCoreSpec, CoreDelivery, Take, SentRights, Carriers, PayloadOf, FdsIn;
  }

  lemma {:induction false} RightsWithin(slots: seq<Slot>, limit: nat)
    ensures |RightsOf(Within(slots, limit))| <= |RightsOf(slots)|
  {
    WithinIsPrefix(slots, limit);
    RightsOfPrefix(Within(slots, limit), slots);
  }

  /** A truncated delivery installs no more descriptors than were sent. */
  lemma {:induction false} InstalledAtMostSent(p: Platform, d: Delivery)
    requires WellFormed(p, d)
    ensures |RightsOf(Installed(p, d))| <= |SentRights(p, d.messages)|
  {
    hide Locate, Slots, Within, RightsOf, SentRights, Encode;
    var ms := Locate(p, d.messages, 0);
    RightsWithin(Slots(p, ms), d.copied);
    SlotValues(p, ms);
    LocatedRights(p, d.messages, 0);
  }

  /** What the buffer holds after a low-level receive: the installed rights on success, or nothing. */
  lemma {:induction false} ReceptionHolds(p: Platform, s: Session.Session, cap: nat)
    requires LowDelivery(p, s, cap).Some?
    ensures var d, r := LowDelivery(p, s, cap).value, ReceiveInto(p, s.anc, s.sys, cap);
      match r.result
      case Err(_) => r.anc.received == []
      case Ok(report) =>
        && report == RecvResult(|d.data|, d.ctrunc, d.dtrunc)
        && Flatten(r.anc.received) == RightsOf(Installed(p, d))
  {
    hide ReceiveInto, RecvRaw, Installed, RightsOf, CloseAll, Flatten, Fault;
    ReceptionReports(p, s.anc, s.sys, cap, LowDelivery(p, s, cap).value);
  }

  lemma {:induction false} LowDeliveryCounts(p: Platform, s: Session.Session, cap: nat)
    requires LowDelivery(p, s, cap).Some?
    ensures var d := LowDelivery(p, s, cap).value;
      && |RightsOf(Installed(p, d))| <= |SentRights(p, d.messages)|
      && (!d.ctrunc ==> |RightsOf(Installed(p, d))| == |SentRights(p, d.messages)|)
  {
    var d := LowDelivery(p, s, cap).value;
    RecvRawDelivers(p, DropFds(s.sys, Flatten(s.anc.received)), cap, |s.anc.buffer|);
    hide Installed, RightsOf, SentRights, Locate, Encode, CloseAll;
    InstalledAtMostSent(p, d);
    if !d.ctrunc { CompleteRights(p, d); }
  }

  lemma {:induction false} LowIsHonest(p: Platform, w: World, cap: nat)
    requires LowDelivery(p, w.low, cap).Some?
    requires Matches(p, w.queue, LowDelivery(p, w.low, cap).value)
    ensures var d, r := LowDelivery(p, w.low, cap).value, ReceiveInto(p, w.low.anc, w.low.sys, cap);
      Honest(LowLevel(Take(w.queue, |d.data|).pieces, Flatten(r.anc.received), r.result))
  {
    assert Flatten([]) == [];
    hide LowDelivery, ReceiveInto, Take, Flatten, Installed, RightsOf, Carriers, SentRights, PayloadOf, FdsIn;
    hide WellFormed;
    ReceptionHolds(p, w.low, cap);
    LowDeliveryCounts(p, w.low, cap);
  }

  lemma ErrorKeepsOpen(p: Platform, s: Sys, iov: seq<byte>, mode: CountMode)
    ensures var r := RecvCoreSpec(p, s, iov, SocketKind.Stream, mode);
      r.result.Err? ==> r.sys.table.open == s.table.open
  {
    hide RecvCoreSpec, CoreDelivery;
    RecvCoreAccounts(p, s, iov, SocketKind.Stream, mode);
  }

  /** The policy looks at how many there are, not at what they are. */
  lemma JudgeByPosition(mode: CountMode, sent: seq<Fd>, batch: seq<Fd>, ctrunc: bool)
    requires ctrunc || |sent| == |batch|
    ensures match Judge(SocketKind.Stream, mode, batch, ctrunc, false)
      case Reject(e) => Judge(SocketKind.Stream, mode, sent, ctrunc, false) == Reject(e)
      case Accept(kept, surplus) =>
        && |kept| <= |sent|
        && Judge(SocketKind.Stream, mode, sent, ctrunc, false).Accept?
        && Judge(SocketKind.Stream, mode, sent, ctrunc, false).kept == sent[..|kept|]
        && |Judge(SocketKind.Stream, mode, sent, ctrunc, false).surplus| == |surplus|
  {
  }

  /** The result of every matching convenience receive is the count and truncation policy applied to
      the batch, unless flagging fails first; every error leaves the open descriptors as they were. */
  lemma {:induction false} ReceiveFollowsPolicy(p: Platform, w: World, iov: seq<byte>, mode: CountMode)
    requires CoreDelivery(p, w.low.sys, iov, mode).Some?
    requires Matches(p, w.queue, CoreDelivery(p, w.low.sys, iov, mode).value)
    ensures var d := CoreDelivery(p, w.low.sys, iov, mode).value;
      var sent, batch := SentRights(p, d.messages), FdsIn(Take(w.queue, |d.data|).pieces);
      var r := RecvCoreSpec(p, w.low.sys, iov, SocketKind.Stream, mode);
      && (r.result.Err? ==> r.sys.table.open == w.low.sys.table.open)
      && match Fault(p, w.low.sys.fcntl, |RightsOf(Installed(p, d))|)
         case Some(e) => r.result == Err(e)
         case None =>
           match Judge(SocketKind.Stream, mode, batch, d.ctrunc, false)
           case Reject(e) => r.result == Err(e)
           case Accept(kept, surplus) =>
             |kept| <= |sent| && r.result == Ok(Core(|d.data|, sent[..|kept|], |surplus|))
  {
    CoreFollowsPolicy(p, w.low.sys, iov, SocketKind.Stream, mode);
    ErrorKeepsOpen(p, w.low.sys, iov, mode);
    hide RecvCoreSpec, CoreDelivery, Take, SentRights, Carriers, Installed, RightsOf, Fault, Judge, FdsIn, PayloadOf;
    var d := CoreDelivery(p, w.low.sys, iov, mode).value;
    JudgeByPosition(mode, SentRights(p, d.messages), FdsIn(Take(w.queue, |d.data|).pieces), d.ctrunc);
  }

  // ---------------------------------------------------------------- records and ownership

  predicate Recorded(outcomes: seq<Outcome>) {
    forall k :: 0 <= k < |outcomes| ==> Honest(outcomes[k]) && Carriers(outcomes[k].pieces) <= 1
  }

  /** Nothing is lost, and every record is true. */
  predicate Stands(w: World, jobs: seq<Job>) {
    Flows(w, jobs) && Recorded(w.outcomes) && Recorded(w.peeks)
  }

  /** The open descriptors are the process's own, those handed over by convenience receives, and those
      of the low-level buffer, its iterators and their caller: each has one owner. */
  predicate ReceiverOwns(w: World, foreign: set<Fd>, bad: nat) {
    var handed := Handed(w.outcomes);
    && NoDuplicates(handed) && ToSet(handed) !! foreign
    && Session.Owned(w.low, foreign + ToSet(handed), bad)
  }

  /** Everything kept over a run. */
  predicate Sound(w: World, jobs: seq<Job>, foreign: set<Fd>, bad: nat) {
    && Stands(w, jobs)
    && w.low.anc.Valid() && ReceiverOwns(w, foreign, bad)
  }

  lemma {:induction false} JoinDistinct(a: seq<Fd>, b: seq<Fd>)
    requires NoDuplicates(a) && NoDuplicates(b) && ToSet(a) !! ToSet(b)
    ensures NoDuplicates(a + b) && ToSet(a + b) == ToSet(a) + ToSet(b)
  {
    var all := a + b;
    forall i, j | 0 <= i < j < |all| ensures all[i] != all[j] {
      if i < |a| <= j { assert a[i] in ToSet(a) && b[j - |a|] in ToSet(b); }
    }
  }

  /** New descriptors that go straight to somebody else leave what is held here alone. */
  lemma HoldsBeside(t: Table, t': Table, foreign: set<Fd>, held: multiset<Fd>, added: set<Fd>)
    requires Session.Holds(t, foreign, held) && added !! t.open && t'.open == t.open + added
    ensures Session.Holds(t', foreign + added, held)
  {
    assert t'.open - (foreign + added) == t.open - foreign;
  }

  lemma {:induction false} HandOver(
    low: Session.Session, sys: Sys, foreign: set<Fd>, bad: nat, handed: seq<Fd>, fds: seq<Fd>)
    requires NoDuplicates(handed) && ToSet(handed) !! foreign
    requires Session.Owned(low, foreign + ToSet(handed), bad)
    requires NoDuplicates(fds) && ToSet(fds) !! low.sys.table.open
    requires sys.table.open == low.sys.table.open + ToSet(fds) && sys.table.badCloses == low.sys.table.badCloses
    ensures NoDuplicates(handed + fds) && ToSet(handed + fds) !! foreign
    ensures Session.Owned(low.(sys := sys), foreign + ToSet(handed + fds), bad)
  {
    assert Session.Held(low.(sys := sys)) == Session.Held(low);
    assert foreign + ToSet(handed) <= low.sys.table.open;
    hide Session.Held, NoDuplicates, ToSet;
    JoinDistinct(handed, fds);
    HoldsBeside(low.sys.table, sys.table, foreign + ToSet(handed), Session.Held(low), ToSet(fds));
    assert foreign + ToSet(handed + fds) == foreign + ToSet(handed) + ToSet(fds);
  }

  lemma {:induction false} RecvKeepsOwned(
    p: Platform, w: World, iov: seq<byte>, mode: CountMode, foreign: set<Fd>, bad: nat)
    requires ReceiverOwns(w, foreign, bad)
    ensures ReceiverOwns(DoRecv(p, w, iov, mode), foreign, bad)
  {
    RecvCoreAccounts(p, w.low.sys, iov, SocketKind.Stream, mode);
    hide RecvCoreSpec, CoreDelivery, Matches, Take, SentRights, Session.Owned, Handed;
    var r := RecvCoreSpec(p, w.low.sys, iov, SocketKind.Stream, mode);
    var w' := DoRecv(p, w, iov, mode);
    var handed := Handed(w.outcomes);
    assert ToSet([]) == {};
    if w'.outcomes == w.outcomes {
      if w' != w {
        assert handed + [] == handed;
        HandOver(w.low, r.sys, foreign, bad, handed, []);
      }
    } else {
      var o := w'.outcomes[|w.outcomes|];
      HandedSnoc(w.outcomes, o);
      HandOver(w.low, r.sys, foreign, bad, handed, HandedBy(o));
    }
  }

  lemma {:induction false} LowHandsNothing(p: Platform, w: World, cap: nat, peek: bool)
    ensures var w' := DoLow(p, w, cap, peek);
      && (w'.low == w.low || w'.low == Session.DoReceive(p, w.low, cap))
      && Handed(w'.outcomes) == Handed(w.outcomes)
  {
    hide Session.DoReceive, Handed, Take, Matches, LowDelivery, Flatten, ReceiveInto;
    var w' := DoLow(p, w, cap, peek);
    if w'.outcomes != w.outcomes {
      HandedSnoc(w.outcomes, w'.outcomes[|w.outcomes|]);
      assert Handed(w.outcomes) + [] == Handed(w.outcomes);
    }
  }

  lemma {:induction false} LowKeepsOwned(
    p: Platform, w: World, cap: nat, peek: bool, foreign: set<Fd>, bad: nat)
    requires ReceiverOwns(w, foreign, bad)
    ensures ReceiverOwns(DoLow(p, w, cap, peek), foreign, bad)
  {
    Session.ReceiveKeepsOwnership(p, w.low, cap, foreign + ToSet(Handed(w.outcomes)), bad);
    LowHandsNothing(p, w, cap, peek);
    hide Session.Owned, Session.DoReceive, Handed, DoLow, NoDuplicates, ToSet;
  }

  lemma RecordedSnoc(outcomes: seq<Outcome>, o: Outcome)
    requires Recorded(outcomes) && Honest(o) && Carriers(o.pieces) <= 1
    ensures Recorded(outcomes + [o])
  {
    hide Honest, Carriers;
  }

  lemma SameFlows(w: World, w': World, jobs: seq<Job>)
    requires Flows(w, jobs)
    requires w'.tasks == w.tasks && w'.log == w.log && w'.queue == w.queue && w'.outcomes == w.outcomes
    ensures Flows(w', jobs)
  {
    hide EachAccounts, Proper, PayloadOf, FdsIn, Pieces;
  }

  lemma {:induction false} OutcomeStands(w: World, jobs: seq<Job>, n: nat, o: Outcome, low: Session.Session)
    requires Stands(w, jobs)
    requires Honest(o) && o.pieces == Take(w.queue, n).pieces && Carriers(o.pieces) <= 1
    ensures Stands(w.(queue := Take(w.queue, n).rest, outcomes := w.outcomes + [o], low := low), jobs)
    ensures Stands(w.(peeks := w.peeks + [o], low := low), jobs)
  {
    RecordedSnoc(w.outcomes, o);
    RecordedSnoc(w.peeks, o);
    TakeFlows(w, jobs, n, o, low);
    SameFlows(w, w.(peeks := w.peeks + [o], low := low), jobs);
    hide Flows, Recorded, Honest, Carriers, Take;
  }

  lemma {:induction false} RecvStands(p: Platform, w: World, iov: seq<byte>, mode: CountMode, jobs: seq<Job>)
    requires Stands(w, jobs)
    ensures Stands(DoRecv(p, w, iov, mode), jobs)
  {
    hide RecvCoreSpec, CoreDelivery, Take, SentRights, Honest, Carriers, PayloadOf, FdsIn, Flows, Recorded;
    var delivery := CoreDelivery(p, w.low.sys, iov, mode);
    var w' := DoRecv(p, w, iov, mode);
    if delivery.Some? && Matches(p, w.queue, delivery.value) {
      ConvenienceIsHonest(p, w, iov, mode);
      OutcomeStands(w, jobs, |delivery.value.data|, w'.outcomes[|w.outcomes|], w'.low);
    } else {
      SameFlows(w, w', jobs);
    }
  }

  lemma {:induction false} LowStands(p: Platform, w: World, cap: nat, peek: bool, jobs: seq<Job>)
    requires Stands(w, jobs)
    ensures Stands(DoLow(p, w, cap, peek), jobs)
  {
    hide LowDelivery, ReceiveInto, Take, SentRights, Honest, Carriers, PayloadOf, FdsIn, Flows, Recorded, Flatten;
    var delivery := LowDelivery(p, w.low, cap);
    var w' := DoLow(p, w, cap, peek);
    if delivery.Some? && Matches(p, w.queue, delivery.value) {
      LowIsHonest(p, w, cap);
      var o := if peek then w'.peeks[|w.peeks|] else w'.outcomes[|w.outcomes|];
      OutcomeStands(w, jobs, |delivery.value.data|, o, w'.low);
    } else {
      SameFlows(w, w', jobs);
    }
  }

  lemma RecvKeepsBuffer(p: Platform, w: World, iov: seq<byte>, mode: CountMode)
    ensures DoRecv(p, w, iov, mode).low.anc == w.low.anc
  {
    hide RecvCoreSpec, CoreDelivery, Matches, Take, SentRights;
  }

  lemma LowKeepsValid(p: Platform, w: World, cap: nat, peek: bool)
    requires w.low.anc.Valid()
    ensures DoLow(p, w, cap, peek).low.anc.Valid()
  {
    hide ReceiveInto, LowDelivery, Matches, Take, Flatten;
  }

  lemma {:induction false} ReceivesKeepSound(
    p: Platform, w: World, e: Event, jobs: seq<Job>, foreign: set<Fd>, bad: nat)
    requires Sound(w, jobs, foreign, bad) && (e.Recv? || e.RecvLow? || e.Peek?)
    ensures Sound(Next(p, w, e), jobs, foreign, bad)
  {
    hide Stands, ReceiverOwns, DoRecv, DoLow, Session.Usable;
    match e
    case Recv(iov, mode) =>
      RecvStands(p, w, iov, mode, jobs);
      RecvKeepsOwned(p, w, iov, mode, foreign, bad);
      RecvKeepsBuffer(p, w, iov, mode);
    case RecvLow(cap) =>
      LowStands(p, w, cap, false, jobs);
      LowKeepsOwned(p, w, cap, false, foreign, bad);
      LowKeepsValid(p, w, cap, false);
    case Peek(cap) =>
      LowStands(p, w, cap, true, jobs);
      LowKeepsOwned(p, w, cap, true, foreign, bad);
      LowKeepsValid(p, w, cap, true);
  }

  lemma {:induction false} NextKeepsSound(
    p: Platform, w: World, e: Event, jobs: seq<Job>, foreign: set<Fd>, bad: nat)
    requires Sound(w, jobs, foreign, bad)
    ensures Sound(Next(p, w, e), jobs, foreign, bad)
  {
    match e
    case Turn(i, step, blocking) =>
      if CanTurn(w, i) {
        TurnFlows(w, i, step, blocking, jobs);
        hide Flows, Recorded, Session.Owned, Poll, CanTurn;
      }
    case Cancel(i) =>
      CancelAccounts(w, i, Flow(w), jobs);
      hide EachAccounts, Recorded, Session.Owned, Proper, Pieces;
    case Local(op) =>
      Session.StepKeepsOwnership(p, w.low, op, foreign + ToSet(Handed(w.outcomes)), bad);
      hide EachAccounts, Recorded, Session.Owned, Proper, Pieces, Session.Step;
    case _ => ReceivesKeepSound(p, w, e, jobs, foreign, bad);
  }

  lemma {:induction false} RunKeepsSound(
    p: Platform, w: World, events: seq<Event>, jobs: seq<Job>, foreign: set<Fd>, bad: nat)
    requires Sound(w, jobs, foreign, bad)
    ensures Sound(RunEvents(p, w, events), jobs, foreign, bad)
    decreases |events|
  {
    hide Next, Sound;
    if events != [] {
      NextKeepsSound(p, w, events[0], jobs, foreign, bad);
      RunKeepsSound(p, Next(p, w, events[0]), events[1..], jobs, foreign, bad);
    }
  }

  lemma {:induction false} OpeningIsSound(p: Platform, jobs: seq<Job>, buffer: seq<byte>, sys: Sys)
    ensures Sound(Opening(p, jobs, buffer, sys), jobs, sys.table.open, sys.table.badCloses)
  {
    OpeningAccounts(p, jobs, buffer, sys);
    Session.StartIsOk(p, buffer, sys);
    hide EachAccounts, Begin, Session.Owned;
    var w := Opening(p, jobs, buffer, sys);
    assert Flow(w) == [];
    assert sys.table.open + ToSet([]) == sys.table.open;
  }

  // ---------------------------------------------------------------- conservation over runs

  function NotYetSent(t: Task): seq<Fd> {
    if t.sent == 0 then t.fds else []
  }

  /** At any moment of any run, what receives took, then what is queued, is what was ever queued, in
      order; every receive and peek is one of the crate's and reports the truth about what it found. */
  lemma {:induction false} EveryRunConserves(
    p: Platform, jobs: seq<Job>, buffer: seq<byte>, sys: Sys, events: seq<Event>)
    ensures var w := RunEvents(p, Opening(p, jobs, buffer, sys), events);
      && PayloadOf(Pieces(w.outcomes)) + PayloadOf(w.queue) == PayloadOf(w.log)
      && FdsIn(Pieces(w.outcomes)) + FdsIn(w.queue) == FdsIn(w.log)
      && (forall k :: 0 <= k < |w.outcomes| ==> Honest(w.outcomes[k]))
      && (forall k :: 0 <= k < |w.peeks| ==> Honest(w.peeks[k]))
  {
    OpeningIsSound(p, jobs, buffer, sys);
    hide RunEvents, Opening, EachAccounts, Proper, Honest, Carriers, ReceiverOwns, PayloadOf, FdsIn, Pieces;
    RunKeepsSound(p, Opening(p, jobs, buffer, sys), events, jobs, sys.table.open, sys.table.badCloses);
    var w := RunEvents(p, Opening(p, jobs, buffer, sys), events);
    PayloadConcat(Pieces(w.outcomes), w.queue);
    FdsInConcat(Pieces(w.outcomes), w.queue);
  }

  lemma {:induction false} AttachedOnceFds(segments: seq<Segment>, fds: seq<Fd>)
    requires AttachedOnce(segments, fds)
    ensures FdsIn(segments) == if segments == [] then [] else fds
  {
    if segments != [] {
      assert AttachedOnce(segments[1..], []);
      AttachedOnceFds(segments[1..], []);
    }
  }

  lemma {:induction false} SenderConserves(w: World, jobs: seq<Job>, i: nat)
    requires Flows(w, jobs) && i < |jobs|
    ensures |w.tasks| == |jobs| && w.tasks[i].sent <= |jobs[i].data|
    ensures var taken, queued := Own(Pieces(w.outcomes), i), Own(w.queue, i);
      && PayloadOf(taken) + PayloadOf(queued) + jobs[i].data[w.tasks[i].sent..] == jobs[i].data
      && FdsIn(taken) + FdsIn(queued) + NotYetSent(w.tasks[i]) == jobs[i].fds
      && (w.tasks[i].phase == Finished(Ok(())) ==> w.tasks[i].sent == |jobs[i].data| && NotYetSent(w.tasks[i]) == [])
  {
    hide Own, AttachedOnce, Pieces, PayloadOf, FdsIn, Proper;
    var taken, queued, t := Own(Pieces(w.outcomes), i), Own(w.queue, i), w.tasks[i];
    OwnConcat(Pieces(w.outcomes), w.queue, i);
    assert Accounts(t, Own(Flow(w), i));
    PayloadConcat(taken, queued);
    FdsInConcat(taken, queued);
    AttachedOnceFds(taken + queued, t.fds);
    assert t.data[..t.sent] + t.data[t.sent..] == t.data;
  }

  /** The same for each sender on its own, whoever else writes: its bytes received, queued and unsent
      make up its payload, and its descriptors taken, queued and not yet sent its list. */
  lemma {:induction false} EverySenderConserves(
    p: Platform, jobs: seq<Job>, buffer: seq<byte>, sys: Sys, events: seq<Event>, i: nat)
    requires i < |jobs|
    ensures var w := RunEvents(p, Opening(p, jobs, buffer, sys), events);
      && |w.tasks| == |jobs| && w.tasks[i].sent <= |jobs[i].data|
      && var taken, queued := Own(Pieces(w.outcomes), i), Own(w.queue, i);
      && PayloadOf(taken) + PayloadOf(queued) + jobs[i].data[w.tasks[i].sent..] == jobs[i].data
      && FdsIn(taken) + FdsIn(queued) + NotYetSent(w.tasks[i]) == jobs[i].fds
  {
    OpeningIsSound(p, jobs, buffer, sys);
    hide RunEvents, Opening, Proper, Recorded, ReceiverOwns, Own, AttachedOnce, Pieces;
    RunKeepsSound(p, Opening(p, jobs, buffer, sys), events, jobs, sys.table.open, sys.table.badCloses);
    var w := RunEvents(p, Opening(p, jobs, buffer, sys), events);
    SenderConserves(w, jobs, i);
  }

  // ---------------------------------------------------------------- where the descriptors arrive

  /** The receive that takes the first byte of sender `i`. */
  function FirstWith(outcomes: seq<Outcome>, i: nat): nat {
    if outcomes == [] || PayloadOf(Own(outcomes[0].pieces, i)) != [] then 0 else 1 + FirstWith(outcomes[1..], i)
  }

  lemma {:induction false} OwnBytes(segments: seq<Segment>, i: nat, writers: nat)
    requires Proper(segments, writers)
    ensures PayloadOf(Own(segments, i)) == [] <==> Own(segments, i) == []
  {
    if segments != [] {
      OwnBytes(segments[1..], i, writers);
      if segments[0].writer == i {
        assert Own(segments, i)[0] == segments[0];
        assert PayloadOf(Own(segments, i)) == segments[0].bytes + PayloadOf(Own(segments, i)[1..]);
      } else {
        assert Own(segments, i) == Own(segments[1..], i);
      }
    }
  }

  lemma AttachedSplit(a: seq<Segment>, b: seq<Segment>, fds: seq<Fd>)
    requires AttachedOnce(a + b, fds)
    ensures AttachedOnce(a, fds) && AttachedOnce(b, if a == [] then fds else [])
  {
    var c := a + b;
    forall j | 0 <= j < |a| ensures a[j].fds == if j == 0 then fds else [] { assert c[j] == a[j]; }
    forall j | 0 <= j < |b| ensures b[j].fds == if j == 0 && a == [] then fds else [] { assert c[|a| + j] == b[j]; }
  }

  lemma ProperSplit(a: seq<Segment>, b: seq<Segment>, writers: nat)
    requires Proper(a + b, writers)
    ensures Proper(a, writers) && Proper(b, writers)
  {
    forall j | 0 <= j < |b| ensures b[j].bytes != [] && b[j].writer < writers { assert (a + b)[|a| + j] == b[j]; }
    forall j | 0 <= j < |a| ensures a[j].bytes != [] && a[j].writer < writers { assert (a + b)[j] == a[j]; }
  }

  lemma {:induction false} ArrivesOnce(outcomes: seq<Outcome>, i: nat, fds: seq<Fd>, writers: nat, k: nat)
    requires Proper(Pieces(outcomes), writers) && AttachedOnce(Own(Pieces(outcomes), i), fds)
    requires k < |outcomes|
    ensures FdsIn(Own(outcomes[k].pieces, i)) == if k == FirstWith(outcomes, i) then fds else []
    decreases |outcomes|
  {
    var head, tail := outcomes[0].pieces, Pieces(outcomes[1..]);
    var own := Own(head, i);
    OwnConcat(head, tail, i);
    ProperSplit(head, tail, writers);
    AttachedSplit(own, Own(tail, i), fds);
    OwnBytes(head, i, writers);
    AttachedOnceFds(own, fds);
    hide Own, PayloadOf, FdsIn, AttachedOnce, Proper, Pieces;
    if k > 0 { ArrivesOnce(outcomes[1..], i, if own == [] then fds else [], writers, k - 1); }
  }

  lemma {:induction false} OwnFds(pieces: seq<Segment>, i: nat)
    requires pieces != []
    ensures FdsIn(Own(pieces, i)) == (if pieces[0].writer == i then pieces[0].fds else []) + FdsIn(Own(pieces[1..], i))
  {
    FdsInConcat(IfOwn(pieces[0], i), Own(pieces[1..], i));
    assert FdsIn([pieces[0]]) == pieces[0].fds + FdsIn([pieces[0]][1..]);
  }

  lemma {:induction false} NoCarriers(pieces: seq<Segment>, i: nat)
    requires Carriers(pieces) == 0
    ensures FdsIn(pieces) == [] && FdsIn(Own(pieces, i)) == []
  {
    if pieces != [] {
      NoCarriers(pieces[1..], i);
      OwnFds(pieces, i);
    }
  }

  /** Where at most one segment carries descriptors, they are all from its sender. */
  lemma {:induction false} OnlyCarrier(pieces: seq<Segment>, i: nat)
    requires Carriers(pieces) <= 1 && FdsIn(Own(pieces, i)) != []
    ensures FdsIn(pieces) == FdsIn(Own(pieces, i))
  {
    assert pieces != [];
    OwnFds(pieces, i);
    if pieces[0].fds != [] {
      NoCarriers(pieces[1..], i);
    } else {
      OnlyCarrier(pieces[1..], i);
    }
  }

  lemma {:induction false} SomeCarrier(pieces: seq<Segment>, writers: nat) returns (i: nat)
    requires Carriers(pieces) <= 1 && Proper(pieces, writers) && FdsIn(pieces) != []
    ensures i < writers && FdsIn(Own(pieces, i)) != []
  {
    if pieces[0].fds != [] {
      i := pieces[0].writer;
    } else {
      i := SomeCarrier(pieces[1..], writers);
    }
    OwnFds(pieces, i);
  }

  lemma {:induction false} PiecesProper(outcomes: seq<Outcome>, k: nat, writers: nat)
    requires Proper(Pieces(outcomes), writers) && k < |outcomes|
    ensures Proper(outcomes[k].pieces, writers)
    decreases |outcomes|
  {
    ProperSplit(outcomes[0].pieces, Pieces(outcomes[1..]), writers);
    if k > 0 {
      hide Proper;
      PiecesProper(outcomes[1..], k - 1, writers);
    }
  }

  /** Each sender's list arrives, whole and in order, in the receive that takes its first byte. */
  predicate WholeWithFirstByte(outcomes: seq<Outcome>, jobs: seq<Job>) {
    forall k, i :: 0 <= k < |outcomes| && 0 <= i < |jobs| ==>
      FdsIn(Own(outcomes[k].pieces, i)) == if k == FirstWith(outcomes, i) then jobs[i].fds else []
  }

  /** What receive `k` got is one sender's list. */
  predicate OneList(outcomes: seq<Outcome>, jobs: seq<Job>, k: nat)
    requires k < |outcomes|
  {
    exists i :: 0 <= i < |jobs| && FirstWith(outcomes, i) == k && outcomes[k].Batch() == jobs[i].fds
  }

  lemma {:induction false} FlowsArriveWhole(w: World, jobs: seq<Job>)
    requires Flows(w, jobs)
    ensures WholeWithFirstByte(w.outcomes, jobs)
  {
    hide Own, AttachedOnce, Pieces, PayloadOf, FdsIn, Proper, FirstWith;
    var pieces := Pieces(w.outcomes);
    ProperSplit(pieces, w.queue, |jobs|);
    forall k, i | 0 <= k < |w.outcomes| && 0 <= i < |jobs|
      ensures FdsIn(Own(w.outcomes[k].pieces, i)) == if k == FirstWith(w.outcomes, i) then jobs[i].fds else []
    {
      assert Accounts(w.tasks[i], Own(Flow(w), i));
      OwnConcat(pieces, w.queue, i);
      AttachedSplit(Own(pieces, i), Own(w.queue, i), jobs[i].fds);
      ArrivesOnce(w.outcomes, i, jobs[i].fds, |jobs|, k);
    }
  }

  lemma {:induction false} BatchIsOneList(w: World, jobs: seq<Job>, k: nat)
    requires Stands(w, jobs) && k < |w.outcomes| && w.outcomes[k].Batch() != []
    ensures OneList(w.outcomes, jobs, k)
  {
    FlowsArriveWhole(w, jobs);
    ProperSplit(Pieces(w.outcomes), w.queue, |jobs|);
    hide EachAccounts, Honest, Own, PayloadOf, FdsIn, Proper, Pieces, FirstWith, Carriers;
    PiecesProper(w.outcomes, k, |jobs|);
    var i := SomeCarrier(w.outcomes[k].pieces, |jobs|);
    OnlyCarrier(w.outcomes[k].pieces, i);
    assert FdsIn(Own(w.outcomes[k].pieces, i)) == if k == FirstWith(w.outcomes, i) then jobs[i].fds else [];
    assert FirstWith(w.outcomes, i) == k && w.outcomes[k].Batch() == jobs[i].fds;
  }

  /** Descriptor lists are never split, merged, reordered or repeated, however many senders write: each
      arrives whole in the receive that takes its sender's first byte, and a receive gets at most one. */
  lemma {:induction false} ListsArriveWhole(
    p: Platform, jobs: seq<Job>, buffer: seq<byte>, sys: Sys, events: seq<Event>)
    ensures var w := RunEvents(p, Opening(p, jobs, buffer, sys), events);
      && WholeWithFirstByte(w.outcomes, jobs)
      && forall k :: 0 <= k < |w.outcomes| && w.outcomes[k].Batch() != [] ==> OneList(w.outcomes, jobs, k)
  {
    OpeningIsSound(p, jobs, buffer, sys);
    hide RunEvents, Opening, Flows, Recorded, ReceiverOwns, WholeWithFirstByte, OneList, FdsIn;
    RunKeepsSound(p, Opening(p, jobs, buffer, sys), events, jobs, sys.table.open, sys.table.badCloses);
    var w := RunEvents(p, Opening(p, jobs, buffer, sys), events);
    FlowsArriveWhole(w, jobs);
    forall k | 0 <= k < |w.outcomes| && w.outcomes[k].Batch() != [] ensures OneList(w.outcomes, jobs, k) {
      BatchIsOneList(w, jobs, k);
    }
  }

  // ---------------------------------------------------------------- draining

  /** A receive that brought in everything it found. */
  predicate Succeeds(o: Outcome) {
    match o
    case Convenience(_, _, _, result) => result.Ok?
    case LowLevel(_, _, report) => report.Ok? && !report.value.truncated
  }

  /** How much of the batch the caller got. */
  function KeptCount(o: Outcome): nat {
    if o.Convenience? && o.result.Ok? then Min(|o.result.value.fds|, |o.Batch()|) else |o.Batch()|
  }

  function Returned(o: Outcome): seq<Fd> {
    o.Batch()[..KeptCount(o)]
  }

  function SurplusClosed(o: Outcome): seq<Fd> {
    o.Batch()[KeptCount(o)..]
  }

  lemma {:induction false} SomeReceive(outcomes: seq<Outcome>, i: nat) returns (k: nat)
    requires FdsIn(Own(Pieces(outcomes), i)) != []
    ensures k < |outcomes| && FdsIn(Own(outcomes[k].pieces, i)) != []
    decreases |outcomes|
  {
    k := 0;
    if FdsIn(Own(outcomes[0].pieces, i)) == [] {
      OwnConcat(outcomes[0].pieces, Pieces(outcomes[1..]), i);
      FdsInConcat(Own(outcomes[0].pieces, i), Own(Pieces(outcomes[1..]), i));
      hide FdsIn, Own;
      k := SomeReceive(outcomes[1..], i);
      k := k + 1;
    }
  }

  lemma {:induction false} ListWasReceived(w: World, jobs: seq<Job>, i: nat)
    requires Stands(w, jobs) && i < |jobs| && FdsIn(Own(Pieces(w.outcomes), i)) == jobs[i].fds != []
    ensures var k := FirstWith(w.outcomes, i);
      k < |w.outcomes| && w.outcomes[k].Batch() == jobs[i].fds
  {
    hide Flows, Honest, Own, FdsIn, Pieces, FirstWith, Carriers;
    FlowsArriveWhole(w, jobs);
    var k := SomeReceive(w.outcomes, i);
    assert FdsIn(Own(w.outcomes[k].pieces, i)) == if k == FirstWith(w.outcomes, i) then jobs[i].fds else [];
    OnlyCarrier(w.outcomes[k].pieces, i);
  }

  /** Sender `i` is done and nothing of it is queued: its payload arrived once and whole, its list in
      one receive, and if that one succeeded, the descriptors it returned, followed by those it closed as
      surplus, are the list as it was sent. */
  predicate Drained(w: World, job: Job, i: nat) {
    && PayloadOf(Own(Pieces(w.outcomes), i)) == job.data
    && (job.fds != [] ==>
      var k := FirstWith(w.outcomes, i);
      && k < |w.outcomes|
      && w.outcomes[k].Batch() == job.fds
      && (Succeeds(w.outcomes[k]) ==> Returned(w.outcomes[k]) + SurplusClosed(w.outcomes[k]) == job.fds))
  }

  lemma {:induction false} SenderDrained(w: World, jobs: seq<Job>, i: nat)
    requires Stands(w, jobs) && i < |jobs| && |w.tasks| == |jobs|
    requires w.tasks[i].phase == Finished(Ok(())) && Own(w.queue, i) == []
    ensures Drained(w, jobs[i], i)
  {
    SenderConserves(w, jobs, i);
    assert PayloadOf([]) == [] && FdsIn([]) == [];
    hide EachAccounts, Proper, Recorded, FdsIn, PayloadOf, Own, Pieces, FirstWith, NotYetSent;
    if jobs[i].fds != [] { ListWasReceived(w, jobs, i); }
  }

  /** Any send that reported success and has left the queue, among any other senders. */
  lemma {:induction false} DrainedCompletely(
    p: Platform, jobs: seq<Job>, buffer: seq<byte>, sys: Sys, events: seq<Event>, i: nat)
    requires i < |jobs|
    ensures var w := RunEvents(p, Opening(p, jobs, buffer, sys), events);
      && |w.tasks| == |jobs|
      && (w.tasks[i].phase == Finished(Ok(())) && Own(w.queue, i) == [] ==> Drained(w, jobs[i], i))
  {
    OpeningIsSound(p, jobs, buffer, sys);
    hide RunEvents, Opening, Flows, Recorded, ReceiverOwns, Own, Drained;
    RunKeepsSound(p, Opening(p, jobs, buffer, sys), events, jobs, sys.table.open, sys.table.badCloses);
    var w := RunEvents(p, Opening(p, jobs, buffer, sys), events);
    SenderConserves(w, jobs, i);
    if w.tasks[i].phase == Finished(Ok(())) && Own(w.queue, i) == [] { SenderDrained(w, jobs, i); }
  }

  lemma {:induction false} OnlyWriter(segments: seq<Segment>)
    requires Proper(segments, 1)
    ensures Own(segments, 0) == segments
  {
    if segments != [] { OnlyWriter(segments[1..]); }
  }

  lemma {:induction false} OneSender(w: World, job: Job)
    requires Flows(w, [job])
    ensures PayloadOf(Pieces(w.outcomes)) <= job.data
    ensures forall k :: 0 <= k < |w.outcomes| ==>
      w.outcomes[k].Batch() == if k == FirstWith(w.outcomes, 0) then job.fds else []
  {
    FlowsArriveWhole(w, [job]);
    SenderConserves(w, [job], 0);
    hide EachAccounts, Own, Pieces, PayloadOf, FdsIn, Proper, FirstWith, NotYetSent;
    ProperSplit(Pieces(w.outcomes), w.queue, 1);
    OnlyWriter(Pieces(w.outcomes));
    forall k | 0 <= k < |w.outcomes|
      ensures w.outcomes[k].Batch() == if k == FirstWith(w.outcomes, 0) then job.fds else []
    {
      PiecesProper(w.outcomes, k, 1);
      OnlyWriter(w.outcomes[k].pieces);
      assert FdsIn(Own(w.outcomes[k].pieces, 0)) == if k == FirstWith(w.outcomes, 0) then [job][0].fds else [];
    }
  }

  /** One sender: everything received is its payload in order, and the first receive that gets any of it
      gets all the descriptors. */
  lemma {:induction false} DescriptorsRideFirstByte(
    p: Platform, job: Job, buffer: seq<byte>, sys: Sys, events: seq<Event>)
    ensures var w := RunEvents(p, Opening(p, [job], buffer, sys), events);
      && PayloadOf(Pieces(w.outcomes)) <= job.data
      && forall k :: 0 <= k < |w.outcomes| ==>
        w.outcomes[k].Batch() == if k == FirstWith(w.outcomes, 0) then job.fds else []
  {
    OpeningIsSound(p, [job], buffer, sys);
    hide RunEvents, Opening, ReceiverOwns, Recorded;
    RunKeepsSound(p, Opening(p, [job], buffer, sys), events, [job], sys.table.open, sys.table.badCloses);
    OneSender(RunEvents(p, Opening(p, [job], buffer, sys), events), job);
  }

  // ---------------------------------------------------------------- ownership over runs

  lemma {:induction false} OwnersAreDistinct(w: World, foreign: set<Fd>, bad: nat)
    requires ReceiverOwns(w, foreign, bad)
    ensures NoDuplicates(Flatten(w.low.anc.received) + w.low.caller + Handed(w.outcomes))
    ensures ToSet(Flatten(w.low.anc.received) + w.low.caller + Handed(w.outcomes)) !! foreign
  {
    var handed := Handed(w.outcomes);
    Session.OwnedAreDistinct(w.low, foreign + ToSet(handed), bad);
    hide Session.Owned, Handed, Flatten, NoDuplicates, ToSet;
    JoinDistinct(Flatten(w.low.anc.received) + w.low.caller, handed);
  }

  /** At any moment of any run each open received descriptor has one owner: the buffer, its iterators,
      their caller, or the caller of a convenience receive. No close ever missed. What was just received
      or peeked, what was drained before, and what was handed over are pairwise distinct. */
  lemma {:induction false} EveryDescriptorHasOneOwner(
    p: Platform, jobs: seq<Job>, buffer: seq<byte>, sys: Sys, events: seq<Event>)
    ensures var w := RunEvents(p, Opening(p, jobs, buffer, sys), events);
      var handed := Handed(w.outcomes);
      && sys.table.open + ToSet(handed) <= w.low.sys.table.open
      && Session.Held(w.low) == multiset(w.low.sys.table.open - (sys.table.open + ToSet(handed)))
      && w.low.sys.table.badCloses == sys.table.badCloses
      && NoDuplicates(Flatten(w.low.anc.received) + w.low.caller + handed)
      && ToSet(Flatten(w.low.anc.received) + w.low.caller + handed) !! sys.table.open
  {
    OpeningIsSound(p, jobs, buffer, sys);
    hide RunEvents, Opening, Stands, Handed, Flatten, Session.Held;
    RunKeepsSound(p, Opening(p, jobs, buffer, sys), events, jobs, sys.table.open, sys.table.badCloses);
    var w := RunEvents(p, Opening(p, jobs, buffer, sys), events);
    OwnersAreDistinct(w, sys.table.open, sys.table.badCloses);
  }

  /** What a low-level receive records is what it left in the buffer. */
  lemma {:induction false} LowRecords(p: Platform, w: World, cap: nat, peek: bool)
    ensures var w' := DoLow(p, w, cap, peek);
      var log, log' := if peek then w.peeks else w.outcomes, if peek then w'.peeks else w'.outcomes;
      && w'.low.caller == w.low.caller
      && (log' != log ==>
        && |log'| == |log| + 1 && log'[..|log|] == log
        && log'[|log|].numbers == Flatten(w'.low.anc.received))
  {
    hide Flatten, Take, Matches, LowDelivery, ReceiveInto;
  }

  lemma {:induction false} LowIsFresh(p: Platform, w: World, cap: nat, peek: bool, foreign: set<Fd>, bad: nat)
    requires ReceiverOwns(w, foreign, bad)
    ensures var w' := DoLow(p, w, cap, peek);
      var log, log' := if peek then w.peeks else w.outcomes, if peek then w'.peeks else w'.outcomes;
      log' != log ==>
        && |log'| == |log| + 1 && log'[..|log|] == log
        && NoDuplicates(log'[|log|].numbers + w.low.caller + Handed(w.outcomes))
        && ToSet(log'[|log|].numbers) !! foreign
  {
    hide ReceiverOwns, Handed, Flatten, DoLow, NoDuplicates;
    var w' := DoLow(p, w, cap, peek);
    LowKeepsOwned(p, w, cap, peek, foreign, bad);
    LowHandsNothing(p, w, cap, peek);
    LowRecords(p, w, cap, peek);
    OwnersAreDistinct(w', foreign, bad);
  }

  lemma NextIsLow(p: Platform, w: World, cap: nat, peek: bool)
    ensures var w' := Next(p, w, if peek then Peek(cap) else RecvLow(cap));
      w' == w || w' == DoLow(p, w, cap, peek)
  {
    hide DoLow;
  }

  /** In any run, the numbers a peek or low-level receive brings in are distinct, new to the process,
      and none that a caller still holds from an earlier peek or receive. */
  lemma {:induction false} EveryBatchIsFresh(
    p: Platform, jobs: seq<Job>, buffer: seq<byte>, sys: Sys, events: seq<Event>, cap: nat, peek: bool)
    ensures var w := RunEvents(p, Opening(p, jobs, buffer, sys), events);
      var w' := Next(p, w, if peek then Peek(cap) else RecvLow(cap));
      var log, log' := if peek then w.peeks else w.outcomes, if peek then w'.peeks else w'.outcomes;
      log' != log ==>
        && |log'| == |log| + 1 && log'[..|log|] == log
        && NoDuplicates(log'[|log|].numbers + w.low.caller + Handed(w.outcomes))
        && ToSet(log'[|log|].numbers) !! sys.table.open
  {
    OpeningIsSound(p, jobs, buffer, sys);
    hide RunEvents, Opening, Stands, ReceiverOwns, Handed, Flatten, Next;
    RunKeepsSound(p, Opening(p, jobs, buffer, sys), events, jobs, sys.table.open, sys.table.badCloses);
    var w := RunEvents(p, Opening(p, jobs, buffer, sys), events);
    LowIsFresh(p, w, cap, peek, sys.table.open, sys.table.badCloses);
    NextIsLow(p, w, cap, peek);
  }

  // ---------------------------------------------------------------- peeking

  predicate Consumes(e: Event) {
    e.Recv? || e.RecvLow?
  }

  lemma PayloadHead(s: Segment, rest: seq<Segment>)
    ensures PayloadOf([s] + rest) == s.bytes + PayloadOf(rest) && FdsIn([s] + rest) == s.fds + FdsIn(rest)
  {
    assert ([s] + rest)[1..] == rest;
  }

  lemma {:induction false} TakeHead(queue: seq<Segment>, n: nat)
    requires queue != [] && n > 0
    ensures var pieces, head := Take(queue, n).pieces, queue[0];
      if n < |head.bytes| then PayloadOf(pieces) == head.bytes[..n] && FdsIn(pieces) == head.fds
      else
        var more := Take(queue[1..], n - |head.bytes|).pieces;
        PayloadOf(pieces) == head.bytes + PayloadOf(more) && FdsIn(pieces) == head.fds + FdsIn(more)
  {
    var head := queue[0];
    if n < |head.bytes| {
      PayloadHead(head.(bytes := head.bytes[..n]), []);
    } else {
      PayloadHead(head, Take(queue[1..], n - |head.bytes|).pieces);
    }
  }

  /** Looking further, or later, only ever adds at the end. */
  lemma {:induction false} TakeMonotone(queue: seq<Segment>, more: seq<Segment>, m: nat, n: nat)
    requires m <= n
    ensures var a, b := Take(queue, m).pieces, Take(queue + more, n).pieces;
      PayloadOf(a) <= PayloadOf(b) && FdsIn(a) <= FdsIn(b)
    decreases |queue|
  {
    if m > 0 && queue != [] {
      var whole, head := queue + more, queue[0];
      assert whole[0] == head && whole[1..] == queue[1..] + more;
      TakeHead(queue, m);
      TakeHead(whole, n);
      hide Take, PayloadOf, FdsIn;
      if m >= |head.bytes| { TakeMonotone(queue[1..], more, m - |head.bytes|, n - |head.bytes|); }
    } else {
      assert PayloadOf([]) == [] && FdsIn([]) == [];
    }
  }

  /** A receive no longer than what is queued does not see later sends. */
  lemma {:induction false} TakeIgnoresLaterSends(queue: seq<Segment>, more: seq<Segment>, n: nat)
    requires n <= |PayloadOf(queue)|
    ensures Take(queue, n).pieces == Take(queue + more, n).pieces
    decreases |queue|
  {
    if n > 0 {
      assert queue != [];
      var whole := queue + more;
      assert whole[0] == queue[0] && whole[1..] == queue[1..] + more;
      if n >= |queue[0].bytes| { TakeIgnoresLaterSends(queue[1..], more, n - |queue[0].bytes|); }
    }
  }

  lemma {:induction false} TakeWithin(queue: seq<Segment>, n: nat)
    ensures |PayloadOf(Take(queue, n).pieces)| <= |PayloadOf(queue)|
    decreases |queue|
  {
    if n > 0 && queue != [] {
      TakeHead(queue, n);
      if n >= |queue[0].bytes| { TakeWithin(queue[1..], n - |queue[0].bytes|); }
    }
  }

  lemma QueueOnlyGrows(p: Platform, w: World, e: Event)
    requires !Consumes(e)
    ensures w.queue <= Next(p, w, e).queue
  {
    hide Poll, Live, Take, Matches, LowDelivery, ReceiveInto, Flatten, Session.Step;
  }

  lemma {:induction false} SendersOnlyAppend(p: Platform, w: World, events: seq<Event>)
    requires forall i :: 0 <= i < |events| ==> !Consumes(events[i])
    ensures w.queue <= RunEvents(p, w, events).queue
    decreases |events|
  {
    if events != [] {
      QueueOnlyGrows(p, w, events[0]);
      hide Next;
      SendersOnlyAppend(p, Next(p, w, events[0]), events[1..]);
    }
  }

  /** `o` is a true report of what lies at the front of `queue`. */
  predicate Reports(o: Outcome, queue: seq<Segment>) {
    Honest(o) && o.pieces == Take(queue, |o.Bytes()|).pieces
  }

  lemma {:induction false} LowReports(p: Platform, w: World, cap: nat, peek: bool)
    ensures var w' := DoLow(p, w, cap, peek);
      && (w'.peeks != w.peeks ==> |w'.peeks| == |w.peeks| + 1 && Reports(w'.peeks[|w.peeks|], w.queue))
      && (w'.outcomes != w.outcomes ==>
        |w'.outcomes| == |w.outcomes| + 1 && Reports(w'.outcomes[|w.outcomes|], w.queue))
  {
    var delivery := LowDelivery(p, w.low, cap);
    hide LowDelivery, ReceiveInto, Honest, Take, FdsIn, Carriers, PayloadOf, SentRights, Flatten;
    if delivery.Some? && Matches(p, w.queue, delivery.value) {
      LowIsHonest(p, w, cap);
    }
  }

  lemma {:induction false} RecvReports(p: Platform, w: World, iov: seq<byte>, mode: CountMode)
    ensures var w' := DoRecv(p, w, iov, mode);
      && w'.peeks == w.peeks
      && (w'.outcomes != w.outcomes ==>
        |w'.outcomes| == |w.outcomes| + 1 && Reports(w'.outcomes[|w.outcomes|], w.queue))
  {
    var delivery := CoreDelivery(p, w.low.sys, iov, mode);
    hide CoreDelivery, RecvCoreSpec, Honest, Take, FdsIn, Carriers, PayloadOf, SentRights;
    if delivery.Some? && Matches(p, w.queue, delivery.value) {
      ConvenienceIsHonest(p, w, iov, mode);
    }
  }

  lemma {:induction false} NextReports(p: Platform, w: World, e: Event)
    ensures var w' := Next(p, w, e);
      && (w'.peeks != w.peeks ==> |w'.peeks| == |w.peeks| + 1 && Reports(w'.peeks[|w.peeks|], w.queue))
      && (w'.outcomes != w.outcomes ==>
        |w'.outcomes| == |w.outcomes| + 1 && Reports(w'.outcomes[|w.outcomes|], w.queue))
  {
    hide DoLow, DoRecv, Reports, Session.Step, Session.Usable, Poll, Queued, Live;
    match e
    case Recv(iov, mode) => RecvReports(p, w, iov, mode);
    case RecvLow(cap) => LowReports(p, w, cap, false);
    case Peek(cap) => LowReports(p, w, cap, true);
    case _ =>
  }

  /** Both are views of the same stream from the same place: the shorter is the beginning of the longer,
      in bytes and in descriptors; and where neither reports truncation or fails, in the number of
      descriptors that reached the process. */
  predicate SameFront(a: Outcome, b: Outcome) {
    && (|a.Bytes()| <= |b.Bytes()| ==> a.Bytes() <= b.Bytes() && a.Batch() <= b.Batch())
    && (|b.Bytes()| <= |a.Bytes()| ==> b.Bytes() <= a.Bytes() && b.Batch() <= a.Batch())
    && (Succeeds(a) && Succeeds(b) ==>
      && (|a.Bytes()| <= |b.Bytes()| ==> |a.numbers| <= |b.numbers|)
      && (|b.Bytes()| <= |a.Bytes()| ==> |b.numbers| <= |a.numbers|))
  }

  lemma {:induction false} ReportsAgree(a: Outcome, b: Outcome, queue: seq<Segment>, more: seq<Segment>)
    requires Reports(a, queue) && Reports(b, queue + more)
    ensures SameFront(a, b)
  {
    var m, n := |a.Bytes()|, |b.Bytes()|;
    hide Take, PayloadOf, FdsIn;
    TakeWithin(queue, m);
    if m <= n { TakeMonotone(queue, more, m, n); }
    if n <= m {
      TakeIgnoresLaterSends(queue, more, n);
      assert queue + [] == queue;
      TakeMonotone(queue, [], n, m);
    }
  }

  /** What `cmsg_recvmsg_peek` reported, against the next receive of either kind and any size, with any
      sends, peeks and uses of the buffer in between: both report the truth about the same front of the
      queue. */
  lemma {:induction false} PeekForetellsReceive(p: Platform, w: World, cap: nat, between: seq<Event>, receive: Event)
    requires forall j :: 0 <= j < |between| ==> !Consumes(between[j])
    requires Consumes(receive)
    ensures var w1 := Next(p, w, Peek(cap));
      var w2 := RunEvents(p, w1, between);
      var w3 := Next(p, w2, receive);
      w1.peeks != w.peeks && w3.outcomes != w2.outcomes ==>
        && |w1.peeks| == |w.peeks| + 1 && |w3.outcomes| == |w2.outcomes| + 1
        && var peeked, received := w1.peeks[|w.peeks|], w3.outcomes[|w2.outcomes|];
        && Honest(peeked) && Honest(received) && SameFront(peeked, received)
  {
    hide RunEvents, Next, Take, PayloadOf, FdsIn, Honest, SameFront;
    var w1 := Next(p, w, Peek(cap));
    var w2 := RunEvents(p, w1, between);
    var w3 := Next(p, w2, receive);
    NextReports(p, w, Peek(cap));
    NextReports(p, w2, receive);
    QueueOnlyGrows(p, w, Peek(cap));
    SendersOnlyAppend(p, w1, between);
    if w1.peeks != w.peeks && w3.outcomes != w2.outcomes {
      var more := w2.queue[|w.queue|..];
      assert w2.queue == w.queue + more;
      ReportsAgree(w1.peeks[|w.peeks|], w3.outcomes[|w2.outcomes|], w.queue, more);
    }
  }
}
