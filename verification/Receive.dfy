/** Receiving: the parser loop, taking ownership, close-on-exec, and the convenience receive. Each
    method is proved equal to a function of the process state; what those functions guarantee is in
    the lemmas of `ReceiveProofs`. */
module Receive {
  import opened Wrappers
  import opened Bytes
  import opened Layout
  import opened Control
  import opened Payload
  import opened Kernel

  // ---------------------------------------------------------------- the byte parser

  lemma {:induction false} NoMessageOrStep(p: Platform, bytes: seq<byte>, at: nat)
    ensures if !HasMessage(p, bytes) then Parse(p, bytes, at) == []
      else
        var n := Advance(p, bytes);
        Parse(p, bytes, at) == [Located(at + p.headerLen, Head(p, bytes))] + Parse(p, bytes[n..], at + n)
  {
  }

  /** `struct RawMessages`: the unread slice and where it starts in the control buffer. */
  class RawMessages {
    const p: Platform
    var remaining: seq<byte>
    var at: nat

    constructor (p: Platform, buffer: seq<byte>)
      ensures this.p == p && remaining == buffer && at == 0
    {
      this.p, remaining, at := p, buffer, 0;
    }

    /** Yields the messages of `Parse` one by one, in a strictly shrinking remainder. */
    method Next() returns (message: Option<Located>)
      modifies this
      ensures Parse(p, old(remaining), old(at)) ==
        match message
        case None => []
        case Some(m) => [m] + Parse(p, remaining, at)
      ensures if message.Some? then |remaining| < |old(remaining)| else remaining == []
    {
      hide Parse, FromNative, DecodeI32;
      var bytes, start := remaining, at;
      NoMessageOrStep(p, bytes, start);
      remaining, at := [], at + |remaining|;
      if |bytes| < p.HeaderSize() {
        return None;
      }
      var total := FromNative(p.bigEndian, bytes[..p.lenWidth]);
      var end := Min(total, |bytes|);
      if end < p.headerLen {
        return None;
      }
      var data := bytes[p.headerLen..end];
      var space := CmsgSpace(p, |data|);
      if space.Some? && space.value <= |bytes| {
        remaining, at := bytes[space.value..], start + space.value;
      } else {
        assert bytes[|bytes|..] == [];
        NoMessageOrStep(p, [], start + |bytes|);
      }
      var w := p.lenWidth;
      var level := DecodeI32(p.bigEndian, bytes[w..w + 4]);
      var kind := DecodeI32(p.bigEndian, bytes[w + 4..w + 8]);
      message := Some(Located(start + p.headerLen, RawMessage(level, kind, data)));
    }
  }

  // ---------------------------------------------------------------- taking ownership

  /** Drops every descriptor of a vector, front to back. */
  method CloseEach(process: Process, fds: seq<Fd>)
    modifies process
    ensures process.sys == old(process.sys).(table := CloseAll(old(process.sys.table), fds))
  {
    for i := 0 to |fds|
      invariant process.sys == old(process.sys).(table := CloseAll(old(process.sys.table), fds[..i]))
    {
      process.Close(fds[i]);
      assert fds[..i + 1] == fds[..i] + [fds[i]];
      CloseAllConcat(old(process.sys.table), fds[..i], [fds[i]]);
    }
    assert fds[..|fds|] == fds;
  }

  method ClosePidfd(process: Process, m: RawMessage)
    modifies process
    ensures process.sys ==
      old(process.sys).(table := CloseAll(old(process.sys.table), PidfdsFrom(process.p, m)))
  {
    if IsPidfd(process.p, m) {
      CloseEach(process, RightsIn(process.p, m.data));
    }
  }

  /** The loop body of `take_received_into`. */
  method TakeMessage(process: Process, m: RawMessage, messages: seq<Received>) returns (received: seq<Received>)
    modifies process
    ensures received == messages + ReceivedFrom(process.p, m)
    ensures process.sys ==
      old(process.sys).(table := CloseAll(old(process.sys.table), PidfdsFrom(process.p, m)))
  {
    var p := process.p;
    received := messages;
    ClosePidfd(process, m);
    if IsRights(p, m) {
      received := received + [Rights(RightsIn(p, m.data))];
    }
    if IsCredentials(p, m) {
      received := received + [Creds(DecodeCredentials(p, m.data))];
    }
  }

  /** `take_received_into`: owns every descriptor of `buffer`, message by message, and closes the
      pidfds. */
  method TakeReceivedInto(process: Process, buffer: seq<byte>, messages: seq<Received>)
    returns (received: seq<Received>)
    modifies process
    ensures var ms := Parse(process.p, buffer, 0);
      && received == messages + AllReceived(process.p, ms)
      && process.sys == old(process.sys).(table := CloseAll(old(process.sys.table), AllPidfds(process.p, ms)))
  {
    hide Parse, RightsIn, ReceivedFrom, PidfdsFrom;
    var p := process.p;
    received := messages;
    var raw := new RawMessages(p, buffer);
    ghost var seen: seq<Located> := [];
    while true
      invariant raw.p == p && fresh(raw)
      invariant seen + Parse(p, raw.remaining, raw.at) == Parse(p, buffer, 0)
      invariant received == messages + AllReceived(p, seen)
      invariant process.sys == old(process.sys).(table := CloseAll(old(process.sys.table), AllPidfds(p, seen)))
      decreases |raw.remaining|
    {
      var next := raw.Next();
      if next.None? {
        assert seen + [] == seen;
        break;
      }
      var m := next.value.raw;
      received := TakeMessage(process, m, received);
      CloseAllConcat(old(process.sys.table), AllPidfds(p, seen), PidfdsFrom(p, m));
      ReceivedSnoc(p, seen, next.value);
      PidfdsSnoc(p, seen, next.value);
      seen := seen + [next.value];
    }
  }

  lemma AllFdsOfNone(p: Platform)
    ensures AllPidfds(p, []) == [] && AllRights(p, []) == []
  {
  }

  method CountRights(p: Platform, buffer: seq<byte>) returns (count: nat)
    ensures count == |AllRights(p, Parse(p, buffer, 0))|
  {
    hide Parse, RightsIn, AllRights;
    AllFdsOfNone(p);
    count := 0;
    var raw := new RawMessages(p, buffer);
    ghost var seen: seq<Located> := [];
    while true
      invariant raw.p == p && fresh(raw)
      invariant seen + Parse(p, raw.remaining, raw.at) == Parse(p, buffer, 0)
      invariant count == |AllRights(p, seen)|
      decreases |raw.remaining|
    {
      var next := raw.Next();
      if next.None? {
        assert seen + [] == seen;
        break;
      }
      RightsSnoc(p, seen, next.value);
      if IsRights(p, next.value.raw) {
        count := count + |RightsIn(p, next.value.raw.data)|;
      }
      seen := seen + [next.value];
    }
  }

  /** `take_fds`: the same descriptors as one flat list. `capacity` is the count of the first pass. */
  method TakeFds(process: Process, buffer: seq<byte>) returns (fds: seq<Fd>, capacity: nat)
    modifies process
    ensures var ms := Parse(process.p, buffer, 0);
      && fds == AllRights(process.p, ms)
      && process.sys == old(process.sys).(table := CloseAll(old(process.sys.table), AllPidfds(process.p, ms)))
    ensures capacity == |fds|
  {
    hide Parse, RightsIn, PidfdsFrom, AllPidfds, AllRights;
    AllFdsOfNone(process.p);
    var p := process.p;
    capacity := CountRights(p, buffer);
    fds := [];
    var raw := new RawMessages(p, buffer);
    ghost var seen: seq<Located> := [];
    while true
      invariant raw.p == p && fresh(raw)
      invariant seen + Parse(p, raw.remaining, raw.at) == Parse(p, buffer, 0)
      invariant fds == AllRights(p, seen)
      invariant process.sys == old(process.sys).(table := CloseAll(old(process.sys.table), AllPidfds(p, seen)))
      decreases |raw.remaining|
    {
      var next := raw.Next();
      if next.None? {
        assert seen + [] == seen;
        break;
      }
      var m := next.value.raw;
      ClosePidfd(process, m);
      CloseAllConcat(old(process.sys.table), AllPidfds(p, seen), PidfdsFrom(p, m));
      RightsSnoc(p, seen, next.value);
      PidfdsSnoc(p, seen, next.value);
      if IsRights(p, m) {
        fds := fds + RightsIn(p, m.data);
      }
      seen := seen + [next.value];
    }
  }

  // ---------------------------------------------------------------- close-on-exec

  /** Flags descriptors in order, up to the first failure. */
  function CloexecAll(s: Sys, fds: seq<Fd>): Fallible<()>
    decreases |fds|
  {
    if fds == [] then Fallible(s, Ok(()))
    else
      var first := SetCloexec(s, fds[0]);
      if first.result.Err? then first else CloexecAll(first.sys, fds[1..])
  }

  /** A no-op where `MSG_CMSG_CLOEXEC` did the work. */
  function Cloexec(p: Platform, s: Sys, fds: seq<Fd>): Fallible<()> {
    if p.atomicCloexec then Fallible(s, Ok(())) else CloexecAll(s, fds)
  }

  lemma {:induction false} CloexecAllConcat(s: Sys, a: seq<Fd>, b: seq<Fd>)
    ensures var first := CloexecAll(s, a);
      CloexecAll(s, a + b) == if first.result.Err? then first else CloexecAll(first.sys, b)
    decreases |a|
  {
    if a == [] {
      assert a + b == b;
    } else {
      assert (a + b)[1..] == a[1..] + b;
      var first := SetCloexec(s, a[0]);
      if first.result.Ok? { CloexecAllConcat(first.sys, a[1..], b); }
    }
  }

  method CloexecFds(process: Process, fds: seq<Fd>) returns (result: Result<(), IoError>)
    modifies process
    ensures Fallible(process.sys, result) == CloexecAll(old(process.sys), fds)
  {
    for i := 0 to |fds|
      invariant CloexecAll(old(process.sys), fds) == CloexecAll(process.sys, fds[i..])
    {
      assert fds[i..][1..] == fds[i + 1..];
      result := process.Fcntl(fds[i]);
      if result.Err? {
        return;
      }
    }
    result := Ok(());
  }

  /** The nested form does what the flat form does on the flattened list. */
  method CloexecReceived(process: Process, messages: seq<Received>) returns (result: Result<(), IoError>)
    modifies process
    ensures Fallible(process.sys, result) == CloexecAll(old(process.sys), Flatten(messages))
  {
    for i := 0 to |messages|
      invariant CloexecAll(old(process.sys), Flatten(messages)) == CloexecAll(process.sys, Flatten(messages[i..]))
    {
      assert messages[i..][1..] == messages[i + 1..];
      CloexecAllConcat(process.sys, FdsOf(messages[i]), Flatten(messages[i + 1..]));
      result := CloexecFds(process, FdsOf(messages[i]));
      if result.Err? {
        return;
      }
    }
    result := Ok(());
  }

  // ---------------------------------------------------------------- recvmsg_raw and recv_fds

  /** Retries interrupted calls; every other outcome is the result, `WouldBlock` included. */
  function RecvRaw(p: Platform, s: Sys, cap: nat, control: nat): (r: Fallible<Delivery>)
    ensures r.result.Ok? ==> WellFormed(p, r.result.value) && r.result.value.copied <= control
    ensures r.sys.fcntl == s.fcntl
    decreases |s.script|
  {
    var call := Recvmsg(p, s, cap, control);
    match call.outcome
    case Interrupted => RecvRaw(p, call.sys, cap, control)
    case Failed(e) => Fallible(call.sys, Err(e))
    case Delivered(d) => Fallible(call.sys, Ok(d))
  }

  method RecvmsgRaw(process: Process, cap: nat, buffer: array<byte>) returns (result: Result<Delivery, IoError>)
    modifies process, buffer
    ensures Fallible(process.sys, result) == RecvRaw(process.p, old(process.sys), cap, buffer.Length)
    ensures result.Ok? ==> result.value.copied <= buffer.Length
    ensures buffer[..] ==
      match result
      case Ok(d) => ControlBytes(process.p, d) + old(buffer[..])[d.copied..]
      case Err(_) => old(buffer[..])
  {
    while true
      invariant buffer[..] == old(buffer[..])
      invariant RecvRaw(process.p, old(process.sys), cap, buffer.Length)
        == RecvRaw(process.p, process.sys, cap, buffer.Length)
      decreases |process.sys.script|
    {
      var outcome := process.Receive(cap, buffer);
      match outcome
      case Interrupted =>
      case Failed(e) => return Err(e);
      case Delivered(d) => return Ok(d);
    }
  }

  /** Writes `data` over the front of the receive buffers. */
  function Overwrite(iov: seq<byte>, data: seq<byte>): (r: seq<byte>)
    ensures |data| <= |iov| ==> |r| == |iov|
  {
    if |data| <= |iov| then data + iov[|data|..] else data
  }

  /** Process state, receive buffers, and result after a receive. */
  datatype Receipt<T> = Receipt(sys: Sys, iov: seq<byte>, result: Result<T, IoError>)

  function DropFds(s: Sys, fds: seq<Fd>): Sys {
    s.(table := CloseAll(s.table, fds))
  }

  function RecvFdsSpec(p: Platform, s: Sys, iov: seq<byte>, control: nat): Receipt<(Delivery, seq<Fd>)> {
    var raw := RecvRaw(p, s, |iov|, control);
    match raw.result
    case Err(e) => Receipt(raw.sys, iov, Err(e))
    case Ok(d) =>
      var ms := Parse(p, ControlBytes(p, d), 0);
      var fds := AllRights(p, ms);
      var flagged := Cloexec(p, DropFds(raw.sys, AllPidfds(p, ms)), fds);
      match flagged.result
      case Err(e) => Receipt(DropFds(flagged.sys, fds), Overwrite(iov, d.data), Err(e))
      case Ok(_) => Receipt(flagged.sys, Overwrite(iov, d.data), Ok((d, fds)))
  }

  method RecvFds(process: Process, iov: seq<byte>, buffer: array<byte>)
    returns (iov': seq<byte>, result: Result<(Delivery, seq<Fd>), IoError>)
    modifies process, buffer
    ensures Receipt(process.sys, iov', result) == RecvFdsSpec(process.p, old(process.sys), iov, buffer.Length)
  {
    hide Parse, RecvRaw, CloexecAll, CloseAll, Encode, WellFormed, AllRights, AllPidfds;
    iov' := iov;
    var raw := RecvmsgRaw(process, |iov|, buffer);
    if raw.Err? {
      return iov', Err(raw.error);
    }
    var d := raw.value;
    iov' := Overwrite(iov, d.data);
    assert buffer[..d.copied] == buffer[..][..d.copied] == ControlBytes(process.p, d);
    // Ownership before anything fallible: an error below drops the whole batch.
    var fds, _ := TakeFds(process, buffer[..d.copied]);
    if !process.p.atomicCloexec {
      var flagged := CloexecFds(process, fds);
      if flagged.Err? {
        CloseEach(process, fds);
        return iov', Err(flagged.error);
      }
    }
    result := Ok((d, fds));
  }

  // ---------------------------------------------------------------- the convenience receive

  datatype SocketKind = Stream | Datagram

  datatype CountMode = UpTo(n: nat) | Exact(n: nat)

  /** What becomes of a delivered batch. */
  datatype Verdict<T> = Accept(kept: seq<T>, surplus: seq<T>) | Reject(error: IoError)

  function Judge<T>(kind: SocketKind, mode: CountMode, batch: seq<T>, ctrunc: bool, dtrunc: bool): Verdict<T> {
    if ctrunc then Reject(InvalidData)
    else if kind.Datagram? && dtrunc then Reject(InvalidData)
    else
      match mode
      case UpTo(n) => Accept(batch[..Min(n, |batch|)], batch[Min(n, |batch|)..])
      case Exact(n) => if |batch| == n then Accept(batch, []) else Reject(InvalidData)
  }

  /** The control storage `recv_core` asks for. */
  function ControlBudget(p: Platform, mode: CountMode): Result<nat, IoError> {
    match BufferSizeForRights(p, Max(mode.n, p.maxRecvFds))
    case None => Err(Panicked)
    case Some(size) =>
      if !p.linux then Ok(size)
      else
        match CheckedAdd(p, size, BufferSizeForCredentials(p))
        case None => Err(InvalidInput)
        case Some(total) => Ok(total)
  }

  datatype Core = Core(bytesRead: nat, fds: seq<Fd>, surplusClosed: nat)

  function RecvCoreSpec(p: Platform, s: Sys, iov: seq<byte>, kind: SocketKind, mode: CountMode): Receipt<Core> {
    match ControlBudget(p, mode)
    case Err(e) => Receipt(s, iov, Err(e))
    case Ok(size) =>
      var r := RecvFdsSpec(p, s, iov, size);
      match r.result
      case Err(e) => Receipt(r.sys, r.iov, Err(e))
      case Ok((d, fds)) =>
        match Judge(kind, mode, fds, d.ctrunc, d.dtrunc)
        case Reject(e) => Receipt(DropFds(r.sys, fds), r.iov, Err(e))
        case Accept(kept, surplus) => Receipt(DropFds(r.sys, surplus), r.iov, Ok(Core(|d.data|, kept, |surplus|)))
  }

  method RecvCore(process: Process, iov: seq<byte>, kind: SocketKind, mode: CountMode)
    returns (iov': seq<byte>, result: Result<Core, IoError>)
    modifies process
    ensures Receipt(process.sys, iov', result) == RecvCoreSpec(process.p, old(process.sys), iov, kind, mode)
  {
    hide RecvFdsSpec, CmsgSpace;
    var p := process.p;
    var cap := Max(mode.n, p.maxRecvFds);
    var rights := BufferSizeForRights(p, cap);
    if rights.None? {
      return iov, Err(Panicked);
    }
    var size := rights.value;
    if p.linux {
      var total := CheckedAdd(p, size, BufferSizeForCredentials(p));
      if total.None? {
        return iov, Err(InvalidInput);
      }
      size := total.value;
    }
    var buffer := new byte[size](_ => 0);
    var received;
    iov', received := RecvFds(process, iov, buffer);
    if received.Err? {
      return iov', Err(received.error);
    }
    var (d, fds) := received.value;
    if d.ctrunc {
      CloseEach(process, fds);
      return iov', Err(InvalidData);
    }
    if kind == Datagram && d.dtrunc {
      CloseEach(process, fds);
      return iov', Err(InvalidData);
    }
    match mode
    case UpTo(n) =>
      var surplus := if |fds| >= n then |fds| - n else 0;
      var kept := Min(n, |fds|);
      CloseEach(process, fds[kept..]);
      result := Ok(Core(|d.data|, fds[..kept], surplus));
    case Exact(n) =>
      if |fds| != n {
        CloseEach(process, fds);
        return iov', Err(InvalidData);
      }
      result := Ok(Core(|d.data|, fds, 0));
  }

  /** `ReceivedFds`. */
  datatype ReceivedFds = ReceivedFds(data: seq<byte>, fds: seq<Fd>, surplusClosed: nat)

  function RecvOwnedSpec(p: Platform, s: Sys, dataBuf: seq<byte>, kind: SocketKind, mode: CountMode)
    : Receipt<ReceivedFds>
  {
    var r := RecvCoreSpec(p, s, dataBuf, kind, mode);
    match r.result
    case Err(e) => Receipt(r.sys, r.iov, Err(e))
    case Ok(core) =>
      Receipt(r.sys, [], Ok(ReceivedFds(r.iov[..Min(core.bytesRead, |r.iov|)], core.fds, core.surplusClosed)))
  }

  method RecvOwned(process: Process, dataBuf: seq<byte>, kind: SocketKind, mode: CountMode)
    returns (dataBuf': seq<byte>, result: Result<ReceivedFds, IoError>)
    modifies process
    ensures Receipt(process.sys, dataBuf', result) == RecvOwnedSpec(process.p, old(process.sys), dataBuf, kind, mode)
  {
    var core;
    dataBuf', core := RecvCore(process, dataBuf, kind, mode);
    if core.Err? {
      return dataBuf', Err(core.error);
    }
    var data := dataBuf';
    dataBuf' := [];
    if core.value.bytesRead < |data| {
      data := data[..core.value.bytesRead];
    } else {
      assert data == data[..|data|];
    }
    result := Ok(ReceivedFds(data, core.value.fds, core.value.surplusClosed));
  }

  /** Tokio's `async_io`: runs the receive again while it would block and readiness is signalled.
      `polls` is how often that happens before the task is dropped. */
  function RecvPolled(p: Platform, s: Sys, dataBuf: seq<byte>, kind: SocketKind, mode: CountMode, polls: nat)
    : Receipt<ReceivedFds>
    decreases polls
  {
    var r := RecvOwnedSpec(p, s, dataBuf, kind, mode);
    if polls == 0 || r.result != Err(WouldBlock) then r
    else RecvPolled(p, r.sys, r.iov, kind, mode, polls - 1)
  }

  method RecvAsync(process: Process, dataBuf: seq<byte>, kind: SocketKind, mode: CountMode, polls: nat)
    returns (dataBuf': seq<byte>, result: Result<ReceivedFds, IoError>)
    modifies process
    ensures Receipt(process.sys, dataBuf', result) ==
      RecvPolled(process.p, old(process.sys), dataBuf, kind, mode, polls)
  {
    hide RecvOwnedSpec;
    var left := polls;
    dataBuf', result := RecvOwned(process, dataBuf, kind, mode);
    while left > 0 && result == Err(WouldBlock)
      invariant RecvPolled(process.p, old(process.sys), dataBuf, kind, mode, polls) ==
        if left > 0 && result == Err(WouldBlock)
        then RecvPolled(process.p, process.sys, dataBuf', kind, mode, left - 1)
        else Receipt(process.sys, dataBuf', result)
    {
      dataBuf', result := RecvOwned(process, dataBuf', kind, mode);
      left := left - 1;
    }
  }
}
