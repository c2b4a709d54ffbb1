/** `SocketAncillary` and its iterators: in-place encoding, receiving, and draining. The datatype
    `Ancillary` is the abstract value; each class method is proved equal to a function on it. */
module AncillaryBuffer {
  import opened Wrappers
  import opened Bytes
  import opened Layout
  import opened Control
  import opened Payload
  import opened Kernel
  import opened Receive

  datatype Ancillary = Ancillary(
    buffer: seq<byte>, length: nat, truncated: bool, received: seq<Received>, receiveMode: bool)
  {
    predicate Valid() { length <= |buffer| }
  }

  /** Whether an addition went through; a refused one leaves the value alone. */
  datatype Added = Added(anc: Ancillary, ok: bool)

  /** One more message behind the ones already there. */
  function Append(p: Platform, a: Ancillary, m: RawMessage): (r: Added)
    requires a.Valid()
    ensures r.anc.Valid() && r.anc.received == a.received
    ensures !r.ok ==> r.anc == a
  {
    if a.receiveMode || !Encodable(m) then Added(a, false)
    else
      var end := a.length + Space(p, m);
      if end > |a.buffer| then Added(a, false)
      else Added(a.(buffer := a.buffer[..a.length] + EncodeOne(p, m) + a.buffer[end..], length := end), true)
  }

  function AddRightsTo(p: Platform, a: Ancillary, fds: seq<Fd>): (r: Added)
    requires a.Valid()
    ensures r.anc.Valid() && r.anc.received == a.received
  {
    if a.receiveMode then Added(a, false)
    else if fds == [] then Added(a, true)
    else Append(p, a, RightsMessage(p, fds))
  }

  function Cleared(a: Ancillary): Ancillary {
    Ancillary(a.buffer, 0, false, [], false)
  }

  /** What `cmsg_sendmsg` hands to the kernel, or its `InvalidInput`. */
  function ControlToSend(a: Ancillary): Result<seq<byte>, IoError>
    requires a.Valid()
  {
    if a.receiveMode then Err(InvalidInput) else Ok(a.buffer[..a.length])
  }

  /** `RecvResult`. */
  datatype RecvResult = RecvResult(bytesRead: nat, truncated: bool, dataTruncated: bool)

  datatype Reception = Reception(anc: Ancillary, sys: Sys, result: Result<RecvResult, IoError>)

  /** `recv_into_ancillary`, for a real receive and a peek alike. */
  function ReceiveInto(p: Platform, a: Ancillary, s: Sys, cap: nat): (r: Reception)
    ensures r.anc.Valid() && r.anc.receiveMode && |r.anc.buffer| == |a.buffer|
    ensures r.result.Err? ==> r.anc.received == [] && r.anc.length == 0
  {
    var empty := Ancillary(a.buffer, 0, false, [], true);
    var raw := RecvRaw(p, DropFds(s, Flatten(a.received)), cap, |a.buffer|);
    match raw.result
    case Err(e) => Reception(empty, raw.sys, Err(e))
    case Ok(d) =>
      var control := ControlBytes(p, d);
      var filled := empty.(buffer := Overwrite(a.buffer, control));
      var ms := Parse(p, control, 0);
      var received := AllReceived(p, ms);
      var flagged := Cloexec(p, DropFds(raw.sys, AllPidfds(p, ms)), Flatten(received));
      match flagged.result
      case Err(e) => Reception(filled, DropFds(flagged.sys, Flatten(received)), Err(e))
      case Ok(_) =>
        Reception(
          filled.(length := d.copied, truncated := d.ctrunc, received := received),
          flagged.sys,
          Ok(RecvResult(|d.data|, d.ctrunc, d.dtrunc)))
  }

  // ---------------------------------------------------------------- iterators

  /** `struct ScmRights`. */
  class ScmRights {
    var inner: seq<Fd>

    constructor (fds: seq<Fd>)
      ensures inner == fds
    {
      inner := fds;
    }

    method Next() returns (fd: Option<Fd>)
      modifies this
      ensures old(inner) == match fd case None => [] case Some(x) => [x] + inner
      ensures fd.None? ==> inner == []
    {
      if inner == [] {
        return None;
      }
      fd := Some(inner[0]);
      inner := inner[1..];
    }

    method Drop(process: Process)
      modifies process, this
      ensures inner == [] && process.sys == DropFds(old(process.sys), old(inner))
    {
      CloseEach(process, inner);
      inner := [];
    }
  }

  datatype AncillaryData = FromRights(rights: ScmRights) | FromCredentials(creds: Credentials)

  /** Drops a vector of received messages. */
  method CloseMessages(process: Process, messages: seq<Received>)
    modifies process
    ensures process.sys == DropFds(old(process.sys), Flatten(messages))
  {
    for i := 0 to |messages|
      invariant process.sys == DropFds(old(process.sys), Flatten(messages[..i]))
    {
      assert messages[..i + 1] == messages[..i] + [messages[i]];
      FlattenConcat(messages[..i], [messages[i]]);
      assert Flatten([messages[i]]) == FdsOf(messages[i]);
      CloseAllConcat(old(process.sys.table), Flatten(messages[..i]), FdsOf(messages[i]));
      CloseEach(process, FdsOf(messages[i]));
    }
    assert messages[..|messages|] == messages;
  }

  /** `struct Messages`. */
  class Messages {
    var inner: seq<Received>

    constructor (received: seq<Received>)
      ensures inner == received
    {
      inner := received;
    }

    method Next() returns (data: Option<AncillaryData>)
      modifies this
      ensures match data
        case None => old(inner) == [] && inner == []
        case Some(FromRights(rights)) => fresh(rights) && old(inner) == [Rights(rights.inner)] + inner
        case Some(FromCredentials(c)) => old(inner) == [Creds(c)] + inner
    {
      if inner == [] {
        return None;
      }
      var message := inner[0];
      inner := inner[1..];
      match message
      case Rights(fds) =>
        var rights := new ScmRights(fds);
        data := Some(FromRights(rights));
      case Creds(c) =>
        data := Some(FromCredentials(c));
    }

    method Drop(process: Process)
      modifies process, this
      ensures inner == [] && process.sys == DropFds(old(process.sys), Flatten(old(inner)))
    {
      CloseMessages(process, inner);
      inner := [];
    }
  }

  // ---------------------------------------------------------------- writing in place

  function Splice(s: seq<byte>, at: nat, bytes: seq<byte>): (r: seq<byte>)
    requires at + |bytes| <= |s|
    ensures |r| == |s|
  {
    s[..at] + bytes + s[at + |bytes|..]
  }

  lemma SpliceMiddle(before: seq<byte>, middle: seq<byte>, after: seq<byte>, k: nat, bytes: seq<byte>)
    requires k + |bytes| <= |middle|
    ensures Splice(before + middle + after, |before| + k, bytes) == before + Splice(middle, k, bytes) + after
  {
  }

  /** Three field writes into zeroed space make a header followed by zeros. */
  lemma HeaderSplices(p: Platform, level: i32, kind: i32, payloadLen: nat, space: nat)
    requires p.headerLen <= space
    ensures var w := p.lenWidth;
      var fields := Splice(Splice(Zeros(space), w, EncodeI32(p.bigEndian, level)), w + 4, EncodeI32(p.bigEndian, kind));
      Splice(fields, 0, ToNative(p.bigEndian, p.headerLen + payloadLen, w))
        == HeaderBytes(p, level, kind, payloadLen) + Zeros(space - p.headerLen)
  {
    var w, z := p.lenWidth, Zeros(space);
    var l, k := EncodeI32(p.bigEndian, level), EncodeI32(p.bigEndian, kind);
    var n := ToNative(p.bigEndian, p.headerLen + payloadLen, w);
    hide EncodeI32, ToNative;
    assert z[w + 8..] == Zeros(p.headerLen - p.HeaderSize()) + Zeros(space - p.headerLen);
    assert Splice(Splice(z, w, l), w + 4, k) == z[..w] + l + k + z[w + 8..];
    assert Splice(z[..w] + l + k + z[w + 8..], 0, n) == n + l + k + z[w + 8..];
  }

  lemma HeaderInPlace(p: Platform, was: seq<byte>, start: nat, space: nat, level: i32, kind: i32, payloadLen: nat)
    requires start + space <= |was| && p.headerLen <= space
    ensures var w := p.lenWidth;
      var s1 := Splice(was, start, Zeros(space));
      var s2 := Splice(s1, start + w, EncodeI32(p.bigEndian, level));
      var s3 := Splice(s2, start + w + 4, EncodeI32(p.bigEndian, kind));
      Splice(s3, start, ToNative(p.bigEndian, p.headerLen + payloadLen, w))
        == Splice(was, start, HeaderBytes(p, level, kind, payloadLen) + Zeros(space - p.headerLen))
  {
    hide EncodeI32, ToNative, HeaderBytes;
    var w, z, before, after := p.lenWidth, Zeros(space), was[..start], was[start + space..];
    var l, k := EncodeI32(p.bigEndian, level), EncodeI32(p.bigEndian, kind);
    var n := ToNative(p.bigEndian, p.headerLen + payloadLen, w);
    assert Splice(was, start, z) == before + z + after;
    HeaderSplices(p, level, kind, payloadLen, space);
    var header := HeaderBytes(p, level, kind, payloadLen) + Zeros(space - p.headerLen);
    assert Splice(was, start, header) == before + header + after;
    hide Splice;
    SpliceMiddle(before, z, after, w, l);
    SpliceMiddle(before, Splice(z, w, l), after, w + 4, k);
    SpliceMiddle(before, Splice(Splice(z, w, l), w + 4, k), after, 0, n);
  }

  method WriteBytes(a: array<byte>, at: nat, bytes: seq<byte>)
    requires at + |bytes| <= a.Length
    modifies a
    ensures a[..] == Splice(old(a[..]), at, bytes)
  {
    forall i | 0 <= i < |bytes| { a[at + i] := bytes[i]; }
  }

  lemma SpliceTail(s: seq<byte>, at: nat, done: seq<byte>, left: nat, bytes: seq<byte>)
    requires |bytes| <= left && at + |done| + left <= |s|
    ensures Splice(Splice(s, at, done + Zeros(left)), at + |done|, bytes)
      == Splice(s, at, done + bytes + Zeros(left - |bytes|))
  {
  }

  /** A reserved and then filled message is its encoding. */
  lemma ReservedThenFilled(p: Platform, was: seq<byte>, at: nat, m: RawMessage)
    requires Encodable(m) && at + Space(p, m) <= |was|
    ensures var header := HeaderBytes(p, m.level, m.kind, |m.data|);
      Splice(Splice(was, at, header + Zeros(Space(p, m) - p.headerLen)), at + p.headerLen, m.data)
        == was[..at] + EncodeOne(p, m) + was[at + Space(p, m)..]
  {
    var header := HeaderBytes(p, m.level, m.kind, |m.data|);
    hide HeaderBytes, CmsgSpaceMacro;
    SpliceTail(was, at, header, Space(p, m) - p.headerLen, m.data);
  }

  lemma SpliceNext(s: seq<byte>, at: nat, done: seq<byte>, bytes: seq<byte>)
    requires at + |done| + |bytes| <= |s|
    ensures Splice(Splice(s, at, done), at + |done|, bytes) == Splice(s, at, done + bytes)
  {
  }

  lemma {:induction false} EncodeFdsSnoc(p: Platform, fds: seq<Fd>, fd: Fd)
    ensures EncodeFds(p, fds + [fd]) == EncodeFds(p, fds) + EncodeI32(p.bigEndian, fd)
  {
    hide EncodeI32;
    if fds == [] {
      assert fds + [fd] == [fd];
    } else {
      assert (fds + [fd])[1..] == fds[1..] + [fd];
      EncodeFdsSnoc(p, fds[1..], fd);
    }
  }

  // ---------------------------------------------------------------- the buffer

  class SocketAncillary {
    const p: Platform
    const buffer: array<byte>
    var length: nat
    var truncated: bool
    var received: seq<Received>
    var receiveMode: bool

    ghost predicate Valid()
      reads this
    {
      length <= buffer.Length <= p.usizeMax
    }

    ghost function State(): Ancillary
      reads this, buffer
    {
      Ancillary(buffer[..], length, truncated, received, receiveMode)
    }

    constructor (p: Platform, buffer: array<byte>)
      requires buffer.Length <= p.usizeMax
      ensures Valid() && this.p == p && this.buffer == buffer
      ensures State() == Ancillary(buffer[..], 0, false, [], false)
    {
      this.p, this.buffer := p, buffer;
      length, truncated, received, receiveMode := 0, false, [], false;
    }

    /** Writes a header and zeroes the payload; `Some(at)` is where the payload starts. */
    method ReserveCmsg(level: i32, kind: i32, payloadLen: nat) returns (payload: Option<nat>)
      requires Valid()
      modifies this`length, buffer
      ensures Valid()
      ensures payload.Some? <==>
        !receiveMode && payloadLen <= I32_MAX
        && old(length) + CmsgSpace(p, payloadLen).value <= buffer.Length
      ensures payload.None? ==> length == old(length) && buffer[..] == old(buffer[..])
      ensures payload.Some? ==>
        && payload.value == old(length) + p.headerLen
        && length == old(length) + CmsgSpace(p, payloadLen).value
        && buffer[..] == Splice(old(buffer[..]), old(length),
          HeaderBytes(p, level, kind, payloadLen) + Zeros(CmsgSpace(p, payloadLen).value - p.headerLen))
    {
      hide CmsgSpaceMacro, HeaderBytes, Splice;
      if receiveMode {
        return None;
      }
      var space := CmsgSpace(p, payloadLen);
      if space.None? {
        return None;
      }
      var end := CheckedAdd(p, length, space.value);
      if end.None? || end.value > buffer.Length {
        return None;
      }
      var total := CheckedAdd(p, p.headerLen, payloadLen);
      if total.None? || total.value >= Power256(p.lenWidth) {
        Power256Values();
        return None;
      }
      var start := length;
      length := end.value;
      WriteHeader(start, space.value, level, kind, payloadLen);
      payload := Some(start + p.headerLen);
    }

    /** `bytes.fill(0)` and the three unaligned field writes. */
    method WriteHeader(start: nat, space: nat, level: i32, kind: i32, payloadLen: nat)
      requires start + space <= buffer.Length && p.headerLen <= space
      modifies buffer
      ensures buffer[..] == Splice(old(buffer[..]), start,
        HeaderBytes(p, level, kind, payloadLen) + Zeros(space - p.headerLen))
    {
      hide Splice, EncodeI32, ToNative, HeaderBytes;
      HeaderInPlace(p, buffer[..], start, space, level, kind, payloadLen);
      WriteBytes(buffer, start, Zeros(space));
      WriteBytes(buffer, start + p.lenWidth, EncodeI32(p.bigEndian, level));
      WriteBytes(buffer, start + p.lenWidth + 4, EncodeI32(p.bigEndian, kind));
      WriteBytes(buffer, start, ToNative(p.bigEndian, p.headerLen + payloadLen, p.lenWidth));
    }

    /** Descriptors go straight into the reserved payload, slot by slot. */
    method AddRights(fds: seq<Fd>) returns (ok: bool)
      requires Valid()
      modifies this`length, buffer
      ensures Valid()
      ensures Added(State(), ok) == AddRightsTo(p, old(State()), fds)
    {
      hide EncodeOne, HeaderBytes, CmsgSpaceMacro, Splice, EncodeFds;
      if receiveMode {
        return false;
      }
      if |fds| == 0 {
        return true;
      }
      var len := CheckedMul(p, |fds|, FD_SIZE);
      if len.None? {
        return false;
      }
      ghost var was, start, m := buffer[..], length, RightsMessage(p, fds);
      var payload := ReserveCmsg(p.SolSocket(), SCM_RIGHTS, len.value);
      if payload.None? {
        return false;
      }
      FillSlots(payload.value, fds);
      ReservedThenFilled(p, was, start, m);
      ok := true;
    }

    method FillSlots(at: nat, fds: seq<Fd>)
      requires at + FD_SIZE * |fds| <= buffer.Length
      modifies buffer
      ensures buffer[..] == Splice(old(buffer[..]), at, EncodeFds(p, fds))
    {
      hide EncodeI32;
      ghost var was := buffer[..];
      for i := 0 to |fds|
        invariant buffer[..] == Splice(was, at, EncodeFds(p, fds[..i]))
      {
        WriteBytes(buffer, at + FD_SIZE * i, EncodeI32(p.bigEndian, fds[i]));
        SpliceNext(was, at, EncodeFds(p, fds[..i]), EncodeI32(p.bigEndian, fds[i]));
        EncodeFdsSnoc(p, fds[..i], fds[i]);
        assert fds[..i + 1] == fds[..i] + [fds[i]];
      }
      assert fds[..|fds|] == fds;
    }

    method AddCredentials(c: Credentials) returns (ok: bool)
      requires Valid()
      modifies this`length, buffer
      ensures Valid()
      ensures Added(State(), ok) == Append(p, old(State()), CredentialsMessage(p, c))
    {
      hide EncodeOne, HeaderBytes, CmsgSpaceMacro, Splice, EncodeCredentials;
      var bytes := EncodeCredentials(p, c);
      ghost var was, start := buffer[..], length;
      var payload := ReserveCmsg(p.SolSocket(), SCM_CREDENTIALS, |bytes|);
      if payload.None? {
        return false;
      }
      WriteBytes(buffer, payload.value, bytes);
      ReservedThenFilled(p, was, start, CredentialsMessage(p, c));
      ok := true;
    }

    /** Drains what was received into an iterator. */
    method TakeMessages() returns (messages: Messages)
      modifies this`received
      ensures fresh(messages) && messages.inner == old(received)
      ensures State() == old(State()).(received := [])
    {
      messages := new Messages(received);
      received := [];
    }

    /** Closes unread descriptors and resets the storage for a new send. */
    method Clear(process: Process)
      requires Valid()
      modifies this, process
      ensures Valid()
      ensures State() == Cleared(old(State()))
      ensures process.sys == DropFds(old(process.sys), Flatten(old(received)))
    {
      CloseMessages(process, received);
      received := [];
      length := 0;
      truncated := false;
      receiveMode := false;
    }

    /** Rust's drop of the buffer: the received vector goes. */
    method Drop(process: Process)
      requires Valid()
      modifies this, process
      ensures Valid() && State() == old(State()).(received := [])
      ensures process.sys == DropFds(old(process.sys), Flatten(old(received)))
    {
      CloseMessages(process, received);
      received := [];
    }
  }

  /** `recv_into_ancillary`: the previous batch is closed first, then owned anew, then flagged; a
      failure at any point leaves nothing received. */
  method RecvIntoAncillary(process: Process, cap: nat, ancillary: SocketAncillary)
    returns (result: Result<RecvResult, IoError>)
    requires ancillary.Valid() && ancillary.p == process.p
    modifies process, ancillary, ancillary.buffer
    ensures ancillary.Valid()
    ensures Reception(ancillary.State(), process.sys, result)
      == ReceiveInto(process.p, old(ancillary.State()), old(process.sys), cap)
  {
    hide Parse, AllReceived, AllPidfds, CloexecAll, RecvRaw, CloseAll, Flatten, Encode, WellFormed;
    ancillary.Clear(process);
    ancillary.receiveMode := true;
    var raw := RecvmsgRaw(process, cap, ancillary.buffer);
    if raw.Err? {
      return Err(raw.error);
    }
    var d := raw.value;
    var control := ancillary.buffer[..d.copied];
    assert control == ControlBytes(process.p, d);
    var received := TakeReceivedInto(process, control, ancillary.received);
    assert received == AllReceived(process.p, Parse(process.p, control, 0));
    ancillary.received := received;
    if !process.p.atomicCloexec {
      var flagged := CloexecReceived(process, ancillary.received);
      if flagged.Err? {
        CloseMessages(process, ancillary.received);
        ancillary.received := [];
        return Err(flagged.error);
      }
    }
    ancillary.length := d.copied;
    ancillary.truncated := d.ctrunc;
    result := Ok(RecvResult(|d.data|, d.ctrunc, d.dtrunc));
  }
}
