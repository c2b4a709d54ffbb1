/** What control messages carry: descriptors of `SCM_RIGHTS`, pidfds, credentials. Each value is
    read from a slot of the control buffer, and the slots of arbitrary input are disjoint. */
module Payload {
  import opened Wrappers
  import opened Bytes
  import opened Layout
  import opened Control

  /** `ScmCredentials`, the 12-byte ucred. */
  datatype Credentials = Credentials(pid: i32, uid: u32, gid: u32)

  datatype Received = Rights(fds: seq<Fd>) | Creds(creds: Credentials)

  // ---------------------------------------------------------------- message kinds

  predicate IsRights(p: Platform, m: RawMessage) {
    m.level == p.SolSocket() && m.kind == SCM_RIGHTS
  }

  predicate IsPidfd(p: Platform, m: RawMessage) {
    p.linux && m.level == p.SolSocket() && m.kind == SCM_PIDFD
  }

  predicate IsCredentials(p: Platform, m: RawMessage) {
    p.linux && m.level == p.SolSocket() && m.kind == SCM_CREDENTIALS && |m.data| >= CRED_SIZE
  }

  // ---------------------------------------------------------------- payload encodings

  /** `RawMessage::rights`: whole four-byte chunks, negative numbers skipped. */
  function RightsIn(p: Platform, data: seq<byte>): seq<Fd> {
    if |data| < FD_SIZE then []
    else
      var fd := DecodeI32(p.bigEndian, data[..FD_SIZE]);
      (if fd >= 0 then [fd] else []) + RightsIn(p, data[FD_SIZE..])
  }

  function EncodeFds(p: Platform, fds: seq<Fd>): (bs: seq<byte>)
    ensures |bs| == |fds| * FD_SIZE
  {
    if fds == [] then [] else EncodeI32(p.bigEndian, fds[0]) + EncodeFds(p, fds[1..])
  }

  lemma {:induction false} FdsRoundTrip(p: Platform, fds: seq<Fd>)
    ensures RightsIn(p, EncodeFds(p, fds)) == fds
  {
    if fds != [] {
      var bs := EncodeFds(p, fds);
      assert bs[..FD_SIZE] == EncodeI32(p.bigEndian, fds[0]);
      assert bs[FD_SIZE..] == EncodeFds(p, fds[1..]);
      I32RoundTrip(p.bigEndian, fds[0]);
      FdsRoundTrip(p, fds[1..]);
    }
  }

  function EncodeCredentials(p: Platform, c: Credentials): (bs: seq<byte>)
    ensures |bs| == CRED_SIZE
  {
    EncodeI32(p.bigEndian, c.pid) + ToNative(p.bigEndian, c.uid, 4) + ToNative(p.bigEndian, c.gid, 4)
  }

  function DecodeCredentials(p: Platform, data: seq<byte>): Credentials
    requires |data| >= CRED_SIZE
  {
    Power256Values();
    Credentials(DecodeI32(p.bigEndian, data[..4]), FromNative(p.bigEndian, data[4..8]),
                FromNative(p.bigEndian, data[8..12]))
  }

  lemma CredentialsRoundTrip(p: Platform, c: Credentials)
    ensures DecodeCredentials(p, EncodeCredentials(p, c)) == c
  {
    Power256Values();
    var bs := EncodeCredentials(p, c);
    assert bs[..4] == EncodeI32(p.bigEndian, c.pid);
    assert bs[4..8] == ToNative(p.bigEndian, c.uid, 4);
    assert bs[8..12] == ToNative(p.bigEndian, c.gid, 4);
    I32RoundTrip(p.bigEndian, c.pid);
    NativeRoundTrip(p.bigEndian, c.uid, 4);
    NativeRoundTrip(p.bigEndian, c.gid, 4);
  }

  function RightsMessage(p: Platform, fds: seq<Fd>): RawMessage {
    RawMessage(p.SolSocket(), SCM_RIGHTS, EncodeFds(p, fds))
  }

  function CredentialsMessage(p: Platform, c: Credentials): RawMessage {
    RawMessage(p.SolSocket(), SCM_CREDENTIALS, EncodeCredentials(p, c))
  }

  // ---------------------------------------------------------------- message form and flat form

  /** What `take_received_into` pushes for one message. */
  function ReceivedFrom(p: Platform, m: RawMessage): seq<Received> {
    if IsRights(p, m) then [Rights(RightsIn(p, m.data))]
    else if IsCredentials(p, m) then [Creds(DecodeCredentials(p, m.data))]
    else []
  }

  function PidfdsFrom(p: Platform, m: RawMessage): seq<Fd> {
    if IsPidfd(p, m) then RightsIn(p, m.data) else []
  }

  function RightsFrom(p: Platform, m: RawMessage): seq<Fd> {
    if IsRights(p, m) then RightsIn(p, m.data) else []
  }

  function AllReceived(p: Platform, ms: seq<Located>): seq<Received> {
    if ms == [] then [] else ReceivedFrom(p, ms[0].raw) + AllReceived(p, ms[1..])
  }

  function AllPidfds(p: Platform, ms: seq<Located>): seq<Fd> {
    if ms == [] then [] else PidfdsFrom(p, ms[0].raw) + AllPidfds(p, ms[1..])
  }

  /** What `take_fds` pushes. */
  function AllRights(p: Platform, ms: seq<Located>): seq<Fd> {
    if ms == [] then [] else RightsFrom(p, ms[0].raw) + AllRights(p, ms[1..])
  }

  lemma {:induction false} ReceivedSnoc(p: Platform, ms: seq<Located>, m: Located)
    ensures AllReceived(p, ms + [m]) == AllReceived(p, ms) + ReceivedFrom(p, m.raw)
  {
    hide ReceivedFrom;
    if ms == [] {
      assert ms + [m] == [m];
    } else {
      assert (ms + [m])[1..] == ms[1..] + [m];
      ReceivedSnoc(p, ms[1..], m);
    }
  }

  lemma {:induction false} PidfdsSnoc(p: Platform, ms: seq<Located>, m: Located)
    ensures AllPidfds(p, ms + [m]) == AllPidfds(p, ms) + PidfdsFrom(p, m.raw)
  {
    hide PidfdsFrom;
    if ms == [] {
      assert ms + [m] == [m];
    } else {
      assert (ms + [m])[1..] == ms[1..] + [m];
      PidfdsSnoc(p, ms[1..], m);
    }
  }

  lemma {:induction false} RightsSnoc(p: Platform, ms: seq<Located>, m: Located)
    ensures AllRights(p, ms + [m]) == AllRights(p, ms) + RightsFrom(p, m.raw)
  {
    hide RightsFrom;
    if ms == [] {
      assert ms + [m] == [m];
    } else {
      assert (ms + [m])[1..] == ms[1..] + [m];
      RightsSnoc(p, ms[1..], m);
    }
  }

  function FdsOf(r: Received): seq<Fd> {
    match r case Rights(fds) => fds case Creds(_) => []
  }

  function Flatten(received: seq<Received>): seq<Fd> {
    if received == [] then [] else FdsOf(received[0]) + Flatten(received[1..])
  }

  lemma {:induction false} FlattenConcat(a: seq<Received>, b: seq<Received>)
    ensures Flatten(a + b) == Flatten(a) + Flatten(b)
  {
    if a == [] {
      assert a + b == b;
    } else {
      assert (a + b)[1..] == a[1..] + b;
      FlattenConcat(a[1..], b);
    }
  }

  /** The flat list is the message list flattened, on any messages. */
  lemma {:induction false} FlatRefinesMessages(p: Platform, ms: seq<Located>)
    ensures AllRights(p, ms) == Flatten(AllReceived(p, ms))
  {
    if ms != [] {
      FlatRefinesMessages(p, ms[1..]);
      FlattenConcat(ReceivedFrom(p, ms[0].raw), AllReceived(p, ms[1..]));
      assert Flatten(ReceivedFrom(p, ms[0].raw)) == RightsFrom(p, ms[0].raw);
    }
  }

  // ---------------------------------------------------------------- what one message yields

  /** A message that yields an entry: `SCM_RIGHTS`, or a whole `SCM_CREDENTIALS` where they exist. */
  predicate Yields(p: Platform, m: RawMessage) {
    if p.linux then m.level == 1 && (m.kind == 1 || (m.kind == 2 && |m.data| >= 12))
    else m.level == 0xFFFF && m.kind == 1
  }

  function Yielding(p: Platform, ms: seq<Located>): seq<RawMessage> {
    if ms == [] then []
    else (if Yields(p, ms[0].raw) then [ms[0].raw] else []) + Yielding(p, ms[1..])
  }

  /** An entry holds what its message says, read off the bytes. */
  predicate EntryOf(p: Platform, m: RawMessage, r: Received) {
    match r
    case Rights(fds) => m.kind == 1 && fds == RightsIn(p, m.data)
    case Creds(c) =>
      && m.kind == 2 && |m.data| >= 12
      && EncodeI32(p.bigEndian, c.pid) == m.data[..4]
      && ToNative(p.bigEndian, c.uid, 4) == m.data[4..8]
      && ToNative(p.bigEndian, c.gid, 4) == m.data[8..12]
  }

  lemma {:induction false} DecodedCredentials(p: Platform, data: seq<byte>)
    requires |data| >= CRED_SIZE
    ensures var c := DecodeCredentials(p, data);
      && EncodeI32(p.bigEndian, c.pid) == data[..4]
      && ToNative(p.bigEndian, c.uid, 4) == data[4..8]
      && ToNative(p.bigEndian, c.gid, 4) == data[8..12]
  {
    hide EncodeI32, DecodeI32, ToNative, FromNative;
    I32OfValue(p.bigEndian, data[..4]);
    NativeOfValue(p.bigEndian, data[4..8]);
    NativeOfValue(p.bigEndian, data[8..12]);
  }

  lemma {:induction false} OneEntry(p: Platform, m: RawMessage)
    ensures ReceivedFrom(p, m) != [] <==> Yields(p, m)
    ensures |ReceivedFrom(p, m)| <= 1
    ensures Yields(p, m) ==> EntryOf(p, m, ReceivedFrom(p, m)[0])
  {
    if IsCredentials(p, m) {
      DecodedCredentials(p, m.data);
    }
    hide DecodeCredentials, EncodeI32, ToNative;
  }

  /** One entry for each message that yields one, in order and with its values, and none for any other
      level or kind. */
  lemma {:induction false} EntriesAreExact(p: Platform, ms: seq<Located>)
    ensures |AllReceived(p, ms)| == |Yielding(p, ms)|
    ensures forall k :: 0 <= k < |AllReceived(p, ms)| ==> EntryOf(p, Yielding(p, ms)[k], AllReceived(p, ms)[k])
  {
    if ms != [] {
      EntriesAreExact(p, ms[1..]);
      OneEntry(p, ms[0].raw);
      hide ReceivedFrom, EntryOf, Yields;
      var rest, all := AllReceived(p, ms[1..]), AllReceived(p, ms);
      var own := ReceivedFrom(p, ms[0].raw);
      forall k | 0 <= k < |all| ensures EntryOf(p, Yielding(p, ms)[k], all[k]) {
        if k >= |own| { assert all[k] == rest[k - |own|]; }
      }
    }
  }

  /** Descriptors are owned out of `SCM_RIGHTS` alone, and closed out of Linux's type 4 alone. */
  lemma KindsAreExact(p: Platform, m: RawMessage)
    ensures RightsFrom(p, m) ==
      if m.level == (if p.linux then 1 else 0xFFFF) && m.kind == 1 then RightsIn(p, m.data) else []
    ensures PidfdsFrom(p, m) == if p.linux && m.level == 1 && m.kind == 4 then RightsIn(p, m.data) else []
  {
  }

  function EncodeNumbers(p: Platform, numbers: seq<i32>): seq<byte> {
    if numbers == [] then [] else EncodeI32(p.bigEndian, numbers[0]) + EncodeNumbers(p, numbers[1..])
  }

  function NonNegative(numbers: seq<i32>): seq<Fd> {
    if numbers == [] then []
    else (if numbers[0] >= 0 then [numbers[0]] else []) + NonNegative(numbers[1..])
  }

  /** Any payload is whole numbers and less than one more. The non-negative ones are its descriptors:
      a negative number hides nothing behind it, and bytes of a partial one are not read. */
  lemma {:induction false} DescriptorsAreExact(p: Platform, data: seq<byte>)
    returns (numbers: seq<i32>, tail: seq<byte>)
    ensures data == EncodeNumbers(p, numbers) + tail && |tail| < 4
    ensures RightsIn(p, data) == NonNegative(numbers)
    decreases |data|
  {
    if |data| < 4 {
      numbers, tail := [], data;
    } else {
      var n := DecodeI32(p.bigEndian, data[..4]);
      I32OfValue(p.bigEndian, data[..4]);
      hide EncodeI32, DecodeI32;
      numbers, tail := DescriptorsAreExact(p, data[4..]);
      assert [n] + numbers != [] && ([n] + numbers)[1..] == numbers;
      assert data == data[..4] + data[4..];
      numbers := [n] + numbers;
    }
  }

  // ---------------------------------------------------------------- slots

  datatype Item = Right(fd: Fd) | Pidfd(fd: Fd) | Cred(creds: Credentials)

  /** One value and the bytes `[at, end)` of the control buffer it was read from. */
  datatype Slot = Slot(at: nat, end: nat, item: Item)

  function FdSlots(p: Platform, start: nat, data: seq<byte>, pidfd: bool): seq<Slot>
    decreases |data|
  {
    if |data| < FD_SIZE then []
    else
      var fd := DecodeI32(p.bigEndian, data[..FD_SIZE]);
      (if fd >= 0 then [Slot(start, start + FD_SIZE, if pidfd then Pidfd(fd) else Right(fd))] else [])
      + FdSlots(p, start + FD_SIZE, data[FD_SIZE..], pidfd)
  }

  function MessageSlots(p: Platform, m: Located): seq<Slot> {
    if IsRights(p, m.raw) then FdSlots(p, m.start, m.raw.data, false)
    else if IsPidfd(p, m.raw) then FdSlots(p, m.start, m.raw.data, true)
    else if IsCredentials(p, m.raw) then
      [Slot(m.start, m.start + CRED_SIZE, Cred(DecodeCredentials(p, m.raw.data)))]
    else []
  }

  function Slots(p: Platform, ms: seq<Located>): seq<Slot> {
    if ms == [] then [] else MessageSlots(p, ms[0]) + Slots(p, ms[1..])
  }

  /** In order, non-empty, pairwise disjoint, inside `[lo, hi]`. */
  predicate Disjoint(slots: seq<Slot>, lo: nat, hi: nat)
    decreases |slots|
  {
    if slots == [] then lo <= hi
    else lo <= slots[0].at < slots[0].end <= hi && Disjoint(slots[1..], slots[0].end, hi)
  }

  lemma {:induction false} DisjointWiden(slots: seq<Slot>, lo: nat, hi: nat, lo': nat, hi': nat)
    requires Disjoint(slots, lo, hi) && lo' <= lo && hi <= hi'
    ensures Disjoint(slots, lo', hi')
    decreases |slots|
  {
    if slots != [] { DisjointWiden(slots[1..], slots[0].end, hi, slots[0].end, hi'); }
  }

  lemma {:induction false} DisjointBounds(slots: seq<Slot>, lo: nat, hi: nat)
    requires Disjoint(slots, lo, hi)
    ensures lo <= hi
    ensures forall i :: 0 <= i < |slots| ==> lo <= slots[i].at < slots[i].end <= hi
    ensures forall i, j :: 0 <= i < j < |slots| ==> slots[i].end <= slots[j].at
    decreases |slots|
  {
    if slots != [] {
      var rest := slots[1..];
      DisjointBounds(rest, slots[0].end, hi);
      forall i | 1 <= i < |slots| ensures slots[0].end <= slots[i].at < slots[i].end <= hi {
        assert slots[i] == rest[i - 1];
      }
      forall i, j | 1 <= i < j < |slots| ensures slots[i].end <= slots[j].at {
        assert slots[i] == rest[i - 1] && slots[j] == rest[j - 1];
      }
    }
  }

  lemma {:induction false} DisjointConcat(a: seq<Slot>, b: seq<Slot>, lo: nat, mid: nat, hi: nat)
    requires Disjoint(a, lo, mid) && Disjoint(b, mid, hi)
    ensures Disjoint(a + b, lo, hi)
    decreases |a|
  {
    if a == [] {
      assert a + b == b;
      DisjointWiden(b, mid, hi, lo, hi);
    } else {
      assert (a + b)[1..] == a[1..] + b;
      DisjointConcat(a[1..], b, a[0].end, mid, hi);
      DisjointBounds(b, mid, hi);
      DisjointBounds(a[1..], a[0].end, mid);
    }
  }

  lemma {:induction false} FdSlotsDisjoint(p: Platform, start: nat, data: seq<byte>, pidfd: bool)
    ensures Disjoint(FdSlots(p, start, data, pidfd), start, start + |data|)
    decreases |data|
  {
    if |data| >= FD_SIZE {
      hide DecodeI32;
      FdSlotsDisjoint(p, start + FD_SIZE, data[FD_SIZE..], pidfd);
      var rest := FdSlots(p, start + FD_SIZE, data[FD_SIZE..], pidfd);
      DisjointWiden(rest, start + FD_SIZE, start + |data|, start, start + |data|);
      var all := FdSlots(p, start, data, pidfd);
      if |all| > |rest| { assert all[1..] == rest; } else { assert all == rest; }
    }
  }

  lemma {:induction false} MessageSlotsDisjoint(p: Platform, m: Located)
    ensures Disjoint(MessageSlots(p, m), m.start, m.End())
  {
    hide DecodeI32, DecodeCredentials;
    FdSlotsDisjoint(p, m.start, m.raw.data, IsPidfd(p, m.raw));
  }

  lemma {:induction false} SlotsDisjoint(p: Platform, ms: seq<Located>, lo: nat, hi: nat)
    requires InOrder(p, ms, lo, hi)
    ensures Disjoint(Slots(p, ms), lo, hi)
    decreases |ms|
  {
    if ms != [] {
      MessageSlotsDisjoint(p, ms[0]);
      SlotsDisjoint(p, ms[1..], ms[0].End(), hi);
      hide MessageSlots;
      DisjointWiden(MessageSlots(p, ms[0]), ms[0].start, ms[0].End(), lo, ms[0].End());
      DisjointConcat(MessageSlots(p, ms[0]), Slots(p, ms[1..]), lo, ms[0].End(), hi);
    }
  }

  /** No byte of a control buffer is read as part of two values, whatever the buffer holds. */
  lemma {:induction false} EachSlotReadOnce(p: Platform, buffer: seq<byte>)
    ensures var slots := Slots(p, Parse(p, buffer, 0));
      && (forall i :: 0 <= i < |slots| ==> 0 <= slots[i].at < slots[i].end <= |buffer|)
      && (forall i, j :: 0 <= i < j < |slots| ==> slots[i].end <= slots[j].at)
  {
    hide Parse, Slots;
    ParseOrdered(p, buffer, 0);
    SlotsDisjoint(p, Parse(p, buffer, 0), 0, |buffer|);
    DisjointBounds(Slots(p, Parse(p, buffer, 0)), 0, |buffer|);
  }

  /** A slot names the very bytes its value is written with. */
  predicate ReadsItsBytes(p: Platform, s: Slot, buffer: seq<byte>) {
    && s.at <= s.end <= |buffer|
    && buffer[s.at..s.end] ==
      match s.item
      case Right(fd) => EncodeI32(p.bigEndian, fd)
      case Pidfd(fd) => EncodeI32(p.bigEndian, fd)
      case Cred(c) => EncodeCredentials(p, c)
  }

  lemma {:induction false} FdSlotsRead(p: Platform, start: nat, data: seq<byte>, pidfd: bool, buffer: seq<byte>)
    requires start + |data| <= |buffer| && data == buffer[start..start + |data|]
    ensures forall s :: s in FdSlots(p, start, data, pidfd) ==> ReadsItsBytes(p, s, buffer)
    decreases |data|
  {
    if |data| >= FD_SIZE {
      I32OfValue(p.bigEndian, data[..FD_SIZE]);
      hide EncodeI32, DecodeI32;
      assert data[..FD_SIZE] == buffer[start..start + FD_SIZE];
      FdSlotsRead(p, start + FD_SIZE, data[FD_SIZE..], pidfd, buffer);
    }
  }

  lemma {:induction false} MessageSlotsRead(p: Platform, m: Located, buffer: seq<byte>)
    requires m.End() <= |buffer| && m.raw.data == buffer[m.start..m.End()]
    ensures forall s :: s in MessageSlots(p, m) ==> ReadsItsBytes(p, s, buffer)
  {
    FdSlotsRead(p, m.start, m.raw.data, IsPidfd(p, m.raw), buffer);
    if IsCredentials(p, m.raw) {
      DecodedCredentials(p, m.raw.data);
      hide EncodeI32, DecodeCredentials, ToNative, FdSlots;
      var d := m.raw.data;
      assert d[..CRED_SIZE] == d[..4] + d[4..8] + d[8..12];
      assert d[..CRED_SIZE] == buffer[m.start..m.start + CRED_SIZE];
    }
  }

  lemma {:induction false} SlotsRead(p: Platform, ms: seq<Located>, buffer: seq<byte>)
    requires ReadsFrom(ms, buffer)
    ensures forall s :: s in Slots(p, ms) ==> ReadsItsBytes(p, s, buffer)
  {
    hide ReadsItsBytes, MessageSlots;
    if ms != [] {
      MessageSlotsRead(p, ms[0], buffer);
      SlotsRead(p, ms[1..], buffer);
    }
  }

  /** Every value taken from a buffer is what stands at its place. */
  lemma {:induction false} EachSlotReadsItsBytes(p: Platform, buffer: seq<byte>)
    ensures forall s :: s in Slots(p, Parse(p, buffer, 0)) ==> ReadsItsBytes(p, s, buffer)
  {
    hide Parse, Slots, ReadsItsBytes, ReadsFrom;
    assert buffer[0..] == buffer;
    ParseReadsBuffer(p, buffer, 0);
    SlotsRead(p, Parse(p, buffer, 0), buffer);
  }

  // ---------------------------------------------------------------- truncation, in slots

  /** The leading slots that end by `limit`. */
  function Within(slots: seq<Slot>, limit: nat): seq<Slot> {
    if slots == [] || slots[0].end > limit then [] else [slots[0]] + Within(slots[1..], limit)
  }

  lemma {:induction false} WithinIsPrefix(slots: seq<Slot>, limit: nat)
    ensures Within(slots, limit) <= slots
  {
    if slots != [] && slots[0].end <= limit { WithinIsPrefix(slots[1..], limit); }
  }

  /** On disjoint slots the leading ones are all of them: nothing whole is left out. */
  lemma {:induction false} WithinIsExact(slots: seq<Slot>, lo: nat, hi: nat, limit: nat)
    requires Disjoint(slots, lo, hi)
    ensures forall s :: s in Within(slots, limit) <==> s in slots && s.end <= limit
    decreases |slots|
  {
    if slots != [] {
      WithinIsExact(slots[1..], slots[0].end, hi, limit);
      DisjointBounds(slots, lo, hi);
    }
  }

  lemma {:induction false} WithinConcat(a: seq<Slot>, b: seq<Slot>, limit: nat)
    requires Within(a, limit) == a || Within(b, limit) == []
    ensures Within(a + b, limit) == Within(a, limit) + Within(b, limit)
  {
    if a == [] {
      assert a + b == b;
    } else {
      assert (a + b)[1..] == a[1..] + b;
      if a[0].end <= limit {
        if Within(a, limit) == a { assert Within(a, limit)[1..] == Within(a[1..], limit) == a[1..]; }
        WithinConcat(a[1..], b, limit);
      }
    }
  }

  lemma {:induction false} WithinAll(slots: seq<Slot>, lo: nat, hi: nat, limit: nat)
    requires Disjoint(slots, lo, hi) && hi <= limit
    ensures Within(slots, limit) == slots
    decreases |slots|
  {
    if slots != [] { WithinAll(slots[1..], slots[0].end, hi, limit); }
  }

  lemma {:induction false} WithinNone(slots: seq<Slot>, lo: nat, hi: nat, limit: nat)
    requires Disjoint(slots, lo, hi) && limit <= lo
    ensures Within(slots, limit) == []
  {
  }

  lemma {:induction false} FirstSlotCut(p: Platform, start: nat, data: seq<byte>, pidfd: bool, limit: nat)
    requires |data| >= FD_SIZE && limit < start + FD_SIZE
    ensures Within(FdSlots(p, start, data, pidfd), limit) == []
  {
    FdSlotsDisjoint(p, start + FD_SIZE, data[FD_SIZE..], pidfd);
    WithinNone(FdSlots(p, start + FD_SIZE, data[FD_SIZE..], pidfd), start + FD_SIZE, start + |data|, limit);
  }

  lemma {:induction false} CutFdSlots(p: Platform, start: nat, data: seq<byte>, pidfd: bool, k: nat)
    requires k <= |data|
    ensures FdSlots(p, start, data[..k], pidfd) == Within(FdSlots(p, start, data, pidfd), start + k)
    decreases |data|
  {
    if k < FD_SIZE {
      if |data| >= FD_SIZE { FirstSlotCut(p, start, data, pidfd, start + k); }
    } else {
      CutFdSlots(p, start + FD_SIZE, data[FD_SIZE..], pidfd, k - FD_SIZE);
      assert data[..k][FD_SIZE..] == data[FD_SIZE..][..k - FD_SIZE];
      assert data[..k][..FD_SIZE] == data[..FD_SIZE];
      hide DecodeI32;
      var rest := FdSlots(p, start + FD_SIZE, data[FD_SIZE..], pidfd);
      var all := FdSlots(p, start, data, pidfd);
      if |all| > |rest| { assert all[1..] == rest; } else { assert all == rest; }
    }
  }

  lemma {:induction false} CutMessageSlots(p: Platform, m: Located, limit: nat)
    requires m.start <= limit
    ensures MessageSlots(p, ClipOne(m, limit)) == Within(MessageSlots(p, m), limit)
  {
    var data, k := m.raw.data, Min(|m.raw.data|, limit - m.start);
    if IsRights(p, m.raw) || IsPidfd(p, m.raw) {
      CutFdSlots(p, m.start, data, IsPidfd(p, m.raw), k);
      if k == |data| {
        MessageSlotsDisjoint(p, m);
        WithinAll(MessageSlots(p, m), m.start, m.End(), limit);
        assert data[..k] == data;
      }
    } else if IsCredentials(p, m.raw) && k >= CRED_SIZE {
      assert data[..k][..4] == data[..4];
      assert data[..k][4..8] == data[4..8];
      assert data[..k][8..12] == data[8..12];
    }
  }

  lemma {:induction false} CutSlots(p: Platform, ms: seq<Located>, lo: nat, hi: nat, limit: nat)
    requires InOrder(p, ms, lo, hi)
    ensures Slots(p, Clip(ms, limit)) == Within(Slots(p, ms), limit)
    decreases |ms|
  {
    SlotsDisjoint(p, ms, lo, hi);
    if ms != [] {
      var a, b := MessageSlots(p, ms[0]), Slots(p, ms[1..]);
      MessageSlotsDisjoint(p, ms[0]);
      SlotsDisjoint(p, ms[1..], ms[0].End(), hi);
      if limit < ms[0].start {
        DisjointBounds(a + b, lo, hi);
        WithinNone(a, ms[0].start, ms[0].End(), limit);
        WithinNone(b, ms[0].End(), hi, limit);
        WithinConcat(a, b, limit);
      } else {
        CutMessageSlots(p, ms[0], limit);
        CutSlots(p, ms[1..], ms[0].End(), hi, limit);
        if ms[0].End() <= limit {
          WithinAll(a, ms[0].start, ms[0].End(), limit);
        } else {
          WithinNone(b, ms[0].End(), hi, limit);
        }
        WithinConcat(a, b, limit);
      }
    }
  }

  /** Cutting a buffer anywhere keeps exactly the values whose bytes survive whole. */
  lemma {:induction false} TruncationKeepsWholeSlots(p: Platform, buffer: seq<byte>, k: nat)
    requires k <= |buffer|
    ensures Slots(p, Parse(p, buffer[..k], 0)) == Within(Slots(p, Parse(p, buffer, 0)), k)
    ensures forall s :: s in Slots(p, Parse(p, buffer[..k], 0)) <==>
      s in Slots(p, Parse(p, buffer, 0)) && s.end <= k
  {
    hide Parse, Slots;
    TruncationIsClipping(p, buffer, 0, k);
    ParseOrdered(p, buffer, 0);
    CutSlots(p, Parse(p, buffer, 0), 0, |buffer|, k);
    SlotsDisjoint(p, Parse(p, buffer, 0), 0, |buffer|);
    WithinIsExact(Slots(p, Parse(p, buffer, 0)), 0, |buffer|, k);
  }

  // ---------------------------------------------------------------- slots and lists

  function RightOf(item: Item): seq<Fd> {
    if item.Right? then [item.fd] else []
  }

  function PidfdOf(item: Item): seq<Fd> {
    if item.Pidfd? then [item.fd] else []
  }

  function RightsOf(slots: seq<Slot>): seq<Fd> {
    if slots == [] then [] else RightOf(slots[0].item) + RightsOf(slots[1..])
  }

  function PidfdsOf(slots: seq<Slot>): seq<Fd> {
    if slots == [] then [] else PidfdOf(slots[0].item) + PidfdsOf(slots[1..])
  }

  function CredOf(item: Item): seq<Credentials> {
    if item.Cred? then [item.creds] else []
  }

  function CredsOf(slots: seq<Slot>): seq<Credentials> {
    if slots == [] then [] else CredOf(slots[0].item) + CredsOf(slots[1..])
  }

  function CredentialsOf(r: Received): seq<Credentials> {
    match r case Rights(_) => [] case Creds(c) => [c]
  }

  function CredentialsIn(received: seq<Received>): seq<Credentials> {
    if received == [] then [] else CredentialsOf(received[0]) + CredentialsIn(received[1..])
  }

  lemma {:induction false} CredsOfConcat(a: seq<Slot>, b: seq<Slot>)
    ensures CredsOf(a + b) == CredsOf(a) + CredsOf(b)
  {
    hide CredOf;
    if a == [] {
      assert a + b == b;
    } else {
      assert (a + b)[1..] == a[1..] + b;
      CredsOfConcat(a[1..], b);
    }
  }

  lemma {:induction false} CredentialsInConcat(a: seq<Received>, b: seq<Received>)
    ensures CredentialsIn(a + b) == CredentialsIn(a) + CredentialsIn(b)
  {
    hide CredentialsOf;
    if a == [] {
      assert a + b == b;
    } else {
      assert (a + b)[1..] == a[1..] + b;
      CredentialsInConcat(a[1..], b);
    }
  }

  lemma {:induction false} FdSlotsHoldNoCreds(p: Platform, start: nat, data: seq<byte>, pidfd: bool)
    ensures CredsOf(FdSlots(p, start, data, pidfd)) == []
    decreases |data|
  {
    if |data| >= FD_SIZE {
      FdSlotsHoldNoCreds(p, start + FD_SIZE, data[FD_SIZE..], pidfd);
      var all, rest := FdSlots(p, start, data, pidfd), FdSlots(p, start + FD_SIZE, data[FD_SIZE..], pidfd);
      hide DecodeI32;
      if |all| > |rest| { assert all[1..] == rest; } else { assert all == rest; }
    }
  }

  lemma {:induction false} MessageCredentials(p: Platform, m: Located)
    ensures CredentialsIn(ReceivedFrom(p, m.raw)) == CredsOf(MessageSlots(p, m))
  {
    FdSlotsHoldNoCreds(p, m.start, m.raw.data, IsPidfd(p, m.raw));
    hide DecodeCredentials, FdSlots, RightsIn;
    assert CredentialsIn([]) == [] && CredsOf([]) == [];
  }

  /** The credentials handed out are the credential values of the buffer, in order. */
  lemma {:induction false} CredentialsAreSlots(p: Platform, ms: seq<Located>)
    ensures CredentialsIn(AllReceived(p, ms)) == CredsOf(Slots(p, ms))
  {
    if ms != [] {
      CredentialsAreSlots(p, ms[1..]);
      MessageCredentials(p, ms[0]);
      hide MessageSlots, ReceivedFrom;
      CredsOfConcat(MessageSlots(p, ms[0]), Slots(p, ms[1..]));
      CredentialsInConcat(ReceivedFrom(p, ms[0].raw), AllReceived(p, ms[1..]));
    }
  }

  lemma {:induction false} RightsOfConcat(a: seq<Slot>, b: seq<Slot>)
    ensures RightsOf(a + b) == RightsOf(a) + RightsOf(b)
  {
    hide RightOf;
    if a == [] {
      assert a + b == b;
    } else {
      assert (a + b)[1..] == a[1..] + b;
      RightsOfConcat(a[1..], b);
    }
  }

  lemma {:induction false} PidfdsOfConcat(a: seq<Slot>, b: seq<Slot>)
    ensures PidfdsOf(a + b) == PidfdsOf(a) + PidfdsOf(b)
  {
    hide PidfdOf;
    if a == [] {
      assert a + b == b;
    } else {
      assert (a + b)[1..] == a[1..] + b;
      PidfdsOfConcat(a[1..], b);
    }
  }

  lemma {:induction false} RightsOfPrefix(a: seq<Slot>, b: seq<Slot>)
    requires a <= b
    ensures RightsOf(a) <= RightsOf(b) && PidfdsOf(a) <= PidfdsOf(b)
  {
    assert b == a + b[|a|..];
    RightsOfConcat(a, b[|a|..]);
    PidfdsOfConcat(a, b[|a|..]);
  }

  lemma {:induction false} FdSlotsValues(p: Platform, start: nat, data: seq<byte>, pidfd: bool)
    ensures RightsOf(FdSlots(p, start, data, pidfd)) == if pidfd then [] else RightsIn(p, data)
    ensures PidfdsOf(FdSlots(p, start, data, pidfd)) == if pidfd then RightsIn(p, data) else []
    decreases |data|
  {
    if |data| >= FD_SIZE {
      FdSlotsValues(p, start + FD_SIZE, data[FD_SIZE..], pidfd);
      var all, rest := FdSlots(p, start, data, pidfd), FdSlots(p, start + FD_SIZE, data[FD_SIZE..], pidfd);
      hide DecodeI32;
      if |all| > |rest| { assert all[1..] == rest; } else { assert all == rest; }
    }
  }

  lemma {:induction false} SlotValues(p: Platform, ms: seq<Located>)
    ensures RightsOf(Slots(p, ms)) == AllRights(p, ms)
    ensures PidfdsOf(Slots(p, ms)) == AllPidfds(p, ms)
  {
    if ms != [] {
      SlotValues(p, ms[1..]);
      RightsOfConcat(MessageSlots(p, ms[0]), Slots(p, ms[1..]));
      PidfdsOfConcat(MessageSlots(p, ms[0]), Slots(p, ms[1..]));
      FdSlotsValues(p, ms[0].start, ms[0].raw.data, IsPidfd(p, ms[0].raw));
    }
  }

  /** The descriptors found in a cut buffer are a prefix of those of the whole buffer. */
  lemma {:induction false} TruncatedDescriptorsArePrefix(p: Platform, buffer: seq<byte>, k: nat)
    requires k <= |buffer|
    ensures AllRights(p, Parse(p, buffer[..k], 0)) <= AllRights(p, Parse(p, buffer, 0))
    ensures AllPidfds(p, Parse(p, buffer[..k], 0)) <= AllPidfds(p, Parse(p, buffer, 0))
  {
    hide Parse, Slots;
    TruncationKeepsWholeSlots(p, buffer, k);
    WithinIsPrefix(Slots(p, Parse(p, buffer, 0)), k);
    SlotValues(p, Parse(p, buffer, 0));
    SlotValues(p, Parse(p, buffer[..k], 0));
    RightsOfPrefix(Slots(p, Parse(p, buffer[..k], 0)), Slots(p, Parse(p, buffer, 0)));
  }

  lemma {:induction false} ZeroBytes(width: nat)
    ensures LittleEndian(0, width) == Zeros(width)
  {
    if width > 0 { ZeroBytes(width - 1); }
  }

  lemma {:induction false} SmallNumber(n: byte, width: nat)
    requires width > 0
    ensures LittleEndian(n, width) == [n] + Zeros(width - 1)
  {
    ZeroBytes(width - 1);
  }

  lemma LinuxHeader()
    ensures HeaderBytes(LINUX_X86_64, 1, SCM_RIGHTS, 4) == [20, 0, 0, 0, 0, 0, 0, 0, 1, 0, 0, 0, 1, 0, 0, 0]
  {
    SmallNumber(20, 8);
    SmallNumber(1, 4);
    hide LittleEndian;
    assert Zeros(7) == [0, 0, 0, 0, 0, 0, 0] && Zeros(3) == [0, 0, 0] && Zeros(0) == [];
  }

  /** The x86-64 Linux bytes of a message carrying descriptor 5: length 20, level 1, type 1. */
  lemma LinuxBytesOfOneDescriptor()
    ensures EncodeOne(LINUX_X86_64, RightsMessage(LINUX_X86_64, [5])) ==
      [20, 0, 0, 0, 0, 0, 0, 0, 1, 0, 0, 0, 1, 0, 0, 0, 5, 0, 0, 0, 0, 0, 0, 0]
  {
    var p := LINUX_X86_64;
    LinuxHeader();
    SmallNumber(5, 4);
    hide LittleEndian, HeaderBytes;
    assert EncodeFds(p, []) == [];
    assert EncodeFds(p, [5]) == EncodeI32(false, 5) + EncodeFds(p, [5][1..]);
    assert EncodeFds(p, [5]) == [5, 0, 0, 0];
    assert Space(p, RightsMessage(p, [5])) == 24;
    assert Zeros(4) == [0, 0, 0, 0];
  }

  lemma LinuxCredentialsHeader()
    ensures HeaderBytes(LINUX_X86_64, 1, SCM_CREDENTIALS, 12) == [28, 0, 0, 0, 0, 0, 0, 0, 1, 0, 0, 0, 2, 0, 0, 0]
  {
    SmallNumber(28, 8);
    SmallNumber(1, 4);
    SmallNumber(2, 4);
    hide LittleEndian;
    assert Zeros(7) == [0, 0, 0, 0, 0, 0, 0] && Zeros(3) == [0, 0, 0] && Zeros(0) == [];
  }

  lemma AllOnes()
    ensures LittleEndian(0xFFFF_FFFF, 4) == [255, 255, 255, 255]
  {
    assert LittleEndian(0xFF, 1) == [255] + LittleEndian(0, 0);
    assert LittleEndian(0xFFFF, 2) == [255] + LittleEndian(0xFF, 1);
    assert LittleEndian(0xFF_FFFF, 3) == [255] + LittleEndian(0xFFFF, 2);
  }

  lemma LinuxCredentialsPayload()
    ensures EncodeCredentials(LINUX_X86_64, Credentials(-1, 2, 3)) == [255, 255, 255, 255, 2, 0, 0, 0, 3, 0, 0, 0]
  {
    SmallNumber(2, 4);
    SmallNumber(3, 4);
    AllOnes();
    hide LittleEndian;
    assert Zeros(3) == [0, 0, 0];
  }

  lemma TwoOnes()
    ensures LittleEndian(0xFFFF, 4) == [255, 255, 0, 0]
  {
    ZeroBytes(2);
    assert LittleEndian(0xFF, 3) == [255] + LittleEndian(0, 2);
    assert LittleEndian(0xFFFF, 4) == [255] + LittleEndian(0xFF, 3);
  }

  /** Credentials on x86-64 Linux: length 28, level 1, type 2, then pid -1, uid 2, gid 3. */
  lemma LinuxBytesOfCredentials()
    ensures EncodeOne(LINUX_X86_64, CredentialsMessage(LINUX_X86_64, Credentials(-1, 2, 3))) ==
      [28, 0, 0, 0, 0, 0, 0, 0, 1, 0, 0, 0, 2, 0, 0, 0, 255, 255, 255, 255, 2, 0, 0, 0, 3, 0, 0, 0, 0, 0, 0, 0]
    ensures BufferSizeForCredentials(LINUX_X86_64) == 32
  {
    var p := LINUX_X86_64;
    LinuxCredentialsHeader();
    LinuxCredentialsPayload();
    hide EncodeCredentials, HeaderBytes;
    assert Space(p, CredentialsMessage(p, Credentials(-1, 2, 3))) == 32;
    assert Zeros(4) == [0, 0, 0, 0];
  }

  lemma {:induction false} OneDescriptor(p: Platform, fd: Fd)
    ensures EncodeFds(p, [fd]) == EncodeI32(p.bigEndian, fd)
  {
    hide EncodeI32;
    assert EncodeFds(p, [fd]) == EncodeI32(p.bigEndian, fd) + EncodeFds(p, [fd][1..]);
  }

  lemma BigEndianWord(n: byte, width: nat)
    requires width > 0
    ensures ToNative(true, n, width) == Zeros(width - 1) + [n]
  {
    SmallNumber(n, width);
    hide LittleEndian;
  }

  lemma S390xHeader()
    ensures HeaderBytes(LINUX_S390X, 1, SCM_RIGHTS, 4) == [0, 0, 0, 0, 0, 0, 0, 20, 0, 0, 0, 1, 0, 0, 0, 1]
  {
    BigEndianWord(20, 8);
    BigEndianWord(1, 4);
    hide ToNative;
    assert Zeros(7) == [0, 0, 0, 0, 0, 0, 0] && Zeros(3) == [0, 0, 0] && Zeros(0) == [];
    assert ToNative(true, 20, 8) == [0, 0, 0, 0, 0, 0, 0, 20];
    assert ToNative(true, 1, 4) == [0, 0, 0, 1];
  }

  /** Descriptor 5 on big-endian Linux. */
  lemma S390xBytesOfOneDescriptor()
    ensures EncodeOne(LINUX_S390X, RightsMessage(LINUX_S390X, [5])) ==
      [0, 0, 0, 0, 0, 0, 0, 20, 0, 0, 0, 1, 0, 0, 0, 1, 0, 0, 0, 5, 0, 0, 0, 0]
  {
    var p := LINUX_S390X;
    S390xHeader();
    BigEndianWord(5, 4);
    OneDescriptor(p, 5);
    hide HeaderBytes, EncodeFds, ToNative;
    assert Space(p, RightsMessage(p, [5])) == 24;
    assert Zeros(4) == [0, 0, 0, 0] && Zeros(3) == [0, 0, 0];
  }

  lemma FreeBsdHeader()
    ensures HeaderBytes(FREEBSD_AMD64, 0xFFFF, SCM_RIGHTS, 4) == [20, 0, 0, 0, 255, 255, 0, 0, 1, 0, 0, 0, 0, 0, 0, 0]
  {
    SmallNumber(20, 4);
    SmallNumber(1, 4);
    TwoOnes();
    hide LittleEndian;
    assert Zeros(4) == [0, 0, 0, 0] && Zeros(3) == [0, 0, 0];
  }

  /** Descriptor 5 on FreeBSD: the struct ends four bytes before the payload starts. */
  lemma FreeBsdBytesOfOneDescriptor()
    ensures EncodeOne(FREEBSD_AMD64, RightsMessage(FREEBSD_AMD64, [5])) ==
      [20, 0, 0, 0, 255, 255, 0, 0, 1, 0, 0, 0, 0, 0, 0, 0, 5, 0, 0, 0, 0, 0, 0, 0]
  {
    var p := FREEBSD_AMD64;
    FreeBsdHeader();
    SmallNumber(5, 4);
    OneDescriptor(p, 5);
    hide HeaderBytes, EncodeFds, LittleEndian;
    assert Space(p, RightsMessage(p, [5])) == 24;
    assert Zeros(4) == [0, 0, 0, 0] && Zeros(3) == [0, 0, 0];
  }

  lemma AppleHeader()
    ensures HeaderBytes(APPLE, 0xFFFF, SCM_RIGHTS, 4) == [16, 0, 0, 0, 255, 255, 0, 0, 1, 0, 0, 0]
  {
    SmallNumber(16, 4);
    SmallNumber(1, 4);
    TwoOnes();
    hide LittleEndian;
    assert Zeros(0) == [] && Zeros(3) == [0, 0, 0];
  }

  /** Descriptor 5 on Apple: four-byte alignment, no padding. */
  lemma AppleBytesOfOneDescriptor()
    ensures EncodeOne(APPLE, RightsMessage(APPLE, [5])) ==
      [16, 0, 0, 0, 255, 255, 0, 0, 1, 0, 0, 0, 5, 0, 0, 0]
  {
    var p := APPLE;
    AppleHeader();
    SmallNumber(5, 4);
    OneDescriptor(p, 5);
    hide HeaderBytes, EncodeFds, LittleEndian;
    assert Space(p, RightsMessage(p, [5])) == 16;
    assert Zeros(0) == [] && Zeros(3) == [0, 0, 0];
  }
}
