/** The control-message codec: the byte parser over arbitrary input, the encoder, and how the two
    relate on whole and truncated buffers. */
module Control {
  import opened Wrappers
  import opened Bytes
  import opened Layout

  datatype RawMessage = RawMessage(level: i32, kind: i32, data: seq<byte>)

  /** A parsed message together with the offset of its data slice in the control buffer. */
  datatype Located = Located(start: nat, raw: RawMessage) {
    function End(): nat { start + |raw.data| }
  }

  // ---------------------------------------------------------------- the parser, one step

  /** `cmsg_len` as written by whoever filled the buffer. */
  function ClaimedLen(p: Platform, bytes: seq<byte>): nat
    requires |bytes| >= p.HeaderSize()
  {
    FromNative(p.bigEndian, bytes[..p.lenWidth])
  }

  predicate HasMessage(p: Platform, bytes: seq<byte>) {
    && |bytes| >= p.HeaderSize()
    && Min(ClaimedLen(p, bytes), |bytes|) >= p.headerLen
  }

  function Head(p: Platform, bytes: seq<byte>): RawMessage
    requires HasMessage(p, bytes)
  {
    var w := p.lenWidth;
    RawMessage(
      DecodeI32(p.bigEndian, bytes[w..w + 4]),
      DecodeI32(p.bigEndian, bytes[w + 4..w + 8]),
      bytes[p.headerLen..Min(ClaimedLen(p, bytes), |bytes|)])
  }

  /** How far one message moves the parser: its space, or everything when the space is
      unrepresentable or reaches past the buffer. */
  function Advance(p: Platform, bytes: seq<byte>): (n: nat)
    requires HasMessage(p, bytes)
    ensures p.headerLen + |Head(p, bytes).data| <= n <= |bytes|
  {
    match CmsgSpace(p, |Head(p, bytes).data|)
    case Some(next) => if next <= |bytes| then next else |bytes|
    case None => |bytes|
  }

  /** Every message of `bytes`, which sits at offset `at` of the control buffer. */
  function Parse(p: Platform, bytes: seq<byte>, at: nat): seq<Located>
    decreases |bytes|
  {
    if !HasMessage(p, bytes) then []
    else
      var n := Advance(p, bytes);
      [Located(at + p.headerLen, Head(p, bytes))] + Parse(p, bytes[n..], at + n)
  }

  // ---------------------------------------------------------------- arbitrary input

  /** Data ranges lie inside `[lo, hi]`, in order, with a whole header before each. */
  predicate InOrder(p: Platform, ms: seq<Located>, lo: nat, hi: nat)
    decreases |ms|
  {
    if ms == [] then lo <= hi
    else lo + p.headerLen <= ms[0].start && ms[0].End() <= hi && InOrder(p, ms[1..], ms[0].End(), hi)
  }

  lemma LowerInOrder(p: Platform, ms: seq<Located>, lo: nat, lower: nat, hi: nat)
    requires InOrder(p, ms, lo, hi) && lower <= lo
    ensures InOrder(p, ms, lower, hi)
  {
  }

  lemma {:induction false} ParseOrdered(p: Platform, bytes: seq<byte>, at: nat)
    ensures InOrder(p, Parse(p, bytes, at), at, at + |bytes|)
    decreases |bytes|
  {
    if HasMessage(p, bytes) {
      var n := Advance(p, bytes);
      var ms := Parse(p, bytes, at);
      ParseOrdered(p, bytes[n..], at + n);
      assert ms[1..] == Parse(p, bytes[n..], at + n);
      LowerInOrder(p, ms[1..], at + n, ms[0].End(), at + |bytes|);
    }
  }

  lemma {:induction false} InOrderRanges(p: Platform, ms: seq<Located>, lo: nat, hi: nat)
    requires InOrder(p, ms, lo, hi)
    ensures forall i :: 0 <= i < |ms| ==> lo + p.headerLen <= ms[i].start <= ms[i].End() <= hi
    ensures forall i, j :: 0 <= i < j < |ms| ==> ms[i].End() + p.headerLen <= ms[j].start
    ensures lo <= hi
    decreases |ms|
  {
    if ms != [] {
      InOrderRanges(p, ms[1..], ms[0].End(), hi);
      forall i | 0 <= i < |ms|
        ensures lo + p.headerLen <= ms[i].start <= ms[i].End() <= hi
        ensures i > 0 ==> ms[0].End() + p.headerLen <= ms[i].start
      {
        if i > 0 { assert ms[i] == ms[1..][i - 1]; }
      }
      forall i, j | 0 <= i < j < |ms| ensures ms[i].End() + p.headerLen <= ms[j].start {
        if i > 0 { assert ms[i] == ms[1..][i - 1] && ms[j] == ms[1..][j - 1]; }
      }
    }
  }

  /** On arbitrary bytes the data slices are in bounds and in order, with room for a whole header before
      each, so no two overlap. */
  lemma {:induction false} ParseInOrder(p: Platform, bytes: seq<byte>, at: nat)
    ensures var ms := Parse(p, bytes, at);
      && (forall i :: 0 <= i < |ms| ==> at + p.headerLen <= ms[i].start <= ms[i].End() <= at + |bytes|)
      && (forall i, j :: 0 <= i < j < |ms| ==> ms[i].End() + p.headerLen <= ms[j].start)
  {
    hide Parse;
    ParseOrdered(p, bytes, at);
    InOrderRanges(p, Parse(p, bytes, at), at, at + |bytes|);
  }

  lemma {:induction false} ParseStep(p: Platform, bytes: seq<byte>, at: nat)
    requires HasMessage(p, bytes)
    ensures 12 <= p.headerLen <= Advance(p, bytes) <= |bytes|
    ensures var n := Advance(p, bytes);
      Parse(p, bytes, at) == [Located(at + p.headerLen, Head(p, bytes))] + Parse(p, bytes[n..], at + n)
  {
  }

  lemma Successor(n: nat, h: nat)
    ensures (1 + n) * h == h + n * h
  {
  }

  /** The parse ends exactly where no header struct is left, or where the length claimed or left is
      less than `CMSG_LEN(0)`. */
  lemma ParseEnds(p: Platform, bytes: seq<byte>, at: nat)
    ensures Parse(p, bytes, at) == [] <==>
      || |bytes| < p.lenWidth + 8
      || |bytes| < p.headerLen
      || FromNative(p.bigEndian, bytes[..p.lenWidth]) < p.headerLen
  {
    hide FromNative;
  }

  /** Otherwise, on arbitrary bytes, the first message has the level and type of the header and the data
      between `CMSG_LEN(0)` and the length claimed, or the end of the buffer if that comes first; parsing
      goes on at the first aligned place behind it, if the buffer reaches that far. */
  lemma ParseStepIsExact(p: Platform, bytes: seq<byte>, at: nat) returns (place: nat)
    requires Parse(p, bytes, at) != []
    ensures var ms, w := Parse(p, bytes, at), p.lenWidth;
      && |bytes| >= w + 8
      && var end := Min(FromNative(p.bigEndian, bytes[..w]), |bytes|);
      && p.headerLen <= end
      && (if end - p.headerLen <= I32_MAX then p.Aligned(place) && end <= place < end + p.align else place == |bytes|)
      && ms[0] == Located(at + p.headerLen, RawMessage(
        DecodeI32(p.bigEndian, bytes[w..w + 4]), DecodeI32(p.bigEndian, bytes[w + 4..w + 8]),
        bytes[p.headerLen..end]))
      && var next := Min(place, |bytes|);
      && ms[1..] == Parse(p, bytes[next..], at + next)
  {
    hide FromNative, DecodeI32, CmsgSpaceMacro;
    var space := CmsgSpace(p, |Head(p, bytes).data|);
    place := if space.Some? then space.value else |bytes|;
  }

  /** Each message consumes a whole aligned header, however large its claimed length. */
  lemma {:induction false} ParseCountBound(p: Platform, bytes: seq<byte>, at: nat)
    ensures |Parse(p, bytes, at)| * p.headerLen <= |bytes|
    decreases |bytes|
  {
    if HasMessage(p, bytes) {
      hide Advance, Head;
      var n := Advance(p, bytes);
      var rest := Parse(p, bytes[n..], at + n);
      ParseStep(p, bytes, at);
      ParseCountBound(p, bytes[n..], at + n);
      Successor(|rest|, p.headerLen);
    }
  }

  /** Every data slice is the bytes found at its offset. */
  predicate ReadsFrom(ms: seq<Located>, buffer: seq<byte>) {
    forall i :: 0 <= i < |ms| ==> ms[i].End() <= |buffer| && ms[i].raw.data == buffer[ms[i].start..ms[i].End()]
  }

  lemma NoReads(buffer: seq<byte>)
    ensures ReadsFrom([], buffer)
  {
  }

  lemma {:induction false} NoMessage(p: Platform, bytes: seq<byte>, at: nat)
    requires |bytes| < p.headerLen || !HasMessage(p, bytes)
    ensures Parse(p, bytes, at) == []
  {
  }

  lemma HeadReadsBuffer(p: Platform, buffer: seq<byte>, at: nat)
    requires at <= |buffer| && HasMessage(p, buffer[at..])
    ensures var m := Located(at + p.headerLen, Head(p, buffer[at..]));
      m.End() <= |buffer| && m.raw.data == buffer[m.start..m.End()]
  {
    var bytes, h, data := buffer[at..], p.headerLen, Head(p, buffer[at..]).data;
    assert data == bytes[h..h + |data|] == buffer[at + h..at + h + |data|];
  }

  lemma ReadsCons(m: Located, rest: seq<Located>, buffer: seq<byte>)
    requires m.End() <= |buffer| && m.raw.data == buffer[m.start..m.End()]
    requires ReadsFrom(rest, buffer)
    ensures ReadsFrom([m] + rest, buffer)
  {
  }

  lemma {:induction false} ParseReadsBuffer(p: Platform, buffer: seq<byte>, at: nat)
    requires at <= |buffer|
    ensures ReadsFrom(Parse(p, buffer[at..], at), buffer)
    decreases |buffer| - at
  {
    hide Parse, Advance, Head, HasMessage, ReadsFrom;
    NoReads(buffer);
    if !HasMessage(p, buffer[at..]) {
      NoMessage(p, buffer[at..], at);
    } else {
      var n := Advance(p, buffer[at..]);
      HeadReadsBuffer(p, buffer, at);
      ParseStep(p, buffer[at..], at);
      assert buffer[at..][n..] == buffer[at + n..];
      ParseReadsBuffer(p, buffer, at + n);
      ReadsCons(Located(at + p.headerLen, Head(p, buffer[at..])), Parse(p, buffer[at + n..], at + n), buffer);
    }
  }

  // ---------------------------------------------------------------- truncation

  function ClipOne(m: Located, limit: nat): Located
    requires m.start <= limit
  {
    m.(raw := m.raw.(data := m.raw.data[..Min(|m.raw.data|, limit - m.start)]))
  }

  /** What is left of `ms` when the buffer ends at `limit`: messages whose header is gone disappear,
      and the last one left keeps the data bytes before the limit. */
  function Clip(ms: seq<Located>, limit: nat): seq<Located> {
    if ms == [] || ms[0].start > limit then []
    else [ClipOne(ms[0], limit)] + Clip(ms[1..], limit)
  }

  lemma {:induction false} ClipNothing(p: Platform, ms: seq<Located>, lo: nat, hi: nat, limit: nat)
    requires InOrder(p, ms, lo, hi) && limit < lo + p.headerLen
    ensures Clip(ms, limit) == []
  {
  }

  lemma SliceBelow<T>(s: seq<T>, k: nat, a: nat, b: nat)
    requires a <= b <= k <= |s|
    ensures s[..k][a..b] == s[a..b]
  {
  }

  lemma SliceOfPrefix<T>(s: seq<T>, k: nat, h: nat, e: nat, f: nat)
    requires h <= e <= k <= |s| && e <= f <= |s|
    ensures s[..k][h..e] == s[h..f][..e - h]
  {
  }

  lemma {:induction false} SameHeader(p: Platform, bytes: seq<byte>, k: nat)
    requires p.headerLen <= k <= |bytes|
    ensures p.HeaderSize() <= k
    ensures ClaimedLen(p, bytes[..k]) == ClaimedLen(p, bytes)
    ensures HasMessage(p, bytes[..k]) <==> HasMessage(p, bytes)
    ensures HasMessage(p, bytes) ==>
      Head(p, bytes[..k]) ==
      ClipOne(Located(p.headerLen, Head(p, bytes)), k).raw
  {
    hide FromNative, DecodeI32;
    var cut, w := bytes[..k], p.lenWidth;
    SliceBelow(bytes, k, 0, w);
    SliceBelow(bytes, k, w, w + 4);
    SliceBelow(bytes, k, w + 4, w + 8);
    assert cut[..w] == cut[0..w] && bytes[..w] == bytes[0..w];
    if HasMessage(p, bytes) {
      var h := p.headerLen;
      var e, f := Min(ClaimedLen(p, bytes), k), Min(ClaimedLen(p, bytes), |bytes|);
      SliceOfPrefix(bytes, k, h, e, f);
    }
  }

  lemma CutAdvance(p: Platform, bytes: seq<byte>, k: nat)
    requires p.headerLen <= k <= |bytes|
    requires HasMessage(p, bytes) && HasMessage(p, bytes[..k])
    requires Head(p, bytes[..k]) == ClipOne(Located(p.headerLen, Head(p, bytes)), k).raw
    ensures Advance(p, bytes[..k]) == Min(Advance(p, bytes), k)
  {
  }

  /** The first message of the whole buffer and of the cut one. */
  lemma {:induction false} CutOnce(p: Platform, bytes: seq<byte>, at: nat, k: nat)
    returns (m: Located, n: nat, c: nat)
    requires p.headerLen <= k <= |bytes| && HasMessage(p, bytes)
    ensures at < m.start == at + p.headerLen <= at + k
    ensures p.headerLen <= n <= |bytes| && c == Min(n, k)
    ensures Parse(p, bytes, at) == [m] + Parse(p, bytes[n..], at + n)
    ensures Parse(p, bytes[..k], at) == [ClipOne(m, at + k)] + Parse(p, bytes[..k][c..], at + c)
  {
    hide Parse, Advance, HasMessage, Head;
    SameHeader(p, bytes, k);
    ParseStep(p, bytes, at);
    ParseStep(p, bytes[..k], at);
    CutAdvance(p, bytes, k);
    m, n, c := Located(at + p.headerLen, Head(p, bytes)), Advance(p, bytes), Advance(p, bytes[..k]);
    assert ClipOne(m, at + k).raw == Head(p, bytes[..k]);
  }

  lemma ClipCons(ms: seq<Located>, m: Located, rest: seq<Located>, limit: nat)
    requires m.start <= limit && ms == [m] + rest
    ensures Clip(ms, limit) == [ClipOne(m, limit)] + Clip(rest, limit)
  {
    assert ms[1..] == rest;
  }

  lemma {:induction false} CutRest(p: Platform, bytes: seq<byte>, at: nat, k: nat, n: nat, c: nat)
    requires p.headerLen <= n <= |bytes| && k <= |bytes| && c == Min(n, k)
    ensures Parse(p, bytes[..k][c..], at + c) == Clip(Parse(p, bytes[n..], at + n), at + k)
    decreases |bytes|, 0
  {
    hide Parse;
    hide Clip;
    if n <= k {
      assert bytes[..k][n..] == bytes[n..][..k - n];
      TruncationIsClipping(p, bytes[n..], at + n, k - n);
    } else {
      NoMessage(p, bytes[..k][k..], at + k);
      ParseOrdered(p, bytes[n..], at + n);
      ClipNothing(p, Parse(p, bytes[n..], at + n), at + n, at + |bytes|, at + k);
    }
  }

  /** Parsing a cut buffer is clipping the parse of the whole one: for every byte string and every
      cut, exactly. */
  lemma {:induction false} TruncationIsClipping(p: Platform, bytes: seq<byte>, at: nat, k: nat)
    requires k <= |bytes|
    ensures Parse(p, bytes[..k], at) == Clip(Parse(p, bytes, at), at + k)
    decreases |bytes|
  {
    if k < p.headerLen {
      NoMessage(p, bytes[..k], at);
      ParseOrdered(p, bytes, at);
      ClipNothing(p, Parse(p, bytes, at), at, at + |bytes|, at + k);
    } else if HasMessage(p, bytes) {
      var m, n, c := CutOnce(p, bytes, at, k);
      CutRest(p, bytes, at, k, n, c);
      ClipCons(Parse(p, bytes, at), m, Parse(p, bytes[n..], at + n), at + k);
    } else {
      SameHeader(p, bytes, k);
      NoMessage(p, bytes, at);
      NoMessage(p, bytes[..k], at);
    }
  }

  lemma {:induction false} ClipEverything(ms: seq<Located>, limit: nat)
    requires forall m :: m in ms ==> m.End() <= limit
    ensures Clip(ms, limit) == ms
  {
    if ms != [] {
      assert ms[0] in ms;
      forall m | m in ms[1..] ensures m.End() <= limit { assert m in ms; }
      ClipEverything(ms[1..], limit);
      assert ms[0].raw.data[..|ms[0].raw.data|] == ms[0].raw.data;
      assert ms == [ms[0]] + ms[1..];
    }
  }

  /** A cut that falls in the padding after the last data byte loses nothing. */
  lemma {:induction false} PaddingCutLosesNothing(p: Platform, bytes: seq<byte>, at: nat, k: nat)
    requires k <= |bytes|
    requires forall m :: m in Parse(p, bytes, at) ==> m.End() <= at + k
    ensures Parse(p, bytes[..k], at) == Parse(p, bytes, at)
  {
    TruncationIsClipping(p, bytes, at, k);
    ClipEverything(Parse(p, bytes, at), at + k);
  }

  // ---------------------------------------------------------------- the encoder

  predicate Encodable(m: RawMessage) {
    |m.data| <= I32_MAX
  }

  function Space(p: Platform, m: RawMessage): nat
    requires Encodable(m)
  {
    CmsgSpace(p, |m.data|).value
  }

  /** The fixed part: length, level, type, and zeros up to `CMSG_LEN(0)`. */
  function HeaderBytes(p: Platform, level: i32, kind: i32, payloadLen: nat): (bs: seq<byte>)
    ensures |bs| == p.headerLen
  {
    ToNative(p.bigEndian, p.headerLen + payloadLen, p.lenWidth)
    + EncodeI32(p.bigEndian, level) + EncodeI32(p.bigEndian, kind)
    + Zeros(p.headerLen - p.HeaderSize())
  }

  function EncodeOne(p: Platform, m: RawMessage): (bs: seq<byte>)
    requires Encodable(m)
    ensures |bs| == Space(p, m)
  {
    HeaderBytes(p, m.level, m.kind, |m.data|) + m.data
    + Zeros(Space(p, m) - p.headerLen - |m.data|)
  }

  predicate AllEncodable(ms: seq<RawMessage>) {
    forall i :: 0 <= i < |ms| ==> Encodable(ms[i])
  }

  function Encode(p: Platform, ms: seq<RawMessage>): seq<byte>
    requires AllEncodable(ms)
  {
    if ms == [] then [] else EncodeOne(p, ms[0]) + Encode(p, ms[1..])
  }

  /** Where each message of an encoding starting at `at` puts its data. */
  function Locate(p: Platform, ms: seq<RawMessage>, at: nat): seq<Located>
    requires AllEncodable(ms)
  {
    if ms == [] then []
    else [Located(at + p.headerLen, ms[0])] + Locate(p, ms[1..], at + Space(p, ms[0]))
  }

  lemma HeaderFields(p: Platform, level: i32, kind: i32, n: nat)
    ensures p.lenWidth + 8 <= p.headerLen
    ensures var hdr, w := HeaderBytes(p, level, kind, n), p.lenWidth;
      && hdr[..w] == ToNative(p.bigEndian, p.headerLen + n, w)
      && hdr[w..w + 4] == EncodeI32(p.bigEndian, level)
      && hdr[w + 4..w + 8] == EncodeI32(p.bigEndian, kind)
  {
  }

  lemma SliceOfFront<T>(s: seq<T>, t: seq<T>, a: nat, b: nat)
    requires a <= b <= |s|
    ensures (s + t)[a..b] == s[a..b]
  {
  }

  lemma EncodedParts(p: Platform, m: RawMessage, rest: seq<byte>)
    requires Encodable(m)
    ensures var b, w := EncodeOne(p, m) + rest, p.lenWidth;
      && |b| >= p.headerLen + |m.data| && w + 8 <= p.headerLen
      && b[..w] == ToNative(p.bigEndian, p.headerLen + |m.data|, w)
      && b[w..w + 4] == EncodeI32(p.bigEndian, m.level)
      && b[w + 4..w + 8] == EncodeI32(p.bigEndian, m.kind)
      && b[p.headerLen..p.headerLen + |m.data|] == m.data
  {
    var b, w, hdr := EncodeOne(p, m) + rest, p.lenWidth, HeaderBytes(p, m.level, m.kind, |m.data|);
    HeaderFields(p, m.level, m.kind, |m.data|);
    hide ToNative, EncodeI32, HeaderBytes, CmsgSpaceMacro;
    assert b == hdr + (m.data + Zeros(Space(p, m) - p.headerLen - |m.data|) + rest);
    SliceOfFront(hdr, m.data + Zeros(Space(p, m) - p.headerLen - |m.data|) + rest, 0, w);
    SliceOfFront(hdr, m.data + Zeros(Space(p, m) - p.headerLen - |m.data|) + rest, w, w + 4);
    SliceOfFront(hdr, m.data + Zeros(Space(p, m) - p.headerLen - |m.data|) + rest, w + 4, w + 8);
    assert b[..w] == b[0..w] && hdr[..w] == hdr[0..w];
  }

  lemma EncodedHeader(p: Platform, m: RawMessage, rest: seq<byte>)
    requires Encodable(m)
    ensures HasMessage(p, EncodeOne(p, m) + rest)
    ensures Head(p, EncodeOne(p, m) + rest) == m
    ensures Advance(p, EncodeOne(p, m) + rest) == Space(p, m)
  {
    EncodedParts(p, m, rest);
    Power256Values();
    NativeRoundTrip(p.bigEndian, p.headerLen + |m.data|, p.lenWidth);
    I32RoundTrip(p.bigEndian, m.level);
    I32RoundTrip(p.bigEndian, m.kind);
    hide FromNative, ToNative, DecodeI32, EncodeI32, EncodeOne, CmsgSpaceMacro;
  }

  /** Round trip: parsing an encoding gives back every message, at its place, and nothing else. */
  lemma {:induction false} ParseEncode(p: Platform, ms: seq<RawMessage>, at: nat)
    requires AllEncodable(ms)
    ensures Parse(p, Encode(p, ms), at) == Locate(p, ms, at)
    decreases |ms|
  {
    hide HasMessage, Advance, Head, EncodeOne, CmsgSpace;
    if ms == [] {
      NoMessage(p, [], at);
    } else {
      var n, rest := Space(p, ms[0]), Encode(p, ms[1..]);
      var b := EncodeOne(p, ms[0]) + rest;
      EncodedHeader(p, ms[0], rest);
      ParseStep(p, b, at);
      hide Parse;
      assert b[n..] == rest;
      ParseEncode(p, ms[1..], at + n);
    }
  }

  /** A truncated encoding parses to the clipped messages. */
  lemma {:induction false} ParseEncodePrefix(p: Platform, ms: seq<RawMessage>, k: nat)
    requires AllEncodable(ms) && k <= |Encode(p, ms)|
    ensures Parse(p, Encode(p, ms)[..k], 0) == Clip(Locate(p, ms, 0), k)
  {
    hide Parse, Locate, Encode, Clip;
    ParseEncode(p, ms, 0);
    TruncationIsClipping(p, Encode(p, ms), 0, k);
  }

  lemma {:induction false} EncodeAppend(p: Platform, ms: seq<RawMessage>, m: RawMessage)
    requires AllEncodable(ms) && Encodable(m)
    ensures AllEncodable(ms + [m])
    ensures Encode(p, ms + [m]) == Encode(p, ms) + EncodeOne(p, m)
  {
    if ms == [] {
      assert ms + [m] == [m];
      assert Encode(p, [m]) == EncodeOne(p, m) + Encode(p, []);
    } else {
      assert (ms + [m])[1..] == ms[1..] + [m];
      EncodeAppend(p, ms[1..], m);
    }
  }

  lemma {:induction false} LocateInOrder(p: Platform, ms: seq<RawMessage>, at: nat)
    requires AllEncodable(ms)
    ensures InOrder(p, Locate(p, ms, at), at, at + |Encode(p, ms)|)
  {
    hide Parse, Locate, Encode;
    ParseEncode(p, ms, at);
    ParseOrdered(p, Encode(p, ms), at);
  }
}
