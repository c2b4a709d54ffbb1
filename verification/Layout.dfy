/** Control-message layout: what `libc`'s `cmsghdr`, `CMSG_LEN` and `CMSG_SPACE` mean (sections 4.2
    and 4.3 of RFC 2292), and the size arithmetic built on them. */
module Layout {
  import opened Wrappers
  import opened Bytes

  /** The mask form `(n + align - 1) & !(align - 1)`, for the two alignments in use. */
  function UpTo4(n: nat): (r: nat)
    ensures n <= r < n + 4 && r % 4 == 0
  {
    4 * ((n + 3) / 4)
  }

  function UpTo8(n: nat): (r: nat)
    ensures n <= r < n + 8 && r % 8 == 0
  {
    8 * ((n + 7) / 8)
  }

  /** A target. `lenWidth` is the size of `cmsg_len`; level and type are 4 bytes each, and
      `headerLen` is `CMSG_LEN(0)`. Linux x86-64: 8, 16, align 8. FreeBSD amd64: 4, 16, align 8, where
      the header struct is shorter than `CMSG_LEN(0)`. Apple and 32-bit Linux: 4, 12, align 4. */
  datatype Target = Target(
    linux: bool,           // Linux or Android: credentials and pidfds exist
    lenWidth: nat,
    headerLen: nat,        // CMSG_LEN(0)
    align: nat,
    bigEndian: bool,
    usizeMax: nat,
    atomicCloexec: bool,   // MSG_CMSG_CLOEXEC is available
    maxRecvFds: nat)       // platform::max_recv_fds()
  {
    predicate Valid() {
      && (lenWidth == 4 || lenWidth == 8)
      && (align == 4 || align == 8)
      && lenWidth + 8 <= headerLen <= 32
      && Aligned(headerLen)
      && (usizeMax == 0xFFFF_FFFF || usizeMax == 0xFFFF_FFFF_FFFF_FFFF)
      && maxRecvFds <= HARD_CEILING
    }

    /** `size_of::<cmsghdr>()`. */
    function HeaderSize(): nat { lenWidth + 8 }

    predicate Aligned(n: nat) {
      if align == 4 then n % 4 == 0 else n % 8 == 0
    }

    function RoundUp(n: nat): (r: nat)
      ensures align == 4 || align == 8 ==> n <= r < n + align && Aligned(r)
    {
      if align == 4 then UpTo4(n) else UpTo8(n)
    }

    function SolSocket(): i32 { if linux then 1 else 0xFFFF }
  }

  const LINUX_X86_64 := Target(true, 8, 16, 8, false, 0xFFFF_FFFF_FFFF_FFFF, true, 253)
  const LINUX_S390X := Target(true, 8, 16, 8, true, 0xFFFF_FFFF_FFFF_FFFF, true, 253)
  const FREEBSD_AMD64 := Target(false, 4, 16, 8, false, 0xFFFF_FFFF_FFFF_FFFF, true, 253)
  const APPLE := Target(false, 4, 12, 4, false, 0xFFFF_FFFF_FFFF_FFFF, false, 253)

  type Platform = t: Target | t.Valid() witness LINUX_X86_64

  const SCM_RIGHTS: i32 := 1
  const SCM_CREDENTIALS: i32 := 2
  const SCM_PIDFD: i32 := 4
  const FD_SIZE: nat := 4
  const CRED_SIZE: nat := 12

  /** `CMSG_SPACE`, computed in u32 and wrapping there. */
  function CmsgSpaceMacro(p: Platform, n: nat): nat {
    (p.RoundUp(n) + p.headerLen) % U32_LIMIT
  }

  lemma SmallModulus(x: nat)
    requires x < U32_LIMIT
    ensures x % U32_LIMIT == x
  {
  }

  lemma Multiples(q: nat)
    ensures (4 * q) % 4 == 0 && (8 * q) % 8 == 0
  {
  }

  lemma AlignedSum(p: Platform, a: nat, b: nat)
    requires p.Aligned(a) && p.Aligned(b)
    ensures p.Aligned(a + b)
  {
    if p.align == 4 {
      Multiples(a / 4 + b / 4);
      assert a + b == 4 * (a / 4 + b / 4);
    } else {
      Multiples(a / 8 + b / 8);
      assert a + b == 8 * (a / 8 + b / 8);
    }
  }

  lemma NoWrap(p: Platform, n: nat)
    requires n <= I32_MAX
    ensures CmsgSpaceMacro(p, n) == p.RoundUp(n) + p.headerLen
    ensures p.Aligned(CmsgSpaceMacro(p, n))
  {
    hide UpTo4, UpTo8, Target.RoundUp;
    SmallModulus(p.RoundUp(n) + p.headerLen);
    AlignedSum(p, p.RoundUp(n), p.headerLen);
    hide Target.Aligned;
  }

  /** The guard rejects every length for which the macro could wrap, so an accepted length gets its
      exact space: the least multiple of the alignment that holds header and payload. */
  function CmsgSpace(p: Platform, n: nat): (space: Option<nat>)
    ensures space.Some? <==> n <= I32_MAX
    ensures space.Some? ==> p.headerLen + n <= space.value < p.headerLen + n + p.align
    ensures space.Some? ==> p.Aligned(space.value)
    ensures space.Some? ==> space.value < U32_LIMIT
  {
    if n >= U32_LIMIT then None
    else if n > I32_MAX then None
    else
      NoWrap(p, n);
      Some(CmsgSpaceMacro(p, n))
  }

  const HARD_CEILING: nat := 0x10_0000
  const HARD_FLOOR: nat := 253

  /** `clamp_nofile`; `None` is `RLIM_INFINITY`. */
  function ClampNofile(usizeMax: nat, cur: Option<nat>): (n: nat)
    ensures 253 <= n <= 0x10_0000
    ensures cur.None? ==> n == 0x10_0000
    ensures usizeMax >= 0x10_0000 && cur.Some? && cur.value <= 253 ==> n == 253
    ensures usizeMax >= 0x10_0000 && cur.Some? && 253 <= cur.value <= 0x10_0000 ==> n == cur.value
    ensures cur.Some? && cur.value >= 0x10_0000 ==> n == 0x10_0000
  {
    var n := if cur.None? || cur.value > usizeMax then HARD_CEILING else cur.value;
    if n < HARD_FLOOR then HARD_FLOOR else Min(n, HARD_CEILING)
  }

  function CheckedAdd(p: Platform, a: nat, b: nat): Option<nat> {
    if a + b <= p.usizeMax then Some(a + b) else None
  }

  function CheckedMul(p: Platform, a: nat, b: nat): Option<nat> {
    if a * b <= p.usizeMax then Some(a * b) else None
  }

  /** `None` is the panic of `expect`. */
  function BufferSizeForRights(p: Platform, count: nat): Option<nat> {
    match CheckedMul(p, count, FD_SIZE)
    case None => None
    case Some(n) => CmsgSpace(p, n)
  }

  function BufferSizeForCredentials(p: Platform): nat {
    CmsgSpace(p, CRED_SIZE).value
  }

  /** The size for `count` descriptors exists exactly up to an `i32::MAX` payload, and is the least
      aligned size that holds a header and the payload. */
  lemma RightsSizeIsExact(p: Platform, count: nat)
    ensures BufferSizeForRights(p, count).Some? <==> 4 * count <= I32_MAX
    ensures BufferSizeForRights(p, count).Some? ==>
      var size := BufferSizeForRights(p, count).value;
      && p.headerLen + 4 * count <= size < p.headerLen + 4 * count + p.align
      && p.Aligned(size)
  {
    hide CmsgSpaceMacro;
  }

  lemma UpToMonotone(m: nat, n: nat)
    requires m <= n
    ensures UpTo4(m) <= UpTo4(n) && UpTo8(m) <= UpTo8(n)
  {
    assert (m + 3) / 4 <= (n + 3) / 4;
    assert (m + 7) / 8 <= (n + 7) / 8;
  }

  lemma RoundUpMonotone(p: Platform, m: nat, n: nat)
    requires m <= n
    ensures p.RoundUp(m) <= p.RoundUp(n)
  {
    UpToMonotone(m, n);
    hide UpTo4, UpTo8;
  }

  lemma SpaceMonotone(p: Platform, m: nat, n: nat)
    requires m <= n <= I32_MAX
    ensures CmsgSpace(p, m).value <= CmsgSpace(p, n).value
  {
    RoundUpMonotone(p, m, n);
    NoWrap(p, m);
    NoWrap(p, n);
    hide CmsgSpaceMacro;
  }
}
