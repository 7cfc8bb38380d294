/** The on-wire message: a 24-byte little-endian header and a payload ramp that
    is filled and verified in 256-byte blocks of a doubled table. */
module WireCodec {
  import opened Wrappers

  type Byte = x: int | 0 <= x < 0x100
  type U32 = x: int | 0 <= x < 0x1_0000_0000
  type U64 = x: int | 0 <= x < 0x1_0000_0000_0000_0000

  const TWO64: int := 0x1_0000_0000_0000_0000
  const HEADER_LEN: nat := 24
  /** b"SESH" */
  const MAGIC: seq<Byte> := [83, 69, 83, 72]

  datatype WireError =
    | ShortHeader(have: nat)
    | BadMagic(found: seq<Byte>)
    | TruncatedPayload(need: nat, have: nat)
    | CorruptPayload(offset: nat)

  datatype Result<+T> = Ok(value: T) | Err(error: WireError)

  datatype WireHeader = WireHeader(seqNo: U64, tsNs: U64, payloadLen: U32)

  // ----- Little-endian numbers -----

  function Pow256(n: nat): (p: nat)
    ensures p >= 1
  {
    if n == 0 then 1 else 0x100 * Pow256(n - 1)
  }

  /** The `n` low-order bytes of `v`, least significant first. */
  function ToLeBytes(v: nat, n: nat): (bs: seq<Byte>)
    ensures |bs| == n
  {
    if n == 0 then [] else [v % 0x100] + ToLeBytes(v / 0x100, n - 1)
  }

  function FromLeBytes(bs: seq<Byte>): (v: nat)
    ensures v < Pow256(|bs|)
  {
    if bs == [] then 0 else bs[0] + 0x100 * FromLeBytes(bs[1..])
  }

  lemma {:induction false} FromTo(v: nat, n: nat)
    requires v < Pow256(n)
    ensures FromLeBytes(ToLeBytes(v, n)) == v
  {
    if n > 0 {
      FromTo(v / 0x100, n - 1);
    }
  }

  lemma {:induction false} ToFrom(bs: seq<Byte>)
    ensures ToLeBytes(FromLeBytes(bs), |bs|) == bs
  {
    if bs != [] {
      ToFrom(bs[1..]);
      assert FromLeBytes(bs) / 0x100 == FromLeBytes(bs[1..]);
      assert FromLeBytes(bs) % 0x100 == bs[0];
    }
  }

  /** Byte `k` holds the `k`-th digit of the number to the base 256. */
  lemma {:induction false} LeByte(v: nat, n: nat, k: nat)
    requires k < n
    ensures ToLeBytes(v, n)[k] == v / Pow256(k) % 0x100
  {
    if k == 0 {
      assert v / 1 == v;
    } else {
      LeByte(v / 0x100, n - 1, k - 1);
      DivTwice(v, Pow256(k - 1));
    }
  }

  lemma {:induction false} DivTwice(v: nat, p: nat)
    requires p >= 1
    ensures 0x100 * p >= 1 && v / 0x100 / p == v / (0x100 * p)
  {
    var q, r := v / 0x100 / p, v / 0x100 % p;
    assert v == 0x100 * (p * q + r) + v % 0x100;
    assert 0x100 * (p * q) == (0x100 * p) * q;
    Quotient(v, 0x100 * p, q, 0x100 * r + v % 0x100);
  }

  lemma {:induction false} Quotient(v: nat, d: nat, q: nat, r: nat)
    requires d >= 1 && v == d * q + r && r < d
    ensures v / d == q
  {
    var q', r' := v / d, v % d;
    assert d * q + r == d * q' + r';
    assert q + 1 <= q' ==> d * (q + 1) <= d * q';
    assert q' + 1 <= q ==> d * (q' + 1) <= d * q;
  }

  lemma {:induction false} Widths()
    ensures Pow256(4) == 0x1_0000_0000 && Pow256(8) == TWO64
  {
    assert Pow256(4) == 0x100 * 0x100 * 0x100 * 0x100 * Pow256(0);
    assert Pow256(8) == 0x100 * 0x100 * 0x100 * 0x100 * Pow256(4);
  }

  // ----- The header -----

  /** The 24 header bytes. */
  function HeaderBytes(h: WireHeader): (bs: seq<Byte>)
    ensures |bs| == HEADER_LEN
  {
    MAGIC + ToLeBytes(h.seqNo, 8) + ToLeBytes(h.tsNs, 8) + ToLeBytes(h.payloadLen, 4)
  }

  /** Parse a header from the start of `buf`, checking length then magic. */
  function Decode(buf: seq<Byte>): Result<WireHeader> {
    if |buf| < HEADER_LEN then Err(ShortHeader(|buf|))
    else if buf[0..4] != MAGIC then Err(BadMagic(buf[0..4]))
    else
      Widths();
      Ok(WireHeader(FromLeBytes(buf[4..12]), FromLeBytes(buf[12..20]), FromLeBytes(buf[20..24])))
  }

  /** Decoding inverts encoding, whatever follows the header. */
  lemma {:induction false} DecodeOfEncode(h: WireHeader, rest: seq<Byte>)
    ensures Decode(HeaderBytes(h) + rest) == Ok(h)
  {
    Widths();
    var buf := HeaderBytes(h) + rest;
    assert buf[0..4] == MAGIC;
    assert buf[4..12] == ToLeBytes(h.seqNo, 8);
    assert buf[12..20] == ToLeBytes(h.tsNs, 8);
    assert buf[20..24] == ToLeBytes(h.payloadLen, 4);
    FromTo(h.seqNo, 8);
    FromTo(h.tsNs, 8);
    FromTo(h.payloadLen, 4);
  }

  /** Encoding inverts decoding: an accepted header is reproduced byte for byte. */
  lemma {:induction false} EncodeOfDecode(buf: seq<Byte>)
    requires Decode(buf).Ok?
    ensures |buf| >= HEADER_LEN && HeaderBytes(Decode(buf).value) == buf[..HEADER_LEN]
  {
    ToFrom(buf[4..12]);
    ToFrom(buf[12..20]);
    ToFrom(buf[20..24]);
    assert buf[..HEADER_LEN] == buf[0..4] + buf[4..12] + buf[12..20] + buf[20..24];
  }

  // ----- The payload ramp -----

  /** `(seq.wrapping_add(i) & 0xff) as u8` */
  function FillByte(s: U64, i: nat): Byte {
    (s + i) % TWO64 % 0x100
  }

  /** Wrapping at 64 bits does not disturb the low byte. */
  lemma {:induction false} FillByteIsRamp(s: U64, i: nat)
    ensures FillByte(s, i) == (s % 0x100 + i) % 0x100
  {
    var q := (s + i) / TWO64;
    assert s + i == TWO64 * q + (s + i) % TWO64;
    assert TWO64 * q == 0x100 * (0x100_0000_0000_0000 * q);
  }

  /** Bytes `pos .. pos + n` of the payload of message `s`, one by one. */
  function Block(s: U64, pos: nat, n: nat): (p: seq<Byte>)
    ensures |p| == n
  {
    seq<Byte>(n, i requires 0 <= i < n => FillByte(s, pos + i))
  }

  /** The payload of message `s`. */
  function Payload(s: U64, n: nat): (p: seq<Byte>)
    ensures |p| == n
  {
    Block(s, 0, n)
  }

  lemma {:induction false} PayloadGrows(s: U64, pos: nat, n: nat)
    ensures Payload(s, pos + n) == Payload(s, pos) + Block(s, pos, n)
  {
  }

  /** The doubled table, `k & 0xff` for `k < 512`. */
  function Ramp(): (t: seq<Byte>)
    ensures |t| == 512
  {
    seq(512, k => k % 0x100)
  }

  /** The table as it is built at compile time. */
  method BuildRamp() returns (t: array<Byte>)
    ensures fresh(t) && t[..] == Ramp()
  {
    t := new Byte[512](_ => 0);
    var k := 0;
    while k < 512
      invariant 0 <= k <= 512
      invariant forall j :: 0 <= j < k ==> t[j] == j % 0x100
    {
      t[k] := k % 0x100;
      k := k + 1;
    }
  }

  /** A whole number of blocks. */
  predicate Aligned(pos: nat) {
    pos % 0x100 == 0
  }

  lemma {:induction false} NextBlock(pos: nat)
    ensures Aligned(0) && (Aligned(pos) ==> Aligned(pos + 0x100))
  {}

  lemma {:induction false} RampByte(s: U64, pos: nat, i: nat)
    requires Aligned(pos)
    ensures (s % 0x100 + i) % 0x100 == FillByte(s, pos + i)
  {
    FillByteIsRamp(s, pos + i);
    hide FillByte;
    WholeBlocks(s % 0x100 + i, pos);
  }

  lemma {:induction false} WholeBlocks(a: nat, pos: nat)
    requires Aligned(pos)
    ensures (a + pos) % 0x100 == a % 0x100
  {
    var q, r := pos / 0x100, a / 0x100;
    assert a + pos == 0x100 * (q + r) + a % 0x100;
  }

  /** `&RAMP[off..off + n]` */
  function Window(off: nat, n: nat): (w: seq<Byte>)
    requires off < 0x100 && n <= 0x100
    ensures |w| == n
  {
    Ramp()[off..off + n]
  }

  /** Any window of the table at the low byte of `s` is a block of the ramp. */
  lemma {:induction false} RampWindow(s: U64, pos: nat, n: nat)
    requires Aligned(pos) && n <= 0x100
    ensures Window(s % 0x100, n) == Block(s, pos, n)
  {
    forall i: nat | i < n
      ensures Ramp()[s % 0x100 + i] == Block(s, pos, n)[i]
    {
      RampByte(s, pos, i);
    }
  }

  /** `b` with `src` written at `at`. */
  function Overwrite(b: seq<Byte>, at: nat, src: seq<Byte>): (r: seq<Byte>)
    requires at + |src| <= |b|
    ensures |r| == |b|
  {
    b[..at] + src + b[at + |src|..]
  }

  lemma {:induction false} OverwriteTwice(b: seq<Byte>, at: nat, p: seq<Byte>, q: seq<Byte>)
    requires at + |p| + |q| <= |b|
    ensures Overwrite(Overwrite(b, at, p), at + |p|, q) == Overwrite(b, at, p + q)
  {
  }

  /** `buf[at..at + src.len()].copy_from_slice(src)` */
  method CopyFromSlice(buf: array<Byte>, at: nat, src: seq<Byte>)
    requires at + |src| <= buf.Length
    modifies buf
    ensures buf[..] == Overwrite(old(buf[..]), at, src)
  {
    forall j | at <= j < at + |src| {
      buf[j] := src[j - at];
    }
  }

  lemma {:induction false} FillStep(b: seq<Byte>, s: U64, lo: nat, pos: nat, n: nat)
    requires lo + pos + n <= |b| && Aligned(pos) && n <= 0x100
    ensures Overwrite(Overwrite(b, lo, Payload(s, pos)), lo + pos, Window(s % 0x100, n))
         == Overwrite(b, lo, Payload(s, pos + n))
  {
    hide *;
    RampWindow(s, pos, n);
    PayloadGrows(s, pos, n);
    OverwriteTwice(b, lo, Payload(s, pos), Block(s, pos, n));
  }

  lemma {:induction false} FillNothing(b: seq<Byte>, s: U64, lo: nat)
    requires lo <= |b|
    ensures Overwrite(b, lo, Payload(s, 0)) == b
  {}

  /** Fill `buf[lo..hi]` with the pattern for `s`, one block at a time. */
  method FillPayload(s: U64, buf: array<Byte>, lo: nat, hi: nat)
    requires lo <= hi <= buf.Length
    modifies buf
    ensures buf[..] == Overwrite(old(buf[..]), lo, Payload(s, hi - lo))
  {
    var off, len, pos := s % 0x100, hi - lo, 0;
    ghost var was := buf[..];
    FillNothing(was, s, lo);
    NextBlock(0);
    hide *;
    while pos < len
      invariant pos <= len
      invariant Aligned(pos) || pos == len
      invariant buf[..] == Overwrite(was, lo, Payload(s, pos))
    {
      var n := Min(len - pos, 0x100);
      FillStep(was, s, lo, pos, n);
      NextBlock(pos);
      CopyFromSlice(buf, lo + pos, Window(off, n));
      pos := pos + n;
    }
  }

  predicate Differs(s: U64, payload: seq<Byte>, k: nat)
    requires k < |payload|
  {
    payload[k] != FillByte(s, k)
  }

  /** The meaning of verification: no byte differs, or the least one that does. */
  ghost predicate Verdict(s: U64, payload: seq<Byte>, r: Result<()>) {
    match r
    case Ok(_) => forall i: nat :: i < |payload| ==> !Differs(s, payload, i)
    case Err(CorruptPayload(k)) =>
      k < |payload| && Differs(s, payload, k) && forall i: nat :: i < k ==> !Differs(s, payload, i)
    case Err(_) => false
  }

  lemma {:induction false} NothingDiffers(s: U64, payload: seq<Byte>, n: nat)
    requires n <= |payload|
    ensures payload[..n] == Payload(s, n) <==> forall i: nat :: i < n ==> !Differs(s, payload, i)
  {
    if forall i: nat :: i < n ==> !Differs(s, payload, i) {
      forall i: nat | i < n
        ensures payload[..n][i] == Payload(s, n)[i]
      {
        assert !Differs(s, payload, i);
      }
    } else {
      var i: nat :| i < n && Differs(s, payload, i);
      assert payload[..n][i] != Payload(s, n)[i];
    }
  }

  /** The first index at which two blocks differ. */
  method FirstDifference(a: seq<Byte>, b: seq<Byte>) returns (i: nat)
    requires |a| == |b| && a != b
    ensures i < |a| && a[..i] == b[..i] && a[i] != b[i]
  {
    i := 0;
    while i < |a| && a[i] == b[i]
      invariant i <= |a| && a[..i] == b[..i]
    {
      i := i + 1;
    }
    assert a[..|a|] == a && b[..|b|] == b;
  }

  /** A block that departs from the pattern at `i`, after a payload that kept to it. */
  lemma {:induction false} BlockMismatch(s: U64, payload: seq<Byte>, pos: nat, n: nat, i: nat)
    requires pos + n <= |payload| && Aligned(pos) && i < n && payload[..pos] == Payload(s, pos)
    requires payload[pos..pos + i] == Block(s, pos, n)[..i] && payload[pos + i] != Block(s, pos, n)[i]
    ensures Verdict(s, payload, Err(CorruptPayload(pos + i)))
  {
    PayloadGrows(s, pos, i);
    assert payload[..pos + i] == payload[..pos] + payload[pos..pos + i];
    assert Block(s, pos, n)[..i] == Block(s, pos, i);
    NothingDiffers(s, payload, pos + i);
  }

  lemma {:induction false} BlockMatches(s: U64, payload: seq<Byte>, pos: nat, n: nat)
    requires pos + n <= |payload| && Aligned(pos) && payload[..pos] == Payload(s, pos)
    requires payload[pos..pos + n] == Block(s, pos, n)
    ensures payload[..pos + n] == Payload(s, pos + n)
  {
    PayloadGrows(s, pos, n);
    assert payload[..pos + n] == payload[..pos] + payload[pos..pos + n];
  }

  lemma {:induction false} EmptyPayload(s: U64, payload: seq<Byte>)
    ensures payload[..0] == Payload(s, 0)
  {}

  lemma {:induction false} PayloadPasses(s: U64, payload: seq<Byte>)
    requires payload[..|payload|] == Payload(s, |payload|)
    ensures Verdict(s, payload, Ok(()))
  {
    NothingDiffers(s, payload, |payload|);
  }

  method VerifyPayload(s: U64, payload: seq<Byte>) returns (r: Result<()>)
    ensures Verdict(s, payload, r)
  {
    var off := s % 0x100;
    var pos := 0;
    hide Window, Block, Payload, Verdict, Aligned;
    EmptyPayload(s, payload);
    NextBlock(0);
    while pos < |payload|
      invariant 0 <= pos <= |payload|
      invariant Aligned(pos) || pos == |payload|
      invariant payload[..pos] == Payload(s, pos)
    {
      var n := Min(|payload| - pos, 0x100);
      var block := payload[pos..pos + n];
      RampWindow(s, pos, n);
      if block != Window(off, n) {
        var i := FirstDifference(block, Window(off, n));
        assert block[..i] == payload[pos..pos + i] && block[i] == payload[pos + i];
        BlockMismatch(s, payload, pos, n, i);
        return Err(CorruptPayload(pos + i));
      }
      BlockMatches(s, payload, pos, n);
      NextBlock(pos);
      pos := pos + n;
    }
    PayloadPasses(s, payload);
    r := Ok(());
  }

  // ----- Whole messages -----

  /** Serialise a header into the first 24 bytes of `buf`. */
  method Encode(h: WireHeader, buf: array<Byte>) returns (written: nat)
    requires buf.Length >= HEADER_LEN
    modifies buf
    ensures written == HEADER_LEN
    ensures buf[..] == Overwrite(old(buf[..]), 0, HeaderBytes(h))
  {
    CopyFromSlice(buf, 0, MAGIC);
    CopyFromSlice(buf, 4, ToLeBytes(h.seqNo, 8));
    CopyFromSlice(buf, 12, ToLeBytes(h.tsNs, 8));
    CopyFromSlice(buf, 20, ToLeBytes(h.payloadLen, 4));
    ghost var b := old(buf[..]);
    OverwriteTwice(b, 0, MAGIC, ToLeBytes(h.seqNo, 8));
    OverwriteTwice(b, 0, MAGIC + ToLeBytes(h.seqNo, 8), ToLeBytes(h.tsNs, 8));
    OverwriteTwice(b, 0, MAGIC + ToLeBytes(h.seqNo, 8) + ToLeBytes(h.tsNs, 8), ToLeBytes(h.payloadLen, 4));
    written := HEADER_LEN;
  }

  /** The bytes of a complete message. */
  function MessageBytes(h: WireHeader): (bs: seq<Byte>)
    ensures |bs| == HEADER_LEN + h.payloadLen
  {
    HeaderBytes(h) + Payload(h.seqNo, h.payloadLen)
  }

  /** Every byte of a message: the four letters, the three numbers least significant
      byte first, and then the payload counting up from the sequence number. */
  lemma {:induction false} MessageLayout(h: WireHeader, i: nat)
    requires i < |MessageBytes(h)|
    ensures MessageBytes(h)[i] ==
            if i < 4 then "SESH"[i] as int
            else if i < 12 then h.seqNo / Pow256(i - 4) % 0x100
            else if i < 20 then h.tsNs / Pow256(i - 12) % 0x100
            else if i < 24 then h.payloadLen / Pow256(i - 20) % 0x100
            else (h.seqNo % 0x100 + (i - 24)) % 0x100
  {
    if i < 4 {
      assert "SESH"[i] as int == MAGIC[i];
    } else if i < 12 {
      LeByte(h.seqNo, 8, i - 4);
    } else if i < 20 {
      LeByte(h.tsNs, 8, i - 12);
    } else if i < 24 {
      LeByte(h.payloadLen, 4, i - 20);
    } else {
      FillByteIsRamp(h.seqNo, i - 24);
    }
    hide ToLeBytes, Pow256, FillByte;
  }

  /** A header is refused when it is short, and else when the letters are others. */
  lemma {:induction false} HeaderRefused(buf: seq<Byte>)
    ensures |buf| < 24 ==> Decode(buf) == Err(ShortHeader(|buf|))
    ensures |buf| >= 24 && buf[0..4] != [83, 69, 83, 72] ==> Decode(buf) == Err(BadMagic(buf[0..4]))
    ensures Decode(buf).Ok? <==> |buf| >= 24 && buf[0..4] == [83, 69, 83, 72]
  {}

  /** Encode a message into `buf` with the explicit send time `tsNs`. */
  method EncodeMessageAt(s: U64, payloadLen: U32, tsNs: U64, buf: array<Byte>) returns (total: nat)
    requires buf.Length >= HEADER_LEN + payloadLen
    modifies buf
    ensures total == HEADER_LEN + payloadLen
    ensures buf[..] == Overwrite(old(buf[..]), 0, MessageBytes(WireHeader(s, tsNs, payloadLen)))
  {
    total := HEADER_LEN + payloadLen;
    var h := WireHeader(s, tsNs, payloadLen);
    var _ := Encode(h, buf);
    FillPayload(s, buf, HEADER_LEN, total);
    OverwriteTwice(old(buf[..]), 0, HeaderBytes(h), Payload(s, payloadLen));
  }

  /** What `decode_message` answers: each error in the order the checks are made. */
  ghost predicate Decoded(buf: seq<Byte>, r: Result<WireHeader>) {
    var d := Decode(buf);
    if d.Err? then r == d
    else if |buf| < HEADER_LEN + d.value.payloadLen then
      r == Err(TruncatedPayload(HEADER_LEN + d.value.payloadLen, |buf|))
    else
      var payload := buf[HEADER_LEN..HEADER_LEN + d.value.payloadLen];
      match r
      case Ok(h) => h == d.value && Verdict(h.seqNo, payload, Ok(()))
      case Err(e) => Verdict(d.value.seqNo, payload, Err(e))
  }

  method DecodeMessage(buf: seq<Byte>) returns (r: Result<WireHeader>)
    ensures Decoded(buf, r)
  {
    var d := Decode(buf);
    if d.Err? {
      return d;
    }
    var need := HEADER_LEN + d.value.payloadLen;
    if |buf| < need {
      return Err(TruncatedPayload(need, |buf|));
    }
    var v := VerifyPayload(d.value.seqNo, buf[HEADER_LEN..need]);
    match v {
      case Ok(_) => r := d;
      case Err(e) => r := Err(e);
    }
  }

  // ----- What decoding and encoding mean to each other -----

  /** Acceptance is exactly "begins with an encoded message", and the header
      returned is the one that was encoded, whatever bytes trail. */
  lemma {:induction false} AcceptsExactlyEncodings(buf: seq<Byte>, r: Result<WireHeader>, h: WireHeader)
    requires Decoded(buf, r)
    ensures r == Ok(h) <==> MessageBytes(h) <= buf
  {
    var total := HEADER_LEN + h.payloadLen;
    if r == Ok(h) {
      EncodeOfDecode(buf);
      var payload := buf[HEADER_LEN..total];
      NothingDiffers(h.seqNo, payload, h.payloadLen);
      assert buf[..total] == buf[..HEADER_LEN] + payload == MessageBytes(h);
    }
    if MessageBytes(h) <= buf {
      assert buf == HeaderBytes(h) + buf[HEADER_LEN..];
      DecodeOfEncode(h, buf[HEADER_LEN..]);
      var payload := buf[HEADER_LEN..total];
      assert payload == MessageBytes(h)[HEADER_LEN..] == Payload(h.seqNo, h.payloadLen);
      NothingDiffers(h.seqNo, payload, h.payloadLen);
    }
  }

  /** No encoded message is a proper prefix of another, so a buffer begins with
      at most one. */
  lemma {:induction false} MessagesArePrefixFree(h: WireHeader, h': WireHeader, buf: seq<Byte>)
    requires MessageBytes(h) <= buf && MessageBytes(h') <= buf
    ensures h == h'
  {
    assert buf == HeaderBytes(h) + buf[HEADER_LEN..] == HeaderBytes(h') + buf[HEADER_LEN..];
    DecodeOfEncode(h, buf[HEADER_LEN..]);
    DecodeOfEncode(h', buf[HEADER_LEN..]);
  }

  /** Every proper prefix of a message is rejected as too short. */
  lemma {:induction false} TruncationIsDetected(h: WireHeader, k: nat, r: Result<WireHeader>)
    requires k < |MessageBytes(h)| && Decoded(MessageBytes(h)[..k], r)
    ensures r == Err(if k < HEADER_LEN then ShortHeader(k) else TruncatedPayload(|MessageBytes(h)|, k))
  {
    if k >= HEADER_LEN {
      var buf := MessageBytes(h)[..k];
      assert buf == HeaderBytes(h) + buf[HEADER_LEN..];
      DecodeOfEncode(h, buf[HEADER_LEN..]);
    }
  }

  lemma {:induction false} OneByteOff(s: U64, n: nat, k: nat, b: Byte, r: Result<()>)
    requires k < n && b != FillByte(s, k) && Verdict(s, Payload(s, n)[k := b], r)
    ensures r == Err(CorruptPayload(k))
  {
    hide FillByte;
    var payload := Payload(s, n)[k := b];
    assert Differs(s, payload, k);
    assert forall i: nat :: i < k ==> !Differs(s, payload, i);
  }

  /** Changing any one payload byte is reported at that byte. */
  lemma {:induction false} TamperingIsLocated(h: WireHeader, k: nat, b: Byte, r: Result<WireHeader>)
    requires k < h.payloadLen && b != FillByte(h.seqNo, k)
    requires Decoded(MessageBytes(h)[HEADER_LEN + k := b], r)
    ensures r == Err(CorruptPayload(k))
  {
    var buf := MessageBytes(h)[HEADER_LEN + k := b];
    assert buf == HeaderBytes(h) + buf[HEADER_LEN..];
    DecodeOfEncode(h, buf[HEADER_LEN..]);
    hide HeaderBytes, Decode, FillByte, Payload, Verdict;
    var payload := buf[HEADER_LEN..HEADER_LEN + h.payloadLen];
    assert payload == Payload(h.seqNo, h.payloadLen)[k := b];
    OneByteOff(h.seqNo, h.payloadLen, k, b, if r.Ok? then Ok(()) else Err(r.error));
  }

  /** A payload swapped in from message `s` passes under the header of `t` only
      when it is empty or the two numbers agree modulo 256; otherwise its very
      first byte is reported. */
  lemma {:induction false} SwapDetection(s: U64, t: U64, n: nat, r: Result<()>)
    requires Verdict(t, Payload(s, n), r)
    ensures r.Ok? <==> n == 0 || s % 0x100 == t % 0x100
    ensures r.Err? ==> r.error == CorruptPayload(0)
  {
    var p := Payload(s, n);
    forall i: nat | i < n
      ensures Differs(t, p, i) <==> s % 0x100 != t % 0x100
    {
      FillByteIsRamp(s, i);
      FillByteIsRamp(t, i);
      SumsAgree(s % 0x100, t % 0x100, i);
    }
    assert n > 0 ==> (Differs(t, p, 0) <==> s % 0x100 != t % 0x100);
  }

  lemma {:induction false} SumsAgree(a: Byte, b: Byte, i: nat)
    ensures (a + i) % 0x100 == (b + i) % 0x100 <==> a == b
  {
    var q, q' := (a + i) / 0x100, (b + i) / 0x100;
    assert a + i - (b + i) == 0x100 * (q - q') + ((a + i) % 0x100 - (b + i) % 0x100);
  }
}
