/** Bytes as rows of eight bits, least significant first. */
module Bits {
  import opened Prelude
  import Lists

  function Pow2(n: nat): nat {
    if n == 0 then 1 else 2 * Pow2(n - 1)
  }

  lemma Pow2Byte()
    ensures Pow2(8) == 0x100
  {
    assert Pow2(4) == 0x10;
  }

  /** `b & (1 << i) != 0` */
  predicate Bit(b: nat, i: nat)
    decreases i
  {
    if i == 0 then b % 2 == 1 else Bit(b / 2, i - 1)
  }

  /** In figures: bit `i` counts for two to the power of `i`. */
  lemma {:induction false} BitExact(b: nat, i: nat)
    ensures Pow2(i) > 0 && (Bit(b, i) <==> b / Pow2(i) % 2 == 1)
    decreases i
  {
    if i > 0 {
      BitExact(b / 2, i - 1);
      Halved(b, Pow2(i - 1));
    }
  }

  lemma Halved(b: nat, p: nat)
    requires p > 0
    ensures b / 2 / p == b / (2 * p)
  {
    var q := b / (2 * p);
    var r := b % (2 * p);
    assert b == 2 * p * q + r;
    assert b / 2 == p * q + r / 2 by {
      assert 2 * p * q == 2 * (p * q);
    }
    Quotient(b / 2, p, q, r / 2);
  }

  lemma Quotient(n: nat, p: nat, q: nat, r: nat)
    requires p > 0 && n == p * q + r && r < p
    ensures n / p == q
  {
    var d: int := n / p;
    var k: int := d - q;
    assert n == p * d + n % p;
    assert p * k == r - n % p;
    if k != 0 {
      Multiple(p, k);
      assert false;
    }
  }

  lemma Multiple(p: nat, k: int)
    requires p > 0 && k != 0
    ensures p * k >= p || p * k <= 0 - p
  {
    if k > 0 {
      assert p * (k - 1) >= 0;
    } else {
      assert p * (-k - 1) >= 0;
    }
  }

  lemma Pow2Nine()
    ensures Pow2(9) == 512
  {
    assert Pow2(3) == 8;
    assert Pow2(6) == 64;
  }

  /** `b | (1 << i)` */
  function SetBit(b: nat, i: nat): nat
    decreases i
  {
    if i == 0 then b - b % 2 + 1 else b % 2 + 2 * SetBit(b / 2, i - 1)
  }

  lemma {:induction false} SetBitSets(b: nat, i: nat, j: nat)
    ensures Bit(SetBit(b, i), j) <==> i == j || Bit(b, j)
    decreases i
  {
    if i > 0 && j > 0 {
      SetBitSets(b / 2, i - 1, j - 1);
    }
  }

  lemma {:induction false} SetBitBound(b: nat, i: nat, width: nat)
    requires b < Pow2(width) && i < width
    ensures SetBit(b, i) < Pow2(width)
    decreases i
  {
    var half := Pow2(width - 1);
    if i > 0 {
      assert b / 2 < half;
      SetBitBound(b / 2, i - 1, width - 1);
      var x := SetBit(b / 2, i - 1);
      assert SetBit(b, i) == b % 2 + 2 * x && x < half;
    }
  }

  lemma {:induction false} BitsDetermine(a: nat, b: nat, width: nat)
    requires a < Pow2(width) && b < Pow2(width)
    requires forall i :: 0 <= i < width ==> Bit(a, i) == Bit(b, i)
    ensures a == b
    decreases width
  {
    if width > 0 {
      assert Bit(a, 0) == Bit(b, 0);
      forall i | 0 <= i < width - 1 ensures Bit(a / 2, i) == Bit(b / 2, i) {
        assert Bit(a, i + 1) == Bit(b, i + 1);
      }
      BitsDetermine(a / 2, b / 2, width - 1);
    }
  }

  function FromBits(bits: seq<bool>): nat {
    if bits == [] then 0 else (if bits[0] then 1 else 0) + 2 * FromBits(bits[1..])
  }

  lemma {:induction false} FromBitsHas(bits: seq<bool>)
    ensures FromBits(bits) < Pow2(|bits|)
    ensures forall i :: 0 <= i < |bits| ==> Bit(FromBits(bits), i) == bits[i]
  {
    if bits != [] {
      FromBitsHas(bits[1..]);
      var b := FromBits(bits);
      assert b / 2 == FromBits(bits[1..]);
      forall i | 0 <= i < |bits| ensures Bit(b, i) == bits[i] {
        if i > 0 {
          assert bits[i] == bits[1..][i - 1];
        }
      }
    }
  }

  /** Bit `n % 8` of byte `n / 8`. */
  predicate BitOf(bitmap: seq<u8>, n: nat)
    requires n < 8 * |bitmap|
  {
    Bit(bitmap[n / 8], n % 8)
  }

  /** The positions below `n` whose bit is set, in ascending order. */
  function Picked(bitmap: seq<u8>, n: nat): (r: seq<int>)
    requires n <= 8 * |bitmap|
  {
    if n == 0 then []
    else Picked(bitmap, n - 1) + (if BitOf(bitmap, n - 1) then [n - 1] else [])
  }

  /** The byte whose bit `i` says whether `base + i` is a member of `s`. */
  function ByteOf(s: set<int>, base: nat): u8 {
    var bits := seq(8, i => base + i in s);
    FromBitsHas(bits);
    Pow2Byte();
    FromBits(bits)
  }

  /** The three-byte bitmap naming exactly the members of `s` in 0..=23. */
  function Bitmap(s: set<int>): seq<u8> {
    [ByteOf(s, 0), ByteOf(s, 8), ByteOf(s, 16)]
  }

  lemma BitmapNames(s: set<int>, n: nat)
    requires n < 24
    ensures BitOf(Bitmap(s), n) <==> n in s
  {
    FromBitsHas(seq(8, i => n / 8 * 8 + i in s));
    assert n == n / 8 * 8 + n % 8;
  }

  /** In figures: register `n` is the bit worth `2^(n % 8)` of octet `n / 8`. */
  lemma BitmapFigures(s: set<int>, n: nat)
    requires n < 24
    ensures |Bitmap(s)| == 3 && Pow2(n % 8) > 0
    ensures n in s <==> Bitmap(s)[n / 8] / Pow2(n % 8) % 2 == 1
  {
    BitmapNames(s, n);
    BitExact(Bitmap(s)[n / 8], n % 8);
  }

  /** A bitmap is determined by which bits it has. */
  lemma BitmapUnique(bitmap: seq<u8>, s: set<int>)
    requires |bitmap| == 3
    requires forall n :: 0 <= n < 24 ==> (BitOf(bitmap, n) <==> n in s)
    ensures bitmap == Bitmap(s)
  {
    forall k | 0 <= k < 3 ensures bitmap[k] == Bitmap(s)[k] {
      Pow2Byte();
      forall i | 0 <= i < 8 ensures Bit(bitmap[k], i) == Bit(Bitmap(s)[k], i) {
        BitmapNames(s, 8 * k + i);
        assert BitOf(bitmap, 8 * k + i) <==> 8 * k + i in s;
      }
      BitsDetermine(bitmap[k], Bitmap(s)[k], 8);
    }
  }

  /** Reading a three-byte bitmap back gives the set it names, in order. */
  lemma {:induction false} PickedBitmap(s: set<int>, n: nat)
    requires n <= 24
    ensures Picked(Bitmap(s), n) == Lists.Listing(s, n)
  {
    if n > 0 {
      PickedBitmap(s, n - 1);
      BitmapNames(s, n - 1);
    }
  }

  lemma {:induction false} PickedExact(bitmap: seq<u8>, n: nat)
    requires n <= 8 * |bitmap|
    ensures forall x: int :: x in Picked(bitmap, n) <==> 0 <= x < n && BitOf(bitmap, x)
  {
    if n > 0 {
      PickedExact(bitmap, n - 1);
    }
  }

  lemma {:induction false} PickedAscends(bitmap: seq<u8>, n: nat)
    requires n <= 8 * |bitmap|
    ensures Lists.Ascending(Picked(bitmap, n))
    ensures forall x :: x in Picked(bitmap, n) ==> 0 <= x < n
  {
    if n > 0 {
      PickedAscends(bitmap, n - 1);
      var p := Picked(bitmap, n - 1);
      assert forall i :: 0 <= i < |p| ==> p[i] in p;
    }
  }
}

/** The TPM's wire format: what `put_*` write and what `Reader` reads. */
module Wire {
  import opened Prelude
  import opened Bits
  import Lists

  /** Everything that can go wrong between sending a command and using its
      response. */
  datatype Fault =
    | Transport
    | ShortResponse
    | SizeMismatch
    | ResponseCode(rc: u32)
    | Truncated
    | WrongCapability
    | NoPermanent
    | WrongSelectionCount
    | PcrOutOfRange(pcr: int)
    | Unpaired
    | Repeated
    | Unasked(pcr: int)

  function U16(v: u16): (r: seq<u8>)
    ensures |r| == 2
  {
    [v / 0x100, v % 0x100]
  }

  function U32(v: u32): (r: seq<u8>)
    ensures |r| == 4
  {
    U16(v / 0x1_0000) + U16(v % 0x1_0000)
  }

  function OfU16(b: seq<u8>): u16
    requires |b| == 2
  {
    b[0] as int * 0x100 + b[1]
  }

  function OfU32(b: seq<u8>): u32
    requires |b| == 4
  {
    OfU16(b[..2]) as int * 0x1_0000 + OfU16(b[2..])
  }

  lemma BigEndian16(v: u16, b: seq<u8>)
    requires |b| == 2
    ensures OfU16(U16(v)) == v
    ensures U16(OfU16(b)) == b
  {
  }

  lemma BigEndian(v: u32, b: seq<u8>)
    requires |b| == 4
    ensures OfU32(U32(v)) == v
    ensures U32(OfU32(b)) == b
  {
    Halves(v / 0x1_0000, v % 0x1_0000);
    BigEndian16(0, b[..2]);
    BigEndian16(0, b[2..]);
    Halves(OfU16(b[..2]), OfU16(b[2..]));
    assert b == b[..2] + b[2..];
  }

  /** A 32-bit number is its two halves. */
  lemma Halves(high: u16, low: u16)
    ensures U32(high * 0x1_0000 + low) == U16(high) + U16(low)
    ensures OfU32(U16(high) + U16(low)) == high * 0x1_0000 + low
  {
    BigEndian16(high, U16(high));
    BigEndian16(low, U16(low));
    assert (high * 0x1_0000 + low) / 0x1_0000 == high && (high * 0x1_0000 + low) % 0x1_0000 == low;
    var b := U16(high) + U16(low);
    assert b[..2] == U16(high) && b[2..] == U16(low);
  }

  /** A TPM2B: a two-byte size, then that many bytes. A longer buffer than the
      size can express is written with its size cut to sixteen bits. */
  function Tpm2b(bytes: seq<u8>): seq<u8> {
    U16(|bytes| % 0x1_0000) + bytes
  }

  /** A run of TPM2Bs, followed by `rest`. */
  function Tpm2bs(list: seq<seq<u8>>, rest: seq<u8>): seq<u8> {
    if list == [] then rest else Tpm2b(list[0]) + Tpm2bs(list[1..], rest)
  }

  /** TPML_PCR_SELECTION with a single bank. */
  function Selection(alg: u16, pcrs: set<int>): seq<u8> {
    U32(1) + U16(alg) + [3] + Bitmap(pcrs)
  }

  /** The first `n` bytes and the rest, when there are that many. */
  function Take(s: seq<u8>, n: nat): Result<(seq<u8>, seq<u8>), Fault> {
    if n <= |s| then Ok((s[..n], s[n..])) else Err(Truncated)
  }

  function TakeU32(s: seq<u8>): Result<(u32, seq<u8>), Fault> {
    var (b, rest) :- Take(s, 4);
    Ok((OfU32(b), rest))
  }

  function TakeTpm2b(s: seq<u8>): Result<(seq<u8>, seq<u8>), Fault> {
    var (b, rest) :- Take(s, 2);
    Take(rest, OfU16(b))
  }

  /** A growing output buffer: the `&mut Vec<u8>` that the `put_*` functions
      append to. */
  class Output {
    var bytes: seq<u8>

    constructor ()
      ensures bytes == []
    {
      bytes := [];
    }

    method Extend(more: seq<u8>)
      modifies this
      ensures bytes == old(bytes) + more
    {
      bytes := bytes + more;
    }

    method PutU16(v: u16)
      modifies this
      ensures bytes == old(bytes) + U16(v)
    {
      Extend([v / 0x100, v % 0x100]);
    }

    method PutU32(v: u32)
      modifies this
      ensures bytes == old(bytes) + U32(v)
    {
      Extend([v / 0x100_0000, v / 0x1_0000 % 0x100, v % 0x1_0000 / 0x100, v % 0x1_0000 % 0x100]);
    }

    method PutTpm2b(b: seq<u8>)
      modifies this
      ensures bytes == old(bytes) + Tpm2b(b)
    {
      PutU16(|b| % 0x1_0000);
      Extend(b);
      assert bytes == old(bytes) + Tpm2b(b);
    }

    /** Order and repeats of `indices` make no difference, and an index past 23
        is left out. */
    method PutPcrSelection(alg: u16, indices: seq<u8>)
      modifies this
      ensures bytes == old(bytes) + Selection(alg, Lists.Elements(indices))
    {
      var bitmap := BuildBitmap(indices);
      PutU32(1);
      PutU16(alg);
      Extend([3]);
      Extend(bitmap);
      assert bytes == old(bytes) + Selection(alg, Lists.Elements(indices));
    }
  }

  method BuildBitmap(indices: seq<u8>) returns (r: seq<u8>)
    ensures r == Bitmap(Lists.Elements(indices))
  {
    var bitmap := new u8[3](_ => 0);
    Pow2Byte();
    forall n: nat | n < 24 ensures !BitOf(bitmap[..], n) {
      ZeroHasNoBits(n % 8);
    }
    for k := 0 to |indices|
      invariant forall n: nat :: n < 24 ==> (BitOf(bitmap[..], n) <==> n in indices[..k])
    {
      var pcr := indices[k];
      assert indices[..k + 1] == indices[..k] + [pcr];
      if pcr < bitmap.Length * 8 {
        ghost var before := bitmap[..];
        SetBitBound(bitmap[pcr / 8], pcr % 8, 8);
        bitmap[pcr / 8] := SetBit(bitmap[pcr / 8], pcr % 8);
        forall n: nat | n < 24 ensures BitOf(bitmap[..], n) <==> n in indices[..k + 1] {
          OneMoreBit(before, pcr, bitmap[..], n);
        }
      }
    }
    assert indices[..|indices|] == indices;
    BitmapUnique(bitmap[..], Lists.Elements(indices));
    r := bitmap[..];
  }

  lemma {:induction false} ZeroHasNoBits(i: nat)
    ensures !Bit(0, i)
    decreases i
  {
    if i > 0 {
      ZeroHasNoBits(i - 1);
    }
  }

  lemma OneMoreBit(before: seq<u8>, pcr: nat, after: seq<u8>, n: nat)
    requires pcr < 8 * |before| && n < 8 * |before|
    requires SetBit(before[pcr / 8], pcr % 8) < 0x100
    requires after == before[pcr / 8 := SetBit(before[pcr / 8], pcr % 8)]
    ensures BitOf(after, n) <==> n == pcr || BitOf(before, n)
  {
    SetBitSets(before[pcr / 8], pcr % 8, n % 8);
    assert n == n / 8 * 8 + n % 8 && pcr == pcr / 8 * 8 + pcr % 8;
  }

  /** No Rust slice is longer than `isize::MAX`. */
  const ISIZE_MAX: nat := 0x7fff_ffff_ffff_ffff
  const USIZE_MAX: nat := 0xffff_ffff_ffff_ffff

  /** A position in a buffer. Every read either takes what it asks for and moves
      on, or fails and stays. */
  class Reader {
    const buf: seq<u8>
    var at: nat

    ghost predicate Valid()
      reads this
    {
      at <= |buf| <= ISIZE_MAX
    }

    /** What has not been read yet. */
    ghost function Rest(): seq<u8>
      reads this
      requires Valid()
    {
      buf[at..]
    }

    constructor (buf: seq<u8>)
      requires |buf| <= ISIZE_MAX
      ensures Valid() && this.buf == buf && Rest() == buf
    {
      this.buf := buf;
      at := 0;
    }

    method Remaining() returns (n: nat)
      requires Valid()
      ensures n == |Rest()|
    {
      n := |buf| - at;
    }

    method Bytes(n: u16) returns (r: Result<seq<u8>, Fault>)
      requires Valid()
      modifies this
      ensures Valid() && (r.Err? ==> at == old(at))
      ensures match Take(old(Rest()), n)
              case Ok(t) => r == Ok(t.0) && Rest() == t.1
              case Err(e) => r == Err(e)
    {
      assert at + n <= USIZE_MAX;  // so `checked_add` never fails
      var end := at + n;
      if end > |buf| {
        return Err(Truncated);
      }
      r := Ok(buf[at..end]);
      assert buf[at..end] == buf[at..][..n] && buf[end..] == buf[at..][n..];
      at := end;
    }

    method U8() returns (r: Result<u8, Fault>)
      requires Valid()
      modifies this
      ensures Valid()
      ensures match Take(old(Rest()), 1)
              case Ok(t) => r == Ok(t.0[0]) && Rest() == t.1
              case Err(e) => r == Err(e)
    {
      var b :- Bytes(1);
      r := Ok(b[0]);
    }

    method U16() returns (r: Result<u16, Fault>)
      requires Valid()
      modifies this
      ensures Valid()
      ensures match Take(old(Rest()), 2)
              case Ok(t) => r == Ok(OfU16(t.0)) && Rest() == t.1
              case Err(e) => r == Err(e)
    {
      var b :- Bytes(2);
      r := Ok(b[0] as int * 0x100 + b[1]);
    }

    method U32() returns (r: Result<u32, Fault>)
      requires Valid()
      modifies this
      ensures Valid()
      ensures match TakeU32(old(Rest()))
              case Ok(t) => r == Ok(t.0) && Rest() == t.1
              case Err(e) => r == Err(e)
    {
      var b :- Bytes(4);
      r := Ok(b[0] as int * 0x100_0000 + b[1] as int * 0x1_0000 + b[2] as int * 0x100 + b[3]);
    }

    method Tpm2b() returns (r: Result<seq<u8>, Fault>)
      requires Valid()
      modifies this
      ensures Valid()
      ensures match TakeTpm2b(old(Rest()))
              case Ok(t) => r == Ok(t.0) && Rest() == t.1
              case Err(e) => r == Err(e)
    {
      var size :- U16();
      r := Bytes(size);
    }
  }

  /** Reading back what was written. */
  lemma TakeAppended(b: seq<u8>, rest: seq<u8>)
    ensures Take(b + rest, |b|) == Ok((b, rest))
  {
    assert (b + rest)[..|b|] == b && (b + rest)[|b|..] == rest;
  }

  /** What was read is what had been written. */
  lemma TakenU32(s: seq<u8>)
    requires TakeU32(s).Ok?
    ensures s == U32(TakeU32(s).value.0) + TakeU32(s).value.1
  {
    BigEndian(0, s[..4]);
    assert s == s[..4] + s[4..];
  }

  lemma TakenTpm2b(s: seq<u8>)
    requires TakeTpm2b(s).Ok?
    ensures var (b, rest) := TakeTpm2b(s).value; |b| < 0x1_0000 && s == Tpm2b(b) + rest
  {
    BigEndian16(0, s[..2]);
    assert s == s[..2] + s[2..];
    assert s[2..] == TakeTpm2b(s).value.0 + TakeTpm2b(s).value.1;
  }

  lemma TakeWritten(v: u32, b: seq<u8>, rest: seq<u8>)
    ensures TakeU32(U32(v) + rest) == Ok((v, rest))
    ensures |b| < 0x1_0000 ==> TakeTpm2b(Tpm2b(b) + rest) == Ok((b, rest))
  {
    assert (U32(v) + rest)[..4] == U32(v) && (U32(v) + rest)[4..] == rest;
    BigEndian(v, U32(v));
    if |b| < 0x1_0000 {
      var s := Tpm2b(b) + rest;
      assert s[..2] == U16(|b|) && s[2..] == b + rest;
      BigEndian16(|b|, U16(|b|));
      assert (b + rest)[..|b|] == b && (b + rest)[|b|..] == rest;
    }
  }
}
