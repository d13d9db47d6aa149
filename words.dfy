/**
 * The untyped 8-byte machine word and the byte-level views every generation of
 * the VM shares: the signed view of a word, C's truncating division, the
 * little-endian byte encoding of a word, and loads and stores on a linear
 * byte memory.
 */
module Words {

  /** A machine word; the signed view is `ToInt`, the unsigned view is the bits. */
  type Word = bv64
  type Byte = bv8

  datatype Option<T> = None | Some(value: T)

  /** Capacity of the operand stack, in words ( `*_STACK_MAX` ). */
  const STACK_MAX: int := 1024
  /** Capacity of the linear memory, in bytes ( `*_MEMORY_MAX` ). */
  const MEMORY_MAX: int := 640000
  /** Capacity of the native table ( `*_NATIVE_MAX` ). */
  const NATIVE_MAX: int := 1024
  /** Capacity of the instruction array of the two older generations ( `LVM_PROGRAM_MAX` ). */
  const PROGRAM_MAX: int := 1024

  /** Access widths of the memory instructions. */
  datatype Width = W8 | W16 | W32 | W64

  function Size(w: Width): (n: nat)
    ensures 1 <= n <= 8
  {
    match w
    case W8 => 1
    case W16 => 2
    case W32 => 4
    case W64 => 8
  }

  const TWO_64: int := 0x1_0000_0000_0000_0000
  const SIGN_BIT: Word := 0x8000_0000_0000_0000

  // ---------------------------------------------------------------------------
  // Signed view and C arithmetic

  /** The `as_i64` view of a word (two's complement). */
  function ToInt(w: Word): (i: int)
    ensures -0x8000_0000_0000_0000 <= i < 0x8000_0000_0000_0000
    ensures (i < 0) == (w & SIGN_BIT != 0)
  {
    if w & SIGN_BIT == 0 then w as int else w as int - TWO_64
  }

  /** An integer wrapped to 64 bits, as a C store into `as_i64` does. */
  function FromInt(i: int): Word
  {
    (i % TWO_64) as Word
  }

  /** C's `/` on integers: the quotient truncated toward zero. */
  function TDiv(a: int, b: int): int
    requires b != 0
  {
    if a >= 0 then (if b > 0 then a / b else -(a / -b))
    else (if b > 0 then -((-a) / b) else (-a) / (-b))
  }

  /** C's `%` on integers: the remainder that goes with `TDiv`. */
  function TRem(a: int, b: int): int
    requires b != 0
  {
    a - TDiv(a, b) * b
  }

  function Abs(a: int): nat { if a < 0 then -a else a }

  /**
   * `TDiv` and `TRem` are C's truncating division: the remainder is smaller than
   * the divisor in magnitude and never has the opposite sign of the dividend.
   */
  lemma TDivRem(a: int, b: int)
    requires b != 0
    ensures TDiv(a, b) * b + TRem(a, b) == a
    ensures Abs(TRem(a, b)) < Abs(b)
    ensures a >= 0 ==> TRem(a, b) >= 0
    ensures a <= 0 ==> TRem(a, b) <= 0
    ensures Abs(TDiv(a, b)) == Abs(a) / Abs(b)
  {
    TRemMagnitude(a, b);
    RemBelow(Abs(a), Abs(b));
    Truncated(a, b, TDiv(a, b), TRem(a, b), Abs(a) / Abs(b), Abs(a) % Abs(b));
  }

  lemma RemBelow(x: nat, y: nat)
    requires y > 0
    ensures 0 <= x % y < y && (x == 0 ==> x % y == 0)
  {}

  /** The properties of a quotient and a remainder given by magnitude and sign. */
  lemma Truncated(a: int, b: int, d: int, m: int, q: int, r: int)
    requires b != 0 && 0 <= r < Abs(b) && q >= 0 && (a == 0 ==> r == 0)
    requires m == (if a >= 0 then r else -r)
    requires d == (if (a >= 0) == (b > 0) then q else -q)
    ensures Abs(m) < Abs(b) && (a >= 0 ==> m >= 0) && (a <= 0 ==> m <= 0) && Abs(d) == q
  {}

  /** The remainder is `|a| % |b|` with the sign of `a`. */
  lemma TRemMagnitude(a: int, b: int)
    requires b != 0
    ensures TRem(a, b) == (if a >= 0 then Abs(a) % Abs(b) else -(Abs(a) % Abs(b)))
    ensures TDiv(a, b) == (if (a >= 0) == (b > 0) then Abs(a) / Abs(b) else -(Abs(a) / Abs(b)))
  {
    var q := Abs(a) / Abs(b);
    DivMod(Abs(a), Abs(b));
    ProductSign(q, b, a >= 0, b > 0);
  }

  lemma DivMod(x: nat, y: nat)
    requires y > 0
    ensures x == (x / y) * y + x % y && 0 <= x % y < y
  {}

  /** `TDiv(a, b) * b` is `q * |b|` with the sign of `a`, where `q` is `|a| / |b|`. */
  lemma ProductSign(q: int, b: int, aNonNeg: bool, bPos: bool)
    requires b != 0 && bPos == (b > 0)
    ensures (if aNonNeg == bPos then q else -q) * b == (if aNonNeg then q * Abs(b) else -(q * Abs(b)))
  {
    if !bPos {
      var m: int := Abs(b);
      assert b == -m;
      assert q * b == -(q * m);
      assert (-q) * b == q * m;
    }
  }

  /** `as_i64 / as_i64`; INT64_MIN / -1 wraps to INT64_MIN. */
  function SDiv(x: Word, y: Word): Word
    requires y != 0
  {
    FromInt(TDiv(ToInt(x), ToInt(y)))
  }

  /** `as_i64 % as_i64`. */
  function SRem(x: Word, y: Word): Word
    requires y != 0
  {
    FromInt(TRem(ToInt(x), ToInt(y)))
  }

  /** A C boolean stored in a word. */
  function Bool01(b: bool): (w: Word)
    ensures w == 0 || w == 1
    ensures (w == 1) == b
  {
    if b then 1 else 0
  }

  /** `<<`, with the shift amount taken modulo 64 as x86-64 does. */
  function Shl(x: Word, n: Word): Word
  {
    x << (n & 63)
  }

  /** `>>` on `uint64_t`: a logical shift. */
  function ShrU(x: Word, n: Word): Word
  {
    x >> (n & 63)
  }

  /** `>>` on `int64_t`: an arithmetic shift that copies the sign bit. */
  function ShrS(x: Word, n: Word): (r: Word)
    ensures r & SIGN_BIT == x & SIGN_BIT || n & 63 == 0
    ensures x & SIGN_BIT == 0 ==> r == ShrU(x, n)
  {
    if x & SIGN_BIT != 0 then !((!x) >> (n & 63)) else x >> (n & 63)
  }

  // ---------------------------------------------------------------------------
  // Little-endian bytes

  /** The low byte of a word. */
  function Low(v: Word): Byte
  {
    (v & 0xFF) as Byte
  }

  /** A byte in front of the more significant bytes `hi`. */
  function Join(lo: Byte, hi: Word): Word
  {
    (lo as Word) | (hi << 8)
  }

  /** The word whose little-endian bytes are `bs`, zero-extended. */
  function LE(bs: seq<Byte>): Word
    requires |bs| <= 8
  {
    if bs == [] then 0 else Join(bs[0], LE(bs[1..]))
  }

  /** The `n` low bytes of `v`, least significant first. */
  function Bytes(v: Word, n: nat): (r: seq<Byte>)
    requires n <= 8
    ensures |r| == n
  {
    if n == 0 then [] else [Low(v)] + Bytes(v >> 8, n - 1)
  }

  /** `v` cast to an `n`-byte unsigned integer and back, e.g. `(uint16_t)v`. */
  function Trunc(v: Word, n: nat): Word
    requires n <= 8
  {
    if n == 0 then 0 else Join(Low(v), Trunc(v >> 8, n - 1))
  }

  /** `v` has no set bit above its `n` low bytes. */
  predicate Fits(v: Word, n: nat)
  {
    if n == 0 then v == 0 else Fits(v >> 8, n - 1)
  }

  /** Decoding the bytes of a word gives back the word truncated to that width. */
  lemma {:induction false} LEBytes(v: Word, n: nat)
    requires n <= 8
    ensures LE(Bytes(v, n)) == Trunc(v, n)
  {
    if n > 0 {
      var bs := Bytes(v, n);
      assert bs[1..] == Bytes(v >> 8, n - 1);
      LEBytes(v >> 8, n - 1);
    }
  }

  lemma JoinSplit(x: Word)
    ensures Join(Low(x), x >> 8) == x
  {}

  /** Truncation keeps a value that fits. */
  lemma {:induction false} TruncFits(v: Word, n: nat)
    requires n <= 8 && Fits(v, n)
    ensures Trunc(v, n) == v
  {
    if n > 0 {
      TruncFits(v >> 8, n - 1);
      JoinSplit(v);
    }
  }

  lemma ShiftOut8(v: Word)
    ensures v >> 8 >> 8 >> 8 >> 8 >> 8 >> 8 >> 8 >> 8 == 0
  {}

  /** Every word fits in eight bytes. */
  lemma FitsWord(v: Word)
    ensures Fits(v, 8)
  {
    ShiftOut8(v);
    assert Fits(v >> 8 >> 8 >> 8 >> 8 >> 8 >> 8 >> 8 >> 8, 0);
    assert Fits(v >> 8 >> 8 >> 8 >> 8 >> 8 >> 8 >> 8, 1);
    assert Fits(v >> 8 >> 8 >> 8 >> 8 >> 8 >> 8, 2);
    assert Fits(v >> 8 >> 8 >> 8 >> 8 >> 8, 3);
    assert Fits(v >> 8 >> 8 >> 8 >> 8, 4);
    assert Fits(v >> 8 >> 8 >> 8, 5);
    assert Fits(v >> 8 >> 8, 6);
    assert Fits(v >> 8, 7);
  }

  /** A 64-bit store followed by a 64-bit load is the identity. */
  lemma LEBytes8(v: Word)
    ensures LE(Bytes(v, 8)) == v
  {
    LEBytes(v, 8);
    FitsWord(v);
    TruncFits(v, 8);
  }

  lemma ShiftOut4(x: bv32)
    ensures (x as Word) >> 8 >> 8 >> 8 >> 8 == 0
  {}

  /** A 32-bit value survives a 4-byte round trip. */
  lemma LEBytes4(x: bv32)
    ensures LE(Bytes(x as Word, 4)) == x as Word
  {
    var v := x as Word;
    ShiftOut4(x);
    assert Fits(v >> 8 >> 8 >> 8 >> 8, 0);
    assert Fits(v >> 8 >> 8 >> 8, 1);
    assert Fits(v >> 8 >> 8, 2);
    assert Fits(v >> 8, 3);
    LEBytes(v, 4);
    TruncFits(v, 4);
  }

  lemma ShiftOut2(x: bv16)
    ensures (x as Word) >> 8 >> 8 == 0
  {}

  /** A 16-bit value survives a 2-byte round trip. */
  lemma LEBytes2(x: bv16)
    ensures LE(Bytes(x as Word, 2)) == x as Word
  {
    var v := x as Word;
    ShiftOut2(x);
    assert Fits(v >> 8 >> 8, 0);
    assert Fits(v >> 8, 1);
    LEBytes(v, 2);
    TruncFits(v, 2);
  }

  /** A one-byte load is the byte, zero-extended. */
  lemma LEOne(b: Byte)
    ensures LE([b]) == b as Word
  {
    assert [b][1..] == [];
  }

  // ---------------------------------------------------------------------------
  // Counts as words

  /** A count of at most `PROGRAM_MAX` as an unsigned 64-bit word, built by successors. */
  function WordOf(n: nat): (w: Word)
    requires n <= PROGRAM_MAX
    ensures w as int == n
  {
    if n == 0 then 0
    else
      var v := WordOf(n - 1);
      SmallWord(v);
      SmallSucc(v);
      v + 1
  }

  lemma SmallWord(w: Word)
    requires w as int < PROGRAM_MAX
    ensures w < 1024
  {}

  lemma SmallSucc(w: Word)
    requires w < 1024
    ensures (w + 1) as int == w as int + 1
  {}

  // ---------------------------------------------------------------------------
  // Linear memory

  /** A `w`-byte little-endian load, `*(uintW_t*)&memory[addr]`. */
  function Load(mem: seq<Byte>, addr: int, w: nat): Word
    requires 0 <= addr && addr + w <= |mem| && w <= 8
  {
    LE(mem[addr..addr + w])
  }

  /** A `w`-byte little-endian store of the low bytes of `v` at `addr`. */
  function Store(mem: seq<Byte>, addr: int, w: nat, v: Word): (r: seq<Byte>)
    requires 0 <= addr && addr + w <= |mem| && w <= 8
    ensures |r| == |mem|
  {
    mem[..addr] + Bytes(v, w) + mem[addr + w..]
  }

  /** A store writes the bytes of the value at the address and no byte elsewhere. */
  lemma StoreEffect(mem: seq<Byte>, addr: int, w: nat, v: Word)
    requires 0 <= addr && addr + w <= |mem| && w <= 8
    ensures var r := Store(mem, addr, w, v);
      && (forall i :: 0 <= i < |mem| && !(addr <= i < addr + w) ==> r[i] == mem[i])
      && r[addr..addr + w] == Bytes(v, w)
  {}

  /** Reading back what was stored gives the stored value truncated to its width. */
  lemma LoadStore(mem: seq<Byte>, addr: int, w: nat, v: Word)
    requires 0 <= addr && addr + w <= |mem| && w <= 8
    ensures Load(Store(mem, addr, w, v), addr, w) == Trunc(v, w)
  {
    StoreEffect(mem, addr, w, v);
    LEBytes(v, w);
  }

  /** A store leaves every load that does not overlap it unchanged. */
  lemma LoadStoreDisjoint(mem: seq<Byte>, addr: int, w: nat, v: Word, a: int, n: nat)
    requires 0 <= addr && addr + w <= |mem| && w <= 8
    requires 0 <= a && a + n <= |mem| && n <= 8
    requires a + n <= addr || addr + w <= a
    ensures Load(Store(mem, addr, w, v), a, n) == Load(mem, a, n)
  {
    var r := Store(mem, addr, w, v);
    StoreEffect(mem, addr, w, v);
    assert r[a..a + n] == mem[a..a + n];
  }
}
