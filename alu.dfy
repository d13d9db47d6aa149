/**
 * The value computations behind the arithmetic, comparison, logical, bitwise
 * and conversion instructions of all three generations. Each generation
 * decides which operand is the left one; `Binary(op, x, y, fu)` always means
 * `x OP y` as the C source writes it.
 */
module Alu {
  import opened Words

  /**
   * The host's IEEE-754 double arithmetic on the `as_f64` view of words. The
   * VM calls the C compiler's `double` operations and `fmod`; the model takes
   * them as given functions.
   */
  datatype FloatUnit = FloatUnit(
    add: (Word, Word) -> Word,
    sub: (Word, Word) -> Word,
    mul: (Word, Word) -> Word,
    div: (Word, Word) -> Word,
    fmod: (Word, Word) -> Word,
    lt: (Word, Word) -> bool,
    le: (Word, Word) -> bool,
    fromSigned: Word -> Word,
    fromUnsigned: Word -> Word,
    toSigned: Word -> Word)

  /** The bits of the double 1.0. */
  const ONE_F64: Word := 0x3FF0_0000_0000_0000

  /** One-operand instructions: the word on top is replaced by `Unary(op, x)`. */
  datatype UnOp =
    | IncI | DecI | IncF | DecF
    | Not | NotB
    /* `(double)as_i64`, `(double)as_u64`, `(int64_t)as_f64`; `F2U` converts
       through `int64_t` and so is `F2I` in both generations that have it. */
    | I2F | U2F | F2I

  /** Two-operand instructions. */
  datatype BinOp =
    | AddI | SubI | MulI | DivI | DivU | ModI | ModU
    | AddF | SubF | MulF | DivF | ModF
    | Eq | Neq
    | GtI | GtU | GtF | GeI | GeU | GeF
    | LtI | LtU | LtF | LeI | LeU | LeF
    | And | Or
    | AndB | OrB | Xor | Shl | ShrU | ShrS
    | RotL | RotR

  /** Integer division and remainder: the only operations that can fail. */
  predicate IsIntDivision(op: BinOp)
  {
    op == DivI || op == DivU || op == ModI || op == ModU
  }

  /** Operations whose result is a C boolean, 0 or 1. */
  predicate IsBoolean(op: BinOp)
  {
    op in {Eq, Neq, GtI, GtU, GtF, GeI, GeU, GeF, LtI, LtU, LtF, LeI, LeU, LeF, And, Or}
  }

  function Unary(op: UnOp, x: Word, fu: FloatUnit): Word
  {
    match op
    case IncI => x + 1
    case DecI => x - 1
    case IncF => fu.add(x, ONE_F64)
    case DecF => fu.sub(x, ONE_F64)
    case Not => Bool01(x == 0)
    case NotB => !x
    case I2F => fu.fromSigned(x)
    case U2F => fu.fromUnsigned(x)
    case F2I => fu.toSigned(x)
  }

  /** Logical NOT yields the C boolean of `x == 0`. */
  lemma NotIsBoolean(x: Word, fu: FloatUnit)
    ensures var r := Unary(Not, x, fu); (r == 1 <==> x == 0) && (r == 0 || r == 1)
  {}

  /** Bitwise NOT sets exactly the bits that are clear in `x`. */
  lemma NotBComplements(x: Word, fu: FloatUnit)
    ensures var r := Unary(NotB, x, fu); r & x == 0 && r | x == 0xFFFF_FFFF_FFFF_FFFF
  {}

  /** Rotation as the middle generation writes it, on `int64_t` with `>>` arithmetic. */
  function RotateLeft(x: Word, n: Word): Word
  {
    var m := n & 63;
    if m != 0 then Words.Shl(x, m) | Words.ShrS(x, 64 - m) else x
  }

  function RotateRight(x: Word, n: Word): Word
  {
    var m := n & 63;
    if m != 0 then Words.ShrS(x, m) | Words.Shl(x, 64 - m) else x
  }

  /** The truth value a comparison or a logical operation computes. */
  function Compare(op: BinOp, x: Word, y: Word, fu: FloatUnit): bool
    requires IsBoolean(op)
  {
    match op
    case Eq => x == y
    case Neq => x != y
    case GtI => ToInt(x) > ToInt(y)
    case GtU => x > y
    case GtF => fu.lt(y, x)
    case GeI => ToInt(x) >= ToInt(y)
    case GeU => x >= y
    case GeF => fu.le(y, x)
    case LtI => ToInt(x) < ToInt(y)
    case LtU => x < y
    case LtF => fu.lt(x, y)
    case LeI => ToInt(x) <= ToInt(y)
    case LeU => x <= y
    case LeF => fu.le(x, y)
    case And => x != 0 && y != 0
    case Or => x != 0 || y != 0
  }

  /** The result of an integer division or remainder by a nonzero divisor. */
  function Divide(op: BinOp, x: Word, y: Word): Word
    requires IsIntDivision(op) && y != 0
  {
    match op
    case DivI => SDiv(x, y)
    case DivU => x / y
    case ModI => SRem(x, y)
    case ModU => x % y
  }

  /** The result of every operation that yields a word and cannot fail. */
  function Compute(op: BinOp, x: Word, y: Word, fu: FloatUnit): Word
    requires !IsIntDivision(op) && !IsBoolean(op)
  {
    match op
    case AddI => x + y
    case SubI => x - y
    case MulI => x * y
    case AddF => fu.add(x, y)
    case SubF => fu.sub(x, y)
    case MulF => fu.mul(x, y)
    case DivF => fu.div(x, y)
    case ModF => fu.fmod(x, y)
    case AndB => x & y
    case OrB => x | y
    case Xor => x ^ y
    case Shl => Words.Shl(x, y)
    case ShrU => Words.ShrU(x, y)
    case ShrS => Words.ShrS(x, y)
    case RotL => RotateLeft(x, y)
    case RotR => RotateRight(x, y)
  }

  /**
   * `x OP y`. `None` stands for an integer division or remainder by zero, which
   * is undefined in C; where the source does not check for it the model reports
   * it as a division by zero.
   */
  function Binary(op: BinOp, x: Word, y: Word, fu: FloatUnit): (r: Option<Word>)
    ensures r.None? <==> IsIntDivision(op) && y == 0
    ensures IsBoolean(op) ==> r == Some(0) || r == Some(1)
  {
    if IsIntDivision(op) then (if y == 0 then None else Some(Divide(op, x, y)))
    else if IsBoolean(op) then Some(Bool01(Compare(op, x, y, fu)))
    else Some(Compute(op, x, y, fu))
  }

  /**
   * The middle generation's rotations are true rotations only on words whose
   * sign bit is clear: on a negative word the arithmetic `>>` fills the vacated
   * bits with ones.
   */
  lemma RotateLeftNonNegative(x: Word, n: Word)
    requires x & SIGN_BIT == 0 && n & 63 != 0
    ensures RotateLeft(x, n) == (x << (n & 63)) | (x >> (64 - (n & 63)))
  {}

  lemma RotateLeftNegative()
    ensures RotateLeft(SIGN_BIT, 1) == 0xFFFF_FFFF_FFFF_FFFF
    ensures (SIGN_BIT << 1) | (SIGN_BIT >> 63) == 1
  {}
}
