/** 64-bit machine arithmetic shared by the source language, the IR and ARM. */
module Words {

  const TWO_63: int := 0x8000_0000_0000_0000
  const TWO_64: int := 0x1_0000_0000_0000_0000

  datatype Option<+T> = None | Some(value: T)

  /** The two's complement value of the low 64 bits of x. */
  function Wrap(x: int): (r: int)
    ensures -TWO_63 <= r < TWO_63
    ensures exists k: int :: r == x + k * TWO_64
  {
    var r := (x + TWO_63) % TWO_64 - TWO_63;
    assert r == x + (-((x + TWO_63) / TWO_64)) * TWO_64;
    r
  }

  /** Division that truncates toward zero: the remainder is smaller than the divisor and has the dividend's sign. */
  function TruncDiv(a: int, b: int): (q: int)
    requires b != 0
    ensures var r := a - q * b; (if b > 0 then -b < r < b else b < r < -b) && (a >= 0 ==> r >= 0) && (a <= 0 ==> r <= 0)
  {
    if a >= 0 then (if b > 0 then a / b else -(a / -b))
    else (if b > 0 then -(-a / b) else -a / -b)
  }

  function Bit(b: bool): int { if b then 1 else 0 }

  predicate IsBit(v: int) { v == 0 || v == 1 }

  /** Bitwise conjunction of the low n bits; above them both operands are all sign. */
  function BitAnd(n: nat, a: int, b: int): int {
    if n == 0 then -Bit(a < 0 && b < 0)
    else Bit(a % 2 == 1 && b % 2 == 1) + 2 * BitAnd(n - 1, a / 2, b / 2)
  }

  /** Bitwise disjunction of the low n bits; above them both operands are all sign. */
  function BitOr(n: nat, a: int, b: int): int {
    if n == 0 then -Bit(a < 0 || b < 0)
    else Bit(a % 2 == 1 || b % 2 == 1) + 2 * BitOr(n - 1, a / 2, b / 2)
  }

  /** On truth values the bitwise operators are the logical ones, at every width. */
  lemma {:induction false} BitOpsOnTruthValues(n: nat, a: int, b: int)
    requires IsBit(a) && IsBit(b) && (n == 0 ==> a == 0 && b == 0)
    ensures BitAnd(n, a, b) == Bit(a == 1 && b == 1)
    ensures BitOr(n, a, b) == Bit(a == 1 || b == 1)
  {
    if n > 0 {
      BitOpsOnTruthValues(n - 1, 0, 0);
      assert a / 2 == 0 && b / 2 == 0;
    }
  }

  datatype BinOpTy = ADD | SUB | MUL | SDIV | AND | OR

  /** The i64 operators of the IR; sdiv by zero has no value. */
  function BinOpValue(op: BinOpTy, a: int, b: int): Option<int> {
    match op
    case ADD => Some(Wrap(a + b))
    case SUB => Some(Wrap(a - b))
    case MUL => Some(Wrap(a * b))
    case SDIV => if b == 0 then None else Some(Wrap(TruncDiv(a, b)))
    case AND => Some(BitAnd(63, a, b))
    case OR => Some(BitOr(63, a, b))
  }

  datatype ConditionCode = EQ | NE | SGT | SGE | SLT | SLE {
    function Negate(): ConditionCode {
      match this
      case EQ => NE
      case NE => EQ
      case SGT => SLE
      case SGE => SLT
      case SLT => SGE
      case SLE => SGT
    }

    predicate Holds(a: int, b: int) {
      match this
      case EQ => a == b
      case NE => a != b
      case SGT => a > b
      case SGE => a >= b
      case SLT => a < b
      case SLE => a <= b
    }
  }
}
