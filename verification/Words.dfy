/** 32-bit machine words, kept as bounded integers, and the few bit-level
    operations the instruction set needs. */
module Words {

  datatype Option<+T> = None | Some(value: T) {
    predicate IsFailure() {
      None?
    }

    function PropagateFailure<U>(): Option<U>
      requires None?
    {
      None
    }

    function Extract(): T
      requires Some?
    {
      value
    }
  }

  type word = x: int | 0 <= x < 0x1_0000_0000

  type byte = x: int | 0 <= x < 256

  /** Reduction modulo 2^32: every unsigned 32-bit sum, difference and cast. */
  function Wrap(x: int): word {
    x % 0x1_0000_0000
  }

  /** Reducing after every addition or only at the end is the same. */
  lemma WrapAdd(a: int, b: int)
    ensures Wrap(Wrap(a) + b) == Wrap(a + b)
  {
    var q := a / 0x1_0000_0000;
    assert a == 0x1_0000_0000 * q + Wrap(a);
    assert a + b == 0x1_0000_0000 * q + (Wrap(a) + b);
  }

  lemma WrapSums(a: int, b: int, c: int)
    ensures Wrap(Wrap(Wrap(a) + Wrap(b)) + Wrap(c)) == Wrap(a + b + c)
  {
    hide Wrap;
    WrapAdd(a, Wrap(b));
    WrapAdd(b, a);
    WrapAdd(a + b, Wrap(c));
    WrapAdd(c, a + b);
  }

  /** The two's complement reading of a word. */
  function AsI32(x: word): int {
    if x < 0x8000_0000 then x else x - 0x1_0000_0000
  }

  function Pow2(n: nat): (p: nat)
    ensures p >= 1
  {
    if n == 0 then 1 else 2 * Pow2(n - 1)
  }

  /** The low `width` bits of a value, read as a signed number. */
  function SignExtend(value: nat, width: nat): int
    requires width >= 1
  {
    var low := value % Pow2(width);
    if low < Pow2(width - 1) then low else low - Pow2(width)
  }

  lemma Pow2Of32()
    ensures Pow2(32) == 0x1_0000_0000
  {
    assert Pow2(8) == 0x100;
    assert Pow2(16) == 0x1_0000;
    assert Pow2(24) == 0x100_0000;
  }

  datatype BitOp = And | Or | Xor

  function BitAt(op: BitOp, a: nat, b: nat): (r: nat)
    requires a < 2 && b < 2
    ensures r < 2
  {
    match op
    case And => if a + b == 2 then 1 else 0
    case Or => if a + b == 0 then 0 else 1
    case Xor => (a + b) % 2
  }

  function Bitwise(op: BitOp, a: nat, b: nat, width: nat): (r: nat)
    requires a < Pow2(width) && b < Pow2(width)
    ensures r < Pow2(width)
  {
    if width == 0 then 0
    else 2 * Bitwise(op, a / 2, b / 2, width - 1) + BitAt(op, a % 2, b % 2)
  }

  function WordOp(op: BitOp, a: word, b: word): word {
    Pow2Of32();
    Bitwise(op, a, b, 32)
  }

  function Abs(x: int): nat {
    if x < 0 then -x else x
  }

  /** Division of signed numbers that truncates toward zero. */
  function TruncDiv(a: int, b: int): int
    requires b != 0
  {
    if (a < 0) == (b < 0) then Abs(a) / Abs(b) else -(Abs(a) / Abs(b))
  }

  function TruncRem(a: int, b: int): int
    requires b != 0
  {
    a - b * TruncDiv(a, b)
  }

  lemma MultipleLeavesRange(n: int, d: int)
    requires n > 0
    ensures d >= 1 ==> n * d >= n
    ensures d <= -1 ==> n * d <= -n
  {
    if d >= 1 {
      assert n * d == n + n * (d - 1);
    } else {
      assert n * d == -n + n * (d + 1);
    }
  }

  /** Quotient and remainder are determined by their equation. */
  lemma QuotientIsUnique(x: int, n: int, q: int, r: int)
    requires x == n * q + r && 0 <= r < n
    ensures x / n == q && x % n == r
  {
    var d := x / n - q;
    assert n * (x / n) + x % n == x;
    assert n * d == n * (x / n) - n * q;
    MultipleLeavesRange(n, d);
  }
}
