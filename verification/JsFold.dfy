/** Constant folding (the end of jsparse.c): operators on number literals are replaced by their
    results before a tree is compiled. */
module JsFold {
  import opened JsTree
  import opened JsMachine
  import opened JsMeaning

  // ----- the conversion to 32 bits -----

  const TWO32: real := 4294967296.0
  const TWO31: real := 2147483648.0

  function Trunc(x: real): int {
    if x >= 0.0 then x.Floor else -((-x).Floor)
  }

  /** C's fmod: the remainder has the sign of x. */
  function Fmod(x: real, y: real): real
    requires y > 0.0
  {
    x - y * (Trunc(x / y) as real)
  }

  function Ceil(x: real): int {
    -((-x).Floor)
  }

  /** `toint32`, which jsV_numbertoint32 repeats */
  function ToInt32(n: Number): int {
    match n
    case NaN => 0
    case Infinity(_) => 0
    case Finite(neg, mag) =>
      if mag == 0.0 then 0 else Wrapped(Fmod(if neg then -mag else mag, TWO32))
  }

  function Wrapped(d: real): int {
    var e := if d >= 0.0 then d.Floor as real else Ceil(d) as real + TWO32;
    if e >= TWO31 then (e - TWO32).Floor else e.Floor
  }

  lemma {:induction false} WrappedMeans(d: real)
    requires -TWO32 < d < TWO32
    ensures -0x8000_0000 <= Wrapped(d) < 0x8000_0000
    ensures Wrapped(d) == Trunc(d) || Wrapped(d) == Trunc(d) + 0x1_0000_0000 || Wrapped(d) == Trunc(d) - 0x1_0000_0000
  {
  }

  /** Section 9.5 of ECMA-262 5.1: the integer part, modulo 2^32, between -2^31 and 2^31 - 1. */
  lemma {:induction false} ToInt32Means(neg: bool, mag: real)
    requires mag >= 0.0
    ensures var i := ToInt32(Finite(neg, mag));
      var whole := if neg then -(mag.Floor) else mag.Floor;
      -0x8000_0000 <= i < 0x8000_0000 && (i - whole) % 0x1_0000_0000 == 0
  {
    hide Wrapped, Trunc, Fmod;
    var x := if neg then -mag else mag;
    TruncWhole(x);
    if mag != 0.0 {
      var q := Trunc(x / TWO32);
      FmodMeans(x);
      TruncShift(x, q);
      WrappedMeans(Fmod(x, TWO32));
      Multiple(ToInt32(Finite(neg, mag)), Trunc(x), q);
    }
  }

  lemma {:induction false} TruncWhole(x: real)
    ensures Trunc(x) == if x >= 0.0 then x.Floor else -((-x).Floor)
    ensures x == 0.0 ==> Trunc(x) == 0
  {
  }

  lemma {:induction false} Multiple(i: int, t: int, q: int)
    requires var r := t - 0x1_0000_0000 * q; i == r || i == r + 0x1_0000_0000 || i == r - 0x1_0000_0000
    ensures (i - t) % 0x1_0000_0000 == 0
  {
    var k := if i == t - 0x1_0000_0000 * q then -q else if i == t - 0x1_0000_0000 * q + 0x1_0000_0000 then 1 - q
      else -q - 1;
    assert i - t == 0x1_0000_0000 * k;
  }

  /** The remainder lies between -2^32 and 2^32, on the side of x. */
  lemma {:induction false} FmodMeans(x: real)
    ensures var d := Fmod(x, TWO32); (x >= 0.0 ==> 0.0 <= d < TWO32) && (x <= 0.0 ==> -TWO32 < d <= 0.0)
  {
    var y := x / TWO32;
    assert x == y * TWO32;
    if x >= 0.0 {
      assert y >= 0.0;
      assert y.Floor as real <= y < y.Floor as real + 1.0;
    } else {
      assert y <= 0.0;
      assert (-y).Floor as real <= -y < (-y).Floor as real + 1.0;
    }
  }

  /** Taking away a multiple of 2^32 on the side of zero takes it away from the integer part. */
  lemma {:induction false} TruncShift(x: real, q: int)
    requires q == Trunc(x / TWO32)
    ensures Trunc(Fmod(x, TWO32)) == Trunc(x) - 0x1_0000_0000 * q
  {
    FmodMeans(x);
    var d := Fmod(x, TWO32);
    assert d == x - (0x1_0000_0000 * q) as real;
    if x >= 0.0 {
      FloorShift(x, -0x1_0000_0000 * q);
    } else {
      FloorShift(-x, 0x1_0000_0000 * q);
    }
  }

  lemma {:induction false} FloorShift(x: real, k: int)
    ensures (x + k as real).Floor == x.Floor + k
  {
  }

  // ----- folding -----

  /** C's arithmetic on doubles, with its rounding. */
  datatype Arith = Arith(double2: (BinOp, Number, Number) -> Number)

  // C's operators on 32-bit integers

  function Signed(k: int): int {
    (k + 0x8000_0000) % 0x1_0000_0000 - 0x8000_0000
  }

  function Pow2(n: nat): nat {
    if n == 0 then 1 else 2 * Pow2(n - 1)
  }

  lemma {:induction false} Pow2Positive(n: nat)
    ensures Pow2(n) > 0
  {
    if n > 0 { Pow2Positive(n - 1); }
  }

  function Not(i: int): int {
    -i - 1
  }

  /** A right shift of a negative number rounds down. */
  function Int2(op: BinOp, i: int, j: nat): int
    requires op == Shl || op == Shr || op == Ushr
  {
    Pow2Positive(j);
    if op == Shl then Signed(i * Pow2(j)) else i / Pow2(j)
  }

  function Bit(op: BinOp, a: int, b: int): int
    requires op == BitAnd || op == BitXor || op == BitOr
  {
    match op
    case BitAnd => if a == 1 && b == 1 then 1 else 0
    case BitXor => if a != b then 1 else 0
    case _ => if a == 1 || b == 1 then 1 else 0
  }

  /** The lower n bits of x and y, bit by bit. */
  function Bitwise(op: BinOp, x: nat, y: nat, n: nat): nat
    requires op == BitAnd || op == BitXor || op == BitOr
  {
    if n == 0 then 0 else Bit(op, x % 2, y % 2) + 2 * Bitwise(op, x / 2, y / 2, n - 1)
  }

  function Bits2(op: BinOp, i: int, j: int): int
    requires op == BitAnd || op == BitXor || op == BitOr
  {
    Signed(Bitwise(op, i % 0x1_0000_0000, j % 0x1_0000_0000, 32))
  }

  /** Bit k of i in two's complement. */
  predicate BitSet(i: int, k: nat)
    requires k < 32
  {
    Pow2Positive(k);
    i % 0x1_0000_0000 / Pow2(k) % 2 == 1
  }

  lemma {:induction false} BitwiseMeans(op: BinOp, x: nat, y: nat, n: nat, k: nat)
    requires (op == BitAnd || op == BitXor || op == BitOr) && k < n
    ensures Pow2(k) > 0 && Bitwise(op, x, y, n) < Pow2(n)
    ensures Bitwise(op, x, y, n) / Pow2(k) % 2 == Bit(op, x / Pow2(k) % 2, y / Pow2(k) % 2)
  {
    hide Bitwise, Bit;
    Pow2Positive(k);
    BitwiseFits(op, x, y, n);
    BitwiseStep(op, x, y, n);
    if k > 0 {
      hide Pow2;
      BitwiseMeans(op, x / 2, y / 2, n - 1, k - 1);
      Halved(x, k);
      Halved(y, k);
      Halved(Bitwise(op, x, y, n), k);
    }
  }

  lemma {:induction false} BitwiseStep(op: BinOp, x: nat, y: nat, n: nat)
    requires (op == BitAnd || op == BitXor || op == BitOr) && n > 0
    ensures Bitwise(op, x, y, n) / 2 == Bitwise(op, x / 2, y / 2, n - 1)
    ensures Bitwise(op, x, y, n) % 2 == Bit(op, x % 2, y % 2)
  {
  }

  lemma {:induction false} BitwiseFits(op: BinOp, x: nat, y: nat, n: nat)
    requires op == BitAnd || op == BitXor || op == BitOr
    ensures Bitwise(op, x, y, n) < Pow2(n)
  {
    if n > 0 { BitwiseFits(op, x / 2, y / 2, n - 1); }
  }

  lemma {:induction false} Halved(x: nat, k: nat)
    requires k > 0
    ensures Pow2(k) > 0 && Pow2(k - 1) > 0 && x / Pow2(k) == x / 2 / Pow2(k - 1)
  {
    Pow2Positive(k);
    Pow2Positive(k - 1);
    var p := Pow2(k - 1);
    var q, r := x / 2 / p, x / 2 % p;
    assert x / 2 == q * p + r;
    assert x == q * (2 * p) + (2 * r + x % 2);
    Quotient(x, 2 * p, q, 2 * r + x % 2);
  }

  lemma {:induction false} Quotient(x: int, d: int, q: int, r: int)
    requires d > 0 && 0 <= r < d && x == q * d + r
    ensures x / d == q && x % d == r
  {
    var e := x / d - q;
    assert x % d - r == -(e * d);
    assert e >= 1 ==> e * d >= d;
    assert e <= -1 ==> e * d <= -d;
  }

  function OfInt(i: int): Number {
    Finite(i < 0, (if i < 0 then -i else i) as real)
  }

  function ToUint32(n: Number): int {
    ToInt32(n) % 0x1_0000_0000
  }

  function FoldUnary(ar: Arith, u: UnOp, x: Number): Option<Number> {
    match u
    case Neg => Some(Minus(x))
    case Pos => Some(x)
    case BitNot => Some(OfInt(Not(ToInt32(x))))
    case LogNot => None
  }

  function FoldBinary(ar: Arith, op: BinOp, x: Number, y: Number): Option<Number> {
    match op
    case Mul => Some(ar.double2(op, x, y))
    case Div => Some(ar.double2(op, x, y))
    case Mod => Some(ar.double2(op, x, y))
    case Add => Some(ar.double2(op, x, y))
    case Sub => Some(ar.double2(op, x, y))
    case Shl => Some(OfInt(Int2(op, ToInt32(x), ToUint32(y) % 32)))
    case Shr => Some(OfInt(Int2(op, ToInt32(x), ToUint32(y) % 32)))
    case Ushr => Some(OfInt(Int2(op, ToUint32(x), ToUint32(y) % 32)))
    case BitAnd => Some(OfInt(Bits2(op, ToInt32(x), ToInt32(y))))
    case BitXor => Some(OfInt(Bits2(op, ToInt32(x), ToInt32(y))))
    case BitOr => Some(OfInt(Bits2(op, ToInt32(x), ToInt32(y))))
    case _ => None
  }

  // ----- what the integer operators give -----

  /** The whole number v, and nothing else. */
  predicate Gives(n: Option<Number>, v: int) {
    n == Some(Finite(v < 0, (if v < 0 then -v else v) as real))
  }

  predicate Small(v: int) {
    -0x8000_0000 <= v < 0x8000_0000
  }

  /** Equal in the lower 32 bits. */
  predicate Congruent(i: int, j: int) {
    (i - j) % 0x1_0000_0000 == 0
  }

  lemma {:induction false} CongruentMeans(i: int, j: int)
    ensures Congruent(i, j) <==> i % 0x1_0000_0000 == j % 0x1_0000_0000
  {
    var d := i / 0x1_0000_0000 - j / 0x1_0000_0000;
    assert i - j == 0x1_0000_0000 * d + (i % 0x1_0000_0000 - j % 0x1_0000_0000);
  }

  lemma {:induction false} CongruentTimes(l: int, s: int, i: int, p: int)
    requires Congruent(l, s * p) && Congruent(s, i)
    ensures Congruent(l, i * p)
  {
    var a, b := (l - s * p) / 0x1_0000_0000, (s - i) / 0x1_0000_0000;
    assert s == i + 0x1_0000_0000 * b;
    assert s * p == i * p + 0x1_0000_0000 * (b * p);
    assert l - i * p == 0x1_0000_0000 * (a + b * p);
  }

  lemma {:induction false} SignedMeans(k: int)
    ensures Small(Signed(k)) && Congruent(Signed(k), k)
  {
  }

  lemma {:induction false} OperandMeans(x: Number, i: int)
    requires Gives(Some(x), i)
    ensures Small(ToInt32(x)) && Congruent(ToInt32(x), i) && ToUint32(x) == i % 0x1_0000_0000
    ensures ToUint32(x) % 32 == i % 32
  {
    hide ToInt32, Congruent;
    WholeFloor(if i < 0 then -i else i);
    Int32(x, i);
    CongruentMeans(ToInt32(x), i);
    Mod32(i);
  }

  lemma {:induction false} WholeFloor(k: int)
    ensures (k as real).Floor == k
  {
  }

  lemma {:induction false} Mod32(i: int)
    ensures i % 0x1_0000_0000 % 32 == i % 32
  {
    var q, r := i / 0x1_0000_0000, i % 0x1_0000_0000;
    Quotient(i, 32, 0x800_0000 * q + r / 32, r % 32);
  }

  lemma {:induction false} Int32(x: Number, i: int)
    requires Gives(Some(x), i) && x.mag.Floor == if i < 0 then -i else i
    ensures Small(ToInt32(x)) && Congruent(ToInt32(x), i)
  {
    hide ToInt32;
    ToInt32Means(x.neg, x.mag);
  }

  lemma {:induction false} OfIntGives(v: int)
    ensures Gives(Some(OfInt(v)), v)
  {
  }

  /** The shifts, by p = 2^(j mod 32): i << j is i * p in its lower 32 bits as a signed number; i >> j
      is i divided by p and rounded down, where i is taken in its lower 32 bits as a signed number,
      and for i >>> j as an unsigned one. */
  lemma {:induction false} ShiftsFold(ar: Arith, x: Number, y: Number, i: int, j: int)
    returns (left: int, s: int, right: int, u: int)
    requires Gives(Some(x), i) && Gives(Some(y), j)
    ensures var p := Pow2(j % 32);
      && Gives(FoldBinary(ar, Shl, x, y), left) && Small(left) && Congruent(left, i * p)
      && Gives(FoldBinary(ar, Shr, x, y), right) && Small(s) && Congruent(s, i)
      && right * p <= s < right * p + p
      && Gives(FoldBinary(ar, Ushr, x, y), u) && u * p <= i % 0x1_0000_0000 < u * p + p
  {
    hide ToInt32, ToUint32, OfInt, Gives, Signed, Small, Congruent;
    var p := Pow2(j % 32);
    Pow2Positive(j % 32);
    OperandMeans(x, i);
    OperandMeans(y, j);
    s := ToInt32(x);
    left, right, u := Signed(s * p), s / p, ToUint32(x) / p;
    SignedMeans(s * p);
    CongruentTimes(left, s, i, p);
    OfIntGives(left);
    OfIntGives(right);
    OfIntGives(u);
    Rounded(s, p);
    Rounded(ToUint32(x), p);
  }

  lemma {:induction false} Rounded(s: int, p: int)
    requires p > 0
    ensures s / p * p <= s < s / p * p + p
  {
  }

  lemma {:induction false} Bits2Means(op: BinOp, i: int, j: int, k: nat)
    requires k < 32 && (op == BitAnd || op == BitXor || op == BitOr)
    ensures Small(Bits2(op, i, j))
    ensures BitSet(Bits2(op, i, j), k) <==> Bit(op, if BitSet(i, k) then 1 else 0, if BitSet(j, k) then 1 else 0) == 1
  {
    hide Bitwise, Signed, Pow2, Congruent, Small, Bit, BitSet;
    var x, y := i % 0x1_0000_0000, j % 0x1_0000_0000;
    var w := Bitwise(op, x, y, 32);
    BitwiseMeans(op, x, y, 32, k);
    TwoTo32();
    SignedMeans(w);
    BitsKept(Signed(w), w, k);
    BitIs(w, k);
    BitIs(x, k);
    BitIs(y, k);
    BitLow(i, k);
    BitLow(j, k);
  }

  lemma {:induction false} BitIs(w: nat, k: nat)
    requires w < 0x1_0000_0000 && k < 32
    ensures Pow2(k) > 0 && w / Pow2(k) % 2 == if BitSet(w, k) then 1 else 0
  {
    Pow2Positive(k);
  }

  lemma {:induction false} BitLow(i: int, k: nat)
    requires k < 32
    ensures BitSet(i % 0x1_0000_0000, k) <==> BitSet(i, k)
  {
  }

  lemma {:induction false} TwoTo32()
    ensures Pow2(32) == 0x1_0000_0000
  {
    assert Pow2(8) == 256;
    assert Pow2(16) == 256 * Pow2(8);
    assert Pow2(24) == 256 * Pow2(16);
    assert Pow2(32) == 256 * Pow2(24);
  }

  lemma {:induction false} BitsKept(s: int, i: int, k: nat)
    requires k < 32 && Congruent(s, i)
    ensures BitSet(s, k) <==> BitSet(i, k)
  {
    hide Congruent;
    CongruentMeans(s, i);
  }

  /** The operators on bits: & sets those that are set in both, | those in one of them, ^ those in
      only one, and ~ those that are not set. */
  lemma {:induction false} BitsFold(ar: Arith, x: Number, y: Number, i: int, j: int, k: nat)
    returns (both: int, one: int, only: int, flip: int)
    requires Gives(Some(x), i) && Gives(Some(y), j) && k < 32
    ensures Gives(FoldBinary(ar, BitAnd, x, y), both) && Gives(FoldBinary(ar, BitOr, x, y), one)
    ensures Gives(FoldBinary(ar, BitXor, x, y), only) && Gives(FoldUnary(ar, BitNot, x), flip)
    ensures Small(both) && Small(one) && Small(only) && Small(flip)
    ensures BitSet(both, k) <==> BitSet(i, k) && BitSet(j, k)
    ensures BitSet(one, k) <==> BitSet(i, k) || BitSet(j, k)
    ensures BitSet(only, k) <==> BitSet(i, k) != BitSet(j, k)
    ensures BitSet(flip, k) <==> !BitSet(i, k)
  {
    hide ToInt32, ToUint32, OfInt, Gives, Bits2, Congruent, BitSet;
    OperandMeans(x, i);
    OperandMeans(y, j);
    var s, t := ToInt32(x), ToInt32(y);
    BitsKept(s, i, k);
    BitsKept(t, j, k);
    both, one, only, flip := Bits2(BitAnd, s, t), Bits2(BitOr, s, t), Bits2(BitXor, s, t), Not(s);
    Bits2Means(BitAnd, s, t, k);
    Bits2Means(BitOr, s, t, k);
    Bits2Means(BitXor, s, t, k);
    NotMeans(s, k);
    OfIntGives(both);
    OfIntGives(one);
    OfIntGives(only);
    OfIntGives(flip);
  }

  lemma {:induction false} NotMeans(s: int, k: nat)
    requires Small(s) && k < 32
    ensures Small(Not(s)) && (BitSet(Not(s), k) <==> !BitSet(s, k))
  {
    hide Pow2;
    Pow2Positive(k);
    var w := s % 0x1_0000_0000;
    NotLow(s);
    var m := Pow2Left(k, 32);
    TwoTo32();
    NotBit(w, Pow2(k), m);
  }

  lemma {:induction false} NotLow(s: int)
    ensures Not(s) % 0x1_0000_0000 == 0xFFFF_FFFF - s % 0x1_0000_0000
  {
  }

  lemma {:induction false} NotBit(w: nat, p: nat, m: nat)
    requires p > 0 && 2 * m * p == 0x1_0000_0000 && w < 0x1_0000_0000
    ensures (0xFFFF_FFFF - w) / p % 2 == 1 <==> w / p % 2 != 1
  {
    var q, r := w / p, w % p;
    assert w == q * p + r;
    var q1 := 2 * m - 1 - q;
    assert 0xFFFF_FFFF - w == q1 * p + (p - 1 - r) by { Distributed(m, q, p); }
    Quotient(0xFFFF_FFFF - w, p, q1, p - 1 - r);
    Parity(m, q);
  }

  lemma {:induction false} Distributed(m: int, q: int, p: int)
    ensures (2 * m - 1 - q) * p == 2 * m * p - p - q * p
  {
  }

  lemma {:induction false} Parity(m: int, q: int)
    ensures (2 * m - 1 - q) % 2 == 1 <==> q % 2 != 1
  {
  }

  /** Half of the rest. */
  lemma {:induction false} Pow2Left(k: nat, n: nat) returns (m: nat)
    requires k < n
    ensures Pow2(n) == 2 * m * Pow2(k)
    decreases n
  {
    if k + 1 == n {
      m := 1;
    } else {
      var l := Pow2Left(k, n - 1);
      m := 2 * l;
    }
  }

  // ----- the machine's operators -----

  /** Two operands converted by js_tonumber, the lower one first. */
  function Numbers2(lib: Lib, x: Value, y: Value, w: World): Res<(Number, Number)> {
    match lib.number(x, w)
    case Err(v, w1) => Err(v, w1)
    case Ok(m, w1) =>
      match lib.number(y, w1)
      case Err(v, w2) => Err(v, w2)
      case Ok(n, w2) => Ok((m, n), w2)
  }

  function Numeric(r: Res<(Number, Number)>, f: (Number, Number) -> Number): Res<Value> {
    match r
    case Err(v, w) => Err(v, w)
    case Ok(p, w) => Ok(Num(f(p.0, p.1)), w)
  }

  /** What jsR_run does for an arithmetic operator on two operands, but for OP_ADD. */
  function Operate(ar: Arith, lib: Lib, op: BinOp, x: Value, y: Value, w: World): Option<Res<Value>> {
    var r := Numbers2(lib, x, y, w);
    match op
    case Mul => Some(Numeric(r, (m, n) => ar.double2(Mul, m, n)))
    case Div => Some(Numeric(r, (m, n) => ar.double2(Div, m, n)))
    case Mod => Some(Numeric(r, (m, n) => ar.double2(Mod, m, n)))
    case Sub => Some(Numeric(r, (m, n) => ar.double2(Sub, m, n)))
    case Shl => Some(Numeric(r, (m, n) => OfInt(Int2(Shl, ToInt32(m), ToUint32(n) % 32))))
    case Shr => Some(Numeric(r, (m, n) => OfInt(Int2(Shr, ToInt32(m), ToUint32(n) % 32))))
    case Ushr => Some(Numeric(r, (m, n) => OfInt(Int2(Ushr, ToUint32(m), ToUint32(n) % 32))))
    case BitAnd => Some(Numeric(r, (m, n) => OfInt(Bits2(BitAnd, ToInt32(m), ToInt32(n)))))
    case BitXor => Some(Numeric(r, (m, n) => OfInt(Bits2(BitXor, ToInt32(m), ToInt32(n)))))
    case BitOr => Some(Numeric(r, (m, n) => OfInt(Bits2(BitOr, ToInt32(m), ToInt32(n)))))
    case _ => None
  }

  function Operate1(u: UnOp, x: Number): Option<Number> {
    match u
    case Neg => Some(Minus(x))
    case Pos => Some(x)
    case BitNot => Some(OfInt(Not(ToInt32(x))))
    case LogNot => None
  }

  /** The arithmetic operators of the machine, for operands of any kind: js_tonumber leaves numbers
      as they are, and js_concat adds them. */
  ghost predicate Operates(ar: Arith, lib: Lib) {
    && (forall n: Number, w: World :: lib.number(Num(n), w) == Ok(n, w))
    && (forall u: UnOp, x: Value, scope: Scope, w: World ::
          u != LogNot ==>
            lib.prim(Unop(u), On(x, Bottom), scope, w) == match lib.number(x, w) {
              case Err(v, w1) => Err(v, w1)
              case Ok(n, w1) => Ok(Num(Operate1(u, n).value), w1)
            })
    && (forall op: BinOp, x: Value, y: Value, scope: Scope, w: World ::
          Operate(ar, lib, op, x, y, w).Some? ==>
            lib.prim(Binop(op), On(y, On(x, Bottom)), scope, w) == Operate(ar, lib, op, x, y, w).value)
    && (forall x: Number, y: Number, scope: Scope, w: World ::
          lib.prim(Binop(Add), On(Num(y), On(Num(x), Bottom)), scope, w) == Ok(Num(ar.double2(Add, x, y)), w))
  }

  /** On numbers the machine's operators do what folding does. */
  lemma {:induction false} OperatesAgrees(ar: Arith, lib: Lib)
    requires Operates(ar, lib)
    ensures Agrees(ar, lib)
  {
    hide Int2, Bits2, ToInt32, Minus, OfInt;
    forall op: BinOp, x: Number, y: Number, scope: Scope, w: World | FoldBinary(ar, op, x, y).Some?
      ensures lib.prim(Binop(op), On(Num(y), On(Num(x), Bottom)), scope, w)
        == Ok(Num(FoldBinary(ar, op, x, y).value), w)
    {
      assert Numbers2(lib, Num(x), Num(y), w) == Ok((x, y), w);
      if op != Add { assert Operate(ar, lib, op, Num(x), Num(y), w).Some?; }
    }
    forall u: UnOp, x: Number, scope: Scope, w: World | FoldUnary(ar, u, x).Some?
      ensures lib.prim(Unop(u), On(Num(x), Bottom), scope, w) == Ok(Num(FoldUnary(ar, u, x).value), w)
    {
    }
  }

  /** Folding and the machine get the same results. */
  ghost predicate Agrees(ar: Arith, lib: Lib) {
    && (forall u: UnOp, x: Number, scope: Scope, w: World ::
          FoldUnary(ar, u, x).Some? ==>
            lib.prim(Unop(u), On(Num(x), Bottom), scope, w) == Ok(Num(FoldUnary(ar, u, x).value), w))
    && (forall op: BinOp, x: Number, y: Number, scope: Scope, w: World ::
          FoldBinary(ar, op, x, y).Some? ==>
            lib.prim(Binop(op), On(Num(y), On(Num(x), Bottom)), scope, w) == Ok(Num(FoldBinary(ar, op, x, y).value), w))
  }

  /** `jsP_foldconst` */
  function Fold(ar: Arith, e: Exp): Exp
    decreases e, 1
  {
    FoldNode(ar, e)
  }

  lemma {:induction false} FoldDef(ar: Arith, e: Exp)
    ensures Fold(ar, e) == FoldNode(ar, e)
  {
  }

  function FoldNode(ar: Arith, e: Exp): Exp
    decreases e, 0
  {
    match e
    case ObjLit(props) => ObjLit(FoldProps(ar, props))
    case ArrLit(items) => ArrLit(FoldItems(ar, items))
    case Index(a, b) => Index(Fold(ar, a), Fold(ar, b))
    case Member(a, x) => Member(Fold(ar, a), x)
    case Call(f, args) => Call(Fold(ar, f), FoldArgs(ar, args))
    case New(f, args) => New(Fold(ar, f), FoldArgs(ar, args))
    case Delete(a) => Delete(Fold(ar, a))
    case Typeof(a) => Typeof(Fold(ar, a))
    case Void(a) => Void(Fold(ar, a))
    case Crement(inc, post, a) => Crement(inc, post, Fold(ar, a))
    case Unary(u, a) => UnaryOf(ar, u, Fold(ar, a))
    case Binary(op, a, b) => BinaryOf(ar, op, Fold(ar, a), Fold(ar, b))
    case Assign(a, b) => Assign(Fold(ar, a), Fold(ar, b))
    case AssignOp(op, a, b) => AssignOp(op, Fold(ar, a), Fold(ar, b))
    case Comma(a, b) => Comma(Fold(ar, a), Fold(ar, b))
    case LogOr(a, b) => LogOr(Fold(ar, a), Fold(ar, b))
    case LogAnd(a, b) => LogAnd(Fold(ar, a), Fold(ar, b))
    case Cond(a, b, d) => Cond(Fold(ar, a), Fold(ar, b), Fold(ar, d))
    case _ => e
  }

  function UnaryOf(ar: Arith, u: UnOp, a: Exp): Exp {
    if a.NumLit? && FoldUnary(ar, u, a.n).Some? then NumLit(FoldUnary(ar, u, a.n).value) else Unary(u, a)
  }

  function BinaryOf(ar: Arith, op: BinOp, a: Exp, b: Exp): Exp {
    if a.NumLit? && b.NumLit? && FoldBinary(ar, op, a.n, b.n).Some? then NumLit(FoldBinary(ar, op, a.n, b.n).value)
      else Binary(op, a, b)
  }

  function FoldArgs(ar: Arith, args: Exps): Exps
    decreases args
  {
    if args.NoExps? then args else Exps(Fold(ar, args.head), FoldArgs(ar, args.tail))
  }

  function FoldItems(ar: Arith, items: Items): Items
    decreases items
  {
    match items
    case NoItems => NoItems
    case Hole(rest) => Hole(FoldItems(ar, rest))
    case Item(e, rest) => Item(Fold(ar, e), FoldItems(ar, rest))
  }

  function FoldKind(ar: Arith, kind: PropKind): PropKind
    decreases kind
  {
    if kind.PropVal? then PropVal(Fold(ar, kind.e)) else kind
  }

  function FoldProps(ar: Arith, props: Props): Props
    decreases props
  {
    match props
    case NoProps => NoProps
    case Prop(key, kind, rest) => Prop(key, FoldKind(ar, kind), FoldProps(ar, rest))
  }

  // ----- what it keeps -----

  /** The folded expression has the value and the effects of the original. */
  lemma {:induction false} FoldKeeps(ar: Arith, c: Ctx, e: Exp, scope: Scope, m: Mem)
    requires Agrees(ar, c.lib)
    ensures Eval(c, Fold(ar, e), scope, m) == Eval(c, e, scope, m)
    decreases e, 4
  {
    hide Eval, Fold, Agrees, EvalNode, FoldNode, UnaryOf;
    EvalDef(c, e, scope, m);
    EvalDef(c, Fold(ar, e), scope, m);
    FoldDef(ar, e);
    match e
    case ObjLit(_) | ArrLit(_) | New(_, _) => ListsKeep(ar, c, e, scope, m);
    case Index(_, _) | Member(_, _) | Call(_, _) | Delete(_) | Crement(_, _, _) => PlacesKeep(ar, c, e, scope, m);
    case Typeof(_) | Void(_) => OperandKeeps(ar, c, e, scope, m);
    case Unary(_, _) | Binary(_, _, _) => OperatorKeeps(ar, c, e, scope, m);
    case Assign(_, _) | AssignOp(_, _, _) => StoreKeeps(ar, c, e, scope, m);
    case Comma(_, _) | LogOr(_, _) | LogAnd(_, _) | Cond(_, _, _) => BranchKeeps(ar, c, e, scope, m);
    case _ => FoldSame(ar, e);
  }

  lemma {:induction false} OperatorKeeps(ar: Arith, c: Ctx, e: Exp, scope: Scope, m: Mem)
    requires Agrees(ar, c.lib) && (e.Unary? || e.Binary?)
    ensures Eval(c, FoldNode(ar, e), scope, m) == Eval(c, e, scope, m)
    decreases e, 3
  {
    hide Eval, Fold, Agrees, UnaryOf, BinaryOf;
    if e.Unary? { UnaryKeeps(ar, c, e.u, e.a, scope, m); } else { BinaryKeeps(ar, c, e, scope, m); }
  }

  lemma {:induction false} FoldSame(ar: Arith, e: Exp)
    requires e.StrLit? || e.NumLit? || e.UndefLit? || e.NullLit? || e.TrueLit? || e.FalseLit? || e.This?
      || e.RegexpLit? || e.FunLit? || e.Ident?
    ensures FoldNode(ar, e) == e
  {
  }

  lemma {:induction false} ListsKeep(ar: Arith, c: Ctx, e: Exp, scope: Scope, m: Mem)
    requires Agrees(ar, c.lib) && (e.ObjLit? || e.ArrLit? || e.New?)
    ensures EvalNode(c, FoldNode(ar, e), scope, m) == EvalNode(c, e, scope, m)
    decreases e, 3
  {
    hide Eval, Fold, Agrees, EvalArgs, FoldArgs, EvalItems, FoldItems, EvalProps, FoldProps;
    match e
    case ObjLit(props) =>
      var r := Apply(c, NewObject, Bottom, scope, m);
      if r.Val? { PropsKeep(ar, c, props, r.v, scope, r.m); }
    case ArrLit(items) =>
      var r := Apply(c, NewArray, Bottom, scope, m);
      if r.Val? { ItemsKeep(ar, c, items, 0, r.v, scope, r.m); }
    case New(f, args) =>
      FoldKeeps(ar, c, f, scope, m);
      var r := Eval(c, f, scope, m);
      if r.Val? { ArgsKeep(ar, c, args, On(r.v, Bottom), scope, r.m); }
  }

  lemma {:induction false} PlacesKeep(ar: Arith, c: Ctx, e: Exp, scope: Scope, m: Mem)
    requires Agrees(ar, c.lib) && (e.Index? || e.Member? || e.Call? || e.Delete? || e.Crement?)
    ensures EvalNode(c, FoldNode(ar, e), scope, m) == EvalNode(c, e, scope, m)
    decreases e, 3
  {
    hide Eval, Fold, Agrees, EvalArgs, FoldArgs, EvalRef;
    EvalDef(c, e, scope, m);
    EvalDef(c, Fold(ar, e), scope, m);
    FoldDef(ar, e);
    match e
    case Index(_, _) | Member(_, _) => RefKeeps(ar, c, e, scope, m);
    case Call(_, _) => CallKeeps(ar, c, e, scope, m);
    case Delete(a) => RefKeeps(ar, c, a, scope, m);
    case Crement(_, _, a) => RefKeeps(ar, c, a, scope, m);
  }

  lemma {:induction false} OperandKeeps(ar: Arith, c: Ctx, e: Exp, scope: Scope, m: Mem)
    requires Agrees(ar, c.lib) && (e.Typeof? || e.Void?)
    ensures EvalNode(c, FoldNode(ar, e), scope, m) == EvalNode(c, e, scope, m)
    decreases e, 3
  {
    hide Eval, Fold, Agrees;
    FoldIdent(ar, e.a);
    if e.Void? || !e.a.Ident? { FoldKeeps(ar, c, e.a, scope, m); }
  }

  lemma {:induction false} StoreKeeps(ar: Arith, c: Ctx, e: Exp, scope: Scope, m: Mem)
    requires Agrees(ar, c.lib) && (e.Assign? || e.AssignOp?)
    ensures EvalNode(c, FoldNode(ar, e), scope, m) == EvalNode(c, e, scope, m)
    decreases e, 3
  {
    hide Eval, Fold, Agrees, EvalRef, Get, Put;
    RefKeeps(ar, c, e.a, scope, m);
    if e.Assign? {
      var r := EvalRef(c, e.a, scope, m);
      if r.Val? { FoldKeeps(ar, c, e.b, scope, r.m); }
    } else {
      var r := EvalGet(c, e.a, scope, m);
      if r.Val? { FoldKeeps(ar, c, e.b, scope, r.m); }
    }
  }

  /** Folding neither makes nor unmakes an identifier or a place that can be assigned to. */
  lemma {:induction false} FoldIdent(ar: Arith, e: Exp)
    ensures e.Ident? ==> Fold(ar, e) == e
    ensures Fold(ar, e).Ident? <==> e.Ident?
    ensures Fold(ar, e).Index? <==> e.Index?
    ensures Fold(ar, e).Member? <==> e.Member?
  {
    hide Fold;
    FoldDef(ar, e);
  }

  lemma {:induction false} BranchKeeps(ar: Arith, c: Ctx, e: Exp, scope: Scope, m: Mem)
    requires Agrees(ar, c.lib) && (e.Comma? || e.LogOr? || e.LogAnd? || e.Cond?)
    ensures Eval(c, Fold(ar, e), scope, m) == Eval(c, e, scope, m)
    decreases e, 2
  {
    hide Eval, Fold, Agrees;
    EvalDef(c, e, scope, m);
    EvalDef(c, Fold(ar, e), scope, m);
    FoldDef(ar, e);
    FoldKeeps(ar, c, e.a, scope, m);
    var r := Eval(c, e.a, scope, m);
    if r.Val? {
      FoldKeeps(ar, c, e.b, scope, r.m);
      if e.Cond? { FoldKeeps(ar, c, e.c, scope, r.m); }
    }
  }

  lemma {:induction false} UnaryKeeps(ar: Arith, c: Ctx, u: UnOp, a: Exp, scope: Scope, m: Mem)
    requires Agrees(ar, c.lib)
    ensures Eval(c, UnaryOf(ar, u, Fold(ar, a)), scope, m) == Eval(c, Unary(u, a), scope, m)
    decreases a, 5
  {
    hide Eval, Fold, FoldUnary;
    var g := UnaryOf(ar, u, Fold(ar, a));
    EvalDef(c, Unary(u, a), scope, m);
    EvalDef(c, g, scope, m);
    FoldKeeps(ar, c, a, scope, m);
    EvalDef(c, Fold(ar, a), scope, m);
  }

  lemma {:induction false} BinaryKeeps(ar: Arith, c: Ctx, e: Exp, scope: Scope, m: Mem)
    requires Agrees(ar, c.lib) && e.Binary?
    ensures Eval(c, BinaryOf(ar, e.op, Fold(ar, e.a), Fold(ar, e.b)), scope, m) == Eval(c, e, scope, m)
    decreases e, 2
  {
    hide Eval, Fold, FoldBinary, Agrees;
    var a, b := Fold(ar, e.a), Fold(ar, e.b);
    var g := BinaryOf(ar, e.op, a, b);
    EvalDef(c, e, scope, m);
    EvalDef(c, g, scope, m);
    PairKeeps(ar, c, e, Binary(e.op, a, b), scope, m);
    if g.NumLit? {
      EvalDef(c, a, scope, m);
      EvalDef(c, b, scope, m);
      AgreesBinary(ar, c, e.op, a.n, b.n, scope, m);
    }
  }

  lemma {:induction false} AgreesBinary(ar: Arith, c: Ctx, op: BinOp, x: Number, y: Number, scope: Scope, m: Mem)
    requires Agrees(ar, c.lib) && FoldBinary(ar, op, x, y).Some?
    ensures Apply(c, Binop(op), On(Num(y), On(Num(x), Bottom)), scope, m) == Val(Num(FoldBinary(ar, op, x, y).value), m)
  {
    hide FoldBinary;
  }

  lemma {:induction false} PairKeeps(ar: Arith, c: Ctx, e: Exp, g: Exp, scope: Scope, m: Mem)
    requires Agrees(ar, c.lib) && (e.Index? || e.Binary?) && (g.Index? || g.Binary?) && g.a == Fold(ar, e.a)
      && g.b == Fold(ar, e.b)
    ensures EvalPair(c, g, scope, m) == EvalPair(c, e, scope, m)
    decreases e, 0
  {
    hide Eval, Fold, Agrees;
    FoldKeeps(ar, c, e.a, scope, m);
    var r := Eval(c, e.a, scope, m);
    if r.Val? { FoldKeeps(ar, c, e.b, scope, r.m); }
  }

  lemma {:induction false} RefKeeps(ar: Arith, c: Ctx, e: Exp, scope: Scope, m: Mem)
    requires Agrees(ar, c.lib)
    ensures EvalRef(c, Fold(ar, e), scope, m) == EvalRef(c, e, scope, m)
    ensures EvalGet(c, Fold(ar, e), scope, m) == EvalGet(c, e, scope, m)
    decreases e, 1
  {
    hide Eval, Fold, Agrees;
    FoldDef(ar, e);
    FoldIdent(ar, e);
    match e
    case Index(_, _) => PairKeeps(ar, c, e, Fold(ar, e), scope, m);
    case Member(a, _) => FoldKeeps(ar, c, a, scope, m);
    case _ =>
  }

  lemma {:induction false} ArgsKeep(ar: Arith, c: Ctx, args: Exps, vs: Ops, scope: Scope, m: Mem)
    requires Agrees(ar, c.lib)
    ensures EvalArgs(c, FoldArgs(ar, args), vs, scope, m) == EvalArgs(c, args, vs, scope, m)
    decreases args
  {
    hide Eval, Fold, Agrees;
    if args.Exps? {
      FoldKeeps(ar, c, args.head, scope, m);
      var r := Eval(c, args.head, scope, m);
      if r.Val? { ArgsKeep(ar, c, args.tail, On(r.v, vs), scope, r.m); }
    }
  }

  lemma {:induction false} CallKeeps(ar: Arith, c: Ctx, e: Exp, scope: Scope, m: Mem)
    requires Agrees(ar, c.lib) && e.Call?
    ensures Eval(c, Fold(ar, e), scope, m) == Eval(c, e, scope, m)
    decreases e, 2
  {
    hide Eval, Fold, Agrees, EvalArgs, FoldArgs;
    EvalDef(c, e, scope, m);
    EvalDef(c, Fold(ar, e), scope, m);
    FoldDef(ar, e);
    FoldIdent(ar, e.f);
    if e.f == Ident("eval") {
      ArgsKeep(ar, c, e.args, Bottom, scope, m);
    } else {
      CalleeKeeps(ar, c, e.f, scope, m);
      var r := EvalCallee(c, e.f, scope, m);
      if r.Val? { ArgsKeep(ar, c, e.args, r.v, scope, r.m); }
    }
  }

  lemma {:induction false} CalleeKeeps(ar: Arith, c: Ctx, e: Exp, scope: Scope, m: Mem)
    requires Agrees(ar, c.lib)
    ensures EvalCallee(c, Fold(ar, e), scope, m) == EvalCallee(c, e, scope, m)
    decreases e, 5
  {
    hide Eval, Fold, Agrees, EvalRef;
    FoldIdent(ar, e);
    if e.Index? || e.Member? { RefKeeps(ar, c, e, scope, m); } else { FoldKeeps(ar, c, e, scope, m); }
  }

  lemma {:induction false} ItemsKeep(ar: Arith, c: Ctx, items: Items, k: nat, o: Value, scope: Scope, m: Mem)
    requires Agrees(ar, c.lib)
    ensures EvalItems(c, FoldItems(ar, items), k, o, scope, m) == EvalItems(c, items, k, o, scope, m)
    decreases items
  {
    hide Eval, Fold, Agrees;
    match items
    case NoItems =>
    case Hole(rest) => ItemsKeep(ar, c, rest, k + 1, o, scope, m);
    case Item(e, rest) =>
      FoldKeeps(ar, c, e, scope, m);
      var r := Eval(c, e, scope, m);
      if r.Val? {
        var r1 := Apply(c, InitVal, On(r.v, On(Num(Whole(k)), On(o, Bottom))), scope, r.m);
        if r1.Val? { ItemsKeep(ar, c, rest, k + 1, o, scope, r1.m); }
      }
  }

  lemma {:induction false} PropsKeep(ar: Arith, c: Ctx, props: Props, o: Value, scope: Scope, m: Mem)
    requires Agrees(ar, c.lib)
    ensures EvalProps(c, FoldProps(ar, props), o, scope, m) == EvalProps(c, props, o, scope, m)
    decreases props
  {
    hide Eval, Fold, Agrees;
    if props.Prop? {
      if props.kind.PropVal? { FoldKeeps(ar, c, props.kind.e, scope, m); }
      var r := EvalKind(c, props.kind, scope, m);
      if r.Val? {
        var r1 := Apply(c, InitPrim(props.kind), On(r.v, On(KeyValue(props.key), On(o, Bottom))), scope, r.m);
        if r1.Val? { PropsKeep(ar, c, props.rest, o, scope, r1.m); }
      }
    }
  }

  // ----- statements -----

  function FoldOpt(ar: Arith, e: Option<Exp>): Option<Exp> {
    if e.Some? then Some(Fold(ar, e.value)) else None
  }

  function FoldVars(ar: Arith, vars: Vars): Vars {
    if vars.NoVars? then vars else Var(vars.x, FoldOpt(ar, vars.init), FoldVars(ar, vars.rest))
  }

  function FoldInit(ar: Arith, init: Init): Init {
    match init
    case NoInit => NoInit
    case VarInit(vars) => VarInit(FoldVars(ar, vars))
    case ExpInit(e) => ExpInit(Fold(ar, e))
  }

  function FoldS(ar: Arith, s: Stm): Stm
    decreases s, 1
  {
    FoldStm(ar, s)
  }

  lemma {:induction false} FoldSDef(ar: Arith, s: Stm)
    ensures FoldS(ar, s) == FoldStm(ar, s)
  {
  }

  function FoldStm(ar: Arith, s: Stm): Stm
    decreases s, 0
  {
    match s
    case Block(body) => Block(FoldList(ar, body))
    case VarStm(vars) => VarStm(FoldVars(ar, vars))
    case If(e, a) => If(Fold(ar, e), FoldS(ar, a))
    case IfElse(e, a, b) => IfElse(Fold(ar, e), FoldS(ar, a), FoldS(ar, b))
    case Do(b, e) => Do(FoldS(ar, b), Fold(ar, e))
    case While(e, b) => While(Fold(ar, e), FoldS(ar, b))
    case For(init, e, step, b) => For(FoldInit(ar, init), FoldOpt(ar, e), FoldOpt(ar, step), FoldS(ar, b))
    case ForIn(lhs, e, b) => ForIn(Fold(ar, lhs), Fold(ar, e), FoldS(ar, b))
    case Switch(e, cases) => Switch(Fold(ar, e), FoldCases(ar, cases))
    case Label(x, b) => Label(x, FoldS(ar, b))
    case Return(e) => Return(FoldOpt(ar, e))
    case Throw(e) => Throw(Fold(ar, e))
    case With(e, b) => With(Fold(ar, e), FoldS(ar, b))
    case Try(b, x, h) => Try(FoldS(ar, b), x, FoldS(ar, h))
    case ExpStm(e) => ExpStm(Fold(ar, e))
    case _ => s
  }

  function FoldList(ar: Arith, ss: Stms): Stms
    decreases ss
  {
    if ss.NoStms? then ss else Stms(FoldS(ar, ss.head), FoldList(ar, ss.tail))
  }

  function FoldCases(ar: Arith, cases: Cases): Cases
    decreases cases
  {
    match cases
    case NoCases => NoCases
    case Default(body, rest) => Default(FoldList(ar, body), FoldCases(ar, rest))
    case Case(e, body, rest) => Case(Fold(ar, e), FoldList(ar, body), FoldCases(ar, rest))
  }

  lemma {:induction false} OptKeeps(ar: Arith, c: Ctx, e: Option<Exp>, absent: Value, scope: Scope, m: Mem)
    requires Agrees(ar, c.lib)
    ensures EvalOpt(c, FoldOpt(ar, e), absent, scope, m) == EvalOpt(c, e, absent, scope, m)
  {
    hide Eval, Fold, Agrees;
    if e.Some? { FoldKeeps(ar, c, e.value, scope, m); }
  }

  lemma {:induction false} VarsKeep(ar: Arith, c: Ctx, vars: Vars, scope: Scope, m: Mem)
    requires Agrees(ar, c.lib)
    ensures EvalVars(c, FoldVars(ar, vars), scope, m) == EvalVars(c, vars, scope, m)
    decreases vars
  {
    hide Eval, Fold, Agrees;
    if vars.Var? {
      if vars.init.Some? {
        FoldKeeps(ar, c, vars.init.value, scope, m);
        var r := Eval(c, vars.init.value, scope, m);
        if r.Val? {
          var r1 := Put(c, VarRef(vars.x), r.v, scope, r.m);
          if r1.Val? { VarsKeep(ar, c, vars.rest, scope, r1.m); }
        }
      } else {
        VarsKeep(ar, c, vars.rest, scope, m);
      }
    }
  }

  lemma {:induction false} InitKeeps(ar: Arith, c: Ctx, init: Init, scope: Scope, m: Mem)
    requires Agrees(ar, c.lib)
    ensures EvalInit(c, FoldInit(ar, init), scope, m) == EvalInit(c, init, scope, m)
  {
    hide Eval, Fold, Agrees, EvalVars, FoldVars;
    match init
    case NoInit =>
    case VarInit(vars) => VarsKeep(ar, c, vars, scope, m);
    case ExpInit(e) => FoldKeeps(ar, c, e, scope, m);
  }

  /** The folded statement completes as the original does, in the same memory. */
  lemma {:induction false} ExecKeeps(ar: Arith, c: Ctx, s: Stm, labels: set<Name>, scope: Scope, m: Mem, fuel: nat)
    requires Agrees(ar, c.lib)
    ensures Exec(c, FoldS(ar, s), labels, scope, m, fuel) == Exec(c, s, labels, scope, m, fuel)
    decreases fuel, s, 3
  {
    hide Eval, Fold, Agrees, Exec, FoldS, ExecList, FoldList, EvalVars, FoldVars, EvalInit, FoldInit;
    hide ExecLoop, ExecDo, ExecForIn, EvalOpt, FoldOpt;
    ExecDef(c, s, labels, scope, m, fuel);
    ExecDef(c, FoldS(ar, s), labels, scope, m, fuel);
    FoldSDef(ar, s);
    match s
    case Block(body) => ListKeeps(ar, c, body, scope, m, fuel);
    case VarStm(vars) => VarsKeep(ar, c, vars, scope, m);
    case If(_, _) => IfKeeps(ar, c, s, labels, scope, m, fuel);
    case IfElse(_, _, _) => IfKeeps(ar, c, s, labels, scope, m, fuel);
    case Do(_, _) => DoKeeps(ar, c, s, labels, scope, m, fuel);
    case While(e, b) =>
      SomeOpt(ar, e);
      LoopKeeps(ar, c, Some(e), None, b, labels, scope, m, fuel);
    case For(init, e, step, b) =>
      InitKeeps(ar, c, init, scope, m);
      var r := EvalInit(c, init, scope, m);
      if r.Val? { LoopKeeps(ar, c, e, step, b, labels, scope, r.m, fuel); }
    case ForIn(_, e, _) =>
      FoldKeeps(ar, c, e, scope, m);
      var r := Eval(c, e, scope, m);
      if r.Val? {
        var r1 := Apply(c, Iterator, On(r.v, Bottom), scope, r.m);
        if r1.Val? { ForInKeeps(ar, c, s, r1.v, labels, scope, r1.m, fuel); }
      }
    case Switch(_, _) => SwitchKeeps(ar, c, s, labels, scope, m, fuel);
    case Label(x, b) => ExecKeeps(ar, c, b, labels + {x}, scope, m, fuel);
    case Return(e) => OptKeeps(ar, c, e, Undefined, scope, m);
    case Throw(e) => FoldKeeps(ar, c, e, scope, m);
    case With(e, b) =>
      FoldKeeps(ar, c, e, scope, m);
      var r := Eval(c, e, scope, m);
      if r.Val? {
        var r1 := Apply(c, WithScope, On(r.v, Bottom), scope, r.m);
        if r1.Val? { ExecKeeps(ar, c, b, {}, Inner(r1.v, scope), r1.m, fuel); }
      }
    case Try(_, _, _) => TryKeeps(ar, c, s, labels, scope, m, fuel);
    case ExpStm(e) => FoldKeeps(ar, c, e, scope, m);
    case _ =>
  }

  lemma {:induction false} SomeOpt(ar: Arith, e: Exp)
    ensures FoldOpt(ar, Some(e)) == Some(Fold(ar, e)) && FoldOpt(ar, None) == None
  {
  }

  lemma {:induction false} IfKeeps(ar: Arith, c: Ctx, s: Stm, labels: set<Name>, scope: Scope, m: Mem, fuel: nat)
    requires Agrees(ar, c.lib) && (s.If? || s.IfElse?)
    ensures Exec(c, FoldS(ar, s), labels, scope, m, fuel) == Exec(c, s, labels, scope, m, fuel)
    decreases fuel, s, 2
  {
    hide Eval, Fold, Agrees, Exec, FoldS;
    ExecDef(c, s, labels, scope, m, fuel);
    ExecDef(c, FoldS(ar, s), labels, scope, m, fuel);
    FoldSDef(ar, s);
    FoldKeeps(ar, c, s.c, scope, m);
    var r := Eval(c, s.c, scope, m);
    if r.Val? {
      if Truth(r.v) { ExecKeeps(ar, c, s.a, {}, scope, r.m, fuel); }
      else if s.IfElse? { ExecKeeps(ar, c, s.b, {}, scope, r.m, fuel); }
    }
  }

  lemma {:induction false} TryKeeps(ar: Arith, c: Ctx, s: Stm, labels: set<Name>, scope: Scope, m: Mem, fuel: nat)
    requires Agrees(ar, c.lib) && s.Try?
    ensures Exec(c, FoldS(ar, s), labels, scope, m, fuel) == Exec(c, s, labels, scope, m, fuel)
    decreases fuel, s, 2
  {
    hide Eval, Fold, Agrees, Exec, FoldS;
    ExecDef(c, s, labels, scope, m, fuel);
    ExecDef(c, FoldS(ar, s), labels, scope, m, fuel);
    FoldSDef(ar, s);
    ExecKeeps(ar, c, s.s, {}, scope, m, fuel);
    var r := Exec(c, s.s, {}, scope, m, fuel);
    if r.Threw? {
      var r1 := Apply(c, CatchScope(s.x), On(r.v, Bottom), scope, r.m);
      if r1.Val? { ExecKeeps(ar, c, s.handler, {}, Inner(r1.v, scope), r1.m, fuel); }
    }
  }

  lemma {:induction false} ListKeeps(ar: Arith, c: Ctx, ss: Stms, scope: Scope, m: Mem, fuel: nat)
    requires Agrees(ar, c.lib)
    ensures ExecList(c, FoldList(ar, ss), scope, m, fuel) == ExecList(c, ss, scope, m, fuel)
    decreases fuel, ss, 0
  {
    hide Agrees, Exec, FoldS;
    if ss.Stms? {
      ExecKeeps(ar, c, ss.head, {}, scope, m, fuel);
      var r := Exec(c, ss.head, {}, scope, m, fuel);
      if r.Normal? { ListKeeps(ar, c, ss.tail, scope, r.m, fuel); }
    }
  }

  lemma {:induction false} LoopKeeps(ar: Arith, c: Ctx, e: Option<Exp>, step: Option<Exp>, b: Stm, labels: set<Name>,
    scope: Scope, m: Mem, fuel: nat)
    requires Agrees(ar, c.lib)
    ensures ExecLoop(c, FoldOpt(ar, e), FoldOpt(ar, step), FoldS(ar, b), labels, scope, m, fuel)
      == ExecLoop(c, e, step, b, labels, scope, m, fuel)
    decreases fuel, b, 5
  {
    hide Agrees, Exec, FoldS, EvalOpt, FoldOpt, ExecStep, GoesOn, Leaves;
    OptKeeps(ar, c, e, Boolean(true), scope, m);
    var r := EvalOpt(c, e, Boolean(true), scope, m);
    if r.Val? && Truth(r.v) {
      ExecKeeps(ar, c, b, {}, scope, r.m, fuel);
      var r1 := Exec(c, b, {}, scope, r.m, fuel);
      if r1.Normal? || (r1.Continued? && GoesOn(r1.l, labels)) {
        StepKeeps(ar, c, e, step, b, labels, scope, r1.m, fuel);
      }
    }
  }

  lemma {:induction false} StepKeeps(ar: Arith, c: Ctx, e: Option<Exp>, step: Option<Exp>, b: Stm, labels: set<Name>,
    scope: Scope, m: Mem, fuel: nat)
    requires Agrees(ar, c.lib)
    ensures ExecStep(c, FoldOpt(ar, e), FoldOpt(ar, step), FoldS(ar, b), labels, scope, m, fuel)
      == ExecStep(c, e, step, b, labels, scope, m, fuel)
    decreases fuel, b, 4
  {
    hide Agrees, Exec, FoldS, EvalOpt, FoldOpt, ExecLoop;
    OptKeeps(ar, c, step, Undefined, scope, m);
    var r := EvalOpt(c, step, Undefined, scope, m);
    if r.Val? && fuel > 0 { LoopKeeps(ar, c, e, step, b, labels, scope, r.m, fuel - 1); }
  }

  lemma {:induction false} DoKeeps(ar: Arith, c: Ctx, s: Stm, labels: set<Name>, scope: Scope, m: Mem, fuel: nat)
    requires Agrees(ar, c.lib) && s.Do?
    ensures FoldS(ar, s).Do? && ExecDo(c, FoldS(ar, s), labels, scope, m, fuel) == ExecDo(c, s, labels, scope, m, fuel)
    decreases fuel, s, 2
  {
    hide Agrees, Exec, FoldS, Eval, Fold;
    FoldSDef(ar, s);
    ExecKeeps(ar, c, s.s, {}, scope, m, fuel);
    var r := Exec(c, s.s, {}, scope, m, fuel);
    if r.Normal? || (r.Continued? && GoesOn(r.l, labels)) {
      FoldKeeps(ar, c, s.c, scope, r.m);
      var r1 := Eval(c, s.c, scope, r.m);
      if r1.Val? && Truth(r1.v) && fuel > 0 { DoKeeps(ar, c, s, labels, scope, r1.m, fuel - 1); }
      assert ExecDoTest(c, FoldS(ar, s), labels, scope, r.m, fuel) == ExecDoTest(c, s, labels, scope, r.m, fuel);
    }
  }

  lemma {:induction false} ForInKeeps(ar: Arith, c: Ctx, s: Stm, it: Value, labels: set<Name>, scope: Scope, m: Mem,
    fuel: nat)
    requires Agrees(ar, c.lib) && s.ForIn?
    ensures FoldS(ar, s).ForIn?
      && ExecForIn(c, FoldS(ar, s), it, labels, scope, m, fuel) == ExecForIn(c, s, it, labels, scope, m, fuel)
    decreases fuel, s, 2
  {
    hide Agrees, Exec, FoldS, EvalRef, Fold, Put;
    FoldSDef(ar, s);
    var q := c.lib.next(it, m.w);
    if q.Ok? && q.val.Some? {
      var m0 := m.(w := q.w);
      RefKeeps(ar, c, s.lhs, scope, m0);
      var r := EvalRef(c, s.lhs, scope, m0);
      if r.Val? {
        var r1 := Put(c, r.v, Str(q.val.value), scope, r.m);
        if r1.Val? {
          ExecKeeps(ar, c, s.s, {}, scope, r1.m, fuel);
          var r2 := Exec(c, s.s, {}, scope, r1.m, fuel);
          if (r2.Normal? || r2.Continued?) && fuel > 0 { ForInKeeps(ar, c, s, it, labels, scope, r2.m, fuel - 1); }
        }
      }
    }
  }

  lemma {:induction false} SwitchKeeps(ar: Arith, c: Ctx, s: Stm, labels: set<Name>, scope: Scope, m: Mem, fuel: nat)
    requires Agrees(ar, c.lib) && s.Switch?
    ensures Exec(c, FoldS(ar, s), labels, scope, m, fuel) == Exec(c, s, labels, scope, m, fuel)
    decreases fuel, s, 2
  {
    hide Agrees, Exec, FoldS, Eval, Fold, Select, FoldCases, ExecCases, DefaultOf;
    ExecDef(c, s, labels, scope, m, fuel);
    ExecDef(c, FoldS(ar, s), labels, scope, m, fuel);
    FoldSDef(ar, s);
    FoldKeeps(ar, c, s.e, scope, m);
    var r := Eval(c, s.e, scope, m);
    if r.Val? {
      SelectKeeps(ar, c, s.cases, r.v, scope, r.m);
      var r1 := Select(c, s.cases, r.v, scope, r.m);
      if r1.Val? {
        Selected(c, s.cases, r.v, scope, r.m);
        DefaultKeeps(ar, s.cases);
        NoCasesKept(ar, r1.v);
        CasesKeep(ar, c, if r1.v.NoCases? then DefaultOf(s.cases) else r1.v, scope, r1.m, fuel);
      }
    }
  }

  lemma {:induction false} NoCasesKept(ar: Arith, cases: Cases)
    ensures FoldCases(ar, cases).NoCases? <==> cases.NoCases?
  {
  }

  lemma {:induction false} DefaultKeeps(ar: Arith, cases: Cases)
    ensures DefaultOf(FoldCases(ar, cases)) == FoldCases(ar, DefaultOf(cases))
    decreases cases
  {
    hide FoldList, Fold;
    if cases.Case? { DefaultKeeps(ar, cases.rest); }
  }

  lemma {:induction false} SelectKeeps(ar: Arith, c: Ctx, cases: Cases, v: Value, scope: Scope, m: Mem)
    requires Agrees(ar, c.lib)
    ensures var r := Select(c, cases, v, scope, m);
      Select(c, FoldCases(ar, cases), v, scope, m) == if r.Val? then Val(FoldCases(ar, r.v), r.m) else r
    decreases cases
  {
    hide Agrees, Eval, Fold, FoldList;
    match cases
    case NoCases =>
    case Default(_, rest) => SelectKeeps(ar, c, rest, v, scope, m);
    case Case(e, _, rest) =>
      FoldKeeps(ar, c, e, scope, m);
      var r := Eval(c, e, scope, m);
      if r.Val? { SelectKeeps(ar, c, rest, v, scope, r.m); }
  }

  lemma {:induction false} CasesKeep(ar: Arith, c: Ctx, cases: Cases, scope: Scope, m: Mem, fuel: nat)
    requires Agrees(ar, c.lib)
    ensures ExecCases(c, FoldCases(ar, cases), scope, m, fuel) == ExecCases(c, cases, scope, m, fuel)
    decreases fuel, cases, 1
  {
    hide Agrees, ExecList, FoldList, Fold;
    if !cases.NoCases? {
      ListKeeps(ar, c, cases.body, scope, m, fuel);
      var r := ExecList(c, cases.body, scope, m, fuel);
      if r.Normal? { CasesKeep(ar, c, cases.rest, scope, r.m, fuel); }
    }
  }
}
