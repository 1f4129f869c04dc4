/** Big-endian bit strings: fixed-width numbers, and regrouping one width into another. */
module Bits {

  type Bit = b: int | 0 <= b < 2

  function Pow2(n: nat): (p: nat)
    ensures p > 0
  {
    if n == 0 then 1 else 2 * Pow2(n - 1)
  }

  /** The value of a bit string, most significant bit first. */
  function Val(bits: seq<Bit>): nat {
    if bits == [] then 0 else 2 * Val(bits[..|bits| - 1]) + bits[|bits| - 1]
  }

  /** The low `n` bits of `v`, most significant first. */
  function BitsOf(v: nat, n: nat): (bits: seq<Bit>)
    ensures |bits| == n
  {
    if n == 0 then [] else BitsOf(v / 2, n - 1) + [v % 2]
  }

  lemma {:induction false} ValOfBits(v: nat, n: nat)
    requires v < Pow2(n)
    ensures Val(BitsOf(v, n)) == v
  {
    if n == 0 {
    } else {
      ValOfBits(v / 2, n - 1);
      assert BitsOf(v, n)[..n - 1] == BitsOf(v / 2, n - 1);
    }
  }

  lemma {:induction false} BitsOfVal(bits: seq<Bit>)
    ensures Val(bits) < Pow2(|bits|)
    ensures BitsOf(Val(bits), |bits|) == bits
  {
    if bits == [] {
    } else {
      var front, last := bits[..|bits| - 1], bits[|bits| - 1];
      BitsOfVal(front);
      assert Val(bits) / 2 == Val(front) && Val(bits) % 2 == last;
      assert bits == front + [last];
    }
  }

  /** `v >> k`. */
  function Shr(v: nat, k: nat): nat {
    if k == 0 then v else Shr(v / 2, k - 1)
  }

  lemma MultipleOf(p: int, d: int)
    requires p > 0
    ensures d > 0 ==> p * d >= p
    ensures d < 0 ==> p * d <= -p
  {
  }

  lemma DivModUnique(v: int, p: int, q: int, r: int)
    requires p > 0 && v == p * q + r && 0 <= r < p
    ensures v / p == q && v % p == r
  {
    var d := v / p - q;
    assert p * d == r - v % p by {
      assert p * (v / p) + v % p == v;
    }
    MultipleOf(p, d);
  }

  lemma HalfDivMod(v: nat, p: nat)
    requires p > 0
    ensures v / (2 * p) == v / 2 / p && v % (2 * p) == 2 * (v / 2 % p) + v % 2
  {
    var half := v / 2;
    assert half == p * (half / p) + half % p;
    assert v == 2 * half + v % 2;
    assert 2 * (p * (half / p)) == 2 * p * (half / p);
    DivModUnique(v, 2 * p, half / p, 2 * (half % p) + v % 2);
  }

  lemma {:induction false} ShrIsDiv(v: nat, k: nat)
    ensures Shr(v, k) == v / Pow2(k)
  {
    if k == 0 {
    } else {
      ShrIsDiv(v / 2, k - 1);
      HalfDivMod(v, Pow2(k - 1));
    }
  }

  /** `(v >> k) & 1`. */
  function ShiftBit(v: nat, k: nat): Bit {
    Shr(v, k) % 2
  }

  /** Bit `j` of an `n`-bit number is its right shift by `n - 1 - j`, masked. */
  lemma {:induction false} BitIsShift(v: nat, n: nat, j: nat)
    requires j < n
    ensures BitsOf(v, n)[j] == ShiftBit(v, n - 1 - j)
  {
    if j == n - 1 {
    } else {
      BitIsShift(v / 2, n - 1, j);
    }
  }

  /** `x | (bit << k)`, for one bit. */
  function OrBit(x: nat, k: nat, bit: Bit): nat {
    if bit == 1 && ShiftBit(x, k) == 0 then x + Pow2(k) else x
  }

  lemma {:induction false} AddBit(x: nat, n: nat, j: nat)
    requires j < n && BitsOf(x, n)[j] == 0
    ensures BitsOf(x + Pow2(n - 1 - j), n) == BitsOf(x, n)[j := 1]
  {
    if j < n - 1 {
      AddBit(x / 2, n - 1, j);
      assert (x + Pow2(n - 1 - j)) / 2 == x / 2 + Pow2(n - 2 - j);
      assert (x + Pow2(n - 1 - j)) % 2 == x % 2;
    } else {
      assert (x + 1) / 2 == x / 2 && (x + 1) % 2 == 1;
    }
  }

  lemma HalfFits(x: nat, half: nat, p: nat)
    requires half == x / 2 && x < 2 * p
    ensures half < p
  {
  }

  lemma DoubleFits(x: nat, half: nat, q: nat, p: nat)
    requires half == x / 2 && half + q < p
    ensures x + 2 * q < 2 * p
  {
  }

  lemma EvenFits(x: nat, p: nat)
    requires x % 2 == 0 && x < 2 * p
    ensures x + 1 < 2 * p
  {
  }

  /** Setting a clear bit of an `n`-bit number does not overflow it. */
  lemma {:induction false} AddBitFits(x: nat, n: nat, j: nat)
    requires j < n && BitsOf(x, n)[j] == 0 && x < Pow2(n)
    ensures x + Pow2(n - 1 - j) < Pow2(n)
  {
    var half, p := x / 2, Pow2(n - 1);
    if j == n - 1 {
      EvenFits(x, p);
    } else {
      HalfFits(x, half, p);
      AddBitFits(half, n - 1, j);
      DoubleFits(x, half, Pow2(n - 2 - j), p);
    }
  }

  /** Or-ing in one bit sets exactly that bit. */
  lemma OrBitSets(x: nat, n: nat, j: nat, bit: Bit)
    requires j < n
    ensures BitsOf(OrBit(x, n - 1 - j, bit), n) == BitsOf(x, n)[j := if bit == 1 then 1 else BitsOf(x, n)[j]]
    ensures x < Pow2(n) ==> OrBit(x, n - 1 - j, bit) < Pow2(n)
  {
    BitIsShift(x, n, j);
    if bit == 1 && BitsOf(x, n)[j] == 0 {
      AddBit(x, n, j);
      if x < Pow2(n) {
        AddBitFits(x, n, j);
      }
    } else {
      assert BitsOf(x, n)[j := BitsOf(x, n)[j]] == BitsOf(x, n);
    }
  }

  // ---------------------------------------------------------------------------------------------
  // Regrouping

  ghost predicate AllBelow(vals: seq<nat>, limit: nat) {
    forall i :: 0 <= i < |vals| ==> vals[i] < limit
  }

  /** The bits of all the numbers, `n` each, in a row. */
  function Unpack(vals: seq<nat>, n: nat): seq<Bit> {
    if vals == [] then [] else BitsOf(vals[0], n) + Unpack(vals[1..], n)
  }

  /** The bits in groups of `n`, each as a number; an incomplete last group is dropped. */
  function Pack(bits: seq<Bit>, n: nat): seq<nat>
    requires n > 0
    decreases |bits|
  {
    if |bits| < n then [] else [Val(bits[..n])] + Pack(bits[n..], n)
  }

  lemma {:induction false} UnpackLength(vals: seq<nat>, n: nat)
    ensures |Unpack(vals, n)| == n * |vals|
  {
    if vals == [] {
    } else {
      UnpackLength(vals[1..], n);
      assert n * |vals| == n * |vals[1..]| + n;
    }
  }

  lemma PackFirst(group: seq<Bit>, rest: seq<Bit>, n: nat)
    requires n > 0 && |group| == n
    ensures Pack(group + rest, n) == [Val(group)] + Pack(rest, n)
  {
    assert (group + rest)[..n] == group && (group + rest)[n..] == rest;
  }

  lemma {:induction false} PackUnpack(vals: seq<nat>, n: nat)
    requires n > 0 && AllBelow(vals, Pow2(n))
    ensures Pack(Unpack(vals, n), n) == vals
  {
    if vals == [] {
    } else {
      PackUnpack(vals[1..], n);
      ValOfBits(vals[0], n);
      PackFirst(BitsOf(vals[0], n), Unpack(vals[1..], n), n);
      assert vals == [vals[0]] + vals[1..];
    }
  }

  lemma OneMoreTime(n: nat, k: nat)
    ensures n * (k + 1) == n * k + n
  {
  }

  /** Whole groups survive packing. */
  lemma {:induction false} UnpackPack(bits: seq<Bit>, n: nat, count: nat)
    requires n > 0 && |bits| == n * count
    ensures Unpack(Pack(bits, n), n) == bits
    ensures |Pack(bits, n)| == count && AllBelow(Pack(bits, n), Pow2(n))
    decreases count
  {
    if count == 0 {
    } else {
      OneMoreTime(n, count - 1);
      UnpackPack(bits[n..], n, count - 1);
      BitsOfVal(bits[..n]);
      var vals := Pack(bits, n);
      assert vals[1..] == Pack(bits[n..], n);
      assert bits == bits[..n] + bits[n..];
    }
  }

  lemma Associative<T>(a: seq<T>, b: seq<T>, c: seq<T>)
    ensures a + (b + c) == (a + b) + c
  {
  }

  lemma {:induction false} UnpackAppend(a: seq<nat>, b: seq<nat>, n: nat)
    ensures Unpack(a + b, n) == Unpack(a, n) + Unpack(b, n)
  {
    if a == [] {
      assert a + b == b;
    } else {
      UnpackAppend(a[1..], b, n);
      assert (a + b)[1..] == a[1..] + b;
      Associative(BitsOf(a[0], n), Unpack(a[1..], n), Unpack(b, n));
    }
  }

  lemma UnpackSnoc(vals: seq<nat>, v: nat, n: nat)
    ensures Unpack(vals + [v], n) == Unpack(vals, n) + BitsOf(v, n)
  {
    UnpackAppend(vals, [v], n);
    assert Unpack([v], n) == BitsOf(v, n) + [];
  }

  /** The bits of `vals` around those of `vals[i]`. */
  lemma UnpackAround(vals: seq<nat>, n: nat, i: nat)
    requires i < |vals|
    ensures Unpack(vals, n) == Unpack(vals[..i], n) + BitsOf(vals[i], n) + Unpack(vals[i + 1..], n)
  {
    UnpackAppend(vals[..i], vals[i..], n);
    assert vals == vals[..i] + vals[i..];
    assert vals[i..][1..] == vals[i + 1..];
  }

  lemma UpdateMiddle(a: seq<Bit>, b: seq<Bit>, c: seq<Bit>, j: nat, bit: Bit)
    requires j < |b|
    ensures (a + b + c)[|a| + j := bit] == a + b[j := bit] + c
  {
  }

  /** Changing one bit of one number changes that bit of the row. */
  lemma {:induction false} UnpackUpdate(vals: seq<nat>, n: nat, i: nat, j: nat, x: nat, bit: Bit)
    requires i < |vals| && j < n && BitsOf(x, n) == BitsOf(vals[i], n)[j := bit]
    ensures |Unpack(vals[..i], n)| + j < |Unpack(vals, n)|
    ensures Unpack(vals[i := x], n) == Unpack(vals, n)[|Unpack(vals[..i], n)| + j := bit]
  {
    var a, c := Unpack(vals[..i], n), Unpack(vals[i + 1..], n);
    UnpackAround(vals, n, i);
    UnpackAround(vals[i := x], n, i);
    assert vals[i := x][..i] == vals[..i] && vals[i := x][i + 1..] == vals[i + 1..];
    UpdateMiddle(a, BitsOf(vals[i], n), c, j, bit);
  }

  /** Bit `j` of number `k`, in the row and in the number. */
  lemma RowBit(vals: seq<nat>, n: nat, k: nat, j: nat)
    requires k < |vals| && j < n
    ensures |Unpack(vals[..k], n)| + j < |Unpack(vals, n)|
    ensures Unpack(vals, n)[|Unpack(vals[..k], n)| + j] == ShiftBit(vals[k], n - 1 - j)
    ensures Unpack(vals, n)[|Unpack(vals[..k], n)| + j] == BitsOf(vals[k], n)[j]
  {
    UnpackAround(vals, n, k);
    BitIsShift(vals[k], n, j);
  }

  /** Or-ing a bit into a number stores it in the row where the row has a zero. */
  lemma SetRowBit(vals: seq<nat>, n: nat, k: nat, j: nat, bit: Bit, at: nat)
    requires AllBelow(vals, Pow2(n)) && k < |vals| && j < n && at == |Unpack(vals[..k], n)| + j
    requires at < |Unpack(vals, n)| ==> Unpack(vals, n)[at] == 0
    ensures var vals' := vals[k := OrBit(vals[k], n - 1 - j, bit)];
            AllBelow(vals', Pow2(n)) && at < |Unpack(vals, n)| && Unpack(vals', n) == Unpack(vals, n)[at := bit]
  {
    RowBit(vals, n, k, j);
    OrBitSets(vals[k], n, j, bit);
    UnpackUpdate(vals, n, k, j, OrBit(vals[k], n - 1 - j, bit), bit);
  }

  /** Dropping groups after packing or before makes no difference. */
  lemma {:induction false} PackTake(bits: seq<Bit>, n: nat, k: nat)
    requires n > 0 && n * k <= |bits|
    ensures k <= |Pack(bits, n)| && Pack(bits, n)[..k] == Pack(bits[..n * k], n)
  {
    if k == 0 {
    } else {
      assert n * k == n * (k - 1) + n;
      PackTake(bits[n..], n, k - 1);
      assert bits[..n * k][n..] == bits[n..][..n * (k - 1)];
      assert bits[..n * k][..n] == bits[..n];
    }
  }

  function Zeros(n: nat): (bits: seq<Bit>)
    ensures |bits| == n
  {
    seq(n, i requires 0 <= i < n => 0)
  }

  /** The leading bits of a number and its low bits. */
  lemma {:induction false} BitsSplit(v: nat, a: nat, b: nat)
    ensures BitsOf(v, a + b) == BitsOf(Shr(v, b), a) + BitsOf(v, b)
  {
    if b == 0 {
    } else {
      BitsSplit(v / 2, a, b - 1);
    }
  }

  /** `v << k`. */
  function Shl(v: nat, k: nat): nat {
    if k == 0 then v else 2 * Shl(v, k - 1)
  }

  lemma {:induction false} ValAppend(bits: seq<Bit>, v: nat, k: nat)
    requires v < Pow2(k)
    ensures Val(bits + BitsOf(v, k)) == Shl(Val(bits), k) + v
  {
    if k == 0 {
      assert bits + BitsOf(v, k) == bits;
    } else {
      ValAppend(bits, v / 2, k - 1);
      var all := bits + BitsOf(v, k);
      assert all[..|all| - 1] == bits + BitsOf(v / 2, k - 1);
    }
  }

  lemma {:induction false} ZeroBitsIff(v: nat, n: nat)
    ensures BitsOf(v, n) == Zeros(n) <==> v % Pow2(n) == 0
  {
    if n == 0 {
    } else {
      ZeroBitsIff(v / 2, n - 1);
      HalfDivMod(v, Pow2(n - 1));
      assert Zeros(n) == Zeros(n - 1) + [0];
      if BitsOf(v, n) == Zeros(n) {
        assert BitsOf(v / 2, n - 1) == BitsOf(v, n)[..n - 1] == Zeros(n - 1);
        assert BitsOf(v, n)[n - 1] == v % 2;
      }
    }
  }

  lemma ZeroBits(n: nat)
    ensures BitsOf(0, n) == Zeros(n)
  {
    ZeroBitsIff(0, n);
  }

  /** Different numbers have different bits. */
  lemma BitsInjective(v: nat, w: nat, n: nat)
    requires v < Pow2(n) && w < Pow2(n) && BitsOf(v, n) == BitsOf(w, n)
    ensures v == w
  {
    ValOfBits(v, n);
    ValOfBits(w, n);
  }

  lemma UnpackInjective(a: seq<nat>, b: seq<nat>, n: nat)
    requires n > 0 && AllBelow(a, Pow2(n)) && AllBelow(b, Pow2(n)) && Unpack(a, n) == Unpack(b, n)
    ensures a == b
  {
    PackUnpack(a, n);
    PackUnpack(b, n);
  }

  lemma ZerosSum(a: nat, b: nat)
    ensures Zeros(a) + Zeros(b) == Zeros(a + b)
  {
  }

  lemma {:induction false} UnpackZeros(vals: seq<nat>, n: nat)
    requires forall i :: 0 <= i < |vals| ==> vals[i] == 0
    ensures Unpack(vals, n) == Zeros(n * |vals|)
  {
    if vals == [] {
    } else {
      var k := |vals| - 1;
      var left := n * k;
      ZeroBits(n);
      UnpackZeros(vals[1..], n);
      OneMoreTime(n, k);
      ZerosSum(n, left);
    }
  }

  // ---------------------------------------------------------------------------------------------
  // Shifting and masking a number into groups

  lemma {:induction false} ShrShr(v: nat, a: nat, b: nat)
    ensures Shr(Shr(v, a), b) == Shr(v, a + b)
  {
    if a == 0 {
    } else {
      ShrShr(v / 2, a - 1, b);
    }
  }

  lemma {:induction false} ShlShl(v: nat, a: nat, b: nat)
    ensures Shl(Shl(v, a), b) == Shl(v, a + b)
  {
    if b == 0 {
    } else {
      ShlShl(v, a, b - 1);
    }
  }

  lemma {:induction false} ShlSum(v: nat, w: nat, k: nat)
    ensures Shl(v + w, k) == Shl(v, k) + Shl(w, k)
  {
    if k == 0 {
    } else {
      ShlSum(v, w, k - 1);
    }
  }

  lemma HalfOf(w: nat, half: nat, bit: nat)
    requires w == 2 * half + bit && bit < 2
    ensures w / 2 == half && w % 2 == bit
  {
  }

  lemma {:induction false} BitsMod(v: nat, n: nat)
    ensures BitsOf(v % Pow2(n), n) == BitsOf(v, n)
  {
    if n == 0 {
    } else {
      var p := Pow2(n - 1);
      HalfDivMod(v, p);
      HalfOf(v % (2 * p), v / 2 % p, v % 2);
      BitsMod(v / 2, n - 1);
    }
  }

  /** The low `count` groups of `n` bits of a number. */
  function Digits(v: nat, n: nat, count: nat): (digits: seq<nat>)
    ensures |digits| == count
    decreases count
  {
    if count == 0 then [] else Digits(Shr(v, n), n, count - 1) + [v % Pow2(n)]
  }

  lemma {:induction false} DigitsBits(v: nat, n: nat, count: nat)
    ensures Unpack(Digits(v, n, count), n) == BitsOf(v, n * count)
    ensures AllBelow(Digits(v, n, count), Pow2(n))
    decreases count
  {
    if count == 0 {
    } else {
      var front, left := Digits(Shr(v, n), n, count - 1), n * (count - 1);
      DigitsBits(Shr(v, n), n, count - 1);
      UnpackSnoc(front, v % Pow2(n), n);
      BitsMod(v, n);
      OneMoreTime(n, count - 1);
      BitsSplit(v, left, n);
    }
  }

  function Times(n: nat, j: nat): nat {
    if j == 0 then 0 else Times(n, j - 1) + n
  }

  /** Each group is the number shifted right past the groups behind it, masked. */
  lemma {:induction false} DigitIsShift(v: nat, n: nat, count: nat, i: nat)
    requires i < count
    ensures Digits(v, n, count)[i] == Shr(v, Times(n, count - 1 - i)) % Pow2(n)
    decreases count
  {
    if i == count - 1 {
    } else {
      DigitIsShift(Shr(v, n), n, count - 1, i);
      ShrShr(v, n, Times(n, count - 2 - i));
    }
  }

  /** The groups put together again. */
  function Horner(digits: seq<nat>, n: nat): nat {
    if digits == [] then 0 else Shl(Horner(digits[..|digits| - 1], n), n) + digits[|digits| - 1]
  }

  lemma {:induction false} HornerIsValue(digits: seq<nat>, n: nat)
    requires AllBelow(digits, Pow2(n))
    ensures Horner(digits, n) == Val(Unpack(digits, n))
  {
    if digits == [] {
    } else {
      var front, last := digits[..|digits| - 1], digits[|digits| - 1];
      HornerIsValue(front, n);
      UnpackSnoc(front, last, n);
      assert digits == front + [last];
      ValAppend(Unpack(front, n), last, n);
    }
  }

  lemma {:induction false} ShlZero(k: nat)
    ensures Shl(0, k) == 0
  {
    if k == 0 {
    } else {
      ShlZero(k - 1);
    }
  }
}
