/** Java values the models share: decimal rendering of non-negative ints (`Integer.toString`) and 32-bit int arithmetic. */
module JavaText {

  const Digits: string := "0123456789"

  /** `Integer.toString(n)` for n >= 0: the decimal digits, most significant first, without leading zeros. */
  function NatToString(n: nat): (s: string)
    ensures |s| >= 1
    ensures n < 10 <==> |s| == 1
    ensures s[|s| - 1] == Digits[n % 10]
    decreases n
  {
    if n < 10 then [Digits[n]] else NatToString(n / 10) + [Digits[n % 10]]
  }

  /** Distinct numbers are rendered as distinct strings, so ids taken from a counter never repeat. */
  lemma {:induction false} NatToStringInjective(a: nat, b: nat)
    ensures NatToString(a) == NatToString(b) ==> a == b
    decreases a
  {
    if NatToString(a) == NatToString(b) {
      DigitsDistinct(a % 10, b % 10);
      if a >= 10 && b >= 10 {
        var sa, sb := NatToString(a), NatToString(b);
        assert sa[..|sa| - 1] == NatToString(a / 10);
        assert sb[..|sb| - 1] == NatToString(b / 10);
        NatToStringInjective(a / 10, b / 10);
      }
    }
  }

  lemma DigitsDistinct(i: nat, j: nat)
    requires i < 10 && j < 10
    ensures Digits[i] == Digits[j] ==> i == j
  {
  }

  /** The ids of the first n robots: "0", "1", ..., the decimal rendering of n - 1. */
  function IdsBelow(n: nat): (ids: set<string>)
    decreases n
  {
    if n == 0 then {} else IdsBelow(n - 1) + {NatToString(n - 1)}
  }

  /** Every robot before the n-th has its id among them. */
  lemma {:induction false} IdsBelowHolds(n: nat, i: nat)
    requires i < n
    ensures NatToString(i) in IdsBelow(n)
    decreases n
  {
    if i < n - 1 {
      IdsBelowHolds(n - 1, i);
    }
  }

  /** Which robot an id of the first n belongs to. */
  ghost function IdIndex(n: nat, id: string): (i: nat)
    requires id in IdsBelow(n)
    ensures i < n && NatToString(i) == id
    decreases n
  {
    if id == NatToString(n - 1) then n - 1 else IdIndex(n - 1, id)
  }

  /** The id of the n-th robot is not among those of the robots before it. */
  lemma NextIdIsNew(n: nat)
    ensures NatToString(n) !in IdsBelow(n)
  {
    if NatToString(n) in IdsBelow(n) {
      var i := IdIndex(n, NatToString(n));
      NatToStringInjective(i, n);
    }
  }

  /** The range of Java's 32-bit int. */
  const IntMin: int := -0x8000_0000
  const IntMax: int := 0x7fff_ffff

  predicate IsInt(v: int)
  {
    IntMin <= v <= IntMax
  }

  /** The values of a Java int field. */
  type JavaInt = v: int | IntMin <= v <= IntMax

  /** Java's post-increment on an int: it wraps from the largest value to the smallest. */
  function IntSucc(v: int): (r: int)
    requires IsInt(v)
    ensures IsInt(r)
    ensures v < IntMax ==> r == v + 1
    ensures v == IntMax ==> r == IntMin
  {
    if v == IntMax then IntMin else v + 1
  }

  /** Java's post-decrement on an int: it wraps from the smallest value to the largest. */
  function IntPred(v: int): (r: int)
    requires IsInt(v)
    ensures IsInt(r)
    ensures v > IntMin ==> r == v - 1
    ensures v == IntMin ==> r == IntMax
  {
    if v == IntMin then IntMax else v - 1
  }

  /** A decrement undoes an increment, also across the wrap-around. */
  lemma PredUndoesSucc(v: int)
    requires IsInt(v)
    ensures IntPred(IntSucc(v)) == v
  {
  }

  /** The number of distinct int values. */
  const IntRange: int := 0x1_0000_0000

  /** Java's int addition: the exact sum brought back into range by one turn of 2^32. */
  function IntAdd(a: int, b: int): (r: int)
    requires IsInt(a) && IsInt(b)
    ensures IsInt(r)
    ensures IsInt(a + b) ==> r == a + b
    ensures a + b > IntMax ==> r == a + b - IntRange
    ensures a + b < IntMin ==> r == a + b + IntRange
  {
    if a + b > IntMax then a + b - IntRange else if a + b < IntMin then a + b + IntRange else a + b
  }

  /** Java's int subtraction, wrapping the same way. */
  function IntSub(a: int, b: int): (r: int)
    requires IsInt(a) && IsInt(b)
    ensures IsInt(r)
    ensures IsInt(a - b) ==> r == a - b
    ensures a - b > IntMax ==> r == a - b - IntRange
    ensures a - b < IntMin ==> r == a - b + IntRange
  {
    if a - b > IntMax then a - b - IntRange else if a - b < IntMin then a - b + IntRange else a - b
  }

  /** Subtracting what was added restores the value, overflow or not. */
  lemma SubUndoesAdd(a: int, b: int)
    requires IsInt(a) && IsInt(b)
    ensures IntSub(IntAdd(a, b), b) == a
  {
  }

  /** Adding one is the increment. */
  lemma AddOneIsSucc(a: int)
    requires IsInt(a)
    ensures IntAdd(a, 1) == IntSucc(a) && IntSub(a, 1) == IntPred(a)
  {
  }
}
