// Numbers written as digits, most significant first, in any base.
module Digits {

  predicate AreDigits(ds: seq<nat>, base: nat) {
    forall i :: 0 <= i < |ds| ==> ds[i] < base
  }

  // `high` followed by one more digit.
  function Join(high: nat, low: nat, base: nat): nat {
    high * base + low
  }

  // Without leading zeros.
  function ToDigits(value: nat, base: nat): (ds: seq<nat>)
    requires base >= 2
    ensures ds != [] && AreDigits(ds, base)
    decreases value
  {
    if value < base then [value] else DivSmaller(value, base); ToDigits(value / base, base) + [value % base]
  }

  function FromDigits(ds: seq<nat>, base: nat): nat {
    if ds == [] then 0 else Join(FromDigits(ds[..|ds| - 1], base), ds[|ds| - 1], base)
  }

  predicate Minimal(ds: seq<nat>) {
    ds != [] && (ds[0] == 0 ==> |ds| == 1)
  }

  function Power(base: nat, n: nat): nat {
    if n == 0 then 1 else base * Power(base, n - 1)
  }

  // ---------- One digit ----------

  lemma Products(a: int, b: int, c: nat)
    ensures a <= b ==> a * c <= b * c
  {
  }

  lemma DivSmaller(value: nat, base: nat)
    requires 2 <= base <= value
    ensures 0 < value / base < value
  {
    var q := value / base;
    assert value == q * base + value % base;
    Products(2, base, q);
  }

  lemma JoinDivMod(value: nat, base: nat)
    requires base >= 1
    ensures Join(value / base, value % base, base) == value
  {
  }

  lemma DivModJoin(high: nat, low: nat, base: nat)
    requires low < base
    ensures Join(high, low, base) / base == high && Join(high, low, base) % base == low
  {
    var v := Join(high, low, base);
    var q := v / base;
    assert v == q * base + v % base;
    Products(q + 1, high, base);
    Products(high + 1, q, base);
  }

  lemma Distribute(a: nat, b: nat)
    ensures (a + 1) * b == a * b + b
  {
  }

  lemma HigherIsGreater(high: nat, low: nat, high2: nat, low2: nat, base: nat)
    requires low < base && high < high2
    ensures Join(high, low, base) < Join(high2, low2, base)
  {
    Distribute(high, base);
    Products(high + 1, high2, base);
  }

  lemma JoinOrder(high: nat, low: nat, high2: nat, low2: nat, base: nat)
    requires low < base && low2 < base
    ensures Join(high, low, base) < Join(high2, low2, base) <==> high < high2 || (high == high2 && low < low2)
  {
    if high < high2 {
      HigherIsGreater(high, low, high2, low2, base);
    } else if high2 < high {
      HigherIsGreater(high2, low2, high, low, base);
    }
  }

  lemma JoinBounds(high: nat, low: nat, base: nat)
    requires base >= 1
    ensures high <= Join(high, low, base) && low <= Join(high, low, base)
    ensures high >= 1 ==> base <= Join(high, low, base)
  {
    Products(1, high, base);
    Products(1, base, high);
  }

  lemma DivBelow(value: nat, base: nat, bound: nat)
    requires base >= 1
    ensures value / base < bound <==> value < base * bound
  {
    var q := value / base;
    assert value == q * base + value % base;
    Products(q + 1, bound, base);
    Products(bound, q, base);
  }

  // ---------- Round trips ----------

  lemma {:induction false} FirstDigit(value: nat, base: nat)
    requires base >= 2 && value > 0
    ensures ToDigits(value, base)[0] > 0
    decreases value
  {
    if value < base {
    } else {
      DivSmaller(value, base);
      FirstDigit(value / base, base);
    }
  }

  lemma {:induction false} FromTo(value: nat, base: nat)
    requires base >= 2
    ensures FromDigits(ToDigits(value, base), base) == value && Minimal(ToDigits(value, base))
    decreases value
  {
    if value < base {
      assert [value][..0] == [];
    } else {
      hide Join;
      DivSmaller(value, base);
      FromTo(value / base, base);
      FirstDigit(value, base);
      JoinDivMod(value, base);
      var ds := ToDigits(value, base);
      assert ds[..|ds| - 1] == ToDigits(value / base, base);
    }
  }

  lemma {:induction false} Positive(ds: seq<nat>, base: nat)
    requires base >= 1 && Minimal(ds) && ds[0] > 0 && AreDigits(ds, base)
    ensures FromDigits(ds, base) >= 1
  {
    hide Join;
    var high := ds[..|ds| - 1];
    if high == [] {
    } else {
      Positive(high, base);
    }
    JoinBounds(FromDigits(high, base), ds[|ds| - 1], base);
  }

  lemma {:induction false} ToFrom(ds: seq<nat>, base: nat)
    requires base >= 2 && AreDigits(ds, base) && Minimal(ds)
    ensures ToDigits(FromDigits(ds, base), base) == ds
  {
    var high, low := ds[..|ds| - 1], ds[|ds| - 1];
    var rest := FromDigits(high, base);
    if |ds| == 1 {
      assert high == [];
    } else {
      hide Join;
      ToFrom(high, base);
      Positive(high, base);
      DivModJoin(rest, low, base);
      JoinBounds(rest, low, base);
      assert ds == high + [low];
    }
  }

  lemma {:induction false} LeadingZero(ds: seq<nat>, base: nat)
    ensures FromDigits([0] + ds, base) == FromDigits(ds, base)
  {
    if ds == [] {
      assert [0] + ds == [0] && [0][..0] == [];
    } else {
      hide Join;
      LeadingZero(ds[..|ds| - 1], base);
      assert ([0] + ds)[..|ds|] == [0] + ds[..|ds| - 1];
    }
  }

  // ---------- Length ----------

  lemma {:induction false} PowerGrows(base: nat, n: nat)
    requires base >= 1 && n >= 1
    ensures Power(base, n) >= base
    decreases n
  {
    if n > 1 {
      PowerGrows(base, n - 1);
      Products(1, Power(base, n - 1), base);
    } else {
      assert Power(base, 0) == 1;
    }
  }

  // n digits hold exactly the values below base to the n.
  lemma {:induction false} LengthIsExact(value: nat, base: nat, n: nat)
    requires base >= 2 && n >= 1
    ensures |ToDigits(value, base)| <= n <==> value < Power(base, n)
    decreases value
  {
    if value < base {
      PowerGrows(base, n);
    } else if n == 1 {
      assert Power(base, 1) == base * Power(base, 0) == base;
    } else {
      DivSmaller(value, base);
      LengthIsExact(value / base, base, n - 1);
      DivBelow(value, base, Power(base, n - 1));
    }
  }

  // Every prefix stands for no more than the whole.
  lemma {:induction false} PrefixIsSmaller(ds: seq<nat>, base: nat, i: nat)
    requires base >= 1 && i <= |ds| && AreDigits(ds, base)
    ensures FromDigits(ds[..i], base) <= FromDigits(ds, base)
  {
    if i == |ds| {
      assert ds[..i] == ds;
    } else {
      hide Join;
      var high := ds[..|ds| - 1];
      PrefixIsSmaller(high, base, i);
      assert high[..i] == ds[..i];
      JoinBounds(FromDigits(high, base), ds[|ds| - 1], base);
    }
  }

  // ---------- Order ----------

  // At the first place where the digits differ, those of `a` are the smaller.
  ghost predicate Below(a: seq<nat>, b: seq<nat>) {
    exists k :: 0 <= k < |a| && k < |b| && a[..k] == b[..k] && a[k] < b[k]
  }

  lemma PrefixesAgree(a: seq<nat>, b: seq<nat>, n: nat, i: nat)
    requires n <= |a| && n <= |b|
    ensures a[..n] == b[..n] && i < n ==> a[i] == b[i]
  {
    if a[..n] == b[..n] && i < n {
      assert a[..n][i] == b[..n][i];
    }
  }

  lemma BelowIsAsymmetric(a: seq<nat>, b: seq<nat>)
    requires Below(a, b)
    ensures !Below(b, a)
  {
    if Below(b, a) {
      var k :| 0 <= k < |a| && k < |b| && a[..k] == b[..k] && a[k] < b[k];
      var j :| 0 <= j < |b| && j < |a| && b[..j] == a[..j] && b[j] < a[j];
      PrefixesAgree(a, b, k, j);
      PrefixesAgree(a, b, j, k);
      assert false;
    }
  }

  lemma {:induction false} SameValueSameDigits(a: seq<nat>, b: seq<nat>, base: nat)
    requires base >= 1 && |a| == |b| && AreDigits(a, base) && AreDigits(b, base) &&
             FromDigits(a, base) == FromDigits(b, base)
    ensures a == b
  {
    hide Join;
    if a == [] {
    } else {
      var n := |a| - 1;
      var left, right := a[..n], b[..n];
      DivModJoin(FromDigits(left, base), a[n], base);
      DivModJoin(FromDigits(right, base), b[n], base);
      SameValueSameDigits(left, right, base);
      assert a == left + [a[n]] && b == right + [b[n]];
    }
  }

  lemma {:induction false} SmallerIsBelow(a: seq<nat>, b: seq<nat>, base: nat)
    requires base >= 1 && |a| == |b| && AreDigits(a, base) && AreDigits(b, base) &&
             FromDigits(a, base) < FromDigits(b, base)
    ensures Below(a, b)
  {
    hide Join;
    var n := |a| - 1;
    var left, right := a[..n], b[..n];
    var high, low := FromDigits(left, base), FromDigits(right, base);
    JoinOrder(high, a[n], low, b[n], base);
    if high < low {
      SmallerIsBelow(left, right, base);
      var k :| 0 <= k < |left| && left[..k] == right[..k] && left[k] < right[k];
      assert a[..k] == left[..k] && b[..k] == right[..k];
    } else {
      SameValueSameDigits(left, right, base);
    }
  }
}
