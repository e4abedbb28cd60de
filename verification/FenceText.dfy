// How a value drawn from the fence sequence is written as a UUID, and why comparing the texts is comparing the values.
module FenceText {
  import opened Options
  import opened Digits
  import Control

  const PREFIX: string := "00000000-0000-4000-8000-"
  const WIDTH: nat := 12

  function Character(d: nat): char requires d < 16 {
    if d < 10 then ('0' as int + d) as char else ('a' as int + d - 10) as char
  }

  function Characters(ds: seq<nat>): string requires AreDigits(ds, 16) {
    seq(|ds|, i requires 0 <= i < |ds| => Character(ds[i]))
  }

  function PadStart(ds: seq<nat>, width: nat): seq<nat>
    decreases width - |ds|
  {
    if |ds| >= width then ds else PadStart([0] + ds, width)
  }

  function Padded(value: nat): (ds: seq<nat>)
    ensures AreDigits(ds, 16) && |ds| >= WIDTH
    ensures FromDigits(ds, 16) == value
    ensures |ds| == WIDTH <==> value <= Control.MAX_FENCE_SEQUENCE
  {
    FromTo(value, 16);
    PadKeepsValue(ToDigits(value, 16), WIDTH);
    TwelveDigits();
    LengthIsExact(value, 16, WIDTH);
    PadStart(ToDigits(value, 16), WIDTH)
  }

  // The text of a sequence value, refused outside the range that twelve digits can hold.
  function Write(value: nat): Option<string> {
    if value < 1 || value > Control.MAX_FENCE_SEQUENCE then None else Some(PREFIX + Characters(Padded(value)))
  }

  lemma {:induction false} PadKeepsValue(ds: seq<nat>, width: nat)
    requires AreDigits(ds, 16)
    ensures AreDigits(PadStart(ds, width), 16) && FromDigits(PadStart(ds, width), 16) == FromDigits(ds, 16)
    ensures |PadStart(ds, width)| == if |ds| < width then width else |ds|
    decreases width - |ds|
  {
    if |ds| >= width {
    } else {
      LeadingZero(ds, 16);
      PadKeepsValue([0] + ds, width);
    }
  }

  lemma TwelveDigits()
    ensures Power(16, WIDTH) == Control.MAX_FENCE_SEQUENCE + 1
  {
    assert Power(16, 3) == 4096;
    assert Power(16, 6) == 4096 * Power(16, 3);
    assert Power(16, 9) == 4096 * Power(16, 6);
    assert Power(16, 12) == 4096 * Power(16, 9);
  }

  // ---------- Injective ----------

  // Every fence has the length and the fixed digits of a version 4 UUID.
  lemma FenceIsAUuid(value: nat)
    requires 1 <= value <= Control.MAX_FENCE_SEQUENCE
    ensures var text := Write(value).value;
            |text| == 36 && text[8] == text[13] == text[18] == text[23] == '-' && text[14] == '4' && text[19] == '8'
  {
  }

  // The bound is exact: a value's digits fit into a UUID just when it is within the bound.
  lemma BoundIsExact(value: nat)
    ensures |PREFIX + Characters(Padded(value))| == 36 <==> value <= Control.MAX_FENCE_SEQUENCE
  {
  }

  lemma WriteIsInjective(one: nat, other: nat)
    requires Write(one).Some? && Write(one) == Write(other)
    ensures one == other
  {
    var a, b := Padded(one), Padded(other);
    forall i | 0 <= i < WIDTH ensures a[i] == b[i] {
      assert Write(one).value[|PREFIX| + i] == Character(a[i]);
      assert Write(other).value[|PREFIX| + i] == Character(b[i]);
    }
    assert a == b;
  }

  // ---------- Order preserving ----------

  function Codes(text: string): seq<nat> {
    seq(|text|, i requires 0 <= i < |text| => text[i] as nat)
  }

  // At the first place where the texts differ, the character of `a` is the smaller.
  ghost predicate Before(a: string, b: string) {
    Below(Codes(a), Codes(b))
  }

  lemma SmallerIsBefore(one: nat, other: nat)
    requires Write(one).Some? && Write(other).Some? && one < other
    ensures Before(Write(one).value, Write(other).value)
  {
    var left, right := Codes(Write(one).value), Codes(Write(other).value);
    var a, b := Padded(one), Padded(other);
    SmallerIsBelow(a, b, 16);
    var k :| 0 <= k < |a| && k < |b| && a[..k] == b[..k] && a[k] < b[k];
    var j := |PREFIX| + k;
    forall i | 0 <= i < j ensures left[i] == right[i] {
      if i >= |PREFIX| { assert a[..k][i - |PREFIX|] == b[..k][i - |PREFIX|]; }
    }
    assert left[..j] == right[..j];
    assert Write(one).value[j] == Character(a[k]) && Write(other).value[j] == Character(b[k]);
  }

  // A later fence has the greater text.
  lemma WriteKeepsOrder(one: nat, other: nat)
    requires Write(one).Some? && Write(other).Some?
    ensures one < other <==> Before(Write(one).value, Write(other).value)
  {
    if one < other {
      SmallerIsBefore(one, other);
    } else if other < one {
      SmallerIsBefore(other, one);
      BelowIsAsymmetric(Codes(Write(other).value), Codes(Write(one).value));
    }
  }
}
