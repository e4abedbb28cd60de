// The checksum of archive members (section 8 of RFC 1952), and which changes it cannot miss.
module Crc32 {

  const POLYNOMIAL: bv32 := 0xedb88320

  const START: bv32 := 0xffffffff

  function Xor(a: bv32, b: bv32): bv32 {
    a ^ b
  }

  function Widen(byte: bv8): bv32 {
    byte as bv32
  }

  function Half(c: bv32): bv32 {
    c >> 1
  }

  predicate Odd(c: bv32) {
    c & 1 == 1
  }

  function StepBit(c: bv32): bv32 {
    if Odd(c) then Xor(POLYNOMIAL, Half(c)) else Half(c)
  }

  function Steps(c: bv32, n: nat): bv32 {
    if n == 0 then c else StepBit(Steps(c, n - 1))
  }

  function StepByte(c: bv32, byte: bv8): bv32 {
    Steps(Xor(c, Widen(byte)), 8)
  }

  // The state reached from `c` after `bytes`.
  function Fold(c: bv32, bytes: seq<bv8>): bv32 {
    if bytes == [] then c else StepByte(Fold(c, bytes[..|bytes| - 1]), bytes[|bytes| - 1])
  }

  function Checksum(bytes: seq<bv8>): bv32 {
    Xor(Fold(START, bytes), START)
  }

  method Compute(bytes: seq<bv8>) returns (checksum: bv32)
    ensures checksum == Checksum(bytes)
  {
    hide Xor, Widen, StepBit;
    var crc := START;
    for i := 0 to |bytes|
      invariant crc == Fold(START, bytes[..i])
    {
      assert bytes[..i + 1][..i] == bytes[..i];
      crc := Xor(crc, Widen(bytes[i]));
      ghost var mixed := crc;
      for bit := 0 to 8
        invariant crc == Steps(mixed, bit)
      {
        crc := StepBit(crc);
      }
    }
    assert bytes[..|bytes|] == bytes;
    checksum := Xor(crc, START);
  }

  // ---------- Every step can be undone ----------

  function UnstepBit(c: bv32): bv32 {
    if c & 0x80000000 == 0x80000000 then (Xor(POLYNOMIAL, c) << 1) | 1 else c << 1
  }

  lemma UnstepUndoesStep(c: bv32)
    ensures UnstepBit(StepBit(c)) == c
  {
  }

  lemma {:induction false} StepsAreInjective(c: bv32, d: bv32, n: nat)
    requires Steps(c, n) == Steps(d, n)
    ensures c == d
  {
    hide StepBit, UnstepBit;
    if n <= 0 {
    } else {
      UnstepUndoesStep(Steps(c, n - 1));
      UnstepUndoesStep(Steps(d, n - 1));
      StepsAreInjective(c, d, n - 1);
    }
  }

  lemma XorCancels(a: bv32, b: bv32, c: bv32)
    ensures Xor(a, c) == Xor(b, c) ==> a == b
    ensures Xor(c, a) == Xor(c, b) ==> a == b
  {
  }

  lemma WidenIsInjective(a: bv8, b: bv8)
    ensures Widen(a) == Widen(b) ==> a == b
  {
  }

  // From different states, the same bytes lead to different states.
  lemma {:induction false} FoldIsInjective(c: bv32, d: bv32, bytes: seq<bv8>)
    ensures Fold(c, bytes) == Fold(d, bytes) <==> c == d
  {
    hide Steps, Xor;
    if bytes == [] || Fold(c, bytes) != Fold(d, bytes) {
    } else {
      var high, last := bytes[..|bytes| - 1], bytes[|bytes| - 1];
      StepsAreInjective(Xor(Fold(c, high), Widen(last)), Xor(Fold(d, high), Widen(last)), 8);
      XorCancels(Fold(c, high), Fold(d, high), Widen(last));
      FoldIsInjective(c, d, high);
    }
  }

  // The checksum of a concatenation continues from the state of its first part.
  lemma {:induction false} FoldContinues(c: bv32, a: seq<bv8>, b: seq<bv8>)
    ensures Fold(c, a + b) == Fold(Fold(c, a), b)
  {
    hide StepByte;
    if b == [] {
      assert a + b == a;
    } else {
      FoldContinues(c, a, b[..|b| - 1]);
      assert (a + b)[..|a + b| - 1] == a + b[..|b| - 1];
    }
  }

  lemma SuffixKeepsDifference(a: seq<bv8>, b: seq<bv8>, after: seq<bv8>)
    requires Fold(START, a) != Fold(START, b)
    ensures Checksum(a + after) != Checksum(b + after)
  {
    hide Fold, Xor;
    FoldContinues(START, a, after);
    FoldContinues(START, b, after);
    FoldIsInjective(Fold(START, a), Fold(START, b), after);
    XorCancels(Fold(START, a + after), Fold(START, b + after), START);
  }

  // ---------- The state is linear in what it has read ----------

  lemma XorAssociates(a: bv32, b: bv32, c: bv32)
    ensures Xor(a, Xor(b, c)) == Xor(Xor(a, b), c)
  {
  }

  lemma XorCommutes(a: bv32, b: bv32)
    ensures Xor(a, b) == Xor(b, a)
  {
  }

  lemma XorTwice(p: bv32, a: bv32)
    ensures Xor(p, Xor(p, a)) == a
  {
  }

  lemma XorPairs(p: bv32, a: bv32, b: bv32)
    ensures Xor(Xor(p, a), Xor(p, b)) == Xor(a, b) && Xor(Xor(p, a), b) == Xor(p, Xor(a, b)) &&
            Xor(a, Xor(p, b)) == Xor(p, Xor(a, b))
  {
    hide Xor;
    XorAssociates(p, a, b);
    XorAssociates(a, p, b);
    XorCommutes(a, p);
    XorAssociates(Xor(a, p), p, b);
    XorAssociates(a, p, Xor(p, b));
    XorTwice(p, b);
  }

  lemma ShiftedBits(c: bv32, d: bv32)
    ensures (c ^ d) >> 1 == (c >> 1) ^ (d >> 1)
  {
  }

  lemma HalfOfBits(c: bv32, d: bv32)
    ensures Half(c ^ d) == Half(c) ^ Half(d)
  {
    ShiftedBits(c, d);
  }

  lemma HalfIsLinear(c: bv32, d: bv32)
    ensures Half(Xor(c, d)) == Xor(Half(c), Half(d))
  {
    hide Half;
    HalfOfBits(c, d);
  }

  lemma OddIsLinear(c: bv32, d: bv32)
    ensures Odd(Xor(c, d)) <==> (Odd(c) != Odd(d))
  {
  }

  lemma StepIsLinear(c: bv32, d: bv32)
    ensures StepBit(Xor(c, d)) == Xor(StepBit(c), StepBit(d))
  {
    hide Xor, Half, Odd;
    HalfIsLinear(c, d);
    OddIsLinear(c, d);
    XorPairs(POLYNOMIAL, Half(c), Half(d));
  }

  lemma {:induction false} StepsAreLinear(c: bv32, d: bv32, n: nat)
    ensures Steps(Xor(c, d), n) == Xor(Steps(c, n), Steps(d, n))
  {
    hide StepBit, Xor;
    if n <= 0 {
    } else {
      StepsAreLinear(c, d, n - 1);
      StepIsLinear(Steps(c, n - 1), Steps(d, n - 1));
    }
  }

  lemma {:induction false} StepsAdd(c: bv32, m: nat, n: nat)
    ensures Steps(Steps(c, m), n) == Steps(c, m + n)
  {
    hide StepBit;
    if n <= 0 {
    } else {
      StepsAdd(c, m, n - 1);
    }
  }

  // ---------- Bursts of up to four bytes ----------

  lemma EvenStepShifts(w: bv32)
    ensures !Odd(w) ==> StepBit(w) == Half(w)
  {
  }

  lemma EightSteps(c: bv32)
    ensures Steps(c, 8) == StepBit(StepBit(StepBit(StepBit(StepBit(StepBit(StepBit(StepBit(c))))))))
  {
    hide StepBit;
    assert Steps(c, 1) == StepBit(c);
    assert Steps(c, 2) == StepBit(Steps(c, 1));
    assert Steps(c, 4) == StepBit(StepBit(Steps(c, 2)));
    assert Steps(c, 6) == StepBit(StepBit(Steps(c, 4)));
  }

  lemma EvenShifts(w: bv32)
    requires w & 0xff == 0
    ensures !Odd(w) && !Odd(w >> 1) && !Odd(w >> 2) && !Odd(w >> 3) && !Odd(w >> 4) && !Odd(w >> 5) && !Odd(w >> 6) &&
            !Odd(w >> 7)
  {
  }

  lemma HalfShifts(w: bv32)
    ensures Half(w) == w >> 1 && Half(w >> 1) == w >> 2 && Half(w >> 2) == w >> 3 && Half(w >> 3) == w >> 4 &&
            Half(w >> 4) == w >> 5 && Half(w >> 5) == w >> 6 && Half(w >> 6) == w >> 7 && Half(w >> 7) == w >> 8
  {
  }

  lemma ZeroLowByte(w: bv32)
    requires w & 0xff == 0
    ensures var w2, w4 := Half(Half(w)), Half(Half(Half(Half(w))));
            var w6 := Half(Half(w4));
            !Odd(w) && !Odd(Half(w)) && !Odd(w2) && !Odd(Half(w2)) && !Odd(w4) && !Odd(Half(w4)) && !Odd(w6) &&
            !Odd(Half(w6)) &&
            Half(Half(w6)) == w >> 8
  {
    hide Half, Odd;
    EvenShifts(w);
    HalfShifts(w);
  }

  // Eight steps shift out a zero low byte.
  lemma EightStepsShift(w: bv32)
    requires w & 0xff == 0
    ensures Steps(w, 8) == w >> 8
  {
    hide StepBit, Half, Odd;
    ZeroLowByte(w);
    var w2, w4 := Half(Half(w)), Half(Half(Half(Half(w))));
    var w6 := Half(Half(w4));
    EvenStepShifts(w);
    EvenStepShifts(Half(w));
    EvenStepShifts(w2);
    EvenStepShifts(Half(w2));
    EvenStepShifts(w4);
    EvenStepShifts(Half(w4));
    EvenStepShifts(w6);
    EvenStepShifts(Half(w6));
    EightSteps(w);
  }

  // A byte placed 1, 2 or 3 bytes up in a word.
  function Raised(byte: bv8, places: nat): bv32 {
    if places == 1 then Widen(byte) << 8
    else if places == 2 then Widen(byte) << 16
    else if places == 3 then Widen(byte) << 24
    else Widen(byte)
  }

  lemma RaisedBits(byte: bv8)
    ensures var w := byte as bv32;
            (w << 8) & 0xff == 0 && (w << 16) & 0xff == 0 && (w << 24) & 0xff == 0 &&
            (w << 8) >> 8 == w && (w << 16) >> 8 == w << 8 && (w << 24) >> 8 == w << 16
  {
  }

  lemma RaisedComesDown(byte: bv8, places: nat)
    requires 1 <= places <= 3
    ensures Steps(Raised(byte, places), 8) == Raised(byte, places - 1)
  {
    hide Steps;
    RaisedBits(byte);
    EightStepsShift(Raised(byte, places));
  }

  lemma {:induction false} RaisedArrives(byte: bv8, places: nat)
    requires places <= 3
    ensures Steps(Raised(byte, places), 8 * places) == Widen(byte)
  {
    if places == 0 {
      assert Raised(byte, 0) == Widen(byte);
    } else {
      hide Steps, Raised, Widen;
      RaisedComesDown(byte, places);
      RaisedArrives(byte, places - 1);
      StepsAdd(Raised(byte, places), 8, 8 * (places - 1));
    }
  }

  // Reading a byte after `places` others is reading it raised by so many places, before them.
  lemma ReadEarlier(c: bv32, byte: bv8, places: nat)
    requires places <= 3
    ensures StepByte(Steps(c, 8 * places), byte) == Steps(Xor(c, Raised(byte, places)), 8 * places + 8)
  {
    hide Steps, Raised, Widen, Xor;
    RaisedArrives(byte, places);
    StepsAreLinear(c, Raised(byte, places), 8 * places);
    StepsAdd(Xor(c, Raised(byte, places)), 8 * places, 8);
  }

  // Four bytes as one little-endian word, mixed into a state.
  function Mix(c: bv32, w: seq<bv8>): bv32 requires |w| == 4 {
    Xor(Xor(Xor(Xor(c, Raised(w[0], 0)), Raised(w[1], 1)), Raised(w[2], 2)), Raised(w[3], 3))
  }

  lemma FoldOneMore(c: bv32, bytes: seq<bv8>, byte: bv8)
    ensures Fold(c, bytes + [byte]) == StepByte(Fold(c, bytes), byte)
  {
    hide StepByte;
    assert (bytes + [byte])[..|bytes|] == bytes;
  }

  lemma FourBytesAreOneWord(c: bv32, w: seq<bv8>)
    requires |w| == 4
    ensures Fold(c, w) == Steps(Mix(c, w), 32)
  {
    hide Steps, Raised, StepByte, Xor;
    assert Fold(c, []) == c;
    hide Fold;
    FoldOneMore(c, [], w[0]);
    FoldOneMore(c, [w[0]], w[1]);
    FoldOneMore(c, [w[0], w[1]], w[2]);
    FoldOneMore(c, [w[0], w[1], w[2]], w[3]);
    assert [] + [w[0]] == [w[0]] && [w[0]] + [w[1]] == [w[0], w[1]] && [w[0], w[1]] + [w[2]] == [w[0], w[1], w[2]];
    assert [w[0], w[1], w[2]] + [w[3]] == w;
    NoSteps(c);
    var c1 := Xor(c, Raised(w[0], 0));
    var c2 := Xor(c1, Raised(w[1], 1));
    var c3 := Xor(c2, Raised(w[2], 2));
    ReadEarlier(c, w[0], 0);
    ReadEarlier(c1, w[1], 1);
    ReadEarlier(c2, w[2], 2);
    ReadEarlier(c3, w[3], 3);
  }

  lemma NoSteps(c: bv32)
    ensures Steps(c, 0) == c
  {
  }

  lemma WordBits(a: bv8, b: bv8, c: bv8, d: bv8)
    ensures var w := (((a as bv32) ^ ((b as bv32) << 8)) ^ ((c as bv32) << 16)) ^ ((d as bv32) << 24);
            w & 0xff == a as bv32 && (w >> 8) & 0xff == b as bv32 && (w >> 16) & 0xff == c as bv32 &&
            w >> 24 == d as bv32
  {
  }

  function Word(w: seq<bv8>): bv32 requires |w| == 4 {
    Xor(Xor(Xor(Raised(w[0], 0), Raised(w[1], 1)), Raised(w[2], 2)), Raised(w[3], 3))
  }

  lemma WordIsInjective(v: seq<bv8>, w: seq<bv8>)
    requires |v| == |w| == 4 && Word(v) == Word(w)
    ensures v == w
  {
    WordBits(v[0], v[1], v[2], v[3]);
    WordBits(w[0], w[1], w[2], w[3]);
    WidenIsInjective(v[0], w[0]);
    WidenIsInjective(v[1], w[1]);
    WidenIsInjective(v[2], w[2]);
    WidenIsInjective(v[3], w[3]);
  }

  lemma MixIsWord(c: bv32, w: seq<bv8>)
    requires |w| == 4
    ensures Mix(c, w) == Xor(c, Word(w))
  {
    hide Xor, Raised;
    var a, b, d, e := Raised(w[0], 0), Raised(w[1], 1), Raised(w[2], 2), Raised(w[3], 3);
    XorAssociates(c, a, b);
    XorAssociates(c, Xor(a, b), d);
    XorAssociates(c, Xor(Xor(a, b), d), e);
  }

  lemma WordIsKept(c: bv32, v: seq<bv8>, w: seq<bv8>)
    requires |v| == |w| == 4 && Fold(c, v) == Fold(c, w)
    ensures v == w
  {
    hide Xor, Word, Mix, Fold, Steps;
    FourBytesAreOneWord(c, v);
    FourBytesAreOneWord(c, w);
    StepsAreInjective(Mix(c, v), Mix(c, w), 32);
    MixIsWord(c, v);
    MixIsWord(c, w);
    XorCancels(Word(v), Word(w), c);
    WordIsInjective(v, w);
  }

  lemma BurstIsKept(c: bv32, v: seq<bv8>, w: seq<bv8>)
    requires |v| == |w| <= 4 && Fold(c, v) == Fold(c, w)
    ensures v == w
  {
    hide Fold;
    var rest := seq(4 - |v|, _ => 0 as bv8);
    FoldContinues(c, v, rest);
    FoldContinues(c, w, rest);
    WordIsKept(c, v + rest, w + rest);
    assert (v + rest)[..|v|] == v && (w + rest)[..|v|] == w;
  }

  // Contents that differ only within four consecutive bytes have different checksums.
  lemma BurstIsDetected(before: seq<bv8>, v: seq<bv8>, w: seq<bv8>, after: seq<bv8>)
    requires |v| == |w| <= 4 && v != w
    ensures Checksum(before + v + after) != Checksum(before + w + after)
  {
    hide Fold, Checksum;
    FoldContinues(START, before, v);
    FoldContinues(START, before, w);
    if Fold(START, before + v) == Fold(START, before + w) {
      BurstIsKept(Fold(START, before), v, w);
      assert false;
    }
    SuffixKeepsDifference(before + v, before + w, after);
  }

  // ---------- Known checksums ----------

  lemma OneByte(c: bv32, byte: bv8)
    ensures StepByte(c, byte) ==
            var m := Xor(c, Widen(byte));
            StepBit(StepBit(StepBit(StepBit(StepBit(StepBit(StepBit(StepBit(m))))))))
  {
    hide StepBit, Xor, Widen, Steps;
    EightSteps(Xor(c, Widen(byte)));
  }

  lemma FoldByte(c: bv32, bytes: seq<bv8>, byte: bv8)
    ensures Fold(c, bytes + [byte]) == StepByte(Fold(c, bytes), byte)
  {
    hide StepByte;
    assert (bytes + [byte])[..|bytes|] == bytes;
  }

  lemma FirstCheckSteps()
    ensures StepByte(0xffffffff, 0x31) == 0x7c231048 && StepByte(0x7c231048, 0x32) == 0xb0acbb32 &&
            StepByte(0xb0acbb32, 0x33) == 0x77b79c2d
  {
    hide Steps;
    OneByte(0xffffffff, 0x31);
    OneByte(0x7c231048, 0x32);
    OneByte(0xb0acbb32, 0x33);
  }

  lemma MiddleCheckSteps()
    ensures StepByte(0x77b79c2d, 0x34) == 0x641c1f5c && StepByte(0x641c1f5c, 0x35) == 0x340ac5e3 &&
            StepByte(0x340ac5e3, 0x36) == 0xf68d2c9e
  {
    hide Steps;
    OneByte(0x77b79c2d, 0x34);
    OneByte(0x641c1f5c, 0x35);
    OneByte(0x340ac5e3, 0x36);
  }

  lemma LastCheckSteps()
    ensures StepByte(0xf68d2c9e, 0x37) == 0xaffc9660 && StepByte(0xaffc9660, 0x38) == 0x651f2550 &&
            StepByte(0x651f2550, 0x39) == 0x340bc6d9
  {
    hide Steps;
    OneByte(0xf68d2c9e, 0x37);
    OneByte(0xaffc9660, 0x38);
    OneByte(0x651f2550, 0x39);
  }

  // The check value of this checksum: that of the nine digits "123456789". Empty contents have the checksum zero.
  lemma CheckValue()
    ensures Checksum([0x31, 0x32, 0x33, 0x34, 0x35, 0x36, 0x37, 0x38, 0x39]) == 0xcbf43926
    ensures Checksum([]) == 0
  {
    hide StepByte, Fold;
    FirstCheckSteps();
    MiddleCheckSteps();
    LastCheckSteps();
    assert Fold(START, []) == START by { NothingFolds(START); }
    FoldByte(START, [], 0x31);
    FoldByte(START, [0x31], 0x32);
    FoldByte(START, [0x31, 0x32], 0x33);
    FoldByte(START, [0x31, 0x32, 0x33], 0x34);
    FoldByte(START, [0x31, 0x32, 0x33, 0x34], 0x35);
    FoldByte(START, [0x31, 0x32, 0x33, 0x34, 0x35], 0x36);
    FoldByte(START, [0x31, 0x32, 0x33, 0x34, 0x35, 0x36], 0x37);
    FoldByte(START, [0x31, 0x32, 0x33, 0x34, 0x35, 0x36, 0x37], 0x38);
    FoldByte(START, [0x31, 0x32, 0x33, 0x34, 0x35, 0x36, 0x37, 0x38], 0x39);
    assert [0x31 as bv8] == [] + [0x31];
    assert [0x31 as bv8, 0x32] == [0x31] + [0x32];
    assert [0x31 as bv8, 0x32, 0x33] == [0x31, 0x32] + [0x33];
    assert [0x31 as bv8, 0x32, 0x33, 0x34] == [0x31, 0x32, 0x33] + [0x34];
    assert [0x31 as bv8, 0x32, 0x33, 0x34, 0x35] == [0x31, 0x32, 0x33, 0x34] + [0x35];
    assert [0x31 as bv8, 0x32, 0x33, 0x34, 0x35, 0x36] == [0x31, 0x32, 0x33, 0x34, 0x35] + [0x36];
    assert [0x31 as bv8, 0x32, 0x33, 0x34, 0x35, 0x36, 0x37] == [0x31, 0x32, 0x33, 0x34, 0x35, 0x36] + [0x37];
    assert [0x31 as bv8, 0x32, 0x33, 0x34, 0x35, 0x36, 0x37, 0x38] ==
           [0x31, 0x32, 0x33, 0x34, 0x35, 0x36, 0x37] + [0x38];
    assert [0x31 as bv8, 0x32, 0x33, 0x34, 0x35, 0x36, 0x37, 0x38, 0x39] ==
           [0x31, 0x32, 0x33, 0x34, 0x35, 0x36, 0x37, 0x38] + [0x39];
  }

  lemma NothingFolds(c: bv32)
    ensures Fold(c, []) == c
  {
  }
}
