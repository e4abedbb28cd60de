// Archives as they are written (sections 4.3.7, 4.3.9, 4.3.12, 4.3.16 and 4.5.1 of PKWARE APPNOTE), against which the
// reader of directories is proved: it accepts exactly the archives it should, and finds what was written.
module ZipWriter {
  import opened Options
  import opened Zip
  import Crc32

  // ---------- Fields, low byte first ----------

  lemma NextOctet(b: bv8)
    requires b as nat < 255
    ensures (b + 1) as nat == b as nat + 1
  {
  }

  // The octet that stands for `v`.
  function Byte(v: nat): (b: bv8)
    requires v < 256
    ensures b as nat == v
  {
    if v == 0 then 0
    else
      var b := Byte(v - 1);
      NextOctet(b);
      b + 1
  }

  function Low2(v: nat): (f: seq<bv8>)
    requires v < 0x1_0000
    ensures |f| == 2
  {
    [Byte(v % 256), Byte(v / 256)]
  }

  function Low4(v: nat): (f: seq<bv8>)
    requires v < 0x1_0000_0000
    ensures |f| == 4
  {
    Low2(v % 0x1_0000) + Low2(v / 0x1_0000)
  }

  function Octets(c: bv32): (f: seq<bv8>)
    ensures |f| == 4
  {
    [(c & 0xff) as bv8, ((c >> 8) & 0xff) as bv8, ((c >> 16) & 0xff) as bv8, ((c >> 24) & 0xff) as bv8]
  }

  const LOCAL_SIGNATURE: seq<bv8> := [0x50, 0x4b, 0x03, 0x04]
  const CENTRAL_SIGNATURE: seq<bv8> := [0x50, 0x4b, 0x01, 0x02]
  const END_SIGNATURE: seq<bv8> := [0x50, 0x4b, 0x05, 0x06]
  const DESCRIPTOR_SIGNATURE: seq<bv8> := [0x50, 0x4b, 0x07, 0x08]

  // `piece` stands at `at`.
  predicate Holds(a: seq<bv8>, at: nat, piece: seq<bv8>) {
    at + |piece| <= |a| && a[at..at + |piece|] == piece
  }

  lemma HoldsBoth(a: seq<bv8>, at: nat, p: seq<bv8>, q: seq<bv8>)
    requires Holds(a, at, p + q)
    ensures Holds(a, at, p) && Holds(a, at + |p|, q)
  {
    var whole := a[at..at + |p + q|];
    assert a[at..at + |p|] == whole[..|p|] == p;
    assert a[at + |p|..at + |p| + |q|] == whole[|p|..] == q;
  }

  lemma SameByte(b: bv8, c: bv8)
    ensures b as nat == c as nat <==> b == c
  {
  }

  lemma HoldsU16(a: seq<bv8>, at: nat, v: nat)
    requires v < 0x1_0000 && Holds(a, at, Low2(v))
    ensures U16(a, at) == v
  {
    hide Byte;
    var f := a[at..at + 2];
    assert a[at] == f[0] && a[at + 1] == f[1];
  }

  lemma HoldsU32(a: seq<bv8>, at: nat, v: nat)
    requires v < 0x1_0000_0000 && Holds(a, at, Low4(v))
    ensures U32(a, at) == v
  {
    hide U16, Low2;
    HoldsBoth(a, at, Low2(v % 0x1_0000), Low2(v / 0x1_0000));
    HoldsU16(a, at, v % 0x1_0000);
    HoldsU16(a, at + 2, v / 0x1_0000);
  }

  lemma OctetsAreTheWord(c: bv32)
    ensures Crc32.Word(Octets(c)) == c
  {
  }

  lemma HoldsBits32(a: seq<bv8>, at: nat, c: bv32)
    requires Holds(a, at, Octets(c))
    ensures Bits32(a, at) == c
  {
    hide Octets, Crc32.Word;
    OctetsAreTheWord(c);
  }

  function Number(p: int, q: int, r: int, s: int): int {
    p + 256 * q + 0x1_0000 * (r + 256 * s)
  }

  lemma NumberIsUnique(p: nat, q: nat, r: nat, s: nat, w: nat, x: nat, y: nat, z: nat)
    requires p < 256 && q < 256 && r < 256 && s < 256 && w < 256 && x < 256 && y < 256 && z < 256
    ensures Number(p, q, r, s) == Number(w, x, y, z) <==> p == w && q == x && r == y && s == z
  {
    PairIsUnique(p, q, w, x, 256);
    PairIsUnique(r, s, y, z, 256);
    PairIsUnique(p + 256 * q, r + 256 * s, w + 256 * x, y + 256 * z, 0x1_0000);
  }

  lemma PairIsUnique(low: nat, high: nat, otherLow: nat, otherHigh: nat, base: nat)
    requires low < base && otherLow < base && (base == 256 || base == 0x1_0000)
    ensures low + base * high == otherLow + base * otherHigh <==> low == otherLow && high == otherHigh
  {
  }

  lemma FourOctets(f: seq<bv8>, w: bv8, x: bv8, y: bv8, z: bv8)
    requires |f| == 4
    ensures f == [w, x, y, z] <==>
            Number(f[0] as nat, f[1] as nat, f[2] as nat, f[3] as nat) ==
            Number(w as nat, x as nat, y as nat, z as nat)
  {
    hide Number;
    NumberIsUnique(f[0] as nat, f[1] as nat, f[2] as nat, f[3] as nat, w as nat, x as nat, y as nat, z as nat);
    SameByte(f[0], w);
    SameByte(f[1], x);
    SameByte(f[2], y);
    SameByte(f[3], z);
  }

  // Four octets are the number of a signature exactly when they are the signature.
  lemma HoldsSignature(a: seq<bv8>, at: nat, f: seq<bv8>)
    requires |f| == 4 && Holds(a, at, f)
    ensures U32(a, at) == LOCAL_RECORD <==> f == LOCAL_SIGNATURE
    ensures U32(a, at) == CENTRAL_RECORD <==> f == CENTRAL_SIGNATURE
    ensures U32(a, at) == END_RECORD <==> f == END_SIGNATURE
    ensures U32(a, at) == DESCRIPTOR <==> f == DESCRIPTOR_SIGNATURE
  {
    OctetsMakeNumber(a, at, f);
    hide U32;
    FourOctets(f, 0x50, 0x4b, 0x03, 0x04);
    FourOctets(f, 0x50, 0x4b, 0x01, 0x02);
    FourOctets(f, 0x50, 0x4b, 0x05, 0x06);
    FourOctets(f, 0x50, 0x4b, 0x07, 0x08);
    SignatureNumbers();
  }

  lemma SignatureNumbers()
    ensures Number(0x50, 0x4b, 0x03, 0x04) == LOCAL_RECORD && Number(0x50, 0x4b, 0x01, 0x02) == CENTRAL_RECORD
    ensures Number(0x50, 0x4b, 0x05, 0x06) == END_RECORD && Number(0x50, 0x4b, 0x07, 0x08) == DESCRIPTOR
  {
  }

  lemma OctetsMakeNumber(a: seq<bv8>, at: nat, f: seq<bv8>)
    requires |f| == 4 && Holds(a, at, f)
    ensures U32(a, at) == Number(f[0] as nat, f[1] as nat, f[2] as nat, f[3] as nat)
  {
    var g := a[at..at + 4];
    assert a[at] == g[0] && a[at + 1] == g[1] && a[at + 2] == g[2] && a[at + 3] == g[3];
  }

  // ---------- What is written ----------

  datatype Extra = Extra(id: nat, data: seq<bv8>)

  // The file mode of a Unix host: its type, its special bits and three octal digits of permissions, in which an odd
  // digit is the permission to execute.
  datatype Mode = Mode(kind: nat, special: nat, owner: nat, group: nat, other: nat)

  // `described` and `unicode` are bits 3 and 11 of the flags; the other bits are given in the groups before, between
  // and after them. With a descriptor the checksum and sizes follow the data, after a signature if `signed`.
  datatype File = File(
    name: seq<bv8>, described: bool, unicode: bool, lowFlags: nat, middleFlags: nat, highFlags: nat, compression: nat,
    checksum: bv32, data: seq<bv8>, size: nat, signed: bool, extra: seq<Extra>, localExtra: seq<Extra>,
    comment: seq<bv8>, version: nat, time: nat, date: nat, madeBy: bv8, host: bv8, disk: nat, internal: nat, dos: nat,
    mode: Mode)

  // What the end record says of disks: its own, that of the central directory, and how many records are on it.
  datatype Disks = Disks(own: nat, central: nat, records: nat)

  function ModeBits(m: Mode): nat {
    m.kind * 4096 + m.special * 512 + m.owner * 64 + m.group * 8 + m.other
  }

  function Flags(f: File): nat {
    f.lowFlags + (if f.described then 8 else 0) + f.middleFlags * 16 + (if f.unicode then 0x0800 else 0) +
    f.highFlags * 4096
  }

  predicate ExtraFits(e: Extra) {
    e.id < 0x1_0000 && |e.data| < 0x1_0000
  }

  predicate ExtrasFit(extras: seq<Extra>) {
    forall i :: 0 <= i < |extras| ==> ExtraFits(extras[i])
  }

  function Extras(extras: seq<Extra>): seq<bv8>
    requires ExtrasFit(extras)
  {
    if extras == [] then []
    else Low2(extras[0].id) + (Low2(|extras[0].data|) + (extras[0].data + Extras(extras[1..])))
  }

  // Every field fits its width, and an unsigned descriptor cannot be taken for a signed one.
  predicate Fits(f: File) {
    |f.name| < 0x1_0000 && f.lowFlags < 8 && f.middleFlags < 128 && f.highFlags < 16 && f.compression < 0x1_0000 &&
    |f.data| < 0x1_0000_0000 && f.size < 0x1_0000_0000 && ExtrasFit(f.extra) && ExtrasFit(f.localExtra) &&
    |Extras(f.extra)| < 0x1_0000 && |Extras(f.localExtra)| < 0x1_0000 && |f.comment| < 0x1_0000 &&
    f.version < 0x1_0000 && f.time < 0x1_0000 && f.date < 0x1_0000 && f.disk < 0x1_0000 && f.internal < 0x1_0000 &&
    f.dos < 0x1_0000 && f.mode.kind < 16 && f.mode.special < 8 && f.mode.owner < 8 && f.mode.group < 8 &&
    f.mode.other < 8 && (f.described && !f.signed ==> Octets(f.checksum) != DESCRIPTOR_SIGNATURE)
  }

  lemma FlagsFit(f: File)
    requires Fits(f)
    ensures Flags(f) < 0x1_0000 && ModeBits(f.mode) < 0x1_0000
  {
  }

  // Checksum and sizes.
  function Sums(f: File): (sums: seq<bv8>)
    requires Fits(f)
    ensures |sums| == 12
  {
    Octets(f.checksum) + (Low4(|f.data|) + Low4(f.size))
  }

  const NO_SUMS: seq<bv8> := [0, 0, 0, 0, 0, 0, 0, 0, 0, 0, 0, 0]

  // A local header up to its sums.
  function LocalStart(f: File): (part: seq<bv8>)
    requires Fits(f)
    ensures |part| == 14
  {
    FlagsFit(f);
    LOCAL_SIGNATURE +
    (Low2(f.version) + (Low2(Flags(f)) + (Low2(f.compression) + (Low2(f.time) + Low2(f.date)))))
  }

  function LocalSums(f: File): (sums: seq<bv8>)
    requires Fits(f)
    ensures |sums| == 12
  {
    if f.described then NO_SUMS else Sums(f)
  }

  function LocalHeader(f: File): (header: seq<bv8>)
    requires Fits(f)
    ensures |header| == 30 + |f.name| + |Extras(f.localExtra)|
  {
    LocalStart(f) +
    (LocalSums(f) + (Low2(|f.name|) + (Low2(|Extras(f.localExtra)|) + (f.name + Extras(f.localExtra)))))
  }

  function Descriptor(f: File): seq<bv8>
    requires Fits(f)
  {
    if !f.described then [] else if f.signed then DESCRIPTOR_SIGNATURE + Sums(f) else Sums(f)
  }

  function LocalBytes(f: File): seq<bv8>
    requires Fits(f)
  {
    LocalHeader(f) + (f.data + Descriptor(f))
  }

  // A central record up to its sums.
  function CentralStart(f: File): (part: seq<bv8>)
    requires Fits(f)
    ensures |part| == 16
  {
    FlagsFit(f);
    CENTRAL_SIGNATURE +
    ([f.madeBy, f.host] +
     (Low2(f.version) + (Low2(Flags(f)) + (Low2(f.compression) + (Low2(f.time) + Low2(f.date))))))
  }

  function CentralLengths(f: File): (part: seq<bv8>)
    requires Fits(f)
    ensures |part| == 6
  {
    Low2(|f.name|) + (Low2(|Extras(f.extra)|) + Low2(|f.comment|))
  }

  // The rest of a central record's fields, for a local record at `start`.
  function CentralPlace(f: File, start: nat): (part: seq<bv8>)
    requires Fits(f) && start < 0x1_0000_0000
    ensures |part| == 12
  {
    FlagsFit(f);
    Low2(f.disk) + (Low2(f.internal) + ((Low2(f.dos) + Low2(ModeBits(f.mode))) + Low4(start)))
  }

  function CentralBytes(f: File, start: nat): (record: seq<bv8>)
    requires Fits(f) && start < 0x1_0000_0000
    ensures |record| == 46 + |f.name| + |Extras(f.extra)| + |f.comment|
  {
    CentralStart(f) +
    (Sums(f) + (CentralLengths(f) + (CentralPlace(f, start) + (f.name + (Extras(f.extra) + f.comment)))))
  }

  // ---------- One local record ----------

  lemma InRange(a: seq<bv8>, at: nat, piece: seq<bv8>)
    requires Holds(a, at, piece)
    ensures at + |piece| <= |a|
  {
  }

  predicate LocalFieldsHold(a: seq<bv8>, at: nat, f: File)
    requires Fits(f)
  {
    at + 30 + |f.name| + |Extras(f.localExtra)| <= |a| && U32(a, at) == LOCAL_RECORD && U16(a, at + 6) == Flags(f) &&
    U16(a, at + 8) == f.compression && U16(a, at + 26) == |f.name| && U16(a, at + 28) == |Extras(f.localExtra)| &&
    Holds(a, at + 14, LocalSums(f)) && Holds(a, at + 30, f.name) &&
    Holds(a, at + 30 + |f.name|, Extras(f.localExtra))
  }

  lemma LocalStartHolds(a: seq<bv8>, at: nat, f: File)
    requires Fits(f) && Holds(a, at, LocalStart(f))
    ensures at + 14 <= |a| && U32(a, at) == LOCAL_RECORD && U16(a, at + 6) == Flags(f) &&
            U16(a, at + 8) == f.compression
  {
    hide Holds, Low2, U16, U32, Flags;
    FlagsFit(f);
    InRange(a, at, LocalStart(f));
    var tail3 := Low2(f.compression) + (Low2(f.time) + Low2(f.date));
    var tail2 := Low2(Flags(f)) + tail3;
    HoldsBoth(a, at, LOCAL_SIGNATURE, Low2(f.version) + tail2);
    HoldsBoth(a, at + 4, Low2(f.version), tail2);
    HoldsBoth(a, at + 6, Low2(Flags(f)), tail3);
    HoldsBoth(a, at + 8, Low2(f.compression), Low2(f.time) + Low2(f.date));
    HoldsSignature(a, at, LOCAL_SIGNATURE);
    HoldsU16(a, at + 6, Flags(f));
    HoldsU16(a, at + 8, f.compression);
  }

  lemma LocalHeaderHolds(a: seq<bv8>, at: nat, f: File)
    requires Fits(f) && Holds(a, at, LocalHeader(f))
    ensures LocalFieldsHold(a, at, f)
  {
    hide Holds, Low2, Extras, LocalSums, LocalStart, U16, U32, Flags, Fits;
    FitsLengths(f);
    InRange(a, at, LocalHeader(f));
    var names := f.name + Extras(f.localExtra);
    var lengths := Low2(|f.name|) + (Low2(|Extras(f.localExtra)|) + names);
    HoldsBoth(a, at, LocalStart(f), LocalSums(f) + lengths);
    HoldsBoth(a, at + 14, LocalSums(f), lengths);
    HoldsBoth(a, at + 26, Low2(|f.name|), Low2(|Extras(f.localExtra)|) + names);
    HoldsBoth(a, at + 28, Low2(|Extras(f.localExtra)|), names);
    HoldsBoth(a, at + 30, f.name, Extras(f.localExtra));
    LocalStartHolds(a, at, f);
    HoldsU16(a, at + 26, |f.name|);
    HoldsU16(a, at + 28, |Extras(f.localExtra)|);
  }

  lemma FitsLengths(f: File)
    requires Fits(f)
    ensures ExtrasFit(f.extra) && ExtrasFit(f.localExtra)
    ensures |f.name| < 0x1_0000 && |Extras(f.extra)| < 0x1_0000 && |Extras(f.localExtra)| < 0x1_0000 &&
            |f.comment| < 0x1_0000
  {
  }

  // ---------- Extra fields ----------

  predicate NoneIsZip64(extras: seq<Extra>) {
    forall i :: 0 <= i < |extras| ==> extras[i].id != 1
  }

  lemma {:induction false} ExtrasArePlain(a: seq<bv8>, at: nat, extras: seq<Extra>)
    requires ExtrasFit(extras) && Holds(a, at, Extras(extras))
    ensures at + |Extras(extras)| <= |a| && (PlainExtra(a, at, at + |Extras(extras)|) <==> NoneIsZip64(extras))
    decreases |extras|
  {
    hide Holds, Low2, U16;
    InRange(a, at, Extras(extras));
    if extras == [] {
    } else {
      var e, rest := extras[0], Extras(extras[1..]);
      assert ExtraFits(e);
      HoldsBoth(a, at, Low2(e.id), Low2(|e.data|) + (e.data + rest));
      HoldsBoth(a, at + 2, Low2(|e.data|), e.data + rest);
      HoldsBoth(a, at + 4, e.data, rest);
      HoldsU16(a, at, e.id);
      HoldsU16(a, at + 2, |e.data|);
      ExtrasArePlain(a, at + 4 + |e.data|, extras[1..]);
      assert NoneIsZip64(extras) <==> e.id != 1 && NoneIsZip64(extras[1..]) by {
        assert extras == [e] + extras[1..];
      }
    }
  }

  // ---------- One central record ----------

  predicate CentralFieldsHold(a: seq<bv8>, at: nat, f: File, start: nat)
    requires Fits(f) && start < 0x1_0000_0000
  {
    at + 46 + |f.name| + |Extras(f.extra)| + |f.comment| <= |a| && U32(a, at) == CENTRAL_RECORD &&
    U16(a, at + 4) / 256 == f.host as nat && U16(a, at + 8) == Flags(f) && U16(a, at + 10) == f.compression &&
    Bits32(a, at + 16) == f.checksum && U32(a, at + 20) == |f.data| && U32(a, at + 24) == f.size &&
    U16(a, at + 28) == |f.name| && U16(a, at + 30) == |Extras(f.extra)| && U16(a, at + 32) == |f.comment| &&
    U16(a, at + 34) == f.disk && U32(a, at + 38) / 0x1_0000 == ModeBits(f.mode) && U32(a, at + 42) == start &&
    Holds(a, at + 46, f.name) && Holds(a, at + 46 + |f.name|, Extras(f.extra))
  }

  lemma SumsHold(a: seq<bv8>, at: nat, f: File)
    requires Fits(f) && Holds(a, at, Sums(f))
    ensures at + 12 <= |a| && Bits32(a, at) == f.checksum && U32(a, at + 4) == |f.data| && U32(a, at + 8) == f.size
  {
    hide Holds, Octets, Low4, U32, Bits32;
    InRange(a, at, Sums(f));
    HoldsBoth(a, at, Octets(f.checksum), Low4(|f.data|) + Low4(f.size));
    HoldsBoth(a, at + 4, Low4(|f.data|), Low4(f.size));
    HoldsBits32(a, at, f.checksum);
    HoldsU32(a, at + 4, |f.data|);
    HoldsU32(a, at + 8, f.size);
  }

  lemma HoldsHost(a: seq<bv8>, at: nat, madeBy: bv8, host: bv8)
    requires Holds(a, at, [madeBy, host])
    ensures U16(a, at) / 256 == host as nat
  {
    var f := a[at..at + 2];
    assert a[at] == f[0] && a[at + 1] == f[1];
    assert a[at] as nat < 256;
  }

  lemma CentralStartHolds(a: seq<bv8>, at: nat, f: File)
    requires Fits(f) && Holds(a, at, CentralStart(f))
    ensures at + 16 <= |a| && U32(a, at) == CENTRAL_RECORD && U16(a, at + 4) / 256 == f.host as nat &&
            U16(a, at + 8) == Flags(f) && U16(a, at + 10) == f.compression
  {
    hide Holds, Low2, U16, U32, Flags;
    FlagsFit(f);
    InRange(a, at, CentralStart(f));
    var tail3 := Low2(f.compression) + (Low2(f.time) + Low2(f.date));
    var tail2 := Low2(Flags(f)) + tail3;
    HoldsBoth(a, at, CENTRAL_SIGNATURE, [f.madeBy, f.host] + (Low2(f.version) + tail2));
    HoldsBoth(a, at + 4, [f.madeBy, f.host], Low2(f.version) + tail2);
    HoldsBoth(a, at + 6, Low2(f.version), tail2);
    HoldsBoth(a, at + 8, Low2(Flags(f)), tail3);
    HoldsBoth(a, at + 10, Low2(f.compression), Low2(f.time) + Low2(f.date));
    HoldsSignature(a, at, CENTRAL_SIGNATURE);
    HoldsHost(a, at + 4, f.madeBy, f.host);
    HoldsU16(a, at + 8, Flags(f));
    HoldsU16(a, at + 10, f.compression);
  }

  lemma CentralLengthsHold(a: seq<bv8>, at: nat, f: File)
    requires Fits(f) && Holds(a, at, CentralLengths(f))
    ensures at + 6 <= |a| && U16(a, at) == |f.name| && U16(a, at + 2) == |Extras(f.extra)| &&
            U16(a, at + 4) == |f.comment|
  {
    hide Holds, Low2, U16, Extras;
    InRange(a, at, CentralLengths(f));
    HoldsBoth(a, at, Low2(|f.name|), Low2(|Extras(f.extra)|) + Low2(|f.comment|));
    HoldsBoth(a, at + 2, Low2(|Extras(f.extra)|), Low2(|f.comment|));
    HoldsU16(a, at, |f.name|);
    HoldsU16(a, at + 2, |Extras(f.extra)|);
    HoldsU16(a, at + 4, |f.comment|);
  }

  lemma CentralPlaceHolds(a: seq<bv8>, at: nat, f: File, start: nat)
    requires Fits(f) && start < 0x1_0000_0000 && Holds(a, at, CentralPlace(f, start))
    ensures at + 12 <= |a| && U16(a, at) == f.disk && U32(a, at + 4) / 0x1_0000 == ModeBits(f.mode) &&
            U32(a, at + 8) == start
  {
    hide Holds, Low2, Low4, U16, ModeBits;
    FlagsFit(f);
    InRange(a, at, CentralPlace(f, start));
    var attributes := Low2(f.dos) + Low2(ModeBits(f.mode));
    HoldsBoth(a, at, Low2(f.disk), Low2(f.internal) + (attributes + Low4(start)));
    HoldsBoth(a, at + 2, Low2(f.internal), attributes + Low4(start));
    HoldsBoth(a, at + 4, attributes, Low4(start));
    HoldsBoth(a, at + 4, Low2(f.dos), Low2(ModeBits(f.mode)));
    HoldsU16(a, at, f.disk);
    HoldsU16(a, at + 4, f.dos);
    HoldsU16(a, at + 6, ModeBits(f.mode));
    HoldsU32(a, at + 8, start);
  }

  lemma CentralBytesHold(a: seq<bv8>, at: nat, f: File, start: nat)
    requires Fits(f) && start < 0x1_0000_0000 && Holds(a, at, CentralBytes(f, start))
    ensures CentralFieldsHold(a, at, f, start)
  {
    hide Holds, Extras, Sums, CentralStart, CentralLengths, CentralPlace, U16, U32, Bits32, Flags, ModeBits, Fits;
    FitsLengths(f);
    InRange(a, at, CentralBytes(f, start));
    var names := f.name + (Extras(f.extra) + f.comment);
    HoldsBoth(a, at, CentralStart(f), Sums(f) + (CentralLengths(f) + (CentralPlace(f, start) + names)));
    HoldsBoth(a, at + 16, Sums(f), CentralLengths(f) + (CentralPlace(f, start) + names));
    HoldsBoth(a, at + 28, CentralLengths(f), CentralPlace(f, start) + names);
    HoldsBoth(a, at + 34, CentralPlace(f, start), names);
    HoldsBoth(a, at + 46, f.name, Extras(f.extra) + f.comment);
    HoldsBoth(a, at + 46 + |f.name|, Extras(f.extra), f.comment);
    CentralStartHolds(a, at, f);
    SumsHold(a, at + 16, f);
    CentralLengthsHold(a, at + 28, f);
    CentralPlaceHolds(a, at + 34, f, start);
  }

  // The name reads as one that a member may have.
  predicate NameAllowed(rules: NameRules, name: seq<bv8>) {
    var read := rules.read(name);
    read.Some? && !rules.runnable(read.value) && (read.value != "" ==> read.value[|read.value| - 1] != '/')
  }

  // As far as a Unix host says: a regular file, or of no stated type, that nobody may execute.
  predicate ModeAllowed(f: File) {
    f.host == 3 ==>
      (f.mode.kind == 0 || f.mode.kind == 8) && f.mode.owner % 2 == 0 && f.mode.group % 2 == 0 && f.mode.other % 2 == 0
  }

  // What a member may say of itself.
  predicate Allowed(rules: NameRules, f: File) {
    NameAllowed(rules, f.name) && f.lowFlags == f.middleFlags == f.highFlags == 0 &&
    (f.compression == 0 || f.compression == 8) && f.disk == 0 && NoneIsZip64(f.extra) && ModeAllowed(f) &&
    |f.data| != 0xffffffff && f.size != 0xffffffff
  }

  function MemberOf(rules: NameRules, f: File, start: nat): Member {
    var read := rules.read(f.name);
    Member(if read.Some? then read.value else "", Flags(f), f.compression, f.checksum, |f.data|, f.size, start)
  }

  lemma FlagsArePlain(f: File)
    requires Fits(f)
    ensures PlainFlags(Flags(f)) <==> f.lowFlags == f.middleFlags == f.highFlags == 0
    ensures PlainFlags(Flags(f)) ==> (HasDescriptor(Flags(f)) <==> f.described)
  {
  }

  lemma ModeIsRegular(f: File, attributes: nat)
    requires Fits(f) && attributes / 0x1_0000 == ModeBits(f.mode)
    ensures RegularMode(f.host as nat, attributes) <==> ModeAllowed(f)
  {
    var m := f.mode;
    var bits := ModeBits(m);
    assert bits / 0x1000 == m.kind;
    assert bits % 2 == m.other % 2;
    assert bits / 8 == m.kind * 512 + m.special * 64 + m.owner * 8 + m.group;
    assert bits / 64 == m.kind * 64 + m.special * 8 + m.owner;
    SameByte(f.host, 3);
  }

  // A central record that was written is read exactly when its member is allowed, and as what was written.
  lemma CentralIsRead(a: seq<bv8>, rules: NameRules, at: nat, limit: nat, f: File, start: nat, m: Member)
    requires Fits(f) && start < 0xffffffff && Holds(a, at, CentralBytes(f, start))
    requires at + |CentralBytes(f, start)| <= limit <= |a|
    ensures CentralRecord(a, rules, at, limit, m) <==> Allowed(rules, f) && m == MemberOf(rules, f, start)
    ensures at + 46 <= |a| && CentralEnd(a, at) == at + |CentralBytes(f, start)|
  {
    hide Holds, Extras, Sums, CentralStart, CentralLengths, CentralPlace, U16, U32, Bits32, Flags, ModeBits, PlainExtra,
         RegularMode, ModeAllowed, NoneIsZip64, PlainFlags, CentralBytes;
    CentralBytesHold(a, at, f, start);
    FlagsArePlain(f);
    ModeIsRegular(f, U32(a, at + 38));
    ExtrasArePlain(a, at + 46 + |f.name|, f.extra);
    NameStands(a, at + 46, f.name);
  }

  lemma NameStands(a: seq<bv8>, at: nat, name: seq<bv8>)
    requires Holds(a, at, name)
    ensures at + |name| <= |a| && a[at..at + |name|] == name
  {
  }

  // ---------- All central records ----------

  ghost predicate AllFit(files: seq<File>) {
    forall i :: 0 <= i < |files| ==> Fits(files[i])
  }

  ghost function Locals(files: seq<File>): seq<bv8>
    requires AllFit(files)
  {
    if files == [] then [] else LocalBytes(files[0]) + Locals(files[1..])
  }

  // The central records of files whose local records are written from `start` on.
  ghost function Centrals(files: seq<File>, start: nat): seq<bv8>
    requires AllFit(files) && start + |Locals(files)| < 0xffffffff
  {
    if files == [] then []
    else CentralBytes(files[0], start) + Centrals(files[1..], start + |LocalBytes(files[0])|)
  }

  ghost function MembersOf(rules: NameRules, files: seq<File>, start: nat): (members: seq<Member>)
    requires AllFit(files)
    ensures |members| == |files|
  {
    if files == [] then []
    else [MemberOf(rules, files[0], start)] + MembersOf(rules, files[1..], start + |LocalBytes(files[0])|)
  }

  ghost predicate AllAllowed(rules: NameRules, files: seq<File>) {
    forall i :: 0 <= i < |files| ==> Allowed(rules, files[i])
  }

  lemma {:induction false} CentralsAreRead(a: seq<bv8>, rules: NameRules, at: nat, stop: nat, files: seq<File>,
                                           start: nat, members: seq<Member>)
    requires AllFit(files) && start + |Locals(files)| < 0xffffffff && |members| == |files|
    requires Holds(a, at, Centrals(files, start)) && at + |Centrals(files, start)| == stop <= |a|
    ensures CentralTiles(a, rules, members, at, stop, stop) <==>
            AllAllowed(rules, files) && members == MembersOf(rules, files, start)
    decreases |files|
  {
    hide Holds, CentralBytes, CentralRecord, Allowed, MemberOf, CentralEnd, LocalBytes, Fits;
    if files == [] {
    } else {
      var f, next := files[0], start + |LocalBytes(files[0])|;
      assert Fits(f);
      HoldsBoth(a, at, CentralBytes(f, start), Centrals(files[1..], next));
      CentralIsRead(a, rules, at, stop, f, start, members[0]);
      CentralsAreRead(a, rules, at + |CentralBytes(f, start)|, stop, files[1..], next, members[1..]);
      assert AllAllowed(rules, files) <==> Allowed(rules, f) && AllAllowed(rules, files[1..]) by {
        assert files == [f] + files[1..];
      }
      assert members == [members[0]] + members[1..];
    }
  }

  function TotalSize(files: seq<File>): nat {
    if files == [] then 0 else files[0].size + TotalSize(files[1..])
  }

  lemma {:induction false} DeclaredFront(members: seq<Member>)
    requires members != []
    ensures Declared(members) == members[0].uncompressedSize + Declared(members[1..])
    decreases |members|
  {
    if |members| == 1 {
      assert members[..0] == [] && members[1..] == [];
    } else {
      var earlier := members[..|members| - 1];
      DeclaredFront(earlier);
      assert earlier[1..] == members[1..][..|members| - 2];
    }
  }

  lemma {:induction false} SizesAreDeclared(rules: NameRules, files: seq<File>, start: nat)
    requires AllFit(files)
    ensures Declared(MembersOf(rules, files, start)) == TotalSize(files)
    ensures forall i :: 0 <= i < |files| ==> MembersOf(rules, files, start)[i].uncompressedSize == files[i].size
    decreases |files|
  {
    hide Fits, LocalBytes, Declared;
    if files == [] {
      assert Declared([]) == 0 by { NothingDeclared(); }
    } else {
      var next := start + |LocalBytes(files[0])|;
      SizesAreDeclared(rules, files[1..], next);
      DeclaredFront(MembersOf(rules, files, start));
      assert MembersOf(rules, files, start)[1..] == MembersOf(rules, files[1..], next);
    }
  }

  lemma NothingDeclared()
    ensures Declared([]) == 0
  {
  }

  // ---------- All local records ----------

  lemma DescriptorHolds(a: seq<bv8>, at: nat, f: File, limit: nat)
    requires Fits(f) && f.described && Holds(a, at, Descriptor(f)) && at + |Descriptor(f)| <= limit <= |a|
    ensures var sums := DescriptorOffset(a, at, limit);
            sums + 12 == at + |Descriptor(f)| && Bits32(a, sums) == f.checksum && U32(a, sums + 4) == |f.data| &&
            U32(a, sums + 8) == f.size
  {
    hide Holds, U32, Bits32, Octets, Low4;
    if f.signed {
      HoldsBoth(a, at, DESCRIPTOR_SIGNATURE, Sums(f));
      HoldsSignature(a, at, DESCRIPTOR_SIGNATURE);
      SumsHold(a, at + 4, f);
    } else {
      HoldsBoth(a, at, Octets(f.checksum), Low4(|f.data|) + Low4(f.size));
      HoldsSignature(a, at, Octets(f.checksum));
      SumsHold(a, at, f);
    }
  }

  // A local record that was written agrees with its central record as long as its own extra fields are plain, and its
  // data is where it was written.
  lemma LocalIsRead(a: seq<bv8>, rules: NameRules, f: File, start: nat, limit: nat)
    requires Fits(f) && Allowed(rules, f) && Holds(a, start, LocalBytes(f)) && start + |LocalBytes(f)| <= limit <= |a|
    ensures var m := MemberOf(rules, f, start);
            start + 30 <= |a| && DataOffset(a, m) == start + |LocalHeader(f)| &&
            RecordEnd(a, m, limit) == start + |LocalBytes(f)| && Holds(a, DataOffset(a, m), f.data) &&
            (LocalRecord(a, rules, m, limit) <==> NoneIsZip64(f.localExtra))
  {
    hide Holds, Extras, Sums, LocalHeader, Descriptor, U16, U32, Bits32, Flags, PlainExtra, ModeAllowed, NoneIsZip64,
         PlainFlags, DescriptorOffset, NO_SUMS;
    HoldsBoth(a, start, LocalHeader(f), f.data + Descriptor(f));
    HoldsBoth(a, start + |LocalHeader(f)|, f.data, Descriptor(f));
    LocalHeaderHolds(a, start, f);
    FlagsArePlain(f);
    ExtrasArePlain(a, start + 30 + |f.name|, f.localExtra);
    NameStands(a, start + 30, f.name);
    if f.described {
      DescriptorHolds(a, start + |LocalHeader(f)| + |f.data|, f, limit);
    } else {
      SumsHold(a, start + 14, f);
      NoDescriptor(f);
    }
  }

  lemma NoDescriptor(f: File)
    requires Fits(f) && !f.described
    ensures Descriptor(f) == []
  {
  }

  // Where the local record of the i-th file starts.
  ghost function StartOf(files: seq<File>, start: nat, i: nat): nat
    requires AllFit(files) && i <= |files|
  {
    if i == 0 then start else StartOf(files[1..], start + |LocalBytes(files[0])|, i - 1)
  }

  lemma {:induction false} LocalAt(a: seq<bv8>, rules: NameRules, files: seq<File>, start: nat, i: nat)
    requires AllFit(files) && Holds(a, start, Locals(files)) && i < |files|
    ensures Holds(a, StartOf(files, start, i), LocalBytes(files[i]))
    ensures start <= StartOf(files, start, i) &&
            StartOf(files, start, i) + |LocalBytes(files[i])| <= start + |Locals(files)|
    ensures MembersOf(rules, files, start)[i] == MemberOf(rules, files[i], StartOf(files, start, i))
    decreases i
  {
    hide Holds, LocalBytes, MemberOf, Fits;
    var next := start + |LocalBytes(files[0])|;
    HoldsBoth(a, start, LocalBytes(files[0]), Locals(files[1..]));
    if i > 0 { LocalAt(a, rules, files[1..], next, i - 1); }
  }

  lemma {:induction false} StartsFollow(files: seq<File>, start: nat, i: nat, j: nat)
    requires AllFit(files) && i < j < |files|
    ensures StartOf(files, start, i) + |LocalBytes(files[i])| <= StartOf(files, start, j)
    decreases i
  {
    hide LocalBytes, Fits;
    var next := start + |LocalBytes(files[0])|;
    if i > 0 {
      StartsFollow(files[1..], next, i - 1, j - 1);
    } else {
      StartsAfter(files[1..], next, j - 1);
    }
  }

  lemma {:induction false} StartsAfter(files: seq<File>, start: nat, j: nat)
    requires AllFit(files) && j < |files|
    ensures start <= StartOf(files, start, j)
    decreases j
  {
    hide LocalBytes, Fits;
    if j > 0 { StartsAfter(files[1..], start + |LocalBytes(files[0])|, j - 1); }
  }

  ghost predicate LocalsPlain(files: seq<File>) {
    forall i :: 0 <= i < |files| ==> NoneIsZip64(files[i].localExtra)
  }

  lemma LocalsAreRead(a: seq<bv8>, rules: NameRules, files: seq<File>, limit: nat)
    requires AllFit(files) && AllAllowed(rules, files) && Holds(a, 0, Locals(files)) && |Locals(files)| == limit <= |a|
    ensures LocalsFit(a, rules, MembersOf(rules, files, 0), limit) <==> LocalsPlain(files)
  {
    hide Holds, LocalBytes, MemberOf, Fits, Allowed, LocalRecord, RecordEnd, NoneIsZip64, StartOf;
    var members := MembersOf(rules, files, 0);
    forall i | 0 <= i < |files|
      ensures members[i].localOffset + 30 <= limit && members[i].localOffset == StartOf(files, 0, i)
      ensures RecordEnd(a, members[i], limit) == StartOf(files, 0, i) + |LocalBytes(files[i])|
      ensures LocalRecord(a, rules, members[i], limit) <==> NoneIsZip64(files[i].localExtra)
    {
      assert Fits(files[i]) && Allowed(rules, files[i]);
      LocalAt(a, rules, files, 0, i);
      LocalIsRead(a, rules, files[i], StartOf(files, 0, i), limit);
      MemberStart(rules, files[i], StartOf(files, 0, i));
      LocalIsLong(files[i]);
    }
    forall i, j | 0 <= i < j < |members| ensures Apart(SpanOf(a, members[i], limit), SpanOf(a, members[j], limit)) {
      StartsFollow(files, 0, i, j);
    }
  }

  lemma MemberStart(rules: NameRules, f: File, start: nat)
    ensures MemberOf(rules, f, start).localOffset == start
  {
  }

  lemma LocalIsLong(f: File)
    requires Fits(f)
    ensures |LocalBytes(f)| >= 30
  {
  }

  // ---------- The archive ----------

  ghost function EndBytes(files: seq<File>, disks: Disks): (record: seq<bv8>)
    requires ArchiveFits(files, disks)
    ensures |record| == 22
  {
    END_SIGNATURE +
    (Low2(disks.own) +
     (Low2(disks.central) +
      (Low2(disks.records) +
       (Low2(|files|) + (Low4(|Centrals(files, 0)|) + (Low4(|Locals(files)|) + Low2(0)))))))
  }

  ghost predicate ArchiveFits(files: seq<File>, disks: Disks) {
    AllFit(files) && |files| < 0x1_0000 && disks.own < 0x1_0000 && disks.central < 0x1_0000 &&
    disks.records < 0x1_0000 && |Locals(files)| < 0xffffffff && |Centrals(files, 0)| < 0xffffffff
  }

  ghost function Archive(files: seq<File>, disks: Disks): seq<bv8>
    requires ArchiveFits(files, disks)
  {
    Locals(files) + (Centrals(files, 0) + EndBytes(files, disks))
  }

  lemma EndIsRead(a: seq<bv8>, at: nat, files: seq<File>, disks: Disks)
    requires ArchiveFits(files, disks) && Holds(a, at, EndBytes(files, disks)) && at + 22 == |a|
    ensures EndRecordAt(a, at) && U16(a, at + 4) == disks.own && U16(a, at + 6) == disks.central &&
            U16(a, at + 8) == disks.records && U16(a, at + 10) == |files| && U32(a, at + 12) == |Centrals(files, 0)| &&
            U32(a, at + 16) == |Locals(files)|
  {
    hide Holds, Low2, Low4, U16, U32, Locals, Centrals, AllFit;
    var tail6 := Low4(|Locals(files)|) + Low2(0);
    var tail5 := Low4(|Centrals(files, 0)|) + tail6;
    var tail4 := Low2(|files|) + tail5;
    var tail3 := Low2(disks.records) + tail4;
    var tail2 := Low2(disks.central) + tail3;
    HoldsBoth(a, at, END_SIGNATURE, Low2(disks.own) + tail2);
    HoldsBoth(a, at + 4, Low2(disks.own), tail2);
    HoldsBoth(a, at + 6, Low2(disks.central), tail3);
    HoldsBoth(a, at + 8, Low2(disks.records), tail4);
    HoldsBoth(a, at + 10, Low2(|files|), tail5);
    HoldsBoth(a, at + 12, Low4(|Centrals(files, 0)|), tail6);
    HoldsBoth(a, at + 16, Low4(|Locals(files)|), Low2(0));
    HoldsSignature(a, at, END_SIGNATURE);
    HoldsU16(a, at + 4, disks.own);
    HoldsU16(a, at + 6, disks.central);
    HoldsU16(a, at + 8, disks.records);
    HoldsU16(a, at + 10, |files|);
    HoldsU32(a, at + 12, |Centrals(files, 0)|);
    HoldsU32(a, at + 16, |Locals(files)|);
    HoldsU16(a, at + 20, 0);
  }

  // What an archive must say to be accepted: one disk, 1 to 32 allowed members without 64-bit extensions, at most 1 MiB
  // each and 4 MiB together, in at most 8 MiB.
  ghost predicate Acceptable(rules: NameRules, files: seq<File>, disks: Disks)
    requires ArchiveFits(files, disks)
  {
    disks == Disks(0, 0, |files|) && 1 <= |files| <= 32 && |Archive(files, disks)| <= 8388608 &&
    AllAllowed(rules, files) && LocalsPlain(files) && TotalSize(files) <= 4194304 &&
    forall i :: 0 <= i < |files| ==> files[i].size <= 1048576
  }

  lemma ArchiveParts(files: seq<File>, disks: Disks)
    requires ArchiveFits(files, disks)
    ensures var a, end := Archive(files, disks), |Locals(files)| + |Centrals(files, 0)|;
            |a| == end + 22 && Holds(a, 0, Locals(files)) && Holds(a, |Locals(files)|, Centrals(files, 0)) &&
            Holds(a, end, EndBytes(files, disks))
  {
    hide Locals, Centrals, Holds, EndBytes, AllFit;
    var a := Archive(files, disks);
    HoldsItself(a);
    HoldsBoth(a, 0, Locals(files), Centrals(files, 0) + EndBytes(files, disks));
    HoldsBoth(a, |Locals(files)|, Centrals(files, 0), EndBytes(files, disks));
  }

  lemma HoldsItself(a: seq<bv8>)
    ensures Holds(a, 0, a)
  {
    assert a[0..|a|] == a;
  }

  // The end record written is the only one that can count.
  lemma EndIsLast(a: seq<bv8>, end: nat, at: nat)
    requires EndRecordAt(a, end) && end + 22 == |a|
    ensures LastEndRecord(a, at) <==> at == end
  {
    hide U32, U16;
    assert end > at ==> !LastEndRecord(a, at);
  }

  // The reader accepts exactly the archives that it should: of everything that can be written, those that say what is
  // allowed, and it finds just their members.
  lemma WrittenArchiveIsAcceptedExactlyWhen(rules: NameRules, files: seq<File>, disks: Disks, end: nat,
                                            members: seq<Member>)
    requires ArchiveFits(files, disks)
    ensures var a := Archive(files, disks);
            Directory(a, rules, end, members) <==>
            Acceptable(rules, files, disks) && end + 22 == |a| && members == MembersOf(rules, files, 0)
  {
    hide Archive, Locals, Centrals, EndBytes, Holds, AllFit, U16, U32, LocalsFit, CentralTiles, LastEndRecord,
         EndRecordAt, AllAllowed, LocalsPlain, MembersOf, Declared, TotalSize;
    var a, at := Archive(files, disks), |Locals(files)| + |Centrals(files, 0)|;
    ArchiveParts(files, disks);
    EndIsRead(a, at, files, disks);
    EndIsLast(a, at, end);
    if end == at && |members| == |files| {
      CentralsAreRead(a, rules, |Locals(files)|, at, files, 0, members);
      SizesAreDeclared(rules, files, 0);
      if AllAllowed(rules, files) && members == MembersOf(rules, files, 0) {
        LocalsAreRead(a, rules, files, |Locals(files)|);
        assert SizesAllowed(members) <==>
               TotalSize(files) <= 4194304 && forall i :: 0 <= i < |files| ==> files[i].size <= 1048576 by {
          assert forall i :: 0 <= i < |files| ==> members[i].uncompressedSize == files[i].size;
        }
      }
    }
  }

  // What is read of an accepted archive is what was written: the data of every member is found where it stands, and a
  // stored member whose sums are right gives it back.
  lemma WrittenDataIsReadBack(rules: NameRules, files: seq<File>, disks: Disks, i: nat,
                              inflate: seq<bv8> -> Option<seq<bv8>>)
    requires ArchiveFits(files, disks) && Acceptable(rules, files, disks) && i < |files|
    ensures var a, m := Archive(files, disks), MembersOf(rules, files, 0)[i];
            m.localOffset + 30 <= |a| &&
            var e := Entry(m, DataOffset(a, m));
            e.dataOffset + m.compressedSize <= |a| && Data(a, e) == files[i].data &&
            Some(m.name) == rules.read(files[i].name) &&
            (files[i].compression == 0 ==>
               Contents(a, e, inflate) == Some(files[i].data) &&
               (Intact(files[i].data, m) <==>
                files[i].size == |files[i].data| && files[i].checksum == Crc32.Checksum(files[i].data)))
  {
    hide Archive, Locals, Centrals, EndBytes, LocalBytes, LocalHeader, LocalRecord, RecordEnd, StartOf, Fits, Flags,
         Crc32.Checksum, U16;
    var a, f := Archive(files, disks), files[i];
    ArchiveParts(files, disks);
    assert Fits(f) && Allowed(rules, f);
    LocalAt(a, rules, files, 0, i);
    LocalIsRead(a, rules, f, StartOf(files, 0, i), |Locals(files)|);
  }
}
