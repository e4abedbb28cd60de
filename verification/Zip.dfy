// The directory of an evidence archive (sections 4.3.7, 4.3.9, 4.3.12 and 4.3.16 of PKWARE APPNOTE): what an accepted
// archive guarantees about where its members lie.
module Zip {
  import opened Options
  import opened Sorting
  import Crc32

  const END_RECORD: nat := 0x06054b50
  const CENTRAL_RECORD: nat := 0x02014b50
  const LOCAL_RECORD: nat := 0x04034b50
  const DESCRIPTOR: nat := 0x08074b50
  const ZIP64_EXTRA: nat := 1

  const ARCHIVE_BYTES: nat := 8 * 1024 * 1024
  const TOTAL_BYTES: nat := 4 * 1024 * 1024
  const MEMBER_BYTES: nat := 1024 * 1024
  const FILE_COUNT: nat := 32

  // How names are decoded and screened is left to the caller.
  datatype NameRules = NameRules(read: seq<bv8> -> Option<string>, runnable: string -> bool)

  datatype Member = Member(
    name: string, flags: nat, compression: nat, checksum: bv32, compressedSize: nat, uncompressedSize: nat,
    localOffset: nat)

  datatype Entry = Entry(member: Member, dataOffset: nat)

  datatype Span = Span(start: nat, end: nat)

  function U16(a: seq<bv8>, at: nat): (v: nat)
    requires at + 2 <= |a|
    ensures v < 0x1_0000
  {
    (a[at] as nat) + 256 * (a[at + 1] as nat)
  }

  function U32(a: seq<bv8>, at: nat): (v: nat)
    requires at + 4 <= |a|
    ensures v < 0x1_0000_0000
  {
    U16(a, at) + 0x1_0000 * U16(a, at + 2)
  }

  function Bits32(a: seq<bv8>, at: nat): bv32
    requires at + 4 <= |a|
  {
    Crc32.Word(a[at..at + 4])
  }

  // ---------- The end record ----------

  predicate EndRecordAt(a: seq<bv8>, at: nat) {
    at + 22 <= |a| && U32(a, at) == END_RECORD && at + 22 + U16(a, at + 20) == |a|
  }

  // Of several candidates, the last one counts.
  ghost predicate LastEndRecord(a: seq<bv8>, at: nat) {
    EndRecordAt(a, at) && forall later: nat :: later > at ==> !EndRecordAt(a, later)
  }

  method FindEndRecord(a: seq<bv8>) returns (r: Option<nat>)
    requires |a| >= 22
    ensures r.Some? ==> LastEndRecord(a, r.value)
    ensures r.None? ==> forall at: nat :: !EndRecordAt(a, at)
  {
    hide U32;
    var least := if |a| < 22 + 0xffff then 0 else |a| - 22 - 0xffff;
    var offset: int := |a| - 22;
    while offset >= least
      invariant least - 1 <= offset <= |a| - 22
      invariant forall at: nat :: at > offset ==> !EndRecordAt(a, at)
    {
      if U32(a, offset) == END_RECORD && offset + 22 + U16(a, offset + 20) == |a| { return Some(offset); }
      offset := offset - 1;
    }
    r := None;
  }

  // ---------- Extra fields ----------

  // Extra fields fill the range exactly, and none of them is a 64-bit extension.
  predicate PlainExtra(a: seq<bv8>, start: nat, end: nat)
    requires start <= end <= |a|
    decreases end - start
  {
    start == end ||
    (start + 4 <= end && start + 4 + U16(a, start + 2) <= end && U16(a, start) != ZIP64_EXTRA &&
     PlainExtra(a, start + 4 + U16(a, start + 2), end))
  }

  method RejectZip64(a: seq<bv8>, offset: nat, length: nat) returns (plain: bool)
    requires offset + length <= |a|
    ensures plain <==> PlainExtra(a, offset, offset + length)
  {
    hide U16;
    var cursor, end := offset, offset + length;
    while cursor < end
      invariant offset <= cursor <= end
      invariant PlainExtra(a, offset, end) <==> PlainExtra(a, cursor, end)
      decreases end - cursor
    {
      if cursor + 4 > end { return false; }
      var id, size := U16(a, cursor), U16(a, cursor + 2);
      if cursor + 4 + size > end { return false; }
      if id == ZIP64_EXTRA { return false; }
      cursor := cursor + 4 + size;
    }
    plain := true;
  }

  // ---------- Central records ----------

  predicate PlainFlags(flags: nat) {
    flags in {0, 0x0008, 0x0800, 0x0808}
  }

  predicate HasDescriptor(flags: nat) {
    flags == 0x0008 || flags == 0x0808
  }

  // A regular file without execute permission, as far as a Unix host says.
  predicate RegularMode(madeBy: nat, externalAttributes: nat) {
    var mode := externalAttributes / 0x1_0000;
    madeBy != 3 || ((mode / 0x1000 == 0 || mode / 0x1000 == 8) && mode % 2 == 0 && mode / 8 % 2 == 0 &&
                    mode / 64 % 2 == 0)
  }

  function CentralEnd(a: seq<bv8>, at: nat): nat requires at + 46 <= |a| {
    at + 46 + U16(a, at + 28) + U16(a, at + 30) + U16(a, at + 32)
  }

  predicate MemberNameAllowed(rules: NameRules, name: string) {
    !rules.runnable(name) && !(name != "" && name[|name| - 1] == '/')
  }

  // The central record at `at`, ending within `limit`, describes `m`.
  predicate CentralRecord(a: seq<bv8>, rules: NameRules, at: nat, limit: nat, m: Member) {
    at + 46 <= limit <= |a| && U32(a, at) == CENTRAL_RECORD && CentralEnd(a, at) <= limit &&
    U16(a, at + 34) == 0 && PlainFlags(U16(a, at + 8)) && (U16(a, at + 10) == 0 || U16(a, at + 10) == 8) &&
    U32(a, at + 20) != 0xffffffff && U32(a, at + 24) != 0xffffffff && U32(a, at + 42) != 0xffffffff &&
    var nameEnd := at + 46 + U16(a, at + 28);
    var name := rules.read(a[at + 46..nameEnd]);
    name.Some? && MemberNameAllowed(rules, name.value) && PlainExtra(a, nameEnd, nameEnd + U16(a, at + 30)) &&
    RegularMode(U16(a, at + 4) / 256, U32(a, at + 38)) &&
    m == Member(name.value, U16(a, at + 8), U16(a, at + 10), Bits32(a, at + 16), U32(a, at + 20), U32(a, at + 24),
                U32(a, at + 42))
  }

  method ReadCentralRecord(a: seq<bv8>, rules: NameRules, at: nat, limit: nat) returns (r: Option<Member>)
    requires at <= limit <= |a|
    ensures r.Some? ==> CentralRecord(a, rules, at, limit, r.value)
    ensures r.None? ==> forall m :: !CentralRecord(a, rules, at, limit, m)
  {
    hide Bits32, U16, U32, PlainExtra, RegularMode, MemberNameAllowed;
    if at + 46 > limit { return None; }
    if U32(a, at) != CENTRAL_RECORD { return None; }
    var madeBy := U16(a, at + 4) / 256;
    var flags, compression, checksum := U16(a, at + 8), U16(a, at + 10), Bits32(a, at + 16);
    var compressedSize, uncompressedSize := U32(a, at + 20), U32(a, at + 24);
    var nameLength, extraLength, commentLength := U16(a, at + 28), U16(a, at + 30), U16(a, at + 32);
    var startDisk, externalAttributes, localOffset := U16(a, at + 34), U32(a, at + 38), U32(a, at + 42);
    if at + 46 + nameLength + extraLength + commentLength > limit { return None; }
    if startDisk != 0 || compressedSize == 0xffffffff || uncompressedSize == 0xffffffff || localOffset == 0xffffffff ||
       !PlainFlags(flags) || (compression != 0 && compression != 8) { return None; }
    var name := rules.read(a[at + 46..at + 46 + nameLength]);
    if name.None? { return None; }
    var plain := RejectZip64(a, at + 46 + nameLength, extraLength);
    if !plain { return None; }
    if !RegularMode(madeBy, externalAttributes) || !MemberNameAllowed(rules, name.value) { return None; }
    r := Some(Member(name.value, flags, compression, checksum, compressedSize, uncompressedSize, localOffset));
  }

  // Central records follow one another from `at` to `stop`, each ending within `limit`.
  predicate CentralTiles(a: seq<bv8>, rules: NameRules, members: seq<Member>, at: nat, stop: nat, limit: nat)
    decreases |members|
  {
    if members == [] then at == stop
    else CentralRecord(a, rules, at, limit, members[0]) &&
         CentralTiles(a, rules, members[1..], CentralEnd(a, at), stop, limit)
  }

  function Declared(members: seq<Member>): nat {
    if members == [] then 0 else Declared(members[..|members| - 1]) + members[|members| - 1].uncompressedSize
  }

  predicate SizesAllowed(members: seq<Member>) {
    Declared(members) <= TOTAL_BYTES && forall i :: 0 <= i < |members| ==> members[i].uncompressedSize <= MEMBER_BYTES
  }

  lemma {:induction false} CentralOneMore(a: seq<bv8>, rules: NameRules, members: seq<Member>, at: nat, stop: nat,
                                          limit: nat, m: Member)
    requires CentralTiles(a, rules, members, at, stop, limit) && CentralRecord(a, rules, stop, limit, m)
    ensures CentralTiles(a, rules, members + [m], at, CentralEnd(a, stop), limit)
    decreases |members|
  {
    hide CentralRecord, CentralEnd;
    if members == [] {
      assert (members + [m])[1..] == [];
    } else {
      CentralEndsWithin(a, rules, at, limit, members[0]);
      assert (members + [m])[1..] == members[1..] + [m];
      CentralOneMore(a, rules, members[1..], CentralEnd(a, at), stop, limit, m);
    }
  }

  lemma CentralIsUnique(a: seq<bv8>, rules: NameRules, at: nat, limit: nat, m: Member, n: Member)
    requires CentralRecord(a, rules, at, limit, m) && CentralRecord(a, rules, at, limit, n)
    ensures m == n
  {
    hide Bits32, U16, U32, PlainExtra;
  }

  lemma {:induction false} CentralContinues(a: seq<bv8>, rules: NameRules, found: seq<Member>, members: seq<Member>,
                                            at: nat, stop: nat, end: nat,
                                            limit: nat)
    requires CentralTiles(a, rules, found, at, stop, limit) && CentralTiles(a, rules, members, at, end, limit) &&
             |found| <= |members|
    ensures found == members[..|found|] && CentralTiles(a, rules, members[|found|..], stop, end, limit)
    decreases |found|
  {
    hide CentralRecord, CentralEnd;
    if found == [] {
      assert members[0..] == members;
    } else {
      CentralEndsWithin(a, rules, at, limit, found[0]);
      CentralIsUnique(a, rules, at, limit, found[0], members[0]);
      CentralContinues(a, rules, found[1..], members[1..], CentralEnd(a, at), stop, end, limit);
      assert found == [found[0]] + found[1..];
      assert members[1..][|found| - 1..] == members[|found|..];
    }
  }

  lemma {:induction false} DeclaredGrows(members: seq<Member>, n: nat)
    requires n <= |members|
    ensures Declared(members[..n]) <= Declared(members)
  {
    if n == |members| {
      assert members[..n] == members;
    } else {
      DeclaredGrows(members[..|members| - 1], n);
      assert members[..|members| - 1][..n] == members[..n];
    }
  }

  ghost predicate CentralDirectory(a: seq<bv8>, rules: NameRules, members: seq<Member>, start: nat, end: nat,
                                   count: nat) {
    |members| == count && CentralTiles(a, rules, members, start, end, end) && SizesAllowed(members)
  }

  method ReadCentralDirectory(a: seq<bv8>, rules: NameRules, start: nat, end: nat, count: nat)
    returns (r: Option<seq<Member>>)
    requires start <= end <= |a|
    ensures r.Some? ==> CentralDirectory(a, rules, r.value, start, end, count)
    ensures r.None? ==> forall members :: !CentralDirectory(a, rules, members, start, end, count)
  {
    hide CentralRecord, CentralEnd;
    var members: seq<Member> := [];
    var cursor := start;
    var declaredTotal := 0;
    for index := 0 to count
      invariant start <= cursor <= end && |members| == index
      invariant CentralTiles(a, rules, members, start, cursor, end)
      invariant declaredTotal == Declared(members) && SizesAllowed(members)
    {
      forall full: seq<Member> | CentralDirectory(a, rules, full, start, end, count)
        ensures members == full[..index] && CentralRecord(a, rules, cursor, end, full[index])
        ensures Declared(full[..index + 1]) <= TOTAL_BYTES && full[index].uncompressedSize <= MEMBER_BYTES
      {
        CentralContinues(a, rules, members, full, start, cursor, end, end);
        DeclaredGrows(full, index + 1);
      }
      var m := ReadCentralRecord(a, rules, cursor, end);
      if m.None? { return None; }
      CentralEndsWithin(a, rules, cursor, end, m.value);
      declaredTotal := declaredTotal + m.value.uncompressedSize;
      assert (members + [m.value])[..index] == members;
      forall full: seq<Member> | CentralDirectory(a, rules, full, start, end, count)
        ensures full[..index + 1] == members + [m.value] && full[index] == m.value
      {
        CentralIsUnique(a, rules, cursor, end, m.value, full[index]);
      }
      if declaredTotal > TOTAL_BYTES || m.value.uncompressedSize > MEMBER_BYTES { return None; }
      CentralOneMore(a, rules, members, start, cursor, end, m.value);
      members := members + [m.value];
      cursor := CentralEnd(a, cursor);
    }
    if cursor != end {
      forall full: seq<Member> | CentralDirectory(a, rules, full, start, end, count) ensures false {
        CentralContinues(a, rules, members, full, start, cursor, end, end);
      }
      return None;
    }
    r := Some(members);
  }

  lemma CentralEndsWithin(a: seq<bv8>, rules: NameRules, at: nat, limit: nat, m: Member)
    requires CentralRecord(a, rules, at, limit, m)
    ensures at + 46 <= |a| && at < CentralEnd(a, at) <= limit
  {
    hide Bits32, U16, U32, PlainExtra;
  }

  // ---------- Local records ----------

  // Where the descriptor behind a member's data starts, past its optional signature.
  function DescriptorOffset(a: seq<bv8>, dataEnd: nat, limit: nat): nat requires limit <= |a| {
    if dataEnd + 4 <= limit && U32(a, dataEnd) == DESCRIPTOR then dataEnd + 4 else dataEnd
  }

  function DataOffset(a: seq<bv8>, m: Member): nat requires m.localOffset + 30 <= |a| {
    m.localOffset + 30 + U16(a, m.localOffset + 26) + U16(a, m.localOffset + 28)
  }

  function RecordEnd(a: seq<bv8>, m: Member, limit: nat): nat requires m.localOffset + 30 <= limit <= |a| {
    var dataEnd := DataOffset(a, m) + m.compressedSize;
    if HasDescriptor(m.flags) then DescriptorOffset(a, dataEnd, limit) + 12 else dataEnd
  }

  predicate DescriptorAgrees(a: seq<bv8>, m: Member, at: nat) {
    at + 12 <= |a| && Bits32(a, at) == m.checksum && U32(a, at + 4) == m.compressedSize &&
    U32(a, at + 8) == m.uncompressedSize
  }

  predicate LocalHeaderAgrees(a: seq<bv8>, rules: NameRules, m: Member, at: nat, limit: nat) {
    at + 30 <= limit <= |a| && U32(a, at) == LOCAL_RECORD && DataOffset(a, m.(localOffset := at)) <= limit &&
    var nameEnd := at + 30 + U16(a, at + 26);
    rules.read(a[at + 30..nameEnd]) == Some(m.name) && PlainExtra(a, nameEnd, nameEnd + U16(a, at + 28)) &&
    U16(a, at + 6) == m.flags && U16(a, at + 8) == m.compression &&
    (HasDescriptor(m.flags) ||
     (Bits32(a, at + 14) == m.checksum && U32(a, at + 18) == m.compressedSize && U32(a, at + 22) == m.uncompressedSize))
  }

  // The local record of `m`, its data and its descriptor repeat the central record and end within `limit`.
  predicate LocalRecord(a: seq<bv8>, rules: NameRules, m: Member, limit: nat) {
    LocalHeaderAgrees(a, rules, m, m.localOffset, limit) && DataOffset(a, m) + m.compressedSize <= limit &&
    RecordEnd(a, m, limit) <= limit &&
    (HasDescriptor(m.flags) ==> DescriptorAgrees(a, m, RecordEnd(a, m, limit) - 12))
  }

  function SpanOf(a: seq<bv8>, m: Member, limit: nat): Span requires m.localOffset + 30 <= limit <= |a| {
    Span(m.localOffset, RecordEnd(a, m, limit))
  }

  method ReadLocalRecord(a: seq<bv8>, rules: NameRules, m: Member, limit: nat) returns (r: Option<(Entry, Span)>)
    requires limit <= |a|
    ensures r.Some? <==> LocalRecord(a, rules, m, limit)
    ensures r.Some? ==> r.value == (Entry(m, DataOffset(a, m)), SpanOf(a, m, limit))
  {
    hide Bits32, U16, U32, PlainExtra;
    var at := m.localOffset;
    if at + 30 > limit { return None; }
    if U32(a, at) != LOCAL_RECORD { return None; }
    var flags, compression := U16(a, at + 6), U16(a, at + 8);
    var checksum, compressedSize, uncompressedSize := Bits32(a, at + 14), U32(a, at + 18), U32(a, at + 22);
    var nameLength, extraLength := U16(a, at + 26), U16(a, at + 28);
    var headerEnd := at + 30 + nameLength + extraLength;
    if headerEnd > limit { return None; }
    var name := rules.read(a[at + 30..at + 30 + nameLength]);
    if name.None? { return None; }
    var plain := RejectZip64(a, at + 30 + nameLength, extraLength);
    if !plain { return None; }
    if name.value != m.name || flags != m.flags || compression != m.compression ||
       (!HasDescriptor(flags) &&
        (checksum != m.checksum || compressedSize != m.compressedSize || uncompressedSize != m.uncompressedSize)) {
       return None;
     }
    var dataEnd := headerEnd + m.compressedSize;
    if dataEnd > limit { return None; }
    var recordEnd := dataEnd;
    if HasDescriptor(flags) {
      var descriptorOffset := dataEnd;
      if descriptorOffset + 4 <= limit && U32(a, descriptorOffset) == DESCRIPTOR {
        descriptorOffset := descriptorOffset + 4;
      }
      if descriptorOffset + 12 > limit { return None; }
      if Bits32(a, descriptorOffset) != m.checksum || U32(a, descriptorOffset + 4) != m.compressedSize ||
         U32(a, descriptorOffset + 8) != m.uncompressedSize { return None; }
      recordEnd := descriptorOffset + 12;
    }
    r := Some((Entry(m, headerEnd), Span(at, recordEnd)));
  }

  // ---------- Overlaps ----------

  predicate Apart(s: Span, t: Span) {
    s.end <= t.start || t.end <= s.start
  }

  ghost predicate PairwiseApart(spans: seq<Span>) {
    forall i, j :: 0 <= i < j < |spans| ==> Apart(spans[i], spans[j])
  }

  predicate StartsBefore(s: Span, t: Span) {
    s.start < t.start
  }

  predicate Nonempty(spans: seq<Span>) {
    forall i :: 0 <= i < |spans| ==> spans[i].start < spans[i].end
  }

  ghost predicate ApartFromAll(s: Span, spans: seq<Span>) {
    forall t :: t in spans ==> Apart(s, t)
  }

  lemma {:induction false} InsertKeepsApartness(s: Span, spans: seq<Span>)
    ensures PairwiseApart(Insert(s, spans, StartsBefore)) <==> PairwiseApart(spans) && ApartFromAll(s, spans)
    decreases |spans|
  {
    if spans == [] || s.start < spans[0].start {
      ApartCons(s, spans);
    } else {
      var first, rest := spans[0], spans[1..];
      InsertKeepsApartness(s, rest);
      InsertKeepsElements(s, rest, StartsBefore);
      ApartCons(first, Insert(s, rest, StartsBefore));
      ApartCons(first, rest);
      assert spans == [first] + rest;
      assert ApartFromAll(s, spans) <==> Apart(s, first) && ApartFromAll(s, rest);
      assert ApartFromAll(first, Insert(s, rest, StartsBefore)) <==> Apart(first, s) && ApartFromAll(first, rest);
    }
  }

  lemma ApartCons(s: Span, spans: seq<Span>)
    ensures PairwiseApart([s] + spans) <==> PairwiseApart(spans) && ApartFromAll(s, spans)
  {
    var all := [s] + spans;
    assert forall i :: 0 <= i < |spans| ==> all[i + 1] == spans[i];
    if PairwiseApart(all) {
      forall t | t in spans ensures Apart(s, t) {
        var i :| 0 <= i < |spans| && spans[i] == t;
        assert Apart(all[0], all[i + 1]);
      }
      forall i, j | 0 <= i < j < |spans| ensures Apart(spans[i], spans[j]) {
        assert Apart(all[i + 1], all[j + 1]);
      }
    }
  }

  lemma ApartSnoc(spans: seq<Span>, s: Span)
    ensures PairwiseApart(spans + [s]) <==> PairwiseApart(spans) && ApartFromAll(s, spans)
  {
    var all := spans + [s];
    assert forall i :: 0 <= i < |spans| ==> all[i] == spans[i];
    if PairwiseApart(all) {
      forall i, j | 0 <= i < j < |spans| ensures Apart(spans[i], spans[j]) {
        assert Apart(all[i], all[j]);
      }
      forall t | t in spans ensures Apart(s, t) {
        var i :| 0 <= i < |spans| && spans[i] == t;
        assert Apart(all[i], all[|spans|]);
      }
    }
    if PairwiseApart(spans) && ApartFromAll(s, spans) {
      forall i, j | 0 <= i < j < |all| ensures Apart(all[i], all[j]) {
        assert all[i] in spans;
      }
    }
  }

  lemma {:induction false} SortKeepsApartness(spans: seq<Span>)
    ensures PairwiseApart(Sort(spans, StartsBefore)) <==> PairwiseApart(spans)
    decreases |spans|
  {
    if spans == [] {
    } else {
      var rest, last := spans[..|spans| - 1], spans[|spans| - 1];
      SortKeepsApartness(rest);
      SortKeepsElements(rest, StartsBefore);
      InsertKeepsApartness(last, Sort(rest, StartsBefore));
      ApartSnoc(rest, last);
      assert spans == rest + [last];
    }
  }

  predicate NeighboursApart(spans: seq<Span>) {
    forall i :: 0 < i < |spans| ==> spans[i - 1].end <= spans[i].start
  }

  lemma {:induction false} EndsBefore(spans: seq<Span>, i: nat, j: nat)
    requires NeighboursApart(spans) && Nonempty(spans) && i < j < |spans|
    ensures spans[i].end <= spans[j].start
    decreases j
  {
    if i < j - 1 {
      EndsBefore(spans, i, j - 1);
      assert spans[j - 1].end <= spans[j].start;
    } else {
      assert spans[j - 1].end <= spans[j].start;
    }
  }

  // Among sorted spans, comparing neighbours is comparing all pairs.
  lemma NeighboursDecide(spans: seq<Span>)
    requires Sorted(spans, StartsBefore) && Nonempty(spans)
    ensures NeighboursApart(spans) <==> PairwiseApart(spans)
  {
    if NeighboursApart(spans) {
      forall i, j | 0 <= i < j < |spans| ensures Apart(spans[i], spans[j]) {
        EndsBefore(spans, i, j);
      }
    }
    if PairwiseApart(spans) {
      forall i | 0 < i < |spans| ensures spans[i - 1].end <= spans[i].start {
        assert Apart(spans[i - 1], spans[i]) && !StartsBefore(spans[i], spans[i - 1]);
      }
    }
  }

  method NoOverlap(occupied: seq<Span>) returns (apart: bool)
    requires Nonempty(occupied)
    ensures apart <==> PairwiseApart(occupied)
  {
    var spans := Sort(occupied, StartsBefore);
    SortSorts(occupied, StartsBefore);
    SortKeepsElements(occupied, StartsBefore);
    SortKeepsApartness(occupied);
    forall i | 0 <= i < |spans| ensures spans[i].start < spans[i].end {
      assert spans[i] in spans;
    }
    NeighboursDecide(spans);
    var index := 1;
    while index < |spans|
      invariant 1 <= index && (index <= |spans| || |spans| == 0)
      invariant forall i :: 0 < i < index && i < |spans| ==> spans[i - 1].end <= spans[i].start
    {
      if spans[index].start < spans[index - 1].end { return false; }
      index := index + 1;
    }
    apart := true;
  }

  // ---------- The whole directory ----------

  function CentralOffset(a: seq<bv8>, end: nat): nat requires end + 22 <= |a| {
    U32(a, end + 16)
  }

  // What the end record says of itself: one disk, between 1 and 32 members, and a central directory just before it.
  predicate EndRecordAllowed(a: seq<bv8>, end: nat) {
    end + 22 <= |a| && U16(a, end + 4) == 0 && U16(a, end + 6) == 0 && U16(a, end + 8) == U16(a, end + 10) &&
    1 <= U16(a, end + 10) <= FILE_COUNT && U32(a, end + 12) != 0xffffffff && U32(a, end + 16) != 0xffffffff &&
    U32(a, end + 16) + U32(a, end + 12) == end
  }

  ghost predicate LocalsFit(a: seq<bv8>, rules: NameRules, members: seq<Member>, limit: nat) {
    limit <= |a| && (forall i :: 0 <= i < |members| ==> LocalRecord(a, rules, members[i], limit)) &&
    forall i, j :: 0 <= i < j < |members| ==> Apart(SpanOf(a, members[i], limit), SpanOf(a, members[j], limit))
  }

  ghost predicate Directory(a: seq<bv8>, rules: NameRules, end: nat, members: seq<Member>) {
    |a| <= ARCHIVE_BYTES && LastEndRecord(a, end) && EndRecordAllowed(a, end) &&
    CentralDirectory(a, rules, members, CentralOffset(a, end), end, U16(a, end + 10)) &&
    LocalsFit(a, rules, members, CentralOffset(a, end))
  }

  method ReadLocals(a: seq<bv8>, rules: NameRules, members: seq<Member>, limit: nat) returns (r: Option<seq<Entry>>)
    requires limit <= |a|
    ensures r.Some? <==> LocalsFit(a, rules, members, limit)
    ensures r.Some? ==> |r.value| == |members| && forall i :: 0 <= i < |members| ==>
              r.value[i] == Entry(members[i], DataOffset(a, members[i]))
  {
    hide LocalRecord, RecordEnd, DataOffset, U16, U32;
    var entries: seq<Entry> := [];
    var occupied: seq<Span> := [];
    for index := 0 to |members|
      invariant |entries| == |occupied| == index
      invariant forall i :: 0 <= i < index ==>
                  LocalRecord(a, rules, members[i], limit) && members[i].localOffset + 30 <= limit
      invariant forall i :: 0 <= i < index ==> entries[i] == Entry(members[i], DataOffset(a, members[i]))
      invariant forall i :: 0 <= i < index ==>
                  occupied[i] == SpanOf(a, members[i], limit) && occupied[i].start < occupied[i].end
    {
      var local := ReadLocalRecord(a, rules, members[index], limit);
      if local.None? { return None; }
      LocalRecordIsNonempty(a, rules, members[index], limit);
      entries := entries + [local.value.0];
      occupied := occupied + [local.value.1];
    }
    var apart := NoOverlap(occupied);
    if !apart { return None; }
    forall i, j | 0 <= i < j < |members| ensures Apart(SpanOf(a, members[i], limit), SpanOf(a, members[j], limit)) {
      assert Apart(occupied[i], occupied[j]);
    }
    r := Some(entries);
  }

  lemma LocalRecordIsNonempty(a: seq<bv8>, rules: NameRules, m: Member, limit: nat)
    requires LocalRecord(a, rules, m, limit)
    ensures m.localOffset + 30 <= limit <= |a|
    ensures m.localOffset + 30 <= DataOffset(a, m) &&
            DataOffset(a, m) + m.compressedSize <= RecordEnd(a, m, limit) <= limit
  {
    hide U32, PlainExtra;
  }

  // An archive is accepted exactly when it has a directory as described, and what is returned are the members of it.
  method ParseDirectory(a: seq<bv8>, rules: NameRules)
    returns (r: Option<seq<Entry>>, ghost end: nat, ghost members: seq<Member>)
    ensures r.Some? ==>
              Directory(a, rules, end, members) && |r.value| == |members| &&
              forall i :: 0 <= i < |members| ==>
                members[i].localOffset + 30 <= |a| && r.value[i] == Entry(members[i], DataOffset(a, members[i]))
    ensures r.None? ==> forall at, others :: !Directory(a, rules, at, others)
  {
    hide CentralTiles, SizesAllowed, LocalsFit, U16, U32, DataOffset, CentralRecord;
    end, members := 0, [];
    if |a| < 22 { return None, end, members; }
    if |a| > ARCHIVE_BYTES { return None, end, members; }
    var found := FindEndRecord(a);
    if found.None? { return None, end, members; }
    end := found.value;
    var eocd := found.value;
    assert forall at :: LastEndRecord(a, at) ==> at == eocd;
    hide LastEndRecord;
    if !EndRecordAllowed(a, eocd) { return None, end, members; }
    var start := CentralOffset(a, eocd);
    var count := U16(a, eocd + 10);
    var central := ReadCentralDirectory(a, rules, start, eocd, count);
    if central.None? { return None, end, members; }
    members := central.value;
    forall others | CentralDirectory(a, rules, others, start, eocd, count) ensures others == members {
      SameCentralDirectory(a, rules, members, others, start, eocd, count);
    }
    r := ReadLocals(a, rules, central.value, start);
    if r.Some? { LocalsInRange(a, rules, members, start); }
  }

  lemma SameCentralDirectory(a: seq<bv8>, rules: NameRules, members: seq<Member>, others: seq<Member>, start: nat,
                             end: nat, count: nat)
    requires CentralDirectory(a, rules, members, start, end, count) &&
             CentralDirectory(a, rules, others, start, end, count)
    ensures members == others
  {
    CentralContinues(a, rules, members, others, start, end, end, end);
  }

  lemma LocalsInRange(a: seq<bv8>, rules: NameRules, members: seq<Member>, limit: nat)
    requires LocalsFit(a, rules, members, limit)
    ensures forall i :: 0 <= i < |members| ==> members[i].localOffset + 30 <= |a|
  {
    hide LocalRecord;
    forall i | 0 <= i < |members| ensures members[i].localOffset + 30 <= |a| {
      LocalRecordIsNonempty(a, rules, members[i], limit);
    }
  }

  // No two members of an accepted archive share a byte of data, and all data lies before the central directory.
  lemma MembersShareNothing(a: seq<bv8>, rules: NameRules, end: nat, members: seq<Member>, i: nat, j: nat)
    requires Directory(a, rules, end, members) && i < |members| && j < |members| && i != j
    requires members[i].localOffset + 30 <= |a| && members[j].localOffset + 30 <= |a|
    ensures var one, other := DataOffset(a, members[i]), DataOffset(a, members[j]);
            one + members[i].compressedSize <= CentralOffset(a, end) <= end &&
            (one + members[i].compressedSize <= other || other + members[j].compressedSize <= one)
  {
    hide CentralDirectory, LastEndRecord, U16, U32, RecordEnd, DataOffset, LocalRecord;
    var limit := CentralOffset(a, end);
    LocalRecordIsNonempty(a, rules, members[i], limit);
    LocalRecordIsNonempty(a, rules, members[j], limit);
    if i < j {
      assert Apart(SpanOf(a, members[i], limit), SpanOf(a, members[j], limit));
    } else {
      assert Apart(SpanOf(a, members[j], limit), SpanOf(a, members[i], limit));
    }
  }

  // ---------- Contents ----------

  function Data(a: seq<bv8>, e: Entry): seq<bv8> requires e.dataOffset + e.member.compressedSize <= |a| {
    a[e.dataOffset..e.dataOffset + e.member.compressedSize]
  }

  // `inflate` stands for the library's bounded inflation; a stored member is its own contents.
  function Contents(a: seq<bv8>, e: Entry, inflate: seq<bv8> -> Option<seq<bv8>>): Option<seq<bv8>>
    requires e.dataOffset + e.member.compressedSize <= |a|
  {
    if e.member.compression == 0 then Some(Data(a, e)) else inflate(Data(a, e))
  }

  predicate Intact(contents: seq<bv8>, m: Member) {
    |contents| == m.uncompressedSize && Crc32.Checksum(contents) == m.checksum
  }

  method DecodeEntry(a: seq<bv8>, e: Entry, inflate: seq<bv8> -> Option<seq<bv8>>) returns (r: Option<seq<bv8>>)
    requires e.dataOffset + e.member.compressedSize <= |a|
    ensures r.Some? ==> r == Contents(a, e, inflate) && Intact(r.value, e.member)
    ensures r.None? ==> Contents(a, e, inflate).None? || !Intact(Contents(a, e, inflate).value, e.member)
  {
    var compressed := a[e.dataOffset..e.dataOffset + e.member.compressedSize];
    var contents := if e.member.compression == 0 then Some(compressed) else inflate(compressed);
    if contents.None? { return None; }
    var checksum := Crc32.Compute(contents.value);
    if |contents.value| != e.member.uncompressedSize || checksum != e.member.checksum { return None; }
    r := contents;
  }

  // A stored member that decodes no longer does once anything is changed within four consecutive bytes of its data.
  lemma ChangedDataIsDetected(a: seq<bv8>, b: seq<bv8>, e: Entry, at: nat, n: nat)
    requires e.dataOffset + e.member.compressedSize <= |a| == |b| && n <= 4
    requires e.dataOffset <= at && at + n <= e.dataOffset + e.member.compressedSize
    requires a[..at] == b[..at] && a[at + n..] == b[at + n..] && a[at..at + n] != b[at..at + n]
    requires Intact(Data(a, e), e.member)
    ensures !Intact(Data(b, e), e.member)
  {
    hide Crc32.Checksum;
    var start, end := e.dataOffset, e.dataOffset + e.member.compressedSize;
    SplitData(a, start, at, at + n, end);
    SplitData(b, start, at, at + n, end);
    assert a[start..at] == a[..at][start..] == b[..at][start..] == b[start..at];
    assert a[at + n..end] == a[at + n..][..end - at - n] == b[at + n..][..end - at - n] == b[at + n..end];
    Crc32.BurstIsDetected(a[start..at], a[at..at + n], b[at..at + n], a[at + n..end]);
  }

  lemma SplitData(a: seq<bv8>, i: nat, j: nat, k: nat, l: nat)
    requires i <= j <= k <= l <= |a|
    ensures a[i..l] == a[i..j] + a[j..k] + a[k..l]
  {
  }
}
