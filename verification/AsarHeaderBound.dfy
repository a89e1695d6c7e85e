/** An archive that the writer's bound on the header admits and the reader's does not, under the source's limits. */
module AsarHeaderBound {
  import opened Basics
  import opened Ordering
  import opened AsarPaths
  import opened AsarTree
  import opened AsarCollect
  import opened AsarLayout
  import opened AsarArchive
  import opened AsarWrite
  import opened AsarRoundTrip
  import opened AsarObjects
  import opened AsarText
  import opened AsarNesting

  // ---- Names -------------------------------------------------------------------------------------

  function Repeated(letter: byte, n: nat): (t: Text)
    ensures |t| == n && forall i :: 0 <= i < n ==> t[i] == letter
  {
    seq(n, _ => letter)
  }

  predicate IsLetter(b: byte) {
    0x61 <= b <= 0x7A
  }

  lemma {:induction false} StemOfLetters(t: Text)
    requires forall i :: 0 <= i < |t| ==> IsLetter(t[i])
    ensures Stem(t) == t && Lower(t) == t
  {
    if t != [] {
      StemOfLetters(t[1..]);
      assert t == [t[0]] + t[1..];
    }
  }

  lemma {:induction false} RepeatedIsValid(letter: byte, n: nat)
    requires IsLetter(letter) && n > 0
    ensures ValidName(Repeated(letter, n)) && SlashFree(Repeated(letter, n))
    ensures Lower(Repeated(letter, n)) == Repeated(letter, n)
  {
    var t := Repeated(letter, n);
    StemOfLetters(t);
    assert Ascii("/\\:<>\"|?*") == [0x2F, 0x5C, 0x3A, 0x3C, 0x3E, 0x22, 0x7C, 0x3F, 0x2A];
    NotReserved(t);
  }

  lemma {:induction false} NotReserved(t: Text)
    requires forall i :: 0 <= i < |t| ==> t[i] == t[0]
    ensures !ReservedStem(t)
  {
    if |t| >= 3 {
      assert t[..3][0] == t[..3][1] && t[0] == t[1];
      assert Ascii("con")[0] != Ascii("con")[1] && Ascii("prn")[0] != Ascii("prn")[1];
      assert Ascii("aux")[0] != Ascii("aux")[1] && Ascii("nul")[0] != Ascii("nul")[1];
      assert Ascii("com")[0] != Ascii("com")[1] && Ascii("lpt")[0] != Ascii("lpt")[1];
    }
  }

  lemma {:induction false} LongerIsLater(letter: byte, m: nat, n: nat)
    requires m < n
    ensures Less(Repeated(letter, m), Repeated(letter, n))
  {
    if m > 0 {
      LongerIsLater(letter, m - 1, n - 1);
      assert Repeated(letter, m)[1..] == Repeated(letter, m - 1);
      assert Repeated(letter, n)[1..] == Repeated(letter, n - 1);
    }
  }

  /** A thousand names of each letter, of 1000 to 1999 bytes. */
  function NameAt(i: nat): (t: Text)
    requires i < 25_000
    ensures |t| == 1_000 + i % 1_000
  {
    Repeated(0x61 + i / 1_000, 1_000 + i % 1_000)
  }

  /** The last name sorts after all of them and has a length of its own. */
  function RowName(i: nat, count: nat, tail: nat): Text
    requires i <= count < 25_000
  {
    if i < count then NameAt(i) else Repeated(0x7A, tail)
  }

  function Row(count: nat, tail: nat): (names: seq<Text>)
    requires count < 25_000
    ensures |names| == count + 1 && forall i :: 0 <= i <= count ==> names[i] == RowName(i, count, tail)
  {
    seq(count + 1, i requires 0 <= i <= count => RowName(i, count, tail))
  }

  lemma {:induction false} RowAscends(count: nat, tail: nat)
    requires count < 25_000 && tail > 0
    ensures Ascending(Row(count, tail)) && Distinct(Row(count, tail))
  {
    var names := Row(count, tail);
    forall i, j | 0 <= i < j < |names| ensures Less(names[i], names[j]) {
      if i / 1_000 == j / 1_000 && j < count {
        LongerIsLater(0x61 + i / 1_000, 1_000 + i % 1_000, 1_000 + j % 1_000);
      } else {
        assert names[i][0] == 0x61 + i / 1_000 < names[j][0];
      }
    }
    AscendingDistinct(names);
    DistinctPositions<Text>(names);
  }

  /** Names as an archive may hold them at its root. */
  predicate RootNames(names: seq<Text>, l: AsarLimits) {
    forall i :: 0 <= i < |names| ==>
      && ValidName(names[i]) && SlashFree(names[i]) && Lower(names[i]) == names[i] && |names[i]| <= l.maxPathBytes
  }

  lemma {:induction false} RowNames(count: nat, tail: nat, l: AsarLimits)
    requires count < 25_000 && 0 < tail <= l.maxPathBytes && 2_000 <= l.maxPathBytes
    ensures RootNames(Row(count, tail), l)
  {
    var names := Row(count, tail);
    forall i | 0 <= i < |names|
      ensures ValidName(names[i]) && SlashFree(names[i]) && Lower(names[i]) == names[i] && |names[i]| <= l.maxPathBytes
    {
      if i < count {
        RepeatedIsValid(0x61 + i / 1_000, 1_000 + i % 1_000);
      } else {
        RepeatedIsValid(0x7A, tail);
      }
    }
  }

  // ---- A root full of files ----------------------------------------------------------------------

  /** All files empty but the last. */
  function RowFiles(names: seq<Text>, last: Bytes): (files: Files)
    requires names != []
    ensures files.Keys == Elements(names)
    ensures forall i :: 0 <= i < |names| ==>
              && names[i] in files
              && files[names[i]] == PackedFile(if names[i] == names[|names| - 1] then last else [], false)
  {
    map n | n in names :: PackedFile(if n == names[|names| - 1] then last else [], false)
  }

  /** Only the last file, if any, has contents. */
  ghost predicate EmptyBefore(names: seq<Text>, files: Files) {
    && Elements(names) <= files.Keys
    && forall i :: 0 <= i < |names| ==>
         names[i] in files && !files[names[i]].executable && (i < |names| - 1 ==> files[names[i]].bytes == [])
  }

  lemma {:induction false} RowIsEmptyBefore(names: seq<Text>, last: Bytes)
    requires names != [] && Ascending(names)
    ensures EmptyBefore(names, RowFiles(names, last))
    ensures RowFiles(names, last)[names[|names| - 1]].bytes == last
  {
    AscendingDistinct(names);
  }

  /** Files side by side at the root. */
  function Flat(names: seq<Text>, files: Files, hex: Bytes -> Text): Forest
    requires EmptyBefore(names, files)
  {
    if names == [] then Nil else
      BeforeRest(names, files);
      Cons(names[0], FileNode(OutputFile(files[names[0]], 0, hex)), Flat(names[1..], files, hex))
  }

  lemma {:induction false} BeforeRest(names: seq<Text>, files: Files)
    requires EmptyBefore(names, files) && names != []
    ensures EmptyBefore(names[1..], files) && EmptyBefore(names[..|names| - 1], files)
  {
    var rest, front := names[1..], names[..|names| - 1];
    assert forall i :: 0 <= i < |rest| ==> rest[i] == names[i + 1];
    assert Elements(rest) <= Elements(names) && Elements(front) <= Elements(names);
  }

  lemma {:induction false} AscendingRest(names: seq<Text>)
    requires names != [] && Ascending(names)
    ensures Ascending(names[1..])
  {
    var rest := names[1..];
    forall i, j | 0 <= i < j < |rest| ensures Less(rest[i], rest[j]) {
      assert rest[i] == names[i + 1] && rest[j] == names[j + 1];
    }
  }

  lemma {:induction false} FlatOrdered(names: seq<Text>, files: Files, hex: Bytes -> Text)
    requires EmptyBefore(names, files) && Ascending(names)
    ensures Ordered(Flat(names, files, hex))
  {
    if names != [] {
      BeforeRest(names, files);
      AscendingRest(names);
      FlatOrdered(names[1..], files, hex);
      if |names| > 1 { assert Less(names[0], names[1]); }
    }
  }

  /** Inserting a later name appends it. */
  lemma {:induction false} FlatInsert(front: seq<Text>, name: Text, files: Files, hex: Bytes -> Text)
    requires EmptyBefore(front + [name], files) && EmptyBefore(front, files) && Ascending(front + [name])
    ensures Insert(Flat(front, files, hex), [name], OutputFile(files[name], 0, hex))
            == Some(Flat(front + [name], files, hex))
  {
    var names := front + [name];
    if front == [] {
      BeforeRest(names, files);
      assert names == [name] && names[1..] == [];
    } else {
      BeforeRest(names, files);
      BeforeRest(front, files);
      assert names[1..] == front[1..] + [name];
      assert Less(names[0], names[|front|]);
      LaterIsNotEarlier(front[0], name);
      AscendingRest(names);
      FlatInsert(front[1..], name, files, hex);
    }
  }

  lemma {:induction false} LaterIsNotEarlier(a: Text, b: Text)
    requires Less(a, b)
    ensures a != b && !Less(b, a)
  {
    LessIrreflexive(a);
    if Less(b, a) { LessTransitive(a, b, a); }
  }

  lemma {:induction false} FlatBuilds(names: seq<Text>, files: Files, hex: Bytes -> Text)
    requires EmptyBefore(names, files) && Ascending(names) && forall i :: 0 <= i < |names| ==> SlashFree(names[i])
    ensures Build(names, files, hex)
            == Some(Built(Flat(names, files, hex), if names == [] then [] else files[names[|names| - 1]].bytes))
  {
    if names != [] {
      var front, name := names[..|names| - 1], names[|names| - 1];
      BeforeRest(names, files);
      assert names == front + [name];
      assert forall i :: 0 <= i < |front| ==> front[i] == names[i];
      FlatBuilds(front, files, hex);
      SplitWhole(name);
      FlatInsert(front, name, files, hex);
      assert [] + files[name].bytes == files[name].bytes;
    }
  }

  /** The state has room for these names. */
  ghost predicate HasRoom(st: State, names: seq<Text>, l: AsarLimits) {
    && st.entries + |names| <= l.maxEntries && st.totalBytes <= l.maxTotalFileBytes
    && st.pathBytes + Times(|names|, l.maxPathBytes) <= l.maxEntries * l.maxPathBytes <= U64_MAX
    && (forall i :: 0 <= i < |names| ==> names[i] !in st.caseKeys)
    && (forall i, j :: 0 <= i < j < |names| ==> names[i] != names[j])
  }

  lemma {:induction false} RoomForFirst(st: State, names: seq<Text>, l: AsarLimits)
    requires names != [] && RootNames(names, l) && HasRoom(st, names, l)
    ensures Register(st, names[0], l).Ok? && Register(st, names[0], l).value.files == st.files
    ensures HasRoom(Register(st, names[0], l).value, names[1..], l) && RootNames(names[1..], l)
  {
    var rest := names[1..];
    assert Times(|names|, l.maxPathBytes) == l.maxPathBytes + Times(|rest|, l.maxPathBytes);
    assert forall i :: 0 <= i < |rest| ==> rest[i] == names[i + 1];
  }

  lemma {:induction false} FirstFileCollects(name: Text, file: FileEntry, rest: Forest, st: State, l: AsarLimits)
    requires ValidName(name) && |name| <= l.maxPathBytes && Register(st, name, l).Ok? && Packable(file, l)
    requires file.size == 0 && st.totalBytes <= l.maxTotalFileBytes
    ensures var entered := Register(st, name, l).value;
            Collect(Cons(name, FileNode(file), rest), [], 0, st, l)
            == Collect(rest, [], 0, entered.(files := entered.files[name := PendingOf(file)]), l)
  {
    assert Extend([], name) == name;
  }

  lemma {:induction false} FlatCollects(names: seq<Text>, files: Files, st: State, l: AsarLimits, hex: Bytes -> Text)
    requires EmptyBefore(names, files) && RootNames(names, l) && HasRoom(st, names, l)
    requires names != [] ==> files[names[|names| - 1]].bytes == []
    ensures var r := Collect(Flat(names, files, hex), [], 0, st, l);
            r.Ok? && r.value.files.Keys == st.files.Keys + Elements(names)
  {
    if names == [] {
      NoElements(names);
    } else {
      BeforeRest(names, files);
      var next := FlatStep(names, files, st, l, hex);
      FlatCollects(names[1..], files, next, l, hex);
      assert names == [names[0]] + names[1..] && Elements(names) == {names[0]} + Elements(names[1..]);
    }
  }

  lemma {:induction false} FlatStep(names: seq<Text>, files: Files, st: State, l: AsarLimits, hex: Bytes -> Text)
    returns (next: State)
    requires names != [] && EmptyBefore(names, files) && RootNames(names, l) && HasRoom(st, names, l)
    requires EmptyBefore(names[1..], files) && files[names[|names| - 1]].bytes == []
    ensures HasRoom(next, names[1..], l) && RootNames(names[1..], l)
    ensures next.files.Keys == st.files.Keys + {names[0]}
    ensures Collect(Flat(names, files, hex), [], 0, st, l) == Collect(Flat(names[1..], files, hex), [], 0, next, l)
  {
    var name, file := names[0], OutputFile(files[names[0]], 0, hex);
    RoomForFirst(st, names, l);
    EmptyPacks(files[name], hex, l);
    FirstFileCollects(name, file, Flat(names[1..], files, hex), st, l);
    var entered := Register(st, name, l).value;
    next := entered.(files := entered.files[name := PendingOf(file)]);
  }

  lemma {:induction false} EmptyPacks(file: PackedFile, hex: Bytes -> Text, l: AsarLimits)
    requires file.bytes == []
    ensures Packable(OutputFile(file, 0, hex), l) && OutputFile(file, 0, hex).size == 0
  {
    OutputPacks(file, hex, l);
  }

  lemma {:induction false} RowArchive(names: seq<Text>, last: Bytes, l: AsarLimits, hex: Bytes -> Text)
    requires names != [] && Ascending(names) && RootNames(names, l) && HasRoom(INITIAL, names, l)
    requires |last| <= l.maxFileBytes && EmptyBefore(names, RowFiles(names, []))
    ensures ArchiveInv(RowFiles(names, last), Flat(names, RowFiles(names, []), hex), l)
  {
    RowIsEmptyBefore(names, []);
    RowIsEmptyBefore(names, last);
    FlatOrdered(names, RowFiles(names, []), hex);
    FlatCollects(names, RowFiles(names, []), INITIAL, l, hex);
    forall p | p in RowFiles(names, last) ensures |RowFiles(names, last)[p].bytes| <= l.maxFileBytes {
      assert p in Elements(names);
      var i :| 0 <= i < |names| && names[i] == p;
    }
  }

  // ---- Its text ----------------------------------------------------------------------------------

  /** What the entries before the last take up, separators included. */
  function Widths(names: seq<Text>): nat {
    if |names| <= 1 then 0 else |names[0]| + 168 + Widths(names[1..])
  }

  lemma {:induction false} FlatTextLength(names: seq<Text>, files: Files, hex: Bytes -> Text)
    requires names != [] && EmptyBefore(names, files) && forall b :: |hex(b)| == 64
    ensures var last := names[|names| - 1];
            |MembersText(Flat(names, files, hex))|
            == Widths(names) + |last| + 3 + |NodeText(FileNode(OutputFile(files[last], 0, hex)))|
  {
    BeforeRest(names, files);
    var f := Flat(names, files, hex);
    assert |Quoted(names[0])| == |names[0]| + 2;
    if |names| == 1 {
      assert names[1..] == [] && f.rest == Nil;
    } else {
      FlatTextLength(names[1..], files, hex);
      assert names[1..][|names| - 2] == names[|names| - 1];
      OutputTextLength(0, hex);
      assert files[names[0]] == PackedFile([], false);
      assert f.rest.Cons?;
    }
  }

  /** The widths of the first `n` names of a row. */
  function Used(n: nat): nat {
    if n == 0 then 0 else Used(n - 1) + 1_168 + (n - 1) % 1_000
  }

  lemma {:induction false} RowWidths(count: nat, tail: nat, i: nat)
    requires i <= count < 25_000
    ensures Widths(Row(count, tail)[i..]) + Used(i) == Used(count)
    decreases count - i
  {
    var names := Row(count, tail)[i..];
    if i < count {
      RowWidths(count, tail, i + 1);
      assert names[1..] == Row(count, tail)[i + 1..] && names[0] == NameAt(i);
    }
  }

  function Triangle(m: nat): nat {
    if m == 0 then 0 else Triangle(m - 1) + (m - 1)
  }

  lemma {:induction false} TriangleNumber(m: nat)
    ensures 2 * Triangle(m) == m * (m - 1)
  {
    if m > 0 {
      TriangleNumber(m - 1);
      assert m * (m - 1) == (m - 1) * (m - 2) + 2 * (m - 1);
    }
  }

  lemma {:induction false} UsedWithin(base: nat, m: nat)
    requires base % 1_000 == 0 && m <= 1_000
    ensures Used(base + m) == Used(base) + 1_168 * m + Triangle(m)
  {
    if m > 0 {
      UsedWithin(base, m - 1);
      Remainder(base, m - 1);
      assert base + m - 1 == base + (m - 1);
    }
  }

  lemma {:induction false} Remainder(base: nat, k: nat)
    requires base % 1_000 == 0 && k < 1_000
    ensures (base + k) % 1_000 == k
  {
  }

  lemma {:induction false} UsedThousands(base: nat, q: nat, thousand: nat)
    requires base == 1_000 * q && thousand == 1_000
    ensures Used(base) == 1_667_500 * q
  {
    if q > 0 {
      UsedThousands(base - thousand, q - 1, thousand);
      UsedWithin(base - thousand, thousand);
      TriangleNumber(thousand);
    }
  }

  // ---- The disagreement --------------------------------------------------------------------------

  /** 10083 files before the last, whose name has 1624 bytes: the header text has 16777150 bytes. */
  predicate JustFits(count: nat, tail: nat) {
    count == 10_083 && tail == 1_624
  }

  lemma {:induction false} FullAndPartial(count: nat, base: nat, m: nat, thousand: nat)
    requires count == base + m && base == 10_000 && m == 83 && thousand == 1_000
    ensures Used(count) == 16_775_347
  {
    UsedThousands(base, 10, thousand);
    UsedWithin(base, m);
    TriangleNumber(m);
  }

  lemma {:induction false} RowWidth(count: nat, tail: nat)
    requires JustFits(count, tail)
    ensures Widths(Row(count, tail)) == 16_775_347
  {
    var base, m, thousand := 10_000, 83, 1_000;
    FullAndPartial(count, base, m, thousand);
    RowWidths(count, tail, 0);
    assert Row(count, tail)[0..] == Row(count, tail);
  }

  lemma {:induction false} LastEntryLength(last: Bytes, hex: Bytes -> Text)
    requires |last| <= 1 && forall b :: |hex(b)| == 64
    ensures |NodeText(FileNode(OutputFile(PackedFile(last, false), 0, hex)))| == 164 + 66 * |last|
  {
    OutputTextLength(if last == [] then 0 else last[0], hex);
    assert last == [] || last == [last[0]];
  }

  lemma {:induction false} RowTextLength(count: nat, tail: nat, last: Bytes, hex: Bytes -> Text)
    requires JustFits(count, tail) && |last| <= 1 && forall b :: |hex(b)| == 64
    ensures var names := Row(count, tail);
            && EmptyBefore(names, RowFiles(names, last))
            && |NodeText(Directory(Flat(names, RowFiles(names, last), hex)))| == 16_777_150 + 66 * |last|
  {
    var names := Row(count, tail);
    RowAscends(count, tail);
    RowIsEmptyBefore(names, last);
    RowWidth(count, tail);
    LastEntryLength(last, hex);
    FlatTextLength(names, RowFiles(names, last), hex);
    DirectoryTextLength(Flat(names, RowFiles(names, last), hex));
  }

  lemma {:induction false} DirectoryTextLength(f: Forest)
    ensures |NodeText(Directory(f))| == |MembersText(f)| + 12
  {
  }

  lemma {:induction false} RowHasRoom(count: nat, tail: nat, l: AsarLimits)
    requires JustFits(count, tail) && l == INITIAL_LIMITS
    ensures var names := Row(count, tail);
            Ascending(names) && Distinct(names) && RootNames(names, l) && HasRoom(INITIAL, names, l)
  {
    RowAscends(count, tail);
    RowNames(count, tail, l);
    TimesBound(count + 1, l.maxEntries, l.maxPathBytes);
    DistinctPositions(Row(count, tail));
  }

  lemma {:induction false} RowOrder(names: seq<Text>, last: Bytes)
    requires names != [] && Ascending(names)
    ensures InPathOrder(RowFiles(names, last).Keys) == names
  {
    AscendingUnique(InPathOrder(RowFiles(names, last).Keys), names);
  }

  lemma {:induction false} RowBuilds(names: seq<Text>, last: Bytes, l: AsarLimits, hex: Bytes -> Text)
    requires names != [] && Ascending(names) && RootNames(names, l) && EmptyBefore(names, RowFiles(names, last))
    ensures var files := RowFiles(names, last);
            Build(InPathOrder(files.Keys), files, hex) == Some(Built(Flat(names, files, hex), last))
  {
    RowOrder(names, last);
    RowIsEmptyBefore(names, last);
    FlatBuilds(names, RowFiles(names, last), hex);
  }

  lemma {:induction false} RowRoundTrip(names: seq<Text>, last: Bytes, l: AsarLimits, codec: Codec)
    requires names != [] && Ascending(names) && RootNames(names, l) && HasRoom(INITIAL, names, l)
    requires EmptyBefore(names, RowFiles(names, [])) && EmptyBefore(names, RowFiles(names, last))
    requires ValidLimits(l) && |last| <= 1 <= l.maxFileBytes && 1 <= l.maxTotalFileBytes
    requires Prints(codec, Flat(names, RowFiles(names, last), codec.hex))
    requires var size := |NodeText(Directory(Flat(names, RowFiles(names, last), codec.hex)))|;
             size <= l.maxHeaderBytes <= 0x1000_0000 && l.maxHeaderBytes + 20 <= l.maxArchiveBytes
    ensures var text := NodeText(Directory(Flat(names, RowFiles(names, last), codec.hex)));
            && Serialize(RowFiles(names, last), l, codec) == Ok(Framed(text, last))
            && ParseArchive(Framed(text, last), l, codec)
               == if 16 + Padded(|text|) <= l.maxHeaderBytes then Ok(RowFiles(names, last)) else Err(HeaderTooLarge)
  {
    var files := RowFiles(names, last);
    RowBuilds(names, last, l, codec.hex);
    RowArchive(names, last, l, codec.hex);
    KnownRoundTrip(files, Flat(names, RowFiles(names, []), codec.hex), Flat(names, files, codec.hex), last, l, codec);
  }

  lemma {:induction false} RootNameIsCanonical(name: Text, l: AsarLimits)
    requires ValidName(name) && SlashFree(name) && |name| <= l.maxPathBytes && 1 <= l.maxDepth
    ensures Canonical(name, l)
  {
    SplitWhole(name);
  }

  lemma {:induction false} LastIsEdited(names: seq<Text>, x: byte)
    requires names != [] && Ascending(names)
    ensures Edited(RowFiles(names, []), [Edit(names[|names| - 1], [x])]) == RowFiles(names, [x])
  {
    var name, files := names[|names| - 1], RowFiles(names, []);
    RowIsEmptyBefore(names, []);
    var edits := [Edit(name, [x])];
    assert edits[..0] == [] && Edited(files, []) == files;
    assert files[name := files[name].(bytes := [x])] == RowFiles(names, [x]);
  }

  lemma {:induction false} LastIsReplaceable(names: seq<Text>, x: byte, l: AsarLimits)
    requires names != [] && Ascending(names) && RootNames(names, l)
    requires 1 <= l.maxDepth && 1 <= l.maxFileBytes && 1 <= l.maxTotalFileBytes
    ensures Replaceable(RowFiles(names, []), names[|names| - 1], [x], l)
  {
    RootNameIsCanonical(names[|names| - 1], l);
    RowOrder(names, []);
    RowIsEmptyBefore(names, []);
    EmptyBody(names, RowFiles(names, []));
  }

  lemma {:induction false} EmptyBody(names: seq<Text>, files: Files)
    requires Elements(names) <= files.Keys
    requires forall i :: 0 <= i < |names| ==> names[i] in files && files[names[i]].bytes == []
    ensures Body(names, files) == []
  {
    if names != [] {
      assert Elements(names[..|names| - 1]) <= Elements(names);
      EmptyBody(names[..|names| - 1], files);
    }
  }

  /** `to_bytes` bounds the header text, `parse` its padded size plus 16. Under the source's own limits this archive is
      read, the contents of one file are replaced by a single byte, and the result is written but cannot be read
      back. */
  lemma {:induction false} WritableButUnreadable(count: nat, tail: nat, x: byte, codec: Codec)
    returns (names: seq<Text>, original: Bytes, output: Bytes)
    requires JustFits(count, tail)
    requires var row := Row(count, tail);
             && EmptyBefore(row, RowFiles(row, [])) && EmptyBefore(row, RowFiles(row, [x]))
             && Prints(codec, Flat(row, RowFiles(row, []), codec.hex))
             && Prints(codec, Flat(row, RowFiles(row, [x]), codec.hex))
    ensures names == Row(count, tail)
    ensures ParseArchive(original, INITIAL_LIMITS, codec) == Ok(RowFiles(names, []))
    ensures Replaceable(RowFiles(names, []), names[count], [x], INITIAL_LIMITS)
    ensures Edited(RowFiles(names, []), [Edit(names[count], [x])]) == RowFiles(names, [x])
    ensures Serialize(RowFiles(names, [x]), INITIAL_LIMITS, codec) == Ok(output)
    ensures ParseArchive(output, INITIAL_LIMITS, codec) == Err(HeaderTooLarge)
  {
    var l, hex := INITIAL_LIMITS, codec.hex;
    names := Row(count, tail);
    RowHasRoom(count, tail, l);
    RowTextLength(count, tail, [], hex);
    RowTextLength(count, tail, [x], hex);
    RowRoundTrip(names, [], l, codec);
    RowRoundTrip(names, [x], l, codec);
    LastIsReplaceable(names, x, l);
    LastIsEdited(names, x);
    original := Framed(NodeText(Directory(Flat(names, RowFiles(names, []), hex))), []);
    output := Framed(NodeText(Directory(Flat(names, RowFiles(names, [x]), hex))), [x]);
  }

  lemma {:induction false} FlatNesting(names: seq<Text>, files: Files, hex: Bytes -> Text)
    requires EmptyBefore(names, files)
    ensures ForestNesting(Flat(names, files, hex)) <= 3
  {
    if names != [] {
      BeforeRest(names, files);
      FlatNesting(names[1..], files, hex);
    }
  }

  /** The hypotheses can be met, by a codec within the decoder's nesting limit. */
  lemma {:induction false} RowCodecExists(count: nat, tail: nat, x: byte) returns (codec: Codec)
    requires JustFits(count, tail)
    ensures var row := Row(count, tail);
            && EmptyBefore(row, RowFiles(row, [])) && EmptyBefore(row, RowFiles(row, [x]))
            && Prints(codec, Flat(row, RowFiles(row, []), codec.hex))
            && Prints(codec, Flat(row, RowFiles(row, [x]), codec.hex))
    ensures DecodesInOrder(codec) && NestingBounded(codec)
  {
    var row := Row(count, tail);
    RowTextLength(count, tail, [], ZeroHex);
    RowTextLength(count, tail, [x], ZeroHex);
    var a, b := Flat(row, RowFiles(row, []), ZeroHex), Flat(row, RowFiles(row, [x]), ZeroHex);
    SampleCodecPrints(a, b);
    codec := SampleCodec([a, b]);
    RowAscends(count, tail);
    FlatOrdered(row, RowFiles(row, []), ZeroHex);
    FlatOrdered(row, RowFiles(row, [x]), ZeroHex);
    FlatNesting(row, RowFiles(row, []), ZeroHex);
    FlatNesting(row, RowFiles(row, [x]), ZeroHex);
    SampleCodecBounded(a, b);
  }
}
