/** Reading back a written archive gives the same members exactly when its padded header fits. */
module AsarRoundTrip {
  import opened Basics
  import opened Ordering
  import opened AsarPaths
  import opened AsarTree
  import opened AsarCollect
  import opened AsarLayout
  import opened AsarArchive
  import opened AsarWrite

  /** Equal offsets are ordered by path, different ones by offset: either way the order is path order. */
  lemma {:induction false} LayoutIsPathOrder(m: map<Text, Pending>, paths: seq<Text>, files: Files, hex: Bytes -> Text)
    requires Elements(paths) == files.Keys && Ascending(paths) && Planned(m, paths, files, hex)
    ensures InLayoutOrder(m) == paths
  {
    forall i | 0 <= i < |paths| ensures paths[i] in m { assert paths[i] in Elements(paths); }
    var keys := seq(|paths|, i requires 0 <= i < |paths| => SortKey(paths[i], m[paths[i]]));
    forall i, j | 0 <= i < j < |keys| ensures Less(keys[i], keys[j]) {
      assert PlannedAt(m, paths, files, hex, i) && PlannedAt(m, paths, files, hex, j);
      BodyPrefix(paths, files, j);
      BodyPrefix(paths[..j], files, i);
      assert paths[..j][..i] == paths[..i];
      assert keys[i][1..] == paths[i] && keys[j][1..] == paths[j];
    }
    forall k ensures k in keys <==> k in SortKeys(m) {
      if k in SortKeys(m) {
        KeyNames(m, k);
        assert k[1..] in Elements(paths);
        var i :| 0 <= i < |paths| && paths[i] == k[1..];
        assert keys[i] == k;
      }
    }
    AscendingUnique(keys, Sorted(SortKeys(m)));
    assert forall i :: 0 <= i < |paths| ==> keys[i][1..] == paths[i];
  }

  lemma {:induction false} PlannedIsLaid(m: map<Text, Pending>, paths: seq<Text>, files: Files, hex: Bytes -> Text,
          i: nat)
    requires Elements(paths) == files.Keys && Planned(m, paths, files, hex) && i <= |paths|
    ensures Elements(paths[i..]) <= m.Keys && Elements(paths[..i]) <= files.Keys
    ensures Laid(paths[i..], m, |Body(paths[..i], files)|, |Body(paths, files)|)
    decreases |paths| - i
  {
    assert Elements(paths[i..]) <= Elements(paths) && Elements(paths[..i]) <= Elements(paths);
    if i < |paths| {
      assert PlannedAt(m, paths, files, hex, i);
      BodyHolds(paths, files, i);
      PlannedIsLaid(m, paths, files, hex, i + 1);
      assert paths[i..][1..] == paths[i + 1..] && paths[i..][0] == paths[i];
    } else {
      assert paths[..i] == paths;
    }
  }

  lemma {:induction false} MemberRestored(m: map<Text, Pending>, paths: seq<Text>, files: Files, hex: Bytes -> Text,
          p: Text)
    requires Elements(paths) == files.Keys && Planned(m, paths, files, hex) && p in m
    ensures Intact(m[p], Body(paths, files), hex) && Cut(m[p], Body(paths, files)) == files[p]
  {
    assert p in Elements(paths);
    var i :| 0 <= i < |paths| && paths[i] == p;
    assert PlannedAt(m, paths, files, hex, i);
    BodyHolds(paths, files, i);
  }

  /** Cutting the body up again gives back every member. */
  lemma {:induction false} FinishRestores(m: map<Text, Pending>, paths: seq<Text>, files: Files, hex: Bytes -> Text,
          body: Bytes)
    requires Elements(paths) == files.Keys && Ascending(paths) && Planned(m, paths, files, hex)
    requires body == Body(paths, files)
    ensures Finish(m, body, hex) == Ok(files)
  {
    LayoutIsPathOrder(m, paths, files, hex);
    assert Laid(InLayoutOrder(m), m, 0, |body|) by {
      PlannedIsLaid(m, paths, files, hex, 0);
      assert paths[0..] == paths && paths[..0] == [];
    }
    forall p | p in m ensures Intact(m[p], body, hex) && Cut(m[p], body) == files[p] {
      MemberRestored(m, paths, files, hex, p);
    }
    assert Materialised(m, body) == files;
  }

  // ---- The round trip ------------------------------------------------------------------------

  /** Decoding delivers members in name order, as a `BTreeMap` does. */
  ghost predicate DecodesInOrder(codec: Codec) {
    forall b :: codec.decode(b).Some? && codec.decode(b).value.Directory? ==> Ordered(codec.decode(b).value.files)
  }

  /** The one tree this archive is written with survives the header codec. */
  predicate Survives(files: Files, codec: Codec) {
    var built := Build(InPathOrder(files.Keys), files, codec.hex);
    built.Some? ==> codec.decode(codec.encode(built.value.forest)) == Some(Directory(built.value.forest))
  }

  predicate ValidLimits(l: AsarLimits) {
    l.maxTotalFileBytes <= U64_MAX && l.maxArchiveBytes <= U64_MAX
  }

  /** `to_bytes`. */
  function Serialize(files: Files, l: AsarLimits, codec: Codec): Result<Bytes, AsarError> {
    var built := Build(InPathOrder(files.Keys), files, codec.hex);
    if built.None? then Err(InvalidLayout)
    else if |built.value.body| > l.maxTotalFileBytes then Err(AggregateTooLarge)
    else
      var json := codec.encode(built.value.forest);
      if |json| > l.maxHeaderBytes || Padded(|json|) + 8 > U32_MAX then Err(HeaderTooLarge)
      else if 16 + Padded(|json|) + |built.value.body| > l.maxArchiveBytes then Err(ArchiveTooLarge)
      else Ok(Framed(json, built.value.body))
  }

  /** The header text an archive is written with. */
  function HeaderText(files: Files, codec: Codec): Bytes {
    var built := Build(InPathOrder(files.Keys), files, codec.hex);
    if built.None? then [] else codec.encode(built.value.forest)
  }

  lemma {:induction false} WrittenCollects(built: Built, paths: seq<Text>, files: Files, shape: Forest, l: AsarLimits,
          hex: Bytes -> Text)
    requires ArchiveInv(files, shape, l) && Elements(paths) == files.Keys && Holds(built, paths, files, hex)
    requires |built.body| <= l.maxTotalFileBytes <= U64_MAX
    ensures AllPackable(built.forest, l) && Collect(built.forest, [], 0, INITIAL, l).Ok?
    ensures Planned(Collect(built.forest, [], 0, INITIAL, l).value.files, paths, files, hex)
  {
    WrittenShape(built, paths, files, shape, l, hex);
    WrittenPackable(built, paths, files, l, hex);
    CollectSameShape(shape, built.forest, [], 0, INITIAL, INITIAL, l);
    CollectChecks(built.forest, [], 0, INITIAL, l);
    CollectGathers(built.forest, [], 0, INITIAL, l);
    WrittenPlan(built, paths, files, shape, l, hex);
    var m := FilesOf(built.forest, [], l);
    assert INITIAL.files + m == m;
  }

  /** Writing never fails for the tree's sake, and reading back what was written gives the same members,
      exactly when the padded header fits the reader's bound. */
  lemma {:induction false} RoundTrip(files: Files, shape: Forest, l: AsarLimits, codec: Codec)
    requires ArchiveInv(files, shape, l) && ValidLimits(l)
    ensures Serialize(files, l, codec) != Err(InvalidLayout)
    ensures Serialize(files, l, codec).Ok? && Survives(files, codec) ==>
              ParseArchive(Serialize(files, l, codec).value, l, codec)
              == if 16 + Padded(|HeaderText(files, codec)|) <= l.maxHeaderBytes then Ok(files) else Err(HeaderTooLarge)
  {
    var paths := InPathOrder(files.Keys);
    BuildHolds(paths, files, shape, l, codec.hex);
    var built := Build(paths, files, codec.hex).value;
    if Serialize(files, l, codec).Ok? && Survives(files, codec) {
      WrittenCollects(built, paths, files, shape, l, codec.hex);
      var json := codec.encode(built.forest);
      HeaderRoundTrip(json, built.body, built.forest, l, codec);
      FramedFields(json, built.body);
      var m := Collect(built.forest, [], 0, INITIAL, l).value.files;
      FinishRestores(m, paths, files, codec.hex, built.body);
    }
  }

  /** Whatever was read satisfies the invariant that writing relies on. */
  lemma {:induction false} ParseEstablishes(bytes: Bytes, l: AsarLimits, codec: Codec)
    requires DecodesInOrder(codec) && ParseArchive(bytes, l, codec).Ok?
    ensures var root := ParseHeader(bytes, l, codec).value.root;
            ArchiveInv(ParseArchive(bytes, l, codec).value, root, l)
  {
    var header := ParseHeader(bytes, l, codec).value;
    var files := Collect(header.root, [], 0, INITIAL, l).value.files;
    FinishKeeps(files, bytes[header.dataStart..], codec.hex);
    CollectedFit(header.root, l);
  }

  lemma {:induction false} CollectedFit(root: Forest, l: AsarLimits)
    requires Ordered(root) && Collect(root, [], 0, INITIAL, l).Ok?
    ensures var files := Collect(root, [], 0, INITIAL, l).value.files;
            forall p :: p in files ==> files[p].size <= l.maxFileBytes
  {
    CollectChecks(root, [], 0, INITIAL, l);
    CollectGathers(root, [], 0, INITIAL, l);
    var files := FilesOf(root, [], l);
    assert INITIAL.files + files == files;
    forall p | p in files ensures files[p].size <= l.maxFileBytes {
      var c := FilesOfOrigin(root, [], l, p);
      FilesOfLookup(root, [], l, c);
    }
  }
}
