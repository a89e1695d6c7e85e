/** What the writer builds: a tree that holds every member with its place in the body. */
module AsarWrite {
  import opened Basics
  import opened AsarPaths
  import opened AsarTree
  import opened AsarCollect
  import opened AsarLayout
  import opened AsarArchive

  /** The members' bytes, end to end. */
  function Body(paths: seq<Text>, files: Files): Bytes
    requires Elements(paths) <= files.Keys
  {
    if paths == [] then [] else
      assert paths[|paths| - 1] in Elements(paths) && Elements(paths[..|paths| - 1]) <= Elements(paths);
      Body(paths[..|paths| - 1], files) + files[paths[|paths| - 1]].bytes
  }

  function OutputFile(file: PackedFile, offset: nat, hex: Bytes -> Text): FileEntry {
    FileEntry(|file.bytes|, Some(Decimal(offset)), file.executable, false, Some(IntegrityOf(file.bytes, hex)))
  }

  datatype Built = Built(forest: Forest, body: Bytes)

  /** One round of the writing loop. */
  function AddFile(b: Built, path: Text, file: PackedFile, hex: Bytes -> Text): Option<Built> {
    var g := Insert(b.forest, Split(path), OutputFile(file, |b.body|, hex));
    if g.None? then None else Some(Built(g.value, b.body + file.bytes))
  }

  /** The tree and body after writing `paths` in order. */
  function Build(paths: seq<Text>, files: Files, hex: Bytes -> Text): Option<Built>
    requires Elements(paths) <= files.Keys
  {
    if paths == [] then Some(Built(Nil, [])) else
      assert paths[|paths| - 1] in Elements(paths) && Elements(paths[..|paths| - 1]) <= Elements(paths);
      var before := Build(paths[..|paths| - 1], files, hex);
      if before.None? then None else AddFile(before.value, paths[|paths| - 1], files[paths[|paths| - 1]], hex)
  }

  // ---- The paths of an archive -------------------------------------------------------------

  /** Every member path names a file of the tree the archive came from, and conversely. */
  lemma {:induction false} PathInShape(files: Files, shape: Forest, l: AsarLimits, p: Text)
    requires ArchiveInv(files, shape, l) && p in files
    ensures Lookup(shape, Split(p)).Some? && Wholesome(Split(p)) && Path([], Split(p)) == p
  {
    CollectChecks(shape, [], 0, INITIAL, l);
    CollectGathers(shape, [], 0, INITIAL, l);
    var c := FilesOfOrigin(shape, [], l, p);
    LookupIsWholesome(shape, c);
    PathFromRoot([], c);
    SplitJoin(c);
  }

  lemma {:induction false} ShapeInPaths(files: Files, shape: Forest, l: AsarLimits, c: Components)
    requires ArchiveInv(files, shape, l) && Lookup(shape, c).Some?
    ensures Path([], c) in files && Split(Path([], c)) == c
  {
    CollectChecks(shape, [], 0, INITIAL, l);
    CollectGathers(shape, [], 0, INITIAL, l);
    FilesOfLookup(shape, [], l, c);
    LookupIsWholesome(shape, c);
    PathFromRoot([], c);
    SplitJoin(c);
  }

  // ---- The tree that is written ------------------------------------------------------------

  /** The tree holds exactly the written paths, each with its place in the body. */
  ghost predicate Holds(b: Built, paths: seq<Text>, files: Files, hex: Bytes -> Text)
    requires Elements(paths) <= files.Keys
  {
    && Ordered(b.forest) && Plain(b.forest)
    && b.body == Body(paths, files) && TotalSize(b.forest) == |b.body|
    && (forall c :: Lookup(b.forest, c).Some? ==> exists i :: 0 <= i < |paths| && c == Split(paths[i]))
    && (forall i :: 0 <= i < |paths| ==> PlacedAt(b.forest, paths, files, hex, i))
  }

  ghost predicate PlacedAt(f: Forest, paths: seq<Text>, files: Files, hex: Bytes -> Text, i: nat)
    requires Elements(paths) <= files.Keys && i < |paths|
  {
    assert paths[i] in Elements(paths) && Elements(paths[..i]) <= Elements(paths);
    Lookup(f, Split(paths[i])) == Some(OutputFile(files[paths[i]], |Body(paths[..i], files)|, hex))
  }

  lemma {:induction false} SplitDistinct(a: Text, b: Text)
    ensures Split(a) == Split(b) ==> a == b
  {
    JoinSplit(a);
    JoinSplit(b);
  }

  lemma {:induction false} NextIsCompatible(b: Built, before: seq<Text>, p: Text, files: Files, shape: Forest,
          l: AsarLimits, hex: Bytes -> Text)
    requires ArchiveInv(files, shape, l) && Elements(before) <= files.Keys && Holds(b, before, files, hex)
    requires p in files && p !in before
    ensures Compatible(b.forest, Split(p))
  {
    PathInShape(files, shape, l, p);
    forall c | Lookup(b.forest, c).Some? ensures !(c <= Split(p)) && !(Split(p) <= c) {
      var i :| 0 <= i < |before| && c == Split(before[i]);
      assert before[i] in Elements(before);
      PathInShape(files, shape, l, before[i]);
      SplitDistinct(before[i], p);
      if c <= Split(p) { FilesArePrefixFree(shape, c, Split(p)); }
      if Split(p) <= c { FilesArePrefixFree(shape, Split(p), c); }
    }
  }

  lemma {:induction false} AddHolds(b: Built, before: seq<Text>, p: Text, files: Files, hex: Bytes -> Text, g: Built)
    requires Elements(before) <= files.Keys && Holds(b, before, files, hex)
    requires p in files && p !in before && AddFile(b, p, files[p], hex) == Some(g)
    ensures Elements(before + [p]) <= files.Keys && Holds(g, before + [p], files, hex)
  {
    var paths, file := before + [p], OutputFile(files[p], |b.body|, hex);
    assert paths[..|before|] == before;
    InsertStructure(b.forest, Split(p), file);
    InsertSize(b.forest, Split(p), file);
    forall c | Lookup(g.forest, c).Some? ensures exists i :: 0 <= i < |paths| && c == Split(paths[i]) {
      InsertLookup(b.forest, Split(p), file, c);
      if c == Split(p) {
        assert c == Split(paths[|before|]);
      } else {
        var i :| 0 <= i < |before| && c == Split(before[i]);
        assert c == Split(paths[i]);
      }
    }
    forall i | 0 <= i < |paths| ensures PlacedAt(g.forest, paths, files, hex, i) {
      InsertLookup(b.forest, Split(p), file, Split(paths[i]));
      if i < |before| {
        assert PlacedAt(b.forest, before, files, hex, i) && paths[..i] == before[..i];
        SplitDistinct(paths[i], p);
      }
    }
  }

  /** Writing an archive never collides: the tree it was read from has room for every path. */
  lemma {:induction false} BuildHolds(paths: seq<Text>, files: Files, shape: Forest, l: AsarLimits, hex: Bytes -> Text)
    requires ArchiveInv(files, shape, l) && Elements(paths) <= files.Keys && Distinct(paths)
    ensures Build(paths, files, hex).Some? && Holds(Build(paths, files, hex).value, paths, files, hex)
  {
    if paths != [] {
      var before, p := paths[..|paths| - 1], paths[|paths| - 1];
      assert p in Elements(paths) && Elements(before) <= Elements(paths);
      BuildHolds(before, files, shape, l, hex);
      var b := Build(before, files, hex).value;
      NextIsCompatible(b, before, p, files, shape, l, hex);
      InsertSucceeds(b.forest, Split(p), OutputFile(files[p], |b.body|, hex));
      AddHolds(b, before, p, files, hex, Build(paths, files, hex).value);
      assert before + [p] == paths;
    }
  }

  /** The written tree has the shape of the tree the archive was read from. */
  lemma {:induction false} WrittenShape(b: Built, paths: seq<Text>, files: Files, shape: Forest, l: AsarLimits,
          hex: Bytes -> Text)
    requires ArchiveInv(files, shape, l) && Elements(paths) == files.Keys && Holds(b, paths, files, hex)
    ensures SameShape(shape, b.forest)
  {
    CollectChecks(shape, [], 0, INITIAL, l);
    forall c ensures Lookup(shape, c).Some? <==> Lookup(b.forest, c).Some? {
      if Lookup(shape, c).Some? {
        ShapeInPaths(files, shape, l, c);
        assert Path([], c) in Elements(paths);
        var i :| 0 <= i < |paths| && paths[i] == Path([], c);
        assert PlacedAt(b.forest, paths, files, hex, i);
      }
      if Lookup(b.forest, c).Some? {
        var i :| 0 <= i < |paths| && c == Split(paths[i]);
        assert paths[i] in Elements(paths);
        PathInShape(files, shape, l, paths[i]);
      }
    }
    FilesDetermineShape(shape, b.forest);
  }

  lemma {:induction false} PackableEverywhere(f: Forest, l: AsarLimits)
    requires Ordered(f) && Plain(f)
    requires forall c :: Lookup(f, c).Some? ==> Packable(Lookup(f, c).value, l)
    ensures AllPackable(f, l)
  {
    if f.Cons? {
      if f.node.FileNode? {
        assert Lookup(f, [f.name]).Some?;
      } else {
        forall c | Lookup(f.node.files, c).Some? ensures Packable(Lookup(f.node.files, c).value, l) {
          assert ([f.name] + c)[1..] == c;
          assert Lookup(f, [f.name] + c).Some?;
        }
        PackableEverywhere(f.node.files, l);
      }
      forall c | Lookup(f.rest, c).Some? ensures Packable(Lookup(f.rest, c).value, l) {
        if c[0] == f.name { RestMisses(f, c); }
        assert Lookup(f, c).Some?;
      }
      PackableEverywhere(f.rest, l);
    }
  }

  lemma {:induction false} BodyPrefix(paths: seq<Text>, files: Files, i: nat)
    requires Elements(paths) <= files.Keys && i <= |paths|
    ensures Elements(paths[..i]) <= files.Keys && Body(paths[..i], files) <= Body(paths, files)
  {
    assert Elements(paths[..i]) <= Elements(paths);
    if i < |paths| {
      var before := paths[..|paths| - 1];
      assert Elements(before) <= Elements(paths);
      BodyPrefix(before, files, i);
      assert before[..i] == paths[..i];
    } else {
      assert paths[..i] == paths;
    }
  }

  /** Every member lies in the body where its offset says. */
  lemma {:induction false} BodyHolds(paths: seq<Text>, files: Files, i: nat)
    requires Elements(paths) <= files.Keys && i < |paths|
    ensures Elements(paths[..i]) <= files.Keys && paths[i] in files
    ensures var at, bytes := |Body(paths[..i], files)|, files[paths[i]].bytes;
            && at + |bytes| <= |Body(paths, files)| && Body(paths, files)[at..at + |bytes|] == bytes
            && |Body(paths[..i + 1], files)| == at + |bytes|
  {
    assert paths[i] in Elements(paths) && Elements(paths[..i]) <= Elements(paths);
    BodyPrefix(paths, files, i + 1);
    assert paths[..i + 1][..i] == paths[..i] && paths[..i + 1][i] == paths[i];
  }

  lemma {:induction false} WrittenPackable(b: Built, paths: seq<Text>, files: Files, l: AsarLimits, hex: Bytes -> Text)
    requires Elements(paths) == files.Keys && Holds(b, paths, files, hex)
    requires |b.body| <= U64_MAX && forall p :: p in files ==> |files[p].bytes| <= l.maxFileBytes
    ensures AllPackable(b.forest, l)
  {
    forall c | Lookup(b.forest, c).Some? ensures Packable(Lookup(b.forest, c).value, l) {
      var i :| 0 <= i < |paths| && c == Split(paths[i]);
      assert PlacedAt(b.forest, paths, files, hex, i);
      BodyHolds(paths, files, i);
      OffsetRoundTrip(|Body(paths[..i], files)|);
    }
    PackableEverywhere(b.forest, l);
  }

  // ---- The layout that is read back ----------------------------------------------------------

  /** What the reader collects from the written tree. */
  ghost predicate Planned(m: map<Text, Pending>, paths: seq<Text>, files: Files, hex: Bytes -> Text)
    requires Elements(paths) == files.Keys
  {
    && m.Keys == files.Keys
    && (forall i :: 0 <= i < |paths| ==> PlannedAt(m, paths, files, hex, i))
  }

  ghost predicate PlannedAt(m: map<Text, Pending>, paths: seq<Text>, files: Files, hex: Bytes -> Text, i: nat)
    requires Elements(paths) == files.Keys == m.Keys && i < |paths|
  {
    assert paths[i] in Elements(paths) && Elements(paths[..i]) <= Elements(paths);
    var file := files[paths[i]];
    m[paths[i]] == Pending(|Body(paths[..i], files)|, |file.bytes|, file.executable, IntegrityOf(file.bytes, hex))
  }

  lemma {:induction false} WrittenPlan(b: Built, paths: seq<Text>, files: Files, shape: Forest, l: AsarLimits,
          hex: Bytes -> Text)
    requires ArchiveInv(files, shape, l) && Elements(paths) == files.Keys && Holds(b, paths, files, hex)
    requires AllPackable(b.forest, l) && NamesValid(b.forest) && |b.body| <= U64_MAX
    ensures Planned(FilesOf(b.forest, [], l), paths, files, hex)
  {
    var m := FilesOf(b.forest, [], l);
    forall i | 0 <= i < |paths|
      ensures paths[i] in m && paths[i] in files && m.Keys >= {paths[i]}
      ensures m.Keys == files.Keys ==> PlannedAt(m, paths, files, hex, i)
    {
      assert paths[i] in Elements(paths);
      assert PlacedAt(b.forest, paths, files, hex, i);
      PathInShape(files, shape, l, paths[i]);
      FilesOfLookup(b.forest, [], l, Split(paths[i]));
      BodyHolds(paths, files, i);
      OffsetRoundTrip(|Body(paths[..i], files)|);
    }
    forall p ensures p in m <==> p in files {
      if p in m {
        var c := FilesOfOrigin(b.forest, [], l, p);
        var i :| 0 <= i < |paths| && c == Split(paths[i]);
        assert paths[i] in Elements(paths);
        PathInShape(files, shape, l, paths[i]);
      }
      if p in files {
        assert p in Elements(paths);
        var i :| 0 <= i < |paths| && paths[i] == p;
      }
    }
  }
}
