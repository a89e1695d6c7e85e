/** Packed-file layout: how collected members must tile the archive body. */
module AsarLayout {
  import opened Basics
  import opened Ordering
  import opened AsarPaths
  import opened AsarTree
  import opened AsarCollect

  const INTEGRITY_BLOCK_SIZE: nat := 4 * 1024 * 1024

  datatype PackedFile = PackedFile(bytes: Bytes, executable: bool)

  /** What the archive reader needs from outside: the header JSON codec and the hexadecimal SHA-256. */
  datatype Codec = Codec(decode: Bytes -> Option<Node>, encode: Forest -> Bytes, hex: Bytes -> Text)

  function Blocks(bytes: Bytes, hex: Bytes -> Text): seq<Text>
    decreases |bytes|
  {
    if bytes == [] then []
    else if |bytes| <= INTEGRITY_BLOCK_SIZE then [hex(bytes)]
    else [hex(bytes[..INTEGRITY_BLOCK_SIZE])] + Blocks(bytes[INTEGRITY_BLOCK_SIZE..], hex)
  }

  function IntegrityOf(bytes: Bytes, hex: Bytes -> Text): Integrity {
    Integrity(Ascii("SHA256"), hex(bytes), INTEGRITY_BLOCK_SIZE, Blocks(bytes, hex))
  }

  // ---- Tiling ------------------------------------------------------------------------------

  /** The key of `sort_by`: offset, then path. */
  function SortKey(path: Text, file: Pending): seq<int> {
    [file.offset] + path
  }

  function SortKeys(files: map<Text, Pending>): set<seq<int>> {
    set p | p in files :: SortKey(p, files[p])
  }

  lemma {:induction false} KeyNames(files: map<Text, Pending>, k: seq<int>)
    requires k in SortKeys(files)
    ensures k != [] && k[1..] in files && k == SortKey(k[1..], files[k[1..]])
  {
    var p :| p in files && k == SortKey(p, files[p]);
    assert k[1..] == p;
  }

  /** The members in layout order. */
  function InLayoutOrder(files: map<Text, Pending>): (paths: seq<Text>)
    ensures Elements(paths) == files.Keys && Distinct(paths)
  {
    var keys := Sorted(SortKeys(files));
    assert forall i :: 0 <= i < |keys| ==> keys[i] in Elements(keys);
    var paths := seq(|keys|, i requires 0 <= i < |keys| => (KeyNames(files, keys[i]); keys[i][1..]));
    LayoutOrderFacts(files, keys, paths);
    paths
  }

  lemma {:induction false} LayoutOrderFacts(files: map<Text, Pending>, keys: seq<seq<int>>, paths: seq<Text>)
    requires Ascending(keys) && Elements(keys) == SortKeys(files) && |paths| == |keys|
    requires forall i :: 0 <= i < |keys| ==> keys[i] in SortKeys(files) && keys[i] != [] && paths[i] == keys[i][1..]
    ensures Elements(paths) == files.Keys && Distinct(paths)
  {
    forall p ensures p in paths <==> p in files {
      if p in files {
        assert SortKey(p, files[p]) in Elements(keys);
        var i :| 0 <= i < |keys| && keys[i] == SortKey(p, files[p]);
        assert paths[i] == p;
      }
      if p in paths {
        var i :| 0 <= i < |paths| && paths[i] == p;
        KeyNames(files, keys[i]);
      }
    }
    AscendingDistinct(keys);
    DistinctPositions(keys);
    forall i, j | 0 <= i < j < |paths| ensures paths[i] != paths[j] {
      KeyNames(files, keys[i]);
      KeyNames(files, keys[j]);
    }
    DistinctPositions(paths);
  }

  /** Laid end to end from `cursor`, the members finish exactly at `end`. */
  predicate Laid(paths: seq<Text>, files: map<Text, Pending>, cursor: nat, end: nat)
    requires Elements(paths) <= files.Keys
  {
    if paths == [] then cursor == end
    else
      assert paths[0] in Elements(paths) && Elements(paths[1..]) <= Elements(paths);
      files[paths[0]].offset == cursor && Laid(paths[1..], files, cursor + files[paths[0]].size, end)
  }

  lemma {:induction false} LaidBounds(paths: seq<Text>, files: map<Text, Pending>, cursor: nat, end: nat, p: Text)
    requires Elements(paths) <= files.Keys && Laid(paths, files, cursor, end)
    ensures cursor <= end
    ensures p in paths ==> cursor <= files[p].offset && files[p].offset + files[p].size <= end
    decreases |paths|
  {
    if paths != [] {
      assert paths[0] in Elements(paths) && Elements(paths[1..]) <= Elements(paths);
      LaidBounds(paths[1..], files, cursor + files[paths[0]].size, end, p);
      if p in paths && p != paths[0] { assert p in paths[1..]; }
    }
  }

  /** No gap: every body position belongs to a member. */
  lemma {:induction false} LaidCovers(paths: seq<Text>, files: map<Text, Pending>, cursor: nat, end: nat, at: nat)
    returns (p: Text)
    requires Elements(paths) <= files.Keys && Laid(paths, files, cursor, end) && cursor <= at < end
    ensures p in paths && p in files && files[p].offset <= at < files[p].offset + files[p].size
    decreases |paths|
  {
    p := paths[0];
    assert p in Elements(paths) && Elements(paths[1..]) <= Elements(paths);
    if at >= cursor + files[p].size {
      p := LaidCovers(paths[1..], files, cursor + files[p].size, end, at);
      assert p in Elements(paths[1..]);
    }
  }

  /** No overlap. */
  lemma {:induction false} LaidDisjoint(paths: seq<Text>, files: map<Text, Pending>, cursor: nat, end: nat, p: Text,
          q: Text)
    requires Elements(paths) <= files.Keys && Distinct(paths) && Laid(paths, files, cursor, end)
    requires p in paths && q in paths && p != q && p in files && q in files
    ensures files[p].offset + files[p].size <= files[q].offset || files[q].offset + files[q].size <= files[p].offset
    decreases |paths|
  {
    var head, rest := paths[0], paths[1..];
    assert paths == [head] + rest && head in Elements(paths) && Elements(rest) <= Elements(paths);
    DistinctConcat([head], rest);
    var next := cursor + files[head].size;
    LaidBounds(rest, files, next, end, p);
    LaidBounds(rest, files, next, end, q);
    if p != head && q != head { LaidDisjoint(rest, files, next, end, p, q); }
  }

  ghost predicate TilesBody(files: map<Text, Pending>, end: nat) {
    Laid(InLayoutOrder(files), files, 0, end)
  }

  // ---- Finishing ---------------------------------------------------------------------------

  predicate Intact(file: Pending, body: Bytes, hex: Bytes -> Text) {
    && file.offset + file.size <= |body|
    && file.integrity == IntegrityOf(body[file.offset..file.offset + file.size], hex)
  }

  predicate AllIntact(files: map<Text, Pending>, body: Bytes, hex: Bytes -> Text) {
    forall p :: p in files ==> Intact(files[p], body, hex)
  }

  /** The cursor loop shared by both `finish` functions. */
  method WalkLayout(paths: seq<Text>, files: map<Text, Pending>, end: nat) returns (tiled: bool)
    requires Elements(paths) <= files.Keys && end <= U64_MAX
    ensures tiled <==> Laid(paths, files, 0, end)
  {
    var cursor: nat, rest := 0, paths;
    while rest != []
      invariant Elements(rest) <= files.Keys
      invariant Laid(rest, files, cursor, end) <==> Laid(paths, files, 0, end)
    {
      assert rest[0] in Elements(rest) && Elements(rest[1..]) <= Elements(rest);
      var file := files[rest[0]];
      if file.offset != cursor {
        return false;
      }
      if cursor + file.size > U64_MAX {
        TooFar(rest[1..], files, cursor + file.size, end);
        return false;
      }
      cursor, rest := cursor + file.size, rest[1..];
    }
    return cursor == end;
  }

  lemma {:induction false} TooFar(paths: seq<Text>, files: map<Text, Pending>, cursor: nat, end: nat)
    requires Elements(paths) <= files.Keys && end < cursor
    ensures !Laid(paths, files, cursor, end)
  {
    if Laid(paths, files, cursor, end) { LaidBounds(paths, files, cursor, end, []); }
  }

  function Cut(file: Pending, body: Bytes): PackedFile
    requires file.offset + file.size <= |body|
  {
    PackedFile(body[file.offset..file.offset + file.size], file.executable)
  }

  function Materialised(files: map<Text, Pending>, body: Bytes): map<Text, PackedFile>
    requires forall p :: p in files ==> files[p].offset + files[p].size <= |body|
  {
    map p | p in files :: Cut(files[p], body)
  }

  lemma {:induction false} TilesInside(files: map<Text, Pending>, end: nat)
    requires TilesBody(files, end)
    ensures forall p :: p in files ==> files[p].offset + files[p].size <= end
  {
    var paths := InLayoutOrder(files);
    forall p | p in files ensures files[p].offset + files[p].size <= end {
      assert p in Elements(paths);
      LaidBounds(paths, files, 0, end, p);
    }
  }

  /** Accepted members tile the body: every position belongs to exactly one of them. */
  lemma {:induction false} TilesExactly(files: map<Text, Pending>, end: nat, at: nat) returns (p: Text)
    requires TilesBody(files, end) && at < end
    ensures p in files && files[p].offset <= at < files[p].offset + files[p].size <= end
    ensures forall q :: q in files && files[q].offset <= at < files[q].offset + files[q].size ==> q == p
  {
    var paths := InLayoutOrder(files);
    p := LaidCovers(paths, files, 0, end, at);
    TilesInside(files, end);
    forall q | q in files && files[q].offset <= at < files[q].offset + files[q].size ensures q == p {
      assert q in Elements(paths);
      if q != p { LaidDisjoint(paths, files, 0, end, p, q); }
    }
  }

  /** The archive's `finish`. */
  function Finish(files: map<Text, Pending>, body: Bytes, hex: Bytes -> Text)
    : Result<map<Text, PackedFile>, AsarError>
  {
    if !Laid(InLayoutOrder(files), files, 0, |body|) then Err(InvalidLayout)
    else if !AllIntact(files, body, hex) then Err(IntegrityMismatch)
    else Ok(Materialised(files, body))
  }

  /** Cuts out and verifies the members in path order. */
  method CutMembers(paths: seq<Text>, files: map<Text, Pending>, body: Bytes, hex: Bytes -> Text)
    returns (r: Option<map<Text, PackedFile>>)
    requires Elements(paths) <= files.Keys
    requires forall p :: p in files ==> files[p].offset + files[p].size <= |body|
    ensures r.Some? <==> forall p :: p in Elements(paths) ==> Intact(files[p], body, hex)
    ensures r.Some? ==> r.value.Keys == Elements(paths)
    ensures r.Some? ==> forall p :: p in r.value ==> p in files && r.value[p] == Cut(files[p], body)
  {
    var result: map<Text, PackedFile>, rest := map[], paths;
    ghost var done: set<Text> := {};
    while rest != []
      invariant done + Elements(rest) == Elements(paths) && result.Keys == done
      invariant forall p :: p in done ==> p in files && Intact(files[p], body, hex)
      invariant forall p :: p in result ==> p in files && result[p] == Cut(files[p], body)
    {
      var path := rest[0];
      assert path in Elements(rest) && Elements(rest) == {path} + Elements(rest[1..]);
      var file := files[path];
      var cut := Cut(file, body);
      if file.integrity != IntegrityOf(cut.bytes, hex) {
        assert !Intact(file, body, hex) && path in Elements(paths);
        return None;
      }
      result := result[path := cut];
      done, rest := done + {path}, rest[1..];
    }
    return Some(result);
  }

  /** `finish`: the layout is checked, then every member is cut out and verified. */
  method FinishArchive(files: map<Text, Pending>, body: Bytes, hex: Bytes -> Text)
    returns (r: Result<map<Text, PackedFile>, AsarError>)
    requires |body| <= U64_MAX
    ensures r == Finish(files, body, hex)
  {
    var tiled := WalkLayout(InLayoutOrder(files), files, |body|);
    if !tiled {
      return Err(InvalidLayout);
    }
    TilesInside(files, |body|);
    var members := CutMembers(InPathOrder(files.Keys), files, body, hex);
    if members.None? {
      return Err(IntegrityMismatch);
    }
    assert members.value == Materialised(files, body);
    return Ok(members.value);
  }

  lemma {:induction false} FinishTiles(files: map<Text, Pending>, body: Bytes, hex: Bytes -> Text)
    requires Finish(files, body, hex).Ok?
    ensures TilesBody(files, |body|)
  {
  }

  lemma {:induction false} FinishKeeps(files: map<Text, Pending>, body: Bytes, hex: Bytes -> Text)
    requires Finish(files, body, hex).Ok?
    ensures var done := Finish(files, body, hex).value;
            && done.Keys == files.Keys
            && forall p :: p in done ==>
                 && files[p].offset + files[p].size <= |body| && |done[p].bytes| == files[p].size
                 && done[p].bytes == body[files[p].offset..files[p].offset + files[p].size]
  {
  }
}
