/** The archive and the read-only index as callers see them. */
module AsarObjects {
  import opened Basics
  import opened AsarPaths
  import opened AsarTree
  import opened AsarCollect
  import opened AsarLayout
  import opened AsarArchive
  import opened AsarWrite
  import opened AsarRoundTrip

  // ---- Which members a path can reach --------------------------------------------------------

  /** Collected paths are within the path bound, made of valid names, and one level deeper at most than
      the deepest directory. */
  lemma {:induction false} CollectedPath(f: Forest, parent: Text, depth: nat, st: State, l: AsarLimits, c: Components)
    requires Collect(f, parent, depth, st, l).Ok? && depth <= l.maxDepth && Lookup(f, c).Some?
    ensures |Path(parent, c)| <= l.maxPathBytes && |c| <= l.maxDepth - depth + 1
    ensures forall i :: 0 <= i < |c| ==> ValidName(c[i])
  {
    var path := Extend(parent, f.name);
    var entered := Register(st, path, l).value;
    if c[0] == f.name {
      if f.node.Directory? {
        CollectedPath(f.node.files, path, depth + 1, entered, l, c[1..]);
        forall i | 0 <= i < |c| ensures ValidName(c[i]) { if i > 0 { assert c[i] == c[1..][i - 1]; } }
      } else {
        assert c[1..] == [];
      }
    } else {
      var r := match f.node
               case Directory(files) => Collect(files, path, depth + 1, entered, l)
               case FileNode(file) => CollectFile(file, path, entered, l)
               case LinkNode(_) => Ok(entered);
      CollectedPath(f.rest, parent, depth, r.value, l, c);
    }
  }

  /** A member is reachable by its path exactly when it has at most `maxDepth` components. */
  lemma {:induction false} ReachableMembers(files: Files, shape: Forest, l: AsarLimits, p: Text)
    requires ArchiveInv(files, shape, l) && p in files
    ensures Canonical(p, l) <==> |Split(p)| <= l.maxDepth
    ensures |Split(p)| <= l.maxDepth + 1
  {
    PathInShape(files, shape, l, p);
    var c := Split(p);
    CollectedPath(shape, [], 0, INITIAL, l, c);
    PathFromRoot([], c);
    assert p[0] == c[0][0];
  }

  /** No two members of an archive have paths that differ only in ASCII case. */
  lemma {:induction false} MembersDifferBeyondCase(files: Files, shape: Forest, l: AsarLimits, p: Text, q: Text)
    requires ArchiveInv(files, shape, l) && p in files && q in files && p != q
    ensures Lower(p) != Lower(q)
  {
    PathInShape(files, shape, l, p);
    PathInShape(files, shape, l, q);
    CaseDistinct(shape, [], 0, INITIAL, l, Split(p), Split(q));
  }

  // ---- The archive ---------------------------------------------------------------------------

  lemma {:induction false} ReplacedBody(paths: seq<Text>, files: Files, p: Text, file: PackedFile)
    requires Elements(paths) <= files.Keys && Distinct(paths) && p in files
    ensures Elements(paths) <= files[p := file].Keys
    ensures |Body(paths, files[p := file])|
            == |Body(paths, files)| + if p in paths then |file.bytes| - |files[p].bytes| else 0
  {
    if paths != [] {
      var before, last := paths[..|paths| - 1], paths[|paths| - 1];
      assert last in Elements(paths) && Elements(before) <= Elements(paths);
      ReplacedBody(before, files, p, file);
      assert paths == before + [last];
    }
  }

  /** When `replace_file` accepts a replacement. */
  predicate Replaceable(files: Files, path: Text, replacement: Bytes, l: AsarLimits) {
    && Canonical(path, l) && |replacement| <= l.maxFileBytes && path in files
    && var total := |Body(InPathOrder(files.Keys), files)|;
       total <= U64_MAX && total - |files[path].bytes| + |replacement| <= l.maxTotalFileBytes
  }

  class Archive {
    const limits: AsarLimits
    var files: Files
    ghost const shape: Forest

    ghost predicate Valid()
      reads this
    {
      ArchiveInv(files, shape, limits) && ValidLimits(limits)
    }

    constructor (limits: AsarLimits, files: Files, ghost shape: Forest)
      requires ArchiveInv(files, shape, limits) && ValidLimits(limits)
      ensures Valid() && this.limits == limits && this.files == files && this.shape == shape
    {
      this.limits, this.files, this.shape := limits, files, shape;
    }

    method File(path: Text) returns (r: Option<Bytes>)
      requires Valid()
      ensures r == if path in files && |Split(path)| <= limits.maxDepth then Some(files[path].bytes) else None
    {
      if path in files { ReachableMembers(files, shape, limits, path); }
      if !Canonical(path, limits) || path !in files {
        return None;
      }
      return Some(files[path].bytes);
    }

    /** Aggregate size of all members. */
    method TotalSize() returns (total: Option<nat>)
      requires Valid()
      ensures var n := |Body(InPathOrder(files.Keys), files)|; total == if n <= U64_MAX then Some(n) else None
    {
      var paths, sum := InPathOrder(files.Keys), 0;
      var i := 0;
      while i < |paths|
        invariant i <= |paths| && Elements(paths[..i]) <= files.Keys && sum == |Body(paths[..i], files)| <= U64_MAX
      {
        BodyHolds(paths, files, i);
        sum := sum + |files[paths[i]].bytes|;
        i := i + 1;
        assert Elements(paths[..i]) <= Elements(paths);
        if sum > U64_MAX {
          BodyPrefix(paths, files, i);
          return None;
        }
      }
      assert paths[..i] == paths;
      return Some(sum);
    }

    /** Replaces one reachable member; a refusal changes nothing. */
    method ReplaceFile(path: Text, replacement: Bytes) returns (refused: Option<AsarError>)
      requires Valid()
      modifies this
      ensures Valid()
      ensures refused.Some? ==> files == old(files)
      ensures refused.None? ==>
                && path in old(files)
                && files == old(files)[path := old(files)[path].(bytes := replacement)]
                && |Body(InPathOrder(files.Keys), files)| <= limits.maxTotalFileBytes
      ensures refused.None? <==> Replaceable(old(files), path, replacement, limits)
    {
      if !Canonical(path, limits) {
        return Some(CanonicalError(path, limits));
      }
      if |replacement| > limits.maxFileBytes {
        return Some(FileTooLarge);
      }
      if path !in files {
        return Some(MemberNotFound);
      }
      var previous := files[path];
      var total := TotalSize();
      if total.None? {
        return Some(AggregateTooLarge);
      }
      var next := previous.(bytes := replacement);
      ReplacedBody(InPathOrder(files.Keys), files, path, next);
      assert path in Elements(InPathOrder(files.Keys));
      if total.value - |previous.bytes| + |replacement| > limits.maxTotalFileBytes {
        return Some(AggregateTooLarge);
      }
      assert files[path := next].Keys == files.Keys;
      files := files[path := next];
      return None;
    }

    /** Deterministic output. If the written tree survives the codec, reading it back gives the same members
        exactly when the padded header fits the reader's bound. */
    method ToBytes(codec: Codec) returns (r: Result<Bytes, AsarError>)
      requires Valid()
      ensures r == Serialize(files, limits, codec)
      ensures r != Err(InvalidLayout)
      ensures r.Ok? && Survives(files, codec) ==>
                ParseArchive(r.value, limits, codec)
                == if 16 + Padded(|HeaderText(files, codec)|) <= limits.maxHeaderBytes then Ok(files)
                   else Err(HeaderTooLarge)
    {
      var written := BuildAll(InPathOrder(files.Keys), files, codec.hex);
      RoundTrip(files, shape, limits, codec);
      if written.None? {
        return Err(InvalidLayout);
      }
      var built := written.value;
      if |built.body| > limits.maxTotalFileBytes {
        return Err(AggregateTooLarge);
      }
      var json := codec.encode(built.forest);
      if |json| > limits.maxHeaderBytes || Padded(|json|) + 8 > U32_MAX {
        return Err(HeaderTooLarge);
      }
      if 16 + Padded(|json|) + |built.body| > limits.maxArchiveBytes {
        return Err(ArchiveTooLarge);
      }
      return Ok(Framed(json, built.body));
    }
  }

  /** The writing loop: every member is appended to the body and inserted into the tree. */
  method BuildAll(paths: seq<Text>, files: Files, hex: Bytes -> Text) returns (r: Option<Built>)
    requires Elements(paths) <= files.Keys
    ensures r == Build(paths, files, hex)
  {
    var built := Built(Nil, []);
    var i := 0;
    while i < |paths|
      invariant i <= |paths| && Elements(paths[..i]) <= files.Keys
      invariant Build(paths[..i], files, hex) == Some(built)
    {
      assert paths[i] in Elements(paths);
      assert paths[..i + 1][..i] == paths[..i] && paths[..i + 1][i] == paths[i];
      assert Elements(paths[..i + 1]) <= Elements(paths);
      var next := AddFile(built, paths[i], files[paths[i]], hex);
      if next.None? {
        BuildFails(paths, i + 1, files, hex);
        return None;
      }
      built, i := next.value, i + 1;
    }
    assert paths[..i] == paths;
    return Some(built);
  }

  lemma {:induction false} BuildFails(paths: seq<Text>, i: nat, files: Files, hex: Bytes -> Text)
    requires Elements(paths) <= files.Keys && i <= |paths| && Elements(paths[..i]) <= files.Keys
    requires Build(paths[..i], files, hex).None?
    ensures Build(paths, files, hex).None?
    decreases |paths|
  {
    if i == |paths| {
      assert paths[..i] == paths;
    } else {
      var before := paths[..|paths| - 1];
      assert Elements(before) <= Elements(paths) && before[..i] == paths[..i];
      BuildFails(before, i, files, hex);
    }
  }

  /** `AsarArchive::parse`. */
  method Parse(bytes: Bytes, l: AsarLimits, codec: Codec) returns (r: Result<Archive, AsarError>)
    requires ValidLimits(l) && DecodesInOrder(codec)
    ensures r.Err? ==> ParseArchive(bytes, l, codec) == Err(r.error)
    ensures r.Ok? ==> fresh(r.value) && r.value.Valid() && r.value.limits == l
    ensures r.Ok? ==> ParseArchive(bytes, l, codec) == Ok(r.value.files)
  {
    if |bytes| > l.maxArchiveBytes {
      return Err(ArchiveTooLarge);
    }
    var header := ParseHeader(bytes, l, codec);
    if header.Err? {
      return Err(header.error);
    }
    var collected := Collect(header.value.root, [], 0, INITIAL, l);
    if collected.Err? {
      return Err(collected.error);
    }
    var files := FinishArchive(collected.value.files, bytes[header.value.dataStart..], codec.hex);
    if files.Err? {
      return Err(files.error);
    }
    ParseEstablishes(bytes, l, codec);
    var archive := new Archive(l, files.value, header.value.root);
    return Ok(archive);
  }

  datatype Edit = Edit(path: Text, replacement: Bytes)

  /** The members after a list of replacements. */
  function Edited(files: Files, edits: seq<Edit>): Files {
    if edits == [] then files else
      var before, e := Edited(files, edits[..|edits| - 1]), edits[|edits| - 1];
      if e.path in before then before[e.path := before[e.path].(bytes := e.replacement)] else before
  }

  /** Applies replacements in order until one is refused. */
  method ApplyEdits(archive: Archive, edits: seq<Edit>) returns (refused: Option<AsarError>)
    requires archive.Valid()
    modifies archive
    ensures archive.Valid() && (refused.None? ==> archive.files == Edited(old(archive.files), edits))
  {
    ghost var original := archive.files;
    var i := 0;
    while i < |edits|
      invariant i <= |edits| && archive.Valid() && archive.files == Edited(original, edits[..i])
    {
      assert edits[..i + 1][..i] == edits[..i];
      refused := archive.ReplaceFile(edits[i].path, edits[i].replacement);
      if refused.Some? {
        return;
      }
      i := i + 1;
    }
    assert edits[..i] == edits;
    return None;
  }

  /** Any archive, any replacements: if reading, every replacement and writing succeed, the output reads back
      as the original with exactly those replacements, exactly when its padded header fits. */
  method Rewrite(bytes: Bytes, edits: seq<Edit>, l: AsarLimits, codec: Codec) returns (r: Result<Bytes, AsarError>)
    requires ValidLimits(l) && DecodesInOrder(codec)
    ensures r.Ok? ==>
              && ParseArchive(bytes, l, codec).Ok?
              && var files := Edited(ParseArchive(bytes, l, codec).value, edits);
                 && r == Serialize(files, l, codec)
                 && (Survives(files, codec) ==>
                       ParseArchive(r.value, l, codec)
                       == if 16 + Padded(|HeaderText(files, codec)|) <= l.maxHeaderBytes then Ok(files)
                          else Err(HeaderTooLarge))
  {
    var parsed := Parse(bytes, l, codec);
    if parsed.Err? {
      return Err(parsed.error);
    }
    var refused := ApplyEdits(parsed.value, edits);
    if refused.Some? {
      return Err(refused.value);
    }
    r := parsed.value.ToBytes(codec);
    RoundTrip(parsed.value.files, parsed.value.shape, l, codec);
  }

  // ---- The read-only index -------------------------------------------------------------------

  datatype Indexed = Indexed(offset: nat, size: nat)

  /** A view of the caller's bytes; nothing is copied. */
  datatype Index = Index(archive: Bytes, dataStart: nat, packed: map<Text, Indexed>, unpacked: nat, limits: AsarLimits)

  function PackedFileAt(ix: Index, path: Text): Option<Bytes> {
    if !Canonical(path, ix.limits) || path !in ix.packed then None
    else
      var start := ix.dataStart + ix.packed[path].offset;
      var end := start + ix.packed[path].size;
      if end <= |ix.archive| then Some(ix.archive[start..end]) else None
  }

  function Located(files: map<Text, Pending>): map<Text, Indexed> {
    map p | p in files :: Indexed(files[p].offset, files[p].size)
  }

  function IndexOf(bytes: Bytes, l: AsarLimits, codec: Codec): Result<Index, AsarError> {
    if |bytes| > l.maxArchiveBytes then Err(ArchiveTooLarge)
    else
      var header := ParseHeader(bytes, l, codec);
      if header.Err? then Err(header.error)
      else
        var collected := CollectIndex(header.value.root, [], 0, IndexState(INITIAL, 0), l);
        if collected.Err? then Err(collected.error)
        else
          var files := collected.value.state.files;
          var finished := Finish(files, bytes[header.value.dataStart..], codec.hex);
          if finished.Err? then Err(finished.error)
          else Ok(Index(bytes, header.value.dataStart, Located(files), collected.value.unpacked, l))
  }

  /** `AsarReadOnlyIndex::parse`. */
  method ParseIndex(bytes: Bytes, l: AsarLimits, codec: Codec) returns (r: Result<Index, AsarError>)
    requires ValidLimits(l)
    ensures r == IndexOf(bytes, l, codec)
  {
    if |bytes| > l.maxArchiveBytes {
      return Err(ArchiveTooLarge);
    }
    var header := ParseHeader(bytes, l, codec);
    if header.Err? {
      return Err(header.error);
    }
    var collected := CollectIndex(header.value.root, [], 0, IndexState(INITIAL, 0), l);
    if collected.Err? {
      return Err(collected.error);
    }
    var files := collected.value.state.files;
    var finished := FinishArchive(files, bytes[header.value.dataStart..], codec.hex);
    if finished.Err? {
      return Err(finished.error);
    }
    return Ok(Index(bytes, header.value.dataStart, Located(files), collected.value.unpacked, l));
  }

  /** What an accepted index is made of. */
  lemma {:induction false} IndexParts(bytes: Bytes, l: AsarLimits, codec: Codec)
      returns (start: nat, files: map<Text, Pending>, unpacked: nat, body: Bytes)
    requires IndexOf(bytes, l, codec).Ok?
    ensures IndexOf(bytes, l, codec) == Ok(Index(bytes, start, Located(files), unpacked, l))
    ensures start <= |bytes| && body == bytes[start..] && Finish(files, body, codec.hex).Ok?
  {
    var header := ParseHeader(bytes, l, codec).value;
    var state := CollectIndex(header.root, [], 0, IndexState(INITIAL, 0), l).value;
    start, files, unpacked, body := header.dataStart, state.state.files, state.unpacked, bytes[header.dataStart..];
  }

  /** What an accepted archive is made of, and that the index accepts the same members. */
  lemma {:induction false} ArchiveShape(bytes: Bytes, l: AsarLimits, codec: Codec)
      returns (start: nat, pending: map<Text, Pending>, files: Files)
    requires ParseArchive(bytes, l, codec).Ok?
    ensures ParseArchive(bytes, l, codec) == Ok(files) && files.Keys == pending.Keys && start <= |bytes|
    ensures IndexOf(bytes, l, codec) == Ok(Index(bytes, start, Located(pending), 0, l))
    ensures forall p :: p in files ==>
              && pending[p].offset + pending[p].size <= |bytes| - start
              && files[p].bytes == bytes[start..][pending[p].offset..pending[p].offset + pending[p].size]
  {
    var header := ParseHeader(bytes, l, codec).value;
    IndexRefinesCollect(header.root, [], 0, IndexState(INITIAL, 0), l);
    start, pending := header.dataStart, Collect(header.root, [], 0, INITIAL, l).value.files;
    var body := bytes[start..];
    files := Finish(pending, body, codec.hex).value;
    FinishKeeps(pending, body, codec.hex);
  }

  /** Whatever the archive reader accepts the index accepts, with nothing unpacked and the same bytes for
      every path. */
  lemma {:induction false} IndexRefinesArchive(bytes: Bytes, l: AsarLimits, codec: Codec)
      returns (files: Files, ix: Index)
    requires ParseArchive(bytes, l, codec).Ok?
    ensures ParseArchive(bytes, l, codec) == Ok(files) && IndexOf(bytes, l, codec) == Ok(ix)
    ensures ix.unpacked == 0 && ix.packed.Keys == files.Keys
    ensures forall p :: PackedFileAt(ix, p) == if Canonical(p, l) && p in files then Some(files[p].bytes) else None
  {
    var start, pending, done := ArchiveShape(bytes, l, codec);
    files, ix := done, Index(bytes, start, Located(pending), 0, l);
    SameBytes(start, pending, files, ix);
  }

  lemma {:induction false} SameBytes(start: nat, pending: map<Text, Pending>, files: Files, ix: Index)
    requires start <= |ix.archive| && files.Keys == pending.Keys
    requires ix.dataStart == start && ix.packed == Located(pending)
    requires forall p :: p in files ==>
               && pending[p].offset + pending[p].size <= |ix.archive| - start
               && files[p].bytes == ix.archive[start..][pending[p].offset..pending[p].offset + pending[p].size]
    ensures forall p :: PackedFileAt(ix, p) ==
                        if Canonical(p, ix.limits) && p in files then Some(files[p].bytes) else None
  {
    forall p
      ensures PackedFileAt(ix, p) == if Canonical(p, ix.limits) && p in files then Some(files[p].bytes) else None
    {
      if p in files { Slices(ix.archive, start, pending[p].offset, pending[p].size); }
    }
  }

  lemma {:induction false} Slices(bytes: Bytes, start: nat, offset: nat, size: nat)
    requires start <= |bytes| && offset + size <= |bytes| - start
    ensures bytes[start..][offset..offset + size] == bytes[start + offset..start + offset + size]
  {
  }

  predicate Covers(ix: Index, p: Text, at: nat)
    requires p in ix.packed
  {
    ix.dataStart + ix.packed[p].offset <= at < ix.dataStart + ix.packed[p].offset + ix.packed[p].size
  }

  /** The packed members of an accepted index tile the archive body: every byte after the header belongs to
      exactly one of them. */
  lemma {:induction false} IndexTiles(bytes: Bytes, l: AsarLimits, codec: Codec, at: nat) returns (ix: Index, p: Text)
    requires IndexOf(bytes, l, codec).Ok? && IndexOf(bytes, l, codec).value.dataStart <= at < |bytes|
    ensures IndexOf(bytes, l, codec) == Ok(ix) && p in ix.packed && Covers(ix, p, at)
    ensures forall q :: q in ix.packed && Covers(ix, q, at) ==> q == p
  {
    var start, files, unpacked, body := IndexParts(bytes, l, codec);
    ix := Index(bytes, start, Located(files), unpacked, l);
    p := LocatedTiles(ix, files, body, codec.hex, at);
  }

  lemma {:induction false} LocatedTiles(ix: Index, files: map<Text, Pending>, body: Bytes, hex: Bytes -> Text, at: nat)
      returns (p: Text)
    requires ix.packed == Located(files) && Finish(files, body, hex).Ok? && ix.dataStart <= at < ix.dataStart + |body|
    ensures p in ix.packed && Covers(ix, p, at) && forall q :: q in ix.packed && Covers(ix, q, at) ==> q == p
  {
    FinishTiles(files, body, hex);
    p := TilesExactly(files, |body|, at - ix.dataStart);
  }
}
