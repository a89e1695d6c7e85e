/** How deep a header can nest, and which members can therefore be looked up. */
module AsarNesting {
  import opened Basics
  import opened AsarPaths
  import opened AsarTree
  import opened AsarCollect
  import opened AsarLayout
  import opened AsarArchive
  import opened AsarWrite
  import opened AsarRoundTrip
  import opened AsarObjects
  import opened AsarText

  // ---- Nesting -----------------------------------------------------------------------------------

  /** `serde_json` refuses text that opens 128 arrays or objects inside one another. */
  const MAX_NESTING: nat := 127

  /** The deepest path of a member whose entry is nested within that bound. */
  const MAX_COMPONENTS: nat := 62

  /** Objects and arrays open at the deepest point of a node's text: a directory opens two, a file with an integrity
      record three. */
  function Nesting(n: Node): nat {
    match n
    case Directory(files) => 2 + ForestNesting(files)
    case FileNode(file) => if file.integrity.Some? then 3 else 1
    case LinkNode(_) => 1
  }

  function ForestNesting(f: Forest): nat {
    if f.Nil? then 0 else Max(Nesting(f.node), ForestNesting(f.rest))
  }

  /** The decoder's own limit. */
  ghost predicate NestingBounded(codec: Codec) {
    forall b :: codec.decode(b).Some? ==> Nesting(codec.decode(b).value) <= MAX_NESTING
  }

  /** Every component of a packed file's path costs two levels. */
  lemma {:induction false} LookupNests(f: Forest, c: Components)
    requires Lookup(f, c).Some? && Lookup(f, c).value.integrity.Some?
    ensures 2 * |c| + 1 <= ForestNesting(f)
  {
    if c[0] == f.name {
      if f.node.Directory? { LookupNests(f.node.files, c[1..]); }
    } else {
      LookupNests(f.rest, c);
    }
  }

  /** Nesting depends on the shape alone. */
  lemma {:induction false} SameNesting(f: Forest, g: Forest, l: AsarLimits)
    requires SameShape(f, g) && AllPackable(f, l) && AllPackable(g, l)
    ensures ForestNesting(f) == ForestNesting(g)
  {
    if f.Cons? {
      if f.node.Directory? { SameNesting(f.node.files, g.node.files, l); }
      SameNesting(f.rest, g.rest, l);
    }
  }

  /** Members of an archive whose header was within the decoder's limit have short paths. */
  lemma {:induction false} MembersAreShallow(files: Files, shape: Forest, l: AsarLimits, p: Text)
    requires ArchiveInv(files, shape, l) && Nesting(Directory(shape)) <= MAX_NESTING && p in files
    ensures |Split(p)| <= MAX_COMPONENTS
  {
    PathInShape(files, shape, l, p);
    CollectChecks(shape, [], 0, INITIAL, l);
    PackableLookup(shape, l, Split(p));
    LookupNests(shape, Split(p));
  }

  lemma {:induction false} EditsKeepPaths(files: Files, edits: seq<Edit>)
    ensures Edited(files, edits).Keys == files.Keys
  {
    if edits != [] { EditsKeepPaths(files, edits[..|edits| - 1]); }
  }

  /** Whatever is read, and however it is edited, every stored member can be looked up. */
  lemma {:induction false} EveryMemberReachable(bytes: Bytes, edits: seq<Edit>, l: AsarLimits, codec: Codec, p: Text)
    requires DecodesInOrder(codec) && NestingBounded(codec) && MAX_COMPONENTS <= l.maxDepth
    requires ParseArchive(bytes, l, codec).Ok? && p in Edited(ParseArchive(bytes, l, codec).value, edits)
    ensures |Split(p)| <= MAX_COMPONENTS && Canonical(p, l)
  {
    var files, root := ParseArchive(bytes, l, codec).value, ParseHeader(bytes, l, codec).value.root;
    EditsKeepPaths(files, edits);
    ParseEstablishes(bytes, l, codec);
    DecodedNesting(bytes, l, codec);
    MembersAreShallow(files, root, l, p);
    ReachableMembers(files, root, l, p);
  }

  lemma {:induction false} DecodedNesting(bytes: Bytes, l: AsarLimits, codec: Codec)
    requires NestingBounded(codec) && ParseHeader(bytes, l, codec).Ok?
    ensures Nesting(Directory(ParseHeader(bytes, l, codec).value.root)) <= MAX_NESTING
  {
  }

  /** So it is under the limits the source constructs. */
  lemma {:induction false} InitialLimitsReachEveryMember(bytes: Bytes, edits: seq<Edit>, codec: Codec, p: Text)
    requires DecodesInOrder(codec) && NestingBounded(codec) && ParseArchive(bytes, INITIAL_LIMITS, codec).Ok?
    requires p in Edited(ParseArchive(bytes, INITIAL_LIMITS, codec).value, edits)
    ensures Canonical(p, INITIAL_LIMITS)
  {
    EveryMemberReachable(bytes, edits, INITIAL_LIMITS, codec, p);
  }

  /** The header an archive is written with nests exactly as deep as the one it was read from, so the decoder's limit
      never stands between writing and reading back. */
  lemma {:induction false} WrittenNesting(files: Files, shape: Forest, l: AsarLimits, codec: Codec)
    requires ArchiveInv(files, shape, l) && ValidLimits(l) && Serialize(files, l, codec).Ok?
    ensures var built := Build(InPathOrder(files.Keys), files, codec.hex).value;
            Nesting(Directory(built.forest)) == Nesting(Directory(shape))
  {
    var paths := InPathOrder(files.Keys);
    BuildHolds(paths, files, shape, l, codec.hex);
    var built := Build(paths, files, codec.hex).value;
    WrittenShape(built, paths, files, shape, l, codec.hex);
    WrittenPackable(built, paths, files, l, codec.hex);
    CollectChecks(shape, [], 0, INITIAL, l);
    SameNesting(shape, built.forest, l);
  }

  // ---- One file, some directories down -----------------------------------------------------------

  function Name(): Text { [0x61] }

  lemma {:induction false} NameIsValid()
    ensures ValidName(Name()) && SlashFree(Name()) && Lower(Name()) == Name()
  {
    var name := Name();
    assert name[1..] == [];
    assert Stem(name) == [0x61] + Stem([]) && Lower(Stem(name)) == [0x61];
    assert Ascii("/\\:<>\"|?*") == [0x2F, 0x5C, 0x3A, 0x3C, 0x3E, 0x22, 0x7C, 0x3F, 0x2A];
  }

  function Names(n: nat): Components {
    if n == 0 then [] else [Name()] + Names(n - 1)
  }

  /** A file below `depth` directories. */
  function Tower(depth: nat, file: FileEntry): Forest {
    Cons(Name(), if depth == 0 then FileNode(file) else Directory(Tower(depth - 1, file)), Nil)
  }

  lemma {:induction false} TowerFacts(depth: nat, file: FileEntry)
    ensures Ordered(Tower(depth, file)) && Plain(Tower(depth, file))
    ensures |Names(depth + 1)| == depth + 1 && Wholesome(Names(depth + 1)) && Names(depth + 1)[0] == Name()
    ensures Lookup(Tower(depth, file), Names(depth + 1)) == Some(file)
    ensures Fresh(Names(depth), file) == Tower(depth, file).node
  {
    NameIsValid();
    if depth > 0 {
      TowerFacts(depth - 1, file);
      assert Names(depth + 1)[1..] == Names(depth);
      assert Names(depth)[1..] == Names(depth - 1) by { assert Names(depth) == [Name()] + Names(depth - 1); }
    } else {
      assert Names(1) == [Name()] + Names(0);
    }
  }

  /** The state has room for the paths of a tower below `parent`. */
  ghost predicate HasRoom(st: State, parent: Text, n: nat, size: nat, l: AsarLimits) {
    && st.entries + n <= l.maxEntries && |parent| + 2 * n <= l.maxPathBytes
    && st.pathBytes + Times(n, l.maxPathBytes) <= l.maxEntries * l.maxPathBytes <= U64_MAX
    && st.totalBytes + size <= l.maxTotalFileBytes
    && forall k :: k in st.caseKeys ==> |k| <= |parent|
  }

  lemma {:induction false} RoomForOne(st: State, parent: Text, n: nat, size: nat, l: AsarLimits)
    requires HasRoom(st, parent, n + 1, size, l)
    ensures var path := Extend(parent, Name());
            && |parent| < |path| <= l.maxPathBytes && Register(st, path, l).Ok?
            && HasRoom(Register(st, path, l).value, path, n, size, l)
            && Register(st, path, l).value.files == st.files
  {
    var path := Extend(parent, Name());
    assert Times(n + 1, l.maxPathBytes) == l.maxPathBytes + Times(n, l.maxPathBytes);
    assert |Lower(path)| == |path|;
  }

  lemma {:induction false} TowerCollects(depth: nat, file: FileEntry, parent: Text, at: nat, st: State, l: AsarLimits)
    requires at + depth <= l.maxDepth && Packable(file, l) && HasRoom(st, parent, depth + 1, file.size, l)
    ensures var r := Collect(Tower(depth, file), parent, at, st, l);
            r.Ok? && r.value.files == st.files[Path(parent, Names(depth + 1)) := PendingOf(file)]
  {
    RoomForOne(st, parent, depth, file.size, l);
    var path := Extend(parent, Name());
    var entered := Register(st, path, l).value;
    NextName(parent, depth);
    if depth > 0 {
      TowerCollects(depth - 1, file, path, at + 1, entered, l);
      OnlyDirectory(Tower(depth - 1, file), parent, at, st, l);
    } else {
      OnlyFile(file, parent, at, st, l);
      assert Path(path, Names(0)) == path && Tower(0, file) == Cons(Name(), FileNode(file), Nil);
    }
  }

  lemma {:induction false} NextName(parent: Text, depth: nat)
    ensures Path(parent, Names(depth + 1)) == Path(Extend(parent, Name()), Names(depth))
  {
    var names := Names(depth + 1);
    assert names == [Name()] + Names(depth) && names[1..] == Names(depth);
  }

  lemma {:induction false} OnlyFile(file: FileEntry, parent: Text, at: nat, st: State, l: AsarLimits)
    requires var path := Extend(parent, Name()); |path| <= l.maxPathBytes && Register(st, path, l).Ok?
    ensures var path := Extend(parent, Name());
            Collect(Cons(Name(), FileNode(file), Nil), parent, at, st, l)
            == CollectFile(file, path, Register(st, path, l).value, l)
  {
    NameIsValid();
  }

  /** Collecting one directory is entering it and collecting what is in it. */
  lemma {:induction false} OnlyDirectory(below: Forest, parent: Text, at: nat, st: State, l: AsarLimits)
    requires below.Cons? && at < l.maxDepth
    requires var path := Extend(parent, Name()); |path| <= l.maxPathBytes && Register(st, path, l).Ok?
    ensures var path := Extend(parent, Name());
            Collect(Cons(Name(), Directory(below), Nil), parent, at, st, l)
            == Collect(below, path, at + 1, Register(st, path, l).value, l)
  {
    NameIsValid();
  }

  function DeepPath(depth: nat): Text {
    Join(Names(depth + 1))
  }

  /** The archive holding only that file. */
  function DeepFiles(depth: nat, bytes: Bytes): Files {
    map[DeepPath(depth) := PackedFile(bytes, false)]
  }

  function DeepTree(depth: nat, bytes: Bytes, hex: Bytes -> Text): Forest {
    Tower(depth, OutputFile(PackedFile(bytes, false), 0, hex))
  }

  function DeepText(depth: nat, bytes: Bytes, hex: Bytes -> Text): Bytes {
    NodeText(Directory(DeepTree(depth, bytes, hex)))
  }

  lemma {:induction false} DeepPathFacts(depth: nat)
    ensures Split(DeepPath(depth)) == Names(depth + 1) && Path([], Names(depth + 1)) == DeepPath(depth)
  {
    TowerFacts(depth, FileEntry(0, None, false, false, None));
    SplitJoin(Names(depth + 1));
    PathFromRoot([], Names(depth + 1));
  }

  lemma {:induction false} DeepBuilds(depth: nat, bytes: Bytes, hex: Bytes -> Text)
    ensures InPathOrder(DeepFiles(depth, bytes).Keys) == [DeepPath(depth)]
    ensures Build([DeepPath(depth)], DeepFiles(depth, bytes), hex) == Some(Built(DeepTree(depth, bytes, hex), bytes))
    ensures Body([DeepPath(depth)], DeepFiles(depth, bytes)) == bytes
  {
    var p, file := DeepPath(depth), OutputFile(PackedFile(bytes, false), 0, hex);
    OnlyElement(InPathOrder(DeepFiles(depth, bytes).Keys), p);
    DeepPathFacts(depth);
    TowerFacts(depth, file);
    assert Names(depth + 1) == [Name()] + Names(depth) && Names(depth + 1)[1..] == Names(depth);
    var paths: seq<Text> := [p];
    assert paths[..0] == [] && paths[0] == p;
    assert [] + bytes == bytes;
  }

  lemma {:induction false} OnlyElement(s: seq<Text>, x: Text)
    requires Distinct(s) && Elements(s) == {x}
    ensures s == [x]
  {
    assert x in Elements(s);
    forall i | 0 <= i < |s| ensures s[i] == x { assert s[i] in Elements(s); }
    DistinctPositions(s);
  }

  /** Limits under which a tower of this depth can be stored. */
  predicate Admits(l: AsarLimits, depth: nat) {
    && depth <= l.maxDepth && depth + 1 <= l.maxEntries && 2 * (depth + 1) <= l.maxPathBytes
    && Times(depth + 1, l.maxPathBytes) <= l.maxEntries * l.maxPathBytes <= U64_MAX
    && 1 <= l.maxFileBytes && 1 <= l.maxTotalFileBytes && ValidLimits(l)
  }

  lemma {:induction false} TowerArchive(depth: nat, bytes: Bytes, file: FileEntry, l: AsarLimits)
    requires Admits(l, depth) && |bytes| <= l.maxFileBytes && Packable(file, l) && file.size == 0
    ensures ArchiveInv(DeepFiles(depth, bytes), Tower(depth, file), l)
  {
    TowerFacts(depth, file);
    DeepPathFacts(depth);
    TowerCollects(depth, file, [], 0, INITIAL, l);
    assert Collect(Tower(depth, file), [], 0, INITIAL, l).value.files.Keys == {DeepPath(depth)};
  }

  lemma {:induction false} DeepArchive(depth: nat, bytes: Bytes, hex: Bytes -> Text, l: AsarLimits)
    requires Admits(l, depth) && |bytes| <= 1
    ensures ArchiveInv(DeepFiles(depth, bytes), DeepTree(depth, [], hex), l)
  {
    OutputPacks(PackedFile([], false), hex, l);
    TowerArchive(depth, bytes, OutputFile(PackedFile([], false), 0, hex), l);
  }

  /** The deep archive is written as its header text and bytes, and reads back iff the padded text fits. */
  lemma {:induction false} DeepRoundTrip(depth: nat, bytes: Bytes, l: AsarLimits, codec: Codec)
    requires Admits(l, depth) && |bytes| <= 1 && Prints(codec, DeepTree(depth, bytes, codec.hex))
    requires |DeepText(depth, bytes, codec.hex)| <= l.maxHeaderBytes <= 0x1000_0000
    requires l.maxHeaderBytes + 20 <= l.maxArchiveBytes
    ensures var text := DeepText(depth, bytes, codec.hex);
            && Serialize(DeepFiles(depth, bytes), l, codec) == Ok(Framed(text, bytes))
            && ParseArchive(Framed(text, bytes), l, codec)
               == if 16 + Padded(|text|) <= l.maxHeaderBytes then Ok(DeepFiles(depth, bytes)) else Err(HeaderTooLarge)
  {
    var files := DeepFiles(depth, bytes);
    DeepBuilds(depth, bytes, codec.hex);
    DeepArchive(depth, bytes, codec.hex, l);
    KnownRoundTrip(files, DeepTree(depth, [], codec.hex), DeepTree(depth, bytes, codec.hex), bytes, l, codec);
  }

  lemma {:induction false} TowerTextLength(depth: nat, e: FileEntry)
    ensures |NodeText(Directory(Tower(depth, e)))| == 16 * (depth + 1) + |NodeText(FileNode(e))|
  {
    assert |Quoted(Name())| == 3;
    if depth > 0 { TowerTextLength(depth - 1, e); }
  }

  lemma {:induction false} TowerNesting(depth: nat, e: FileEntry)
    requires e.integrity.Some?
    ensures Nesting(Directory(Tower(depth, e))) == 2 * depth + 5
  {
    var f := Tower(depth, e);
    assert ForestNesting(Nil) == 0;
    assert ForestNesting(f) == Max(Nesting(f.node), ForestNesting(f.rest)) == Nesting(f.node);
    if depth > 0 { TowerNesting(depth - 1, e); }
  }

  /** `parse` stores files one component deeper than `file` accepts. Limits with fewer than 62 levels would let such a
      member through the decoder; the source does not construct any. */
  lemma {:induction false} StoredButUnreachable(l: AsarLimits, codec: Codec) returns (bytes: Bytes)
    requires l.maxDepth < MAX_COMPONENTS && Admits(l, l.maxDepth)
    requires Prints(codec, DeepTree(l.maxDepth, [], codec.hex))
    requires 16 * l.maxDepth + 440 <= l.maxHeaderBytes <= 0x1000_0000 && l.maxHeaderBytes + 20 <= l.maxArchiveBytes
    ensures ParseArchive(bytes, l, codec) == Ok(DeepFiles(l.maxDepth, []))
    ensures |Split(DeepPath(l.maxDepth))| == l.maxDepth + 1 && !Canonical(DeepPath(l.maxDepth), l)
    ensures Nesting(Directory(DeepTree(l.maxDepth, [], codec.hex))) <= MAX_NESTING
  {
    var hex, n := codec.hex, l.maxDepth;
    var file := OutputFile(PackedFile([], false), 0, hex);
    OutputTextLength(0, hex);
    TowerTextLength(n, file);
    TowerNesting(n, file);
    DeepRoundTrip(n, [], l, codec);
    bytes := Framed(DeepText(n, [], hex), []);
    DeepPathFacts(n);
    TowerFacts(n, file);
  }

  /** Every stored member can be looked up, whatever archive is read, exactly when at least 62 components are
      allowed. */
  ghost predicate AllReachable(l: AsarLimits, codec: Codec) {
    forall bytes, p :: ParseArchive(bytes, l, codec).Ok? && p in ParseArchive(bytes, l, codec).value ==> Canonical(p, l)
  }

  lemma {:induction false} ReachabilityIsExact(depth: nat, codec: Codec)
    requires DecodesInOrder(codec) && NestingBounded(codec)
    requires depth < MAX_COMPONENTS ==> Prints(codec, DeepTree(depth, [], codec.hex))
    ensures AllReachable(INITIAL_LIMITS.(maxDepth := depth), codec) <==> MAX_COMPONENTS <= depth
  {
    var l := INITIAL_LIMITS.(maxDepth := depth);
    if depth < MAX_COMPONENTS {
      TimesBound(depth + 1, l.maxEntries, l.maxPathBytes);
      var bytes := StoredButUnreachable(l, codec);
      assert DeepPath(depth) in ParseArchive(bytes, l, codec).value;
    } else {
      forall bytes, p | ParseArchive(bytes, l, codec).Ok? && p in ParseArchive(bytes, l, codec).value
        ensures Canonical(p, l)
      {
        EveryMemberReachable(bytes, [], l, codec, p);
      }
    }
  }

  lemma {:induction false} SampleCodecBounded(a: Forest, b: Forest)
    requires Ordered(a) && Ordered(b) && ForestNesting(a) <= MAX_NESTING - 2 && ForestNesting(b) <= MAX_NESTING - 2
    ensures DecodesInOrder(SampleCodec([a, b])) && NestingBounded(SampleCodec([a, b]))
  {
    var codec := SampleCodec([a, b]);
    forall text | codec.decode(text).Some? ensures codec.decode(text).value in [Directory(a), Directory(b)] {
      RecogniseEither(a, b, text);
    }
  }

  /** The hypotheses above can be met together. */
  lemma {:induction false} NestedCodecExists(depth: nat) returns (codec: Codec)
    requires depth < MAX_COMPONENTS
    ensures DecodesInOrder(codec) && NestingBounded(codec) && Prints(codec, DeepTree(depth, [], codec.hex))
  {
    var a, b := DeepTree(depth, [], ZeroHex), DeepTree(depth, [0], ZeroHex);
    codec := SampleCodec([a, b]);
    DeepTreeFacts(depth, 0, ZeroHex);
    SampleCodecPrints(a, b);
    SampleCodecBounded(a, b);
  }

  lemma {:induction false} DeepTreeFacts(depth: nat, x: byte, hex: Bytes -> Text)
    requires forall b :: |hex(b)| == 64
    ensures var a, b := DeepTree(depth, [], hex), DeepTree(depth, [x], hex);
            && Ordered(a) && Ordered(b) && ForestNesting(a) == ForestNesting(b) == 2 * depth + 3
            && |Print(a)| + 66 == |Print(b)|
  {
    var empty, one := OutputFile(PackedFile([], false), 0, hex), OutputFile(PackedFile([x], false), 0, hex);
    OutputTextLength(x, hex);
    TowerTextLength(depth, empty);
    TowerTextLength(depth, one);
    TowerNesting(depth, empty);
    TowerNesting(depth, one);
    TowerFacts(depth, empty);
    TowerFacts(depth, one);
  }

  /** The collection limits of the source alone have room for a path of 129 components; the decoder refuses its header,
      and that of every file below 62 or more directories. */
  lemma {:induction false} InitialLimitsAdmit(codec: Codec, depth: nat, bytes: Bytes)
    requires NestingBounded(codec) && MAX_COMPONENTS <= depth
    ensures Admits(INITIAL_LIMITS, INITIAL_LIMITS.maxDepth)
    ensures !Prints(codec, DeepTree(depth, bytes, codec.hex))
  {
    var l := INITIAL_LIMITS;
    TimesBound(l.maxDepth + 1, l.maxEntries, l.maxPathBytes);
    TowerNesting(depth, OutputFile(PackedFile(bytes, false), 0, codec.hex));
  }
}
