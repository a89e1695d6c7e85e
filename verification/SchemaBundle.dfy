/** The order-independent digest of a generated schema bundle. */
module SchemaBundle {
  import opened Basics
  import opened Digests
  import opened AsarPaths

  const MAX_FILES: nat := 1_024
  const MAX_FILE_BYTES: nat := 16 * 1024 * 1024
  const MAX_TOTAL_BYTES: nat := 64 * 1024 * 1024
  const MAX_PATH_BYTES: nat := 4_096
  const MAX_COMPONENTS: nat := 256
  const BACKSLASH: byte := 0x5C

  datatype BundleError =
    | InvalidRelativePath
    | InvalidFileSize
    | TooManyFiles
    | AggregateTooLarge
    | DuplicatePath
    | MissingGeneratorOutput(output: Text)

  datatype SchemaFile = SchemaFile(path: Text, bytes: Bytes)

  datatype Evidence = Evidence(digest: Bytes, fileCount: nat, totalBytes: nat)

  function JsonSchemaRoot(): Text { Ascii("json-schema") }

  function TypescriptRoot(): Text { Ascii("typescript") }

  predicate ValidPath(path: Text) {
    && path != [] && |path| <= MAX_PATH_BYTES && path[0] != SLASH && path[|path| - 1] != SLASH
    && BACKSLASH !in path && !HasControl(path)
    && var c := Split(path);
       && (c[0] == JsonSchemaRoot() || c[0] == TypescriptRoot())
       && 2 <= |c| <= MAX_COMPONENTS
       && forall i :: 1 <= i < |c| ==> c[i] != [] && c[i] != [DOT] && c[i] != [DOT, DOT]
  }

  function Root(path: Text): Text {
    Split(path)[0]
  }

  // ---- What is accepted, without regard to order -----------------------------------------------

  function TotalLength(files: seq<SchemaFile>): nat {
    if files == [] then 0 else TotalLength(files[..|files| - 1]) + |files[|files| - 1].bytes|
  }

  predicate GoodFile(f: SchemaFile) {
    ValidPath(f.path) && 0 < |f.bytes| <= MAX_FILE_BYTES
  }

  ghost predicate DistinctPaths(files: seq<SchemaFile>) {
    forall i, j :: 0 <= i < j < |files| ==> files[i].path != files[j].path
  }

  ghost predicate HasRoot(files: seq<SchemaFile>, root: Text) {
    exists f :: f in files && Root(f.path) == root
  }

  ghost predicate AllGood(files: seq<SchemaFile>) {
    forall f :: f in files ==> GoodFile(f)
  }

  ghost predicate Acceptable(files: seq<SchemaFile>) {
    && AllGood(files) && DistinctPaths(files)
    && |files| <= MAX_FILES && TotalLength(files) <= MAX_TOTAL_BYTES
    && HasRoot(files, JsonSchemaRoot()) && HasRoot(files, TypescriptRoot())
  }

  /** A bundle as the path-to-content map that is hashed. */
  type Bundle = map<Text, Bytes>

  lemma {:induction false} PathsAgree(files: seq<SchemaFile>)
    requires DistinctPaths(files)
    ensures forall f, g :: f in files && g in files && f.path == g.path ==> f == g
  {
    forall f, g | f in files && g in files && f.path == g.path ensures f == g {
      var i :| 0 <= i < |files| && files[i] == f;
      var j :| 0 <= j < |files| && files[j] == g;
      assert i == j;
    }
  }

  ghost function Contents(files: seq<SchemaFile>): Bundle
    requires DistinctPaths(files)
  {
    PathsAgree(files);
    map f | f in files :: f.path := f.bytes
  }

  function Entry(path: Text, bytes: Bytes, hash: Bytes -> Bytes): Bytes {
    BigEndian(|path|, 8) + path + BigEndian(|bytes|, 8) + hash(bytes)
  }

  function Entries(paths: seq<Text>, bundle: Bundle, hash: Bytes -> Bytes): Bytes
    requires Elements(paths) <= bundle.Keys
  {
    if paths == [] then [] else
      assert paths[0] in Elements(paths) && Elements(paths[1..]) <= Elements(paths);
      Entry(paths[0], bundle[paths[0]], hash) + Entries(paths[1..], bundle, hash)
  }

  function Preimage(bundle: Bundle, hash: Bytes -> Bytes): Bytes {
    Ascii("weregopher.app-server-schema-bundle.v1\0") + Entries(InPathOrder(bundle.Keys), bundle, hash)
  }

  // ---- Order does not matter -------------------------------------------------------------------

  lemma {:induction false} TwoPositions(s: seq<SchemaFile>, f: SchemaFile) returns (i: nat, j: nat)
    requires multiset(s)[f] >= 2
    ensures i < j < |s| && s[i] == f == s[j]
  {
    var n := |s| - 1;
    assert s == s[..n] + [s[n]];
    if s[n] == f {
      assert f in multiset(s[..n]);
      i :| 0 <= i < n && s[i] == f;
      j := n;
    } else {
      i, j := TwoPositions(s[..n], f);
    }
  }

  lemma {:induction false} CountsTwice(s: seq<SchemaFile>, i: nat, j: nat)
    requires i < j < |s| && s[i] == s[j]
    ensures multiset(s)[s[i]] >= 2
  {
    assert s == s[..j] + [s[j]] + s[j + 1..];
    assert s[..j][i] == s[i];
    assert s[i] in multiset(s[..j]);
  }

  lemma {:induction false} SameMembers(a: seq<SchemaFile>, b: seq<SchemaFile>)
    requires multiset(a) == multiset(b)
    ensures |a| == |b| && forall f :: f in a <==> f in b
  {
    assert |a| == |multiset(a)| && |b| == |multiset(b)|;
    forall f ensures f in a <==> f in b { assert f in multiset(a) <==> f in multiset(b); }
  }

  lemma {:induction false} DistinctPermutes(a: seq<SchemaFile>, b: seq<SchemaFile>)
    requires multiset(a) == multiset(b) && DistinctPaths(a)
    ensures DistinctPaths(b)
  {
    SameMembers(a, b);
    PathsAgree(a);
    forall i, j | 0 <= i < j < |b| ensures b[i].path != b[j].path {
      assert b[i] in a && b[j] in a;
      if b[i] == b[j] {
        CountsTwice(b, i, j);
        var k, m := TwoPositions(a, b[i]);
      }
    }
  }

  lemma {:induction false} RemoveOne(s: seq<SchemaFile>, i: nat)
    requires i < |s|
    ensures multiset(s[..i] + s[i + 1..]) == multiset(s) - multiset{s[i]}
  {
    assert s == s[..i] + [s[i]] + s[i + 1..];
  }

  lemma {:induction false} TotalConcat(a: seq<SchemaFile>, b: seq<SchemaFile>)
    ensures TotalLength(a + b) == TotalLength(a) + TotalLength(b)
  {
    if b == [] {
      assert a + b == a;
    } else {
      assert (a + b)[..|a + b| - 1] == a + b[..|b| - 1];
      TotalConcat(a, b[..|b| - 1]);
    }
  }

  lemma {:induction false} TotalWithout(s: seq<SchemaFile>, i: nat)
    requires i < |s|
    ensures TotalLength(s[..i] + s[i + 1..]) + |s[i].bytes| == TotalLength(s)
  {
    assert s == s[..i] + ([s[i]] + s[i + 1..]);
    TotalConcat(s[..i], [s[i]] + s[i + 1..]);
    TotalConcat([s[i]], s[i + 1..]);
    TotalConcat(s[..i], s[i + 1..]);
    assert [s[i]][..0] == [];
  }

  lemma {:induction false} TotalPermutes(a: seq<SchemaFile>, b: seq<SchemaFile>)
    requires multiset(a) == multiset(b)
    ensures TotalLength(a) == TotalLength(b)
  {
    SameMembers(a, b);
    if a != [] {
      var n := |a| - 1;
      assert a[n] in b;
      var i :| 0 <= i < |b| && b[i] == a[n];
      RemoveOne(b, i);
      TotalWithout(b, i);
      assert a == a[..n] + [a[n]];
      TotalPermutes(a[..n], b[..i] + b[i + 1..]);
    }
  }

  lemma {:induction false} RootsPermute(a: seq<SchemaFile>, b: seq<SchemaFile>, root: Text)
    requires forall f :: f in a <==> f in b
    ensures HasRoot(a, root) <==> HasRoot(b, root)
  {
  }

  lemma {:induction false} ContentsPermute(a: seq<SchemaFile>, b: seq<SchemaFile>)
    requires DistinctPaths(a) && DistinctPaths(b) && forall f :: f in a <==> f in b
    ensures Contents(a) == Contents(b)
  {
    PathsAgree(a);
    PathsAgree(b);
  }

  /** Acceptance and digest do not depend on the order in which the files are supplied. */
  lemma {:induction false} OrderIsIrrelevant(a: seq<SchemaFile>, b: seq<SchemaFile>, hash: Bytes -> Bytes)
    requires multiset(a) == multiset(b)
    ensures Acceptable(a) <==> Acceptable(b)
    ensures DistinctPaths(a) ==> DistinctPaths(b) && Sealed(a, hash) == Sealed(b, hash)
  {
    SameMembers(a, b);
    TotalPermutes(a, b);
    RootsPermute(a, b, JsonSchemaRoot());
    RootsPermute(a, b, TypescriptRoot());
    if DistinctPaths(b) { DistinctPermutes(b, a); }
    if DistinctPaths(a) {
      DistinctPermutes(a, b);
      ContentsPermute(a, b);
    }
  }

  /** The evidence an accepted bundle yields. */
  ghost function Sealed(files: seq<SchemaFile>, hash: Bytes -> Bytes): Evidence
    requires DistinctPaths(files)
  {
    Evidence(hash(Preimage(Contents(files), hash)), |files|, TotalLength(files))
  }

  // ---- The digest binds the bundle -------------------------------------------------------------

  lemma {:induction false} EntryPrefix(p: Text, b: Bytes, q: Text, c: Bytes, hash: Bytes -> Bytes, r: Bytes, s: Bytes)
    requires |p| <= U64_MAX && |q| <= U64_MAX && |b| <= U64_MAX && |c| <= U64_MAX
    requires |hash(b)| == |hash(c)|
    requires Entry(p, b, hash) + r == Entry(q, c, hash) + s
    ensures p == q && |b| == |c| && hash(b) == hash(c) && r == s
  {
    var x, y := Entry(p, b, hash) + r, Entry(q, c, hash) + s;
    EightBytes();
    assert x[..8] == BigEndian(|p|, 8) && y[..8] == BigEndian(|q|, 8);
    BigEndianRoundTrip(|p|, 8);
    BigEndianRoundTrip(|q|, 8);
    var n := 8 + |p|;
    assert x[8..n] == p && y[8..n] == q;
    assert x[n..n + 8] == BigEndian(|b|, 8) && y[n..n + 8] == BigEndian(|c|, 8);
    BigEndianRoundTrip(|b|, 8);
    BigEndianRoundTrip(|c|, 8);
    var m := n + 8 + |hash(b)|;
    assert x[n + 8..m] == hash(b) && y[n + 8..m] == hash(c);
    assert x[m..] == r && y[m..] == s;
  }

  /** Every path and content fits its eight-byte length prefix. */
  ghost predicate Fits(bundle: Bundle) {
    forall p :: p in bundle ==> |p| <= U64_MAX && |bundle[p]| <= U64_MAX
  }

  lemma {:induction false} EntriesNonempty(ps: seq<Text>, a: Bundle, hash: Bytes -> Bytes)
    requires Elements(ps) <= a.Keys
    ensures Entries(ps, a, hash) == [] ==> ps == []
  {
    if ps != [] { assert ps[0] in Elements(ps); }
  }

  lemma {:induction false} EntriesInjective(ps: seq<Text>, a: Bundle, qs: seq<Text>, b: Bundle, hash: Bytes -> Bytes)
    requires Elements(ps) <= a.Keys && Elements(qs) <= b.Keys && Fits(a) && Fits(b)
    requires forall x, y :: |hash(x)| == |hash(y)|
    requires Entries(ps, a, hash) == Entries(qs, b, hash)
    ensures ps == qs
    ensures forall p :: p in Elements(ps) ==> p in a && p in b && |a[p]| == |b[p]| && hash(a[p]) == hash(b[p])
  {
    if ps == [] {
      EntriesNonempty(qs, b, hash);
    } else if qs == [] {
      EntriesNonempty(ps, a, hash);
    } else {
      assert ps[0] in Elements(ps) && Elements(ps[1..]) <= Elements(ps);
      assert qs[0] in Elements(qs) && Elements(qs[1..]) <= Elements(qs);
      EntryPrefix(ps[0], a[ps[0]], qs[0], b[qs[0]], hash, Entries(ps[1..], a, hash), Entries(qs[1..], b, hash));
      EntriesInjective(ps[1..], a, qs[1..], b, hash);
      assert ps == [ps[0]] + ps[1..] && qs == [qs[0]] + qs[1..];
    }
  }

  /** The hashed input determines the paths and every content's length and hash. */
  lemma {:induction false} PreimageInjective(a: Bundle, b: Bundle, hash: Bytes -> Bytes)
    requires Fits(a) && Fits(b) && forall x, y :: |hash(x)| == |hash(y)|
    requires Preimage(a, hash) == Preimage(b, hash)
    ensures a.Keys == b.Keys && forall p :: p in a ==> |a[p]| == |b[p]| && hash(a[p]) == hash(b[p])
  {
    var domain := Ascii("weregopher.app-server-schema-bundle.v1\0");
    var ps, qs := InPathOrder(a.Keys), InPathOrder(b.Keys);
    PrefixCancels(domain, Entries(ps, a, hash), Entries(qs, b, hash));
    EntriesInjective(ps, a, qs, b, hash);
    forall p | p in a ensures p in b && |a[p]| == |b[p]| && hash(a[p]) == hash(b[p]) {
      assert p in Elements(ps);
    }
  }

  /** The two hashed inputs differ and share a digest. */
  predicate PreimagesCollide(a: Bundle, b: Bundle, hash: Bytes -> Bytes) {
    Preimage(a, hash) != Preimage(b, hash) && hash(Preimage(a, hash)) == hash(Preimage(b, hash))
  }

  /** Two files of the same path whose different contents share length and hash. */
  predicate ContentsCollide(a: Bundle, b: Bundle, hash: Bytes -> Bytes, p: Text) {
    p in a && p in b && a[p] != b[p] && |a[p]| == |b[p]| && hash(a[p]) == hash(b[p])
  }

  /** Bundles with the same digest are the same bundle, unless the two hashed inputs themselves collide, or
      two contents under one path do. */
  lemma {:induction false} DigestBindsBundle(a: Bundle, b: Bundle, hash: Bytes -> Bytes)
    requires Fits(a) && Fits(b) && forall x, y :: |hash(x)| == |hash(y)|
    requires hash(Preimage(a, hash)) == hash(Preimage(b, hash))
    ensures a == b || PreimagesCollide(a, b, hash) || exists p :: ContentsCollide(a, b, hash, p)
  {
    if Preimage(a, hash) == Preimage(b, hash) && a != b {
      PreimageInjective(a, b, hash);
      var p :| p in a && a[p] != b[p];
      assert ContentsCollide(a, b, hash, p);
    }
  }

  /** Every accepted bundle fits its length prefixes, so the digest binds it. */
  lemma {:induction false} EvidenceBindsFiles(a: seq<SchemaFile>, b: seq<SchemaFile>, hash: Bytes -> Bytes)
    requires Acceptable(a) && Acceptable(b) && forall x, y :: |hash(x)| == |hash(y)|
    requires Sealed(a, hash).digest == Sealed(b, hash).digest
    ensures var x, y := Contents(a), Contents(b);
            x == y || PreimagesCollide(x, y, hash) || exists p :: ContentsCollide(x, y, hash, p)
  {
    AcceptedFits(a);
    AcceptedFits(b);
    DigestBindsBundle(Contents(a), Contents(b), hash);
  }

  lemma {:induction false} AcceptedFits(files: seq<SchemaFile>)
    requires Acceptable(files)
    ensures Fits(Contents(files))
  {
    var bundle := Contents(files);
    forall p | p in bundle ensures |p| <= U64_MAX && |bundle[p]| <= U64_MAX {
      var f :| f in files && f.path == p;
      PathsAgree(files);
      assert GoodFile(f) && bundle[p] == f.bytes;
    }
  }

  // ---- The implementation ----------------------------------------------------------------------

  /** What the collecting loop holds after the first files. */
  ghost predicate Gathered(bundle: Bundle, files: seq<SchemaFile>) {
    DistinctPaths(files) && bundle == Contents(files) && |bundle| == |files|
  }

  lemma {:induction false} DistinctMore(files: seq<SchemaFile>, f: SchemaFile)
    requires DistinctPaths(files) && forall g :: g in files ==> g.path != f.path
    ensures DistinctPaths(files + [f])
  {
    var more := files + [f];
    forall i, j | 0 <= i < j < |more| ensures more[i].path != more[j].path {
      if j == |files| { assert files[i] in files; }
    }
  }

  lemma {:induction false} ContentsMore(files: seq<SchemaFile>, f: SchemaFile)
    requires DistinctPaths(files) && DistinctPaths(files + [f])
    ensures Contents(files + [f]) == Contents(files)[f.path := f.bytes]
  {
    var more := files + [f];
    PathsAgree(more);
    assert forall g :: g in more <==> g in files || g == f;
  }

  lemma {:induction false} GatherOne(bundle: Bundle, files: seq<SchemaFile>, f: SchemaFile)
    requires Gathered(bundle, files)
    ensures f.path !in bundle ==> Gathered(bundle[f.path := f.bytes], files + [f])
    ensures f.path in bundle ==> !DistinctPaths(files + [f])
  {
    var more := files + [f];
    if f.path in bundle {
      var g :| g in files && g.path == f.path;
      var i :| 0 <= i < |files| && files[i] == g;
      assert more[i].path == more[|files|].path;
    } else {
      forall g | g in files ensures g.path != f.path { assert g.path in bundle; }
      DistinctMore(files, f);
      ContentsMore(files, f);
    }
  }

  /** The checks on one file, in order. */
  method CheckFile(f: SchemaFile) returns (refused: Option<BundleError>)
    ensures refused.None? <==> GoodFile(f)
    ensures refused.Some? ==> refused.value == if ValidPath(f.path) then InvalidFileSize else InvalidRelativePath
  {
    if !ValidPath(f.path) {
      return Some(InvalidRelativePath);
    }
    if f.bytes == [] || |f.bytes| > MAX_FILE_BYTES {
      return Some(InvalidFileSize);
    }
    return None;
  }

  lemma {:induction false} TotalGrows(files: seq<SchemaFile>, i: nat)
    requires i <= |files|
    ensures TotalLength(files[..i]) <= TotalLength(files)
  {
    if i < |files| {
      TotalGrows(files[..|files| - 1], i);
      assert files[..|files| - 1][..i] == files[..i];
    } else {
      assert files[..i] == files;
    }
  }

  /** Feeds the hasher one entry after another. */
  method FeedEntries(domain: Bytes, paths: seq<Text>, bundle: Bundle, hash: Bytes -> Bytes) returns (input: Bytes)
    requires Elements(paths) <= bundle.Keys
    ensures input == domain + Entries(paths, bundle, hash)
  {
    input := domain;
    var rest := paths;
    while rest != []
      invariant Elements(rest) <= bundle.Keys
      invariant input + Entries(rest, bundle, hash) == domain + Entries(paths, bundle, hash)
    {
      assert rest[0] in Elements(rest) && Elements(rest[1..]) <= Elements(rest);
      var path, bytes := rest[0], bundle[rest[0]];
      input := input + (BigEndian(|path|, 8) + path + BigEndian(|bytes|, 8) + hash(bytes));
      rest := rest[1..];
    }
    assert input + [] == input;
  }

  method HashEntries(bundle: Bundle, hash: Bytes -> Bytes) returns (digest: Bytes)
    ensures digest == hash(Preimage(bundle, hash))
  {
    var input := FeedEntries(Ascii("weregopher.app-server-schema-bundle.v1\0"), InPathOrder(bundle.Keys), bundle, hash);
    return hash(input);
  }

  datatype Collected = Collected(bundle: Bundle, total: nat, hasJsonSchema: bool, hasTypescript: bool)

  /** Good, distinct files within the limits. */
  ghost predicate Collectable(files: seq<SchemaFile>) {
    AllGood(files) && DistinctPaths(files) && |files| <= MAX_FILES && TotalLength(files) <= MAX_TOTAL_BYTES
  }

  ghost predicate Collects(c: Collected, files: seq<SchemaFile>) {
    && Collectable(files) && Gathered(c.bundle, files) && c.total == TotalLength(files)
    && (c.hasJsonSchema <==> HasRoot(files, JsonSchemaRoot()))
    && (c.hasTypescript <==> HasRoot(files, TypescriptRoot()))
  }

  lemma {:induction false} CollectablePrefix(files: seq<SchemaFile>, i: nat)
    requires i <= |files| && Collectable(files)
    ensures Collectable(files[..i])
  {
    TotalGrows(files, i);
  }

  lemma {:induction false} CollectableMore(files: seq<SchemaFile>, f: SchemaFile)
    requires Collectable(files)
    ensures Collectable(files + [f]) <==>
              && GoodFile(f) && |files| < MAX_FILES && TotalLength(files) + |f.bytes| <= MAX_TOTAL_BYTES
              && DistinctPaths(files + [f])
    ensures TotalLength(files + [f]) == TotalLength(files) + |f.bytes|
  {
    assert (files + [f])[..|files|] == files && f in files + [f];
    assert AllGood(files + [f]) <==> GoodFile(f);
  }

  lemma {:induction false} NothingCollected()
    ensures Collects(Collected(map[], 0, false, false), [])
  {
  }

  /** One round of the collecting loop. */
  method CollectFile(c: Collected, f: SchemaFile, ghost done: seq<SchemaFile>)
      returns (r: Result<Collected, BundleError>)
    requires Collects(c, done)
    ensures r.Ok? <==> Collectable(done + [f])
    ensures r.Ok? ==> Collects(r.value, done + [f])
  {
    CollectableMore(done, f);
    var refused := CheckFile(f);
    if refused.Some? {
      return Err(refused.value);
    }
    if |c.bundle| == MAX_FILES {
      return Err(TooManyFiles);
    }
    if c.total + |f.bytes| > MAX_TOTAL_BYTES {
      return Err(AggregateTooLarge);
    }
    GatherOne(c.bundle, done, f);
    if f.path in c.bundle {
      return Err(DuplicatePath);
    }
    RootOfMore(done, f);
    return Ok(Collected(c.bundle[f.path := f.bytes], c.total + |f.bytes|,
                        c.hasJsonSchema || Root(f.path) == JsonSchemaRoot(),
                        c.hasTypescript || Root(f.path) == TypescriptRoot()));
  }

  lemma {:induction false} OneMore(files: seq<SchemaFile>, i: nat)
    requires i < |files|
    ensures files[..i + 1] == files[..i] + [files[i]]
  {
  }

  /** The collecting loop succeeds exactly on good, distinct files within the limits. */
  method CollectFiles(files: seq<SchemaFile>) returns (r: Result<Collected, BundleError>)
    ensures r.Ok? <==> Collectable(files)
    ensures r.Ok? ==> Collects(r.value, files)
  {
    r := Ok(Collected(map[], 0, false, false));
    NothingCollected();
    ghost var done: seq<SchemaFile> := [];
    for i := 0 to |files|
      invariant done == files[..i]
      invariant if r.Ok? then Collects(r.value, done) else !Collectable(done)
    {
      OneMore(files, i);
      if r.Ok? {
        r := CollectFile(r.value, files[i], done);
      } else {
        StillNotCollectable(done, files[i]);
      }
      done := done + [files[i]];
    }
    assert done == files;
  }

  lemma {:induction false} StillNotCollectable(files: seq<SchemaFile>, f: SchemaFile)
    requires !Collectable(files)
    ensures !Collectable(files + [f])
  {
    assert (files + [f])[..|files|] == files;
    if Collectable(files + [f]) { CollectablePrefix(files + [f], |files|); }
  }

  /** `hash_app_server_schema_bundle`: accepts exactly the acceptable bundles. */
  method HashBundle(files: seq<SchemaFile>, hash: Bytes -> Bytes) returns (r: Result<Evidence, BundleError>)
    ensures r.Ok? <==> Acceptable(files)
    ensures r.Ok? ==> r.value == Sealed(files, hash)
  {
    var collected := CollectFiles(files);
    if collected.Err? {
      return Err(collected.error);
    }
    if !collected.value.hasJsonSchema {
      return Err(MissingGeneratorOutput(JsonSchemaRoot()));
    }
    if !collected.value.hasTypescript {
      return Err(MissingGeneratorOutput(TypescriptRoot()));
    }
    var digest := HashEntries(collected.value.bundle, hash);
    return Ok(Evidence(digest, |collected.value.bundle|, collected.value.total));
  }

  lemma {:induction false} RootOfMore(files: seq<SchemaFile>, f: SchemaFile)
    ensures forall r :: HasRoot(files + [f], r) <==> HasRoot(files, r) || Root(f.path) == r
  {
    forall r ensures HasRoot(files + [f], r) <==> HasRoot(files, r) || Root(f.path) == r {
      if HasRoot(files, r) {
        var g :| g in files && Root(g.path) == r;
        assert g in files + [f];
      }
      if Root(f.path) == r { assert f in files + [f]; }
    }
  }
}
