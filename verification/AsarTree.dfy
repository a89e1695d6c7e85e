/** Archive directory trees. A `BTreeMap` of members is a list in ascending name order. */
module AsarTree {
  import opened Basics
  import opened Ordering
  import opened AsarPaths

  datatype Integrity = Integrity(algorithm: Text, hash: Text, blockSize: nat, blocks: seq<Text>)

  datatype FileEntry = FileEntry(
    size: nat,
    offset: Option<Text>,
    executable: bool,
    unpacked: bool,
    integrity: Option<Integrity>)

  datatype Node = Directory(files: Forest) | FileNode(file: FileEntry) | LinkNode(target: Text)

  datatype Forest = Nil | Cons(name: Text, node: Node, rest: Forest)

  predicate Ordered(f: Forest) {
    f.Cons? ==>
      && (f.node.Directory? ==> Ordered(f.node.files))
      && (f.rest.Cons? ==> Less(f.name, f.rest.name))
      && Ordered(f.rest)
  }

  /** Only files and directories, and every directory below the root has a member. */
  predicate Plain(f: Forest) {
    f.Cons? ==>
      && !f.node.LinkNode?
      && (f.node.Directory? ==> f.node.files.Cons? && Plain(f.node.files))
      && Plain(f.rest)
  }

  /** The file at a path, if there is one. */
  function Lookup(f: Forest, comps: Components): Option<FileEntry> {
    if f.Nil? || comps == [] then None
    else if comps[0] == f.name then
      match f.node
      case FileNode(file) => if |comps| == 1 then Some(file) else None
      case Directory(files) => Lookup(files, comps[1..])
      case LinkNode(_) => None
    else Lookup(f.rest, comps)
  }

  /** Nothing in `f` sorts at or before `name`. */
  predicate Above(f: Forest, name: Text) {
    f.Cons? ==> Less(name, f.name)
  }

  lemma {:induction false} AboveRest(f: Forest, name: Text)
    requires f.Cons? && Ordered(f) && Above(f, name)
    ensures Above(f.rest, name)
  {
    if f.rest.Cons? { LessTransitive(name, f.name, f.rest.name); }
  }

  lemma {:induction false} AboveMisses(f: Forest, comps: Components)
    requires Ordered(f) && comps != [] && Above(f, comps[0])
    ensures Lookup(f, comps).None?
  {
    if f.Cons? {
      LessIrreflexive(f.name);
      AboveRest(f, comps[0]);
      AboveMisses(f.rest, comps);
    }
  }

  /** A nonempty plain forest has a file below its first member. */
  lemma {:induction false} FirstFile(f: Forest) returns (comps: Components)
    requires f.Cons? && Plain(f)
    ensures comps != [] && comps[0] == f.name && Lookup(f, comps).Some?
  {
    if f.node.FileNode? {
      comps := [f.name];
    } else {
      var below := FirstFile(f.node.files);
      comps := [f.name] + below;
      assert comps[1..] == below;
    }
  }

  /** No file lies below another file. */
  lemma {:induction false} FilesArePrefixFree(f: Forest, a: Components, b: Components)
    requires Lookup(f, a).Some? && Lookup(f, b).Some? && a <= b
    ensures a == b
  {
    if a[0] == f.name {
      if f.node.Directory? {
        FilesArePrefixFree(f.node.files, a[1..], b[1..]);
        assert a == [a[0]] + a[1..] && b == [b[0]] + b[1..];
      }
    } else {
      FilesArePrefixFree(f.rest, a, b);
    }
  }

  // ---- Structure ---------------------------------------------------------------------------

  /** Same members at every level, files possibly different. */
  predicate SameShape(f: Forest, g: Forest) {
    if f.Nil? || g.Nil? then f.Nil? && g.Nil?
    else
      && f.name == g.name
      && (match f.node
          case Directory(files) => g.node.Directory? && SameShape(files, g.node.files)
          case FileNode(_) => g.node.FileNode?
          case LinkNode(_) => false)
      && SameShape(f.rest, g.rest)
  }

  ghost predicate SameFiles(f: Forest, g: Forest) {
    forall c :: Lookup(f, c).Some? <==> Lookup(g, c).Some?
  }

  lemma {:induction false} SameFirstName(f: Forest, g: Forest)
    requires Ordered(f) && Ordered(g) && Plain(f) && Plain(g) && SameFiles(f, g) && f.Cons? && g.Cons?
    ensures f.name == g.name
  {
    LessTotal(f.name, g.name);
    if Less(f.name, g.name) {
      var c := FirstFile(f);
      AboveMisses(g, c);
    } else if Less(g.name, f.name) {
      var c := FirstFile(g);
      AboveMisses(f, c);
    }
  }

  lemma {:induction false} RestMisses(f: Forest, c: Components)
    requires f.Cons? && Ordered(f) && c != [] && c[0] == f.name
    ensures Lookup(f.rest, c).None?
  {
    AboveMisses(f.rest, c);
  }

  /** The set of file paths determines an ordered forest without empty directories. */
  lemma {:induction false} FilesDetermineShape(f: Forest, g: Forest)
    requires Ordered(f) && Ordered(g) && Plain(f) && Plain(g) && SameFiles(f, g)
    ensures SameShape(f, g)
  {
    if f.Nil? && g.Nil? {
    } else if f.Nil? {
      var c := FirstFile(g);
    } else if g.Nil? {
      var c := FirstFile(f);
    } else {
      SameFirstName(f, g);
      assert Lookup(f, [f.name]).Some? <==> Lookup(g, [f.name]).Some?;
      var c := FirstFile(f);
      assert Lookup(f, c).Some? <==> Lookup(g, c).Some?;
      if f.node.Directory? && g.node.Directory? {
        SameBelow(f, g);
        FilesDetermineShape(f.node.files, g.node.files);
      }
      forall c: Components ensures Lookup(f.rest, c).Some? <==> Lookup(g.rest, c).Some? {
        assert Lookup(f, c).Some? <==> Lookup(g, c).Some?;
        if c != [] && c[0] == f.name {
          RestMisses(f, c);
          RestMisses(g, c);
        }
      }
      FilesDetermineShape(f.rest, g.rest);
    }
  }

  lemma {:induction false} SameBelow(f: Forest, g: Forest)
    requires f.Cons? && g.Cons? && f.name == g.name && f.node.Directory? && g.node.Directory? && SameFiles(f, g)
    ensures SameFiles(f.node.files, g.node.files)
  {
    forall c: Components ensures Lookup(f.node.files, c).Some? <==> Lookup(g.node.files, c).Some? {
      assert ([f.name] + c)[1..] == c;
      assert Lookup(f, [f.name] + c).Some? <==> Lookup(g, [f.name] + c).Some?;
    }
  }

  // ---- Insertion ---------------------------------------------------------------------------

  /** A chain of new directories down to one file. */
  function Fresh(comps: Components, file: FileEntry): Node {
    if comps == [] then FileNode(file) else Directory(Cons(comps[0], Fresh(comps[1..], file), Nil))
  }

  /** `insert_output_components`: refused when a name is taken by anything but a directory to descend into. */
  function Insert(f: Forest, comps: Components, file: FileEntry): Option<Forest>
    requires comps != []
    decreases |comps|, f
  {
    if f.Nil? then Some(Cons(comps[0], Fresh(comps[1..], file), Nil))
    else if comps[0] == f.name then
      if |comps| == 1 || !f.node.Directory? then None
      else
        var below := Insert(f.node.files, comps[1..], file);
        if below.None? then None else Some(f.(node := Directory(below.value)))
    else if Less(comps[0], f.name) then Some(Cons(comps[0], Fresh(comps[1..], file), f))
    else
      var beyond := Insert(f.rest, comps, file);
      if beyond.None? then None else Some(f.(rest := beyond.value))
  }

  lemma {:induction false} FreshLookup(name: Text, comps: Components, file: FileEntry, rest: Forest, c: Components)
    ensures c != [] && c[0] == name ==>
              Lookup(Cons(name, Fresh(comps, file), rest), c) == if c == [name] + comps then Some(file) else None
    ensures c != [] && c[0] != name ==> Lookup(Cons(name, Fresh(comps, file), rest), c) == Lookup(rest, c)
    decreases |comps|
  {
    if c != [] && c[0] == name {
      assert c == [c[0]] + c[1..];
      if comps != [] {
        FreshLookup(comps[0], comps[1..], file, Nil, c[1..]);
        assert comps == [comps[0]] + comps[1..];
      }
    }
  }

  /** Insertion adds exactly one file. */
  lemma {:induction false} InsertLookup(f: Forest, comps: Components, file: FileEntry, c: Components)
    requires comps != [] && Ordered(f) && Insert(f, comps, file).Some?
    ensures Lookup(Insert(f, comps, file).value, c) == if c == comps then Some(file) else Lookup(f, c)
    decreases |comps|, f
  {
    var g := Insert(f, comps, file).value;
    assert comps == [comps[0]] + comps[1..];
    if f.Nil? || (comps[0] != f.name && Less(comps[0], f.name)) {
      FreshLookup(comps[0], comps[1..], file, f, c);
      if c != [] && c[0] == comps[0] { AboveMisses(f, c); }
    } else if comps[0] == f.name {
      if c != [] {
        assert c == [c[0]] + c[1..];
        InsertLookup(f.node.files, comps[1..], file, c[1..]);
      }
    } else {
      InsertLookup(f.rest, comps, file, c);
    }
  }

  lemma {:induction false} FreshStructure(comps: Components, file: FileEntry)
    ensures comps != [] ==> Ordered(Fresh(comps, file).files) && Plain(Fresh(comps, file).files)
    ensures comps != [] ==> Fresh(comps, file).files.Cons?
    decreases |comps|
  {
    if comps != [] { FreshStructure(comps[1..], file); }
  }

  lemma {:induction false} InsertStructure(f: Forest, comps: Components, file: FileEntry)
    requires comps != [] && Ordered(f) && Plain(f) && Insert(f, comps, file).Some?
    ensures var g := Insert(f, comps, file).value;
            && Ordered(g) && Plain(g) && g.Cons?
            && (g.name == comps[0] || (f.Cons? && g.name == f.name))
    decreases |comps|, f
  {
    FreshStructure(comps[1..], file);
    if f.Cons? && comps[0] == f.name {
      InsertStructure(f.node.files, comps[1..], file);
    } else if f.Cons? && !Less(comps[0], f.name) {
      LessTotal(comps[0], f.name);
      InsertStructure(f.rest, comps, file);
    }
  }

  /** No file of `f` lies at, above or below `comps`. */
  ghost predicate Compatible(f: Forest, comps: Components) {
    forall c :: Lookup(f, c).Some? ==> !(c <= comps) && !(comps <= c)
  }

  lemma {:induction false} InsertSucceeds(f: Forest, comps: Components, file: FileEntry)
    requires comps != [] && Ordered(f) && Plain(f) && Compatible(f, comps)
    ensures Insert(f, comps, file).Some?
    decreases |comps|, f
  {
    if f.Cons? && comps[0] == f.name {
      var c := FirstFile(f);
      assert |comps| == 1 ==> comps <= c;
      assert [f.name] <= comps;
      assert f.node.FileNode? ==> Lookup(f, [f.name]).Some?;
      if |comps| > 1 && f.node.Directory? {
        forall c | Lookup(f.node.files, c).Some? ensures !(c <= comps[1..]) && !(comps[1..] <= c) {
          assert ([f.name] + c)[1..] == c && comps == [f.name] + comps[1..];
          assert Lookup(f, [f.name] + c).Some?;
        }
        InsertSucceeds(f.node.files, comps[1..], file);
      }
    } else if f.Cons? && !Less(comps[0], f.name) {
      LessTotal(comps[0], f.name);
      forall c | Lookup(f.rest, c).Some? ensures !(c <= comps) && !(comps <= c) {
        if c != [] && c[0] == f.name { RestMisses(f, c); }
        assert Lookup(f, c).Some?;
      }
      InsertSucceeds(f.rest, comps, file);
    }
  }

  // ---- Sizes -------------------------------------------------------------------------------

  function NodeSize(n: Node): nat {
    match n
    case Directory(files) => TotalSize(files)
    case FileNode(file) => file.size
    case LinkNode(_) => 0
  }

  function TotalSize(f: Forest): nat {
    if f.Nil? then 0 else NodeSize(f.node) + TotalSize(f.rest)
  }

  lemma {:induction false} FreshSize(comps: Components, file: FileEntry)
    ensures NodeSize(Fresh(comps, file)) == file.size
    decreases |comps|
  {
    if comps != [] {
      FreshSize(comps[1..], file);
      assert TotalSize(Nil) == 0;
    }
  }

  lemma {:induction false} InsertSize(f: Forest, comps: Components, file: FileEntry)
    requires comps != [] && Insert(f, comps, file).Some?
    ensures TotalSize(Insert(f, comps, file).value) == TotalSize(f) + file.size
    decreases |comps|, f
  {
    FreshSize(comps[1..], file);
    if f.Cons? && comps[0] == f.name {
      InsertSize(f.node.files, comps[1..], file);
    } else if f.Cons? && !Less(comps[0], f.name) {
      InsertSize(f.rest, comps, file);
    }
  }
}
