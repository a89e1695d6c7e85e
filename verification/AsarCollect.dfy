/** The recursive collection of archive members, materialised and read-only. */
module AsarCollect {
  import opened Basics
  import opened AsarPaths
  import opened AsarTree

  datatype AsarLimits = AsarLimits(
    maxArchiveBytes: nat,
    maxHeaderBytes: nat,
    maxEntries: nat,
    maxFileBytes: nat,
    maxTotalFileBytes: nat,
    maxPathBytes: nat,
    maxDepth: nat)

  datatype AsarError =
    | ArchiveTooLarge
    | HeaderTooLarge
    | InvalidHeader
    | InvalidHeaderJson
    | InvalidMemberName
    | TooManyEntries
    | TooDeep
    | PathBudgetExceeded
    | UnsupportedEntry
    | InvalidLayout
    | FileTooLarge
    | AggregateTooLarge
    | IntegrityMismatch
    | MemberNotFound

  /** A member whose bytes have not been looked at yet. */
  datatype Pending = Pending(offset: nat, size: nat, executable: bool, integrity: Integrity)

  datatype State = State(
    files: map<Text, Pending>,
    caseKeys: set<Text>,
    entries: nat,
    pathBytes: nat,
    totalBytes: nat)

  const INITIAL := State(map[], {}, 0, 0, 0)

  // ---- Decimal offsets ---------------------------------------------------------------------

  function DecimalValue(digits: Text): Option<nat> {
    if digits == [] then Some(0) else
      var high := DecimalValue(digits[..|digits| - 1]);
      var d := digits[|digits| - 1];
      if high.Some? && 0x30 <= d <= 0x39 then Some(10 * high.value + (d - 0x30)) else None
  }

  /** `str::parse::<usize>`: an optional plus sign, then digits, within range. */
  function ParseUsize(t: Text): Option<nat> {
    var digits := if t != [] && t[0] == 0x2B then t[1..] else t;
    if digits == [] then None
    else if DecimalValue(digits).Some? && DecimalValue(digits).value <= U64_MAX then DecimalValue(digits)
    else None
  }

  /** `usize::to_string`. */
  function Decimal(n: nat): Text {
    (if n < 10 then [] else Decimal(n / 10)) + [0x30 + n % 10]
  }

  lemma {:induction false} DecimalDigits(n: nat)
    ensures Decimal(n) != [] && 0x30 <= Decimal(n)[0] <= 0x39 && DecimalValue(Decimal(n)) == Some(n)
  {
    var t := Decimal(n);
    if n >= 10 { DecimalDigits(n / 10); }
    assert t[..|t| - 1] == if n < 10 then [] else Decimal(n / 10);
  }

  lemma {:induction false} OffsetRoundTrip(n: nat)
    requires n <= U64_MAX
    ensures ParseUsize(Decimal(n)) == Some(n)
  {
    DecimalDigits(n);
  }

  // ---- Collection --------------------------------------------------------------------------

  function Register(st: State, path: Text, l: AsarLimits): Result<State, AsarError> {
    if st.entries + 1 > l.maxEntries then Err(TooManyEntries)
    else if l.maxEntries * l.maxPathBytes > U64_MAX then Err(PathBudgetExceeded)
    else if st.pathBytes + |path| > l.maxEntries * l.maxPathBytes then Err(PathBudgetExceeded)
    else if Lower(path) in st.caseKeys then Err(InvalidMemberName)
    else Ok(st.(entries := st.entries + 1, pathBytes := st.pathBytes + |path|,
                caseKeys := st.caseKeys + {Lower(path)}))
  }

  predicate Packable(file: FileEntry, l: AsarLimits) {
    && !file.unpacked && file.offset.Some? && ParseUsize(file.offset.value).Some?
    && file.size <= l.maxFileBytes && file.integrity.Some?
  }

  function PendingOf(file: FileEntry): Pending
    requires file.offset.Some? && ParseUsize(file.offset.value).Some? && file.integrity.Some?
  {
    Pending(ParseUsize(file.offset.value).value, file.size, file.executable, file.integrity.value)
  }

  function CollectFile(file: FileEntry, path: Text, st: State, l: AsarLimits): Result<State, AsarError> {
    if file.unpacked then Err(UnsupportedEntry)
    else if file.offset.None? || ParseUsize(file.offset.value).None? then Err(InvalidLayout)
    else if file.size > l.maxFileBytes then Err(FileTooLarge)
    else if st.totalBytes + file.size > l.maxTotalFileBytes then Err(AggregateTooLarge)
    else if file.integrity.None? then Err(IntegrityMismatch)
    else Ok(st.(files := st.files[path := PendingOf(file)], totalBytes := st.totalBytes + file.size))
  }

  /** `collect_entries` below a directory that has already been entered. */
  function Collect(f: Forest, parent: Text, depth: nat, st: State, l: AsarLimits): Result<State, AsarError> {
    if f.Nil? then Ok(st)
    else if !ValidName(f.name) then Err(InvalidMemberName)
    else
      var path := Extend(parent, f.name);
      if |path| > l.maxPathBytes then Err(InvalidMemberName)
      else
        var entered := Register(st, path, l);
        if entered.Err? then entered
        else
          var r := match f.node
                   case Directory(files) =>
                     if depth + 1 > l.maxDepth then Err(TooDeep)
                     else if files.Nil? then Err(UnsupportedEntry)
                     else Collect(files, path, depth + 1, entered.value, l)
                   case FileNode(file) => CollectFile(file, path, entered.value, l)
                   case LinkNode(target) => if target == [] then Err(InvalidMemberName) else Err(UnsupportedEntry);
          if r.Err? then r else Collect(f.rest, parent, depth, r.value, l)
  }

  predicate AllPackable(f: Forest, l: AsarLimits) {
    f.Cons? ==>
      && (f.node.Directory? ==> AllPackable(f.node.files, l))
      && (f.node.FileNode? ==> Packable(f.node.file, l))
      && AllPackable(f.rest, l)
  }

  predicate NamesValid(f: Forest) {
    f.Cons? ==> ValidName(f.name) && (f.node.Directory? ==> NamesValid(f.node.files)) && NamesValid(f.rest)
  }

  function FilesOf(f: Forest, parent: Text, l: AsarLimits): map<Text, Pending>
    requires AllPackable(f, l)
  {
    if f.Nil? then map[]
    else
      var path := Extend(parent, f.name);
      (match f.node
       case Directory(files) => FilesOf(files, path, l)
       case FileNode(file) => map[path := PendingOf(file)]
       case LinkNode(_) => map[]) + FilesOf(f.rest, parent, l)
  }

  /** A successful collection met only well-formed members and accounted for every byte. */
  lemma {:induction false} CollectChecks(f: Forest, parent: Text, depth: nat, st: State, l: AsarLimits)
    requires Collect(f, parent, depth, st, l).Ok? && st.totalBytes <= l.maxTotalFileBytes
    ensures Plain(f) && NamesValid(f) && AllPackable(f, l)
    ensures Collect(f, parent, depth, st, l).value.totalBytes == st.totalBytes + TotalSize(f) <= l.maxTotalFileBytes
  {
    if f.Cons? {
      var path := Extend(parent, f.name);
      var entered := Register(st, path, l).value;
      match f.node
      case Directory(files) =>
        CollectChecks(files, path, depth + 1, entered, l);
        CollectChecks(f.rest, parent, depth, Collect(files, path, depth + 1, entered, l).value, l);
      case FileNode(file) =>
        CollectChecks(f.rest, parent, depth, CollectFile(file, path, entered, l).value, l);
    }
  }

  lemma {:induction false} Merge(a: map<Text, Pending>, b: map<Text, Pending>, c: map<Text, Pending>)
    ensures (a + b) + c == a + (b + c)
  {
  }

  /** A successful collection gathers exactly the files of the forest. */
  lemma {:induction false} CollectGathers(f: Forest, parent: Text, depth: nat, st: State, l: AsarLimits)
    requires Collect(f, parent, depth, st, l).Ok? && AllPackable(f, l)
    ensures Collect(f, parent, depth, st, l).value.files == st.files + FilesOf(f, parent, l)
  {
    if f.Cons? {
      var path := Extend(parent, f.name);
      var entered := Register(st, path, l).value;
      match f.node
      case Directory(files) =>
        CollectGathers(files, path, depth + 1, entered, l);
        CollectGathers(f.rest, parent, depth, Collect(files, path, depth + 1, entered, l).value, l);
        Merge(st.files, FilesOf(files, path, l), FilesOf(f.rest, parent, l));
      case FileNode(file) =>
        CollectGathers(f.rest, parent, depth, CollectFile(file, path, entered, l).value, l);
        assert st.files[path := PendingOf(file)] == st.files + map[path := PendingOf(file)];
        Merge(st.files, map[path := PendingOf(file)], FilesOf(f.rest, parent, l));
    } else {
      assert st.files + map[] == st.files;
    }
  }

  /** Whether members can be collected depends on the shape alone, as long as the files themselves fit. */
  lemma {:induction false} CollectSameShape(f: Forest, g: Forest, parent: Text, depth: nat, a: State, b: State,
          l: AsarLimits)
    requires SameShape(f, g) && Collect(f, parent, depth, a, l).Ok?
    requires AllPackable(g, l) && b.totalBytes + TotalSize(g) <= l.maxTotalFileBytes
    requires a.entries == b.entries && a.pathBytes == b.pathBytes && a.caseKeys == b.caseKeys
    ensures Collect(g, parent, depth, b, l).Ok?
    ensures var r, s := Collect(f, parent, depth, a, l).value, Collect(g, parent, depth, b, l).value;
            && r.entries == s.entries && r.pathBytes == s.pathBytes && r.caseKeys == s.caseKeys
            && s.totalBytes == b.totalBytes + TotalSize(g)
  {
    if f.Cons? {
      var path := Extend(parent, f.name);
      var ea, eb := Register(a, path, l).value, Register(b, path, l).value;
      match f.node
      case Directory(files) =>
        CollectSameShape(files, g.node.files, path, depth + 1, ea, eb, l);
        CollectSameShape(f.rest, g.rest, parent, depth, Collect(files, path, depth + 1, ea, l).value,
                         Collect(g.node.files, path, depth + 1, eb, l).value, l);
      case FileNode(file) =>
        CollectSameShape(f.rest, g.rest, parent, depth, CollectFile(file, path, ea, l).value,
                         CollectFile(g.node.file, path, eb, l).value, l);
    }
  }

  /** Collection stays within its entry and path budgets, and only ever adds case-folded paths. */
  lemma {:induction false} CollectBudgets(f: Forest, parent: Text, depth: nat, st: State, l: AsarLimits)
    requires Collect(f, parent, depth, st, l).Ok?
    requires st.entries <= l.maxEntries && st.pathBytes <= l.maxEntries * l.maxPathBytes
    ensures var r := Collect(f, parent, depth, st, l).value;
            && st.entries <= r.entries <= l.maxEntries && r.pathBytes <= l.maxEntries * l.maxPathBytes
            && st.caseKeys <= r.caseKeys
  {
    if f.Cons? {
      var path := Extend(parent, f.name);
      var entered := Register(st, path, l).value;
      match f.node
      case Directory(files) =>
        CollectBudgets(files, path, depth + 1, entered, l);
        CollectBudgets(f.rest, parent, depth, Collect(files, path, depth + 1, entered, l).value, l);
      case FileNode(file) =>
        CollectBudgets(f.rest, parent, depth, CollectFile(file, path, entered, l).value, l);
    }
  }

  /** The state after the first member and everything below it. */
  function AfterFirst(f: Forest, parent: Text, depth: nat, st: State, l: AsarLimits): State
    requires f.Cons? && Collect(f, parent, depth, st, l).Ok?
  {
    var path := Extend(parent, f.name);
    var entered := Register(st, path, l).value;
    match f.node
    case Directory(files) => Collect(files, path, depth + 1, entered, l).value
    case FileNode(file) => CollectFile(file, path, entered, l).value
    case LinkNode(_) => entered
  }

  /** Every collected file registers a case-folded path that was not there before. */
  lemma {:induction false} CollectRegisters(f: Forest, parent: Text, depth: nat, st: State, l: AsarLimits,
          c: Components)
    requires Collect(f, parent, depth, st, l).Ok? && Lookup(f, c).Some?
    requires st.entries <= l.maxEntries && st.pathBytes <= l.maxEntries * l.maxPathBytes
    ensures Lower(Path(parent, c)) !in st.caseKeys
    ensures Lower(Path(parent, c)) in Collect(f, parent, depth, st, l).value.caseKeys
  {
    var path := Extend(parent, f.name);
    var entered, after := Register(st, path, l).value, AfterFirst(f, parent, depth, st, l);
    if f.node.Directory? { CollectBudgets(f.node.files, path, depth + 1, entered, l); }
    CollectBudgets(f.rest, parent, depth, after, l);
    if c[0] == f.name {
      if f.node.Directory? {
        CollectRegisters(f.node.files, path, depth + 1, entered, l, c[1..]);
      } else {
        assert c[1..] == [];
      }
    } else {
      CollectRegisters(f.rest, parent, depth, after, l, c);
    }
  }

  /** No two collected files have paths that differ only in ASCII case. */
  lemma {:induction false} CaseDistinct(f: Forest, parent: Text, depth: nat, st: State, l: AsarLimits, c: Components,
          d: Components)
    requires Collect(f, parent, depth, st, l).Ok? && Lookup(f, c).Some? && Lookup(f, d).Some? && c != d
    requires st.entries <= l.maxEntries && st.pathBytes <= l.maxEntries * l.maxPathBytes
    ensures Lower(Path(parent, c)) != Lower(Path(parent, d))
  {
    var path := Extend(parent, f.name);
    var entered, after := Register(st, path, l).value, AfterFirst(f, parent, depth, st, l);
    if f.node.Directory? { CollectBudgets(f.node.files, path, depth + 1, entered, l); }
    if c[0] == f.name && d[0] == f.name {
      assert c == [c[0]] + c[1..] && d == [d[0]] + d[1..];
      if f.node.Directory? { CaseDistinct(f.node.files, path, depth + 1, entered, l, c[1..], d[1..]); }
    } else if c[0] == f.name {
      FirstRegisters(f, parent, depth, st, l, c);
      CollectRegisters(f.rest, parent, depth, after, l, d);
    } else if d[0] == f.name {
      FirstRegisters(f, parent, depth, st, l, d);
      CollectRegisters(f.rest, parent, depth, after, l, c);
    } else {
      CaseDistinct(f.rest, parent, depth, after, l, c, d);
    }
  }

  lemma {:induction false} FirstRegisters(f: Forest, parent: Text, depth: nat, st: State, l: AsarLimits, c: Components)
    requires Collect(f, parent, depth, st, l).Ok? && Lookup(f, c).Some? && c[0] == f.name
    requires st.entries <= l.maxEntries && st.pathBytes <= l.maxEntries * l.maxPathBytes
    ensures Lower(Path(parent, c)) in AfterFirst(f, parent, depth, st, l).caseKeys
  {
    var path := Extend(parent, f.name);
    var entered := Register(st, path, l).value;
    if f.node.Directory? {
      CollectRegisters(f.node.files, path, depth + 1, entered, l, c[1..]);
    } else {
      assert c[1..] == [];
    }
  }

  // ---- Read-only collection ----------------------------------------------------------------

  datatype IndexState = IndexState(state: State, unpacked: nat)

  /** `canonical_archive_path`: a relative path of valid names, at most `maxDepth` of them. */
  predicate Canonical(path: Text, l: AsarLimits) {
    && path != [] && |path| <= l.maxPathBytes && path[0] != SLASH
    && var comps := Split(path);
       |comps| <= l.maxDepth && forall i :: 0 <= i < |comps| ==> ValidName(comps[i])
  }

  function CanonicalError(path: Text, l: AsarLimits): AsarError {
    if path != [] && |path| <= l.maxPathBytes && path[0] != SLASH && |Split(path)| > l.maxDepth
       && (forall i :: 0 <= i <= l.maxDepth ==> ValidName(Split(path)[i]))
    then TooDeep else InvalidMemberName
  }

  function IndexFile(file: FileEntry, path: Text, ix: IndexState, l: AsarLimits): Result<IndexState, AsarError> {
    var st := ix.state;
    if file.size > l.maxFileBytes then Err(FileTooLarge)
    else if st.totalBytes + file.size > l.maxTotalFileBytes then Err(AggregateTooLarge)
    else
      var counted := st.(totalBytes := st.totalBytes + file.size);
      if file.unpacked then
        if file.offset.Some? then Err(InvalidLayout)
        else if ix.unpacked + 1 > U64_MAX then Err(TooManyEntries)
        else Ok(IndexState(counted, ix.unpacked + 1))
      else if file.offset.None? || ParseUsize(file.offset.value).None? then Err(InvalidLayout)
      else if file.integrity.None? then Err(IntegrityMismatch)
      else Ok(ix.(state := counted.(files := counted.files[path := PendingOf(file)])))
  }

  /** `collect_read_only_entries` below a directory that has already been entered. */
  function CollectIndex(f: Forest, parent: Text, depth: nat, ix: IndexState, l: AsarLimits)
    : Result<IndexState, AsarError>
  {
    if f.Nil? then Ok(ix)
    else if !ValidName(f.name) then Err(InvalidMemberName)
    else
      var path := Extend(parent, f.name);
      if |path| > l.maxPathBytes then Err(InvalidMemberName)
      else
        var entered := Register(ix.state, path, l);
        if entered.Err? then Err(entered.error)
        else
          var at := ix.(state := entered.value);
          var r := match f.node
                   case Directory(files) =>
                     if depth + 1 > l.maxDepth then Err(TooDeep) else CollectIndex(files, path, depth + 1, at, l)
                   case FileNode(file) => IndexFile(file, path, at, l)
                   case LinkNode(target) => if Canonical(target, l) then Ok(at) else Err(CanonicalError(target, l));
          if r.Err? then r else CollectIndex(f.rest, parent, depth, r.value, l)
  }

  /** Whatever can be materialised can be indexed, with the same members and nothing unpacked. */
  lemma {:induction false} IndexRefinesCollect(f: Forest, parent: Text, depth: nat, ix: IndexState, l: AsarLimits)
    requires Collect(f, parent, depth, ix.state, l).Ok?
    ensures CollectIndex(f, parent, depth, ix, l) == Ok(ix.(state := Collect(f, parent, depth, ix.state, l).value))
  {
    if f.Cons? {
      var path := Extend(parent, f.name);
      var at := ix.(state := Register(ix.state, path, l).value);
      match f.node
      case Directory(files) =>
        IndexRefinesCollect(files, path, depth + 1, at, l);
        IndexRefinesCollect(f.rest, parent, depth, at.(state := Collect(files, path, depth + 1, at.state, l).value), l);
      case FileNode(file) =>
        IndexRefinesCollect(f.rest, parent, depth, at.(state := CollectFile(file, path, at.state, l).value), l);
    }
  }

  // ---- Members by path ---------------------------------------------------------------------

  lemma {:induction false} LookupIsWholesome(f: Forest, c: Components)
    requires NamesValid(f) && Lookup(f, c).Some?
    ensures c != [] && Wholesome(c)
  {
    if c[0] == f.name {
      ValidNameFacts(f.name);
      if f.node.Directory? {
        LookupIsWholesome(f.node.files, c[1..]);
        assert c == [c[0]] + c[1..];
      }
    } else {
      LookupIsWholesome(f.rest, c);
    }
  }

  lemma {:induction false} PackableLookup(f: Forest, l: AsarLimits, c: Components)
    requires AllPackable(f, l) && Lookup(f, c).Some?
    ensures Packable(Lookup(f, c).value, l)
  {
    if c[0] == f.name {
      if f.node.Directory? { PackableLookup(f.node.files, l, c[1..]); }
    } else {
      PackableLookup(f.rest, l, c);
    }
  }

  /** Every collected path is the path of some file. */
  lemma {:induction false} FilesOfOrigin(f: Forest, parent: Text, l: AsarLimits, k: Text) returns (c: Components)
    requires AllPackable(f, l) && Ordered(f) && k in FilesOf(f, parent, l)
    ensures Lookup(f, c).Some? && k == Path(parent, c)
  {
    var path := Extend(parent, f.name);
    if k in FilesOf(f.rest, parent, l) {
      c := FilesOfOrigin(f.rest, parent, l, k);
      if c[0] == f.name { RestMisses(f, c); }
    } else if f.node.FileNode? {
      c := [f.name];
      assert c[1..] == [];
    } else {
      var below := FilesOfOrigin(f.node.files, path, l, k);
      c := [f.name] + below;
      assert c[1..] == below;
    }
  }

  /** Every file is collected under its path. */
  lemma {:induction false} FilesOfLookup(f: Forest, parent: Text, l: AsarLimits, c: Components)
    requires AllPackable(f, l) && Ordered(f) && NamesValid(f) && Lookup(f, c).Some?
    ensures Packable(Lookup(f, c).value, l)
    ensures Path(parent, c) in FilesOf(f, parent, l)
    ensures FilesOf(f, parent, l)[Path(parent, c)] == PendingOf(Lookup(f, c).value)
  {
    PackableLookup(f, l, c);
    var k := Path(parent, c);
    if c[0] == f.name {
      if f.node.Directory? {
        FilesOfLookup(f.node.files, Extend(parent, f.name), l, c[1..]);
      } else {
        assert c[1..] == [];
      }
      if k in FilesOf(f.rest, parent, l) {
        var d := FilesOfOrigin(f.rest, parent, l, k);
        LookupIsWholesome(f, c);
        LookupIsWholesome(f.rest, d);
        PathInjective(parent, c, d);
        RestMisses(f, c);
      }
    } else {
      FilesOfLookup(f.rest, parent, l, c);
    }
  }
}
