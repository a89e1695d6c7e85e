/** Member names and the slash-separated paths built from them. */
module AsarPaths {
  import opened Basics
  import opened Ordering

  const SLASH: byte := 0x2F
  const DOT: byte := 0x2E
  const SPACE: byte := 0x20

  type Components = seq<Text>

  function LowerByte(b: byte): byte {
    if 0x41 <= b <= 0x5A then b + 0x20 else b
  }

  /** `to_ascii_lowercase`. */
  function Lower(t: Text): Text {
    seq(|t|, i requires 0 <= i < |t| => LowerByte(t[i]))
  }

  predicate ForbiddenByte(b: byte) {
    b <= 0x1F || b in Ascii("/\\:<>\"|?*")
  }

  /** Everything before the first dot. */
  function Stem(name: Text): Text {
    if name == [] || name[0] == DOT then [] else [name[0]] + Stem(name[1..])
  }

  predicate ReservedStem(stem: Text) {
    || stem in {Ascii("con"), Ascii("prn"), Ascii("aux"), Ascii("nul")}
    || (|stem| == 4 && stem[..3] in {Ascii("com"), Ascii("lpt")} && 0x31 <= stem[3] <= 0x39)
  }

  predicate ValidName(name: Text) {
    && name != [] && name != [DOT] && name != [DOT, DOT]
    && name[|name| - 1] != DOT && name[|name| - 1] != SPACE
    && (forall i :: 0 <= i < |name| ==> !ForbiddenByte(name[i]))
    && !ReservedStem(Lower(Stem(name)))
  }

  predicate SlashFree(name: Text) {
    forall i :: 0 <= i < |name| ==> name[i] != SLASH
  }

  lemma {:induction false} ValidNameFacts(name: Text)
    requires ValidName(name)
    ensures name != [] && SlashFree(name)
  {
    forall i | 0 <= i < |name| ensures name[i] != SLASH {
      assert Ascii("/\\:<>\"|?*")[0] == SLASH;
      assert !ForbiddenByte(name[i]);
    }
  }

  predicate Wholesome(comps: Components) {
    forall i :: 0 <= i < |comps| ==> comps[i] != [] && SlashFree(comps[i])
  }

  // ---- Joining and splitting ---------------------------------------------------------------

  function Join(comps: Components): Text {
    if comps == [] then [] else if |comps| == 1 then comps[0] else comps[0] + [SLASH] + Join(comps[1..])
  }

  function FirstSlash(t: Text): (n: nat)
    ensures n <= |t| && SlashFree(t[..n]) && (n < |t| ==> t[n] == SLASH)
  {
    if t == [] || t[0] == SLASH then 0 else
      var n := 1 + FirstSlash(t[1..]);
      assert t[..n] == [t[0]] + t[1..][..n - 1];
      n
  }

  /** `str::split('/')`: always at least one piece. */
  function Split(t: Text): (comps: Components)
    ensures comps != []
  {
    var n := FirstSlash(t);
    if n == |t| then [t] else [t[..n]] + Split(t[n + 1..])
  }

  lemma {:induction false} FirstSlashOf(name: Text, rest: Text)
    requires SlashFree(name) && (rest == [] || rest[0] == SLASH)
    ensures FirstSlash(name + rest) == |name|
  {
    if name == [] {
      assert name + rest == rest;
    } else {
      assert (name + rest)[1..] == name[1..] + rest;
      FirstSlashOf(name[1..], rest);
    }
  }

  lemma {:induction false} JoinSplit(t: Text)
    ensures Join(Split(t)) == t
    decreases |t|
  {
    var n := FirstSlash(t);
    if n < |t| {
      JoinSplit(t[n + 1..]);
      assert Split(t)[1..] == Split(t[n + 1..]);
      assert t == t[..n] + [SLASH] + t[n + 1..];
    }
  }

  lemma {:induction false} JoinFirst(comps: Components)
    requires |comps| > 1
    ensures Join(comps) == comps[0] + ([SLASH] + Join(comps[1..]))
  {
  }

  lemma {:induction false} SplitWhole(name: Text)
    requires SlashFree(name)
    ensures Split(name) == [name]
  {
    FirstSlashOf(name, []);
    assert name + [] == name;
  }

  lemma {:induction false} SplitFirst(name: Text, rest: Text)
    requires SlashFree(name)
    ensures Split(name + ([SLASH] + rest)) == [name] + Split(rest)
  {
    var t := name + ([SLASH] + rest);
    FirstSlashOf(name, [SLASH] + rest);
    assert t[|name| + 1..] == rest && t[..|name|] == name;
  }

  lemma {:induction false} SplitJoin(comps: Components)
    requires comps != [] && Wholesome(comps)
    ensures Split(Join(comps)) == comps
  {
    if |comps| == 1 {
      SplitWhole(comps[0]);
      assert comps == [comps[0]];
    } else {
      var rest := comps[1..];
      SplitJoin(rest);
      SplitFirst(comps[0], Join(rest));
      JoinFirst(comps);
      assert comps == [comps[0]] + rest;
    }
  }

  // ---- Paths below a parent ----------------------------------------------------------------

  /** The path of a member of `parent`, as the collectors build it. */
  function Extend(parent: Text, name: Text): Text {
    if parent == [] then name else parent + [SLASH] + name
  }

  function Path(parent: Text, comps: Components): Text
    decreases |comps|
  {
    if comps == [] then parent else Path(Extend(parent, comps[0]), comps[1..])
  }

  lemma {:induction false} PathFromRoot(parent: Text, comps: Components)
    requires comps != [] && Wholesome(comps)
    ensures Path(parent, comps) == Extend(parent, Join(comps)) && Path(parent, comps) != []
    decreases |comps|
  {
    var p := Extend(parent, comps[0]);
    if |comps| > 1 {
      PathFromRoot(p, comps[1..]);
      if parent != [] {
        assert parent + [SLASH] + comps[0] + [SLASH] + Join(comps[1..])
            == parent + [SLASH] + (comps[0] + [SLASH] + Join(comps[1..]));
      }
    } else {
      assert comps[1..] == [];
    }
  }

  /** Two members of one directory tree share a path only if they are the same member. */
  lemma {:induction false} PathInjective(parent: Text, a: Components, b: Components)
    requires a != [] && b != [] && Wholesome(a) && Wholesome(b) && Path(parent, a) == Path(parent, b)
    ensures a == b
  {
    PathFromRoot(parent, a);
    PathFromRoot(parent, b);
    if parent != [] {
      var p := parent + [SLASH];
      assert Join(a) == (p + Join(a))[|p|..] && Join(b) == (p + Join(b))[|p|..];
    }
    SplitJoin(a);
    SplitJoin(b);
  }

  /** Paths in `BTreeMap` order. */
  function InPathOrder(paths: set<Text>): (r: seq<Text>)
    ensures Ascending(r) && Elements(r) == paths && Distinct(r)
  {
    var r := Sorted(paths);
    assert forall i :: 0 <= i < |r| ==> r[i] in Elements(r);
    AscendingDistinct(r);
    DistinctPositions<Text>(r);
    r
  }
}
