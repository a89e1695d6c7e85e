/** Bytes, machine integers and the ordered collections shared by every component. */
module Basics {

  datatype Option<+T> = None | Some(value: T)

  datatype Result<+T, +E> = Ok(value: T) | Err(error: E)

  /** Largest `u64`, and largest `usize` on the 64-bit targets the project ships for. */
  const U64_MAX: nat := 0xFFFF_FFFF_FFFF_FFFF

  type byte = x: int | 0 <= x < 256

  /** Raw bytes. A Rust `String` is modelled as its UTF-8 bytes, so its `len()` is `|t|`. */
  type Bytes = seq<byte>
  type Text = Bytes

  const NEWLINE: byte := 10

  /** The bytes of an ASCII literal. */
  function Ascii(s: string): (t: Text)
    ensures |t| == |s|
  {
    seq(|s|, i requires 0 <= i < |s| => (s[i] as int) % 256)
  }

  /** Reports a Unicode control character: C0 and DEL are one byte, C1 is `C2 80`..`C2 9F`. */
  predicate HasControl(t: Text) {
    && t != []
    && (|| t[0] < 0x20
        || t[0] == 0x7F
        || (t[0] == 0xC2 && |t| > 1 && 0x80 <= t[1] < 0xA0)
        || HasControl(t[1..]))
  }

  function Max(a: nat, b: nat): nat {
    if a < b then b else a
  }

  function SaturatingAdd(a: nat, b: nat): nat {
    if a + b > U64_MAX then U64_MAX else a + b
  }

  ghost function Elements<T>(s: seq<T>): set<T> {
    set x | x in s
  }

  /** No element occurs twice. */
  ghost predicate Distinct<T>(s: seq<T>) {
    s == [] || (s[|s| - 1] !in s[..|s| - 1] && Distinct(s[..|s| - 1]))
  }

  lemma {:induction false} ElementsConcat<T>(s: seq<T>, t: seq<T>)
    ensures Elements(s + t) == Elements(s) + Elements(t)
  {
  }

  lemma {:induction false} DistinctSingle<T>(x: T)
    ensures Distinct([x]) && Elements([x]) == {x}
    ensures Distinct<T>([]) && Elements<T>([]) == {}
  {
    assert [x][..0] == [];
  }

  /** Concatenating sequences without repetitions and without common elements. */
  lemma {:induction false} DistinctConcat<T>(s: seq<T>, t: seq<T>)
    ensures Elements(s + t) == Elements(s) + Elements(t)
    ensures Distinct(s + t) <==> Distinct(s) && Distinct(t) && Elements(s) !! Elements(t)
  {
    if t == [] {
      assert s + t == s;
    } else {
      var front, last := t[..|t| - 1], t[|t| - 1];
      DistinctConcat(s, front);
      assert (s + t)[..|s + t| - 1] == s + front;
      assert t == front + [last];
      assert last in s + front <==> last in Elements(s + front);
      assert Elements(t) == Elements(front) + {last};
    }
  }

  /** The usual definition on positions. */
  lemma {:induction false} DistinctPositions<T>(s: seq<T>)
    ensures Distinct(s) <==> forall i, j :: 0 <= i < j < |s| ==> s[i] != s[j]
  {
    if s != [] {
      var front, last := s[..|s| - 1], s[|s| - 1];
      DistinctPositions(front);
      if last in front {
        var i :| 0 <= i < |front| && front[i] == last;
        assert s[i] == s[|s| - 1];
      }
      assert forall i :: 0 <= i < |front| ==> front[i] == s[i];
    }
  }

  /** A sequence without repetitions is as long as its set of elements. */
  lemma {:induction false} DistinctLength<T>(s: seq<T>)
    requires Distinct(s)
    ensures |Elements(s)| == |s|
  {
    if s != [] {
      var front, last := s[..|s| - 1], s[|s| - 1];
      DistinctLength(front);
      assert s == front + [last];
      assert Elements(s) == Elements(front) + {last};
    }
  }

  lemma {:induction false} ConsDistinct<T>(x: T, tail: seq<T>)
    requires Distinct(tail) && x !in Elements(tail)
    ensures Distinct([x] + tail)
    ensures Elements([x] + tail) == {x} + Elements(tail)
  {
    DistinctConcat([x], tail);
    DistinctSingle(x);
  }

  lemma {:induction false} NoElements<T>(s: seq<T>)
    ensures Elements(s) == {} <==> s == []
  {
    if s != [] { assert s[0] in Elements(s); }
  }
}

/** Lexicographic order and the ascending enumeration of a finite ordered set, as in a `BTreeMap`. */
module Ordering {
  import opened Basics

  predicate Less(a: seq<int>, b: seq<int>) {
    b != [] && (a == [] || a[0] < b[0] || (a[0] == b[0] && Less(a[1..], b[1..])))
  }

  lemma {:induction false} LessTotal(a: seq<int>, b: seq<int>)
    ensures a == b || Less(a, b) || Less(b, a)
  {
    if a != [] && b != [] && a[0] == b[0] {
      LessTotal(a[1..], b[1..]);
      assert a == [a[0]] + a[1..] && b == [b[0]] + b[1..];
    }
  }

  lemma {:induction false} LessTransitive(a: seq<int>, b: seq<int>, c: seq<int>)
    requires Less(a, b) && Less(b, c)
    ensures Less(a, c)
  {
    if a != [] && a[0] == b[0] == c[0] {
      LessTransitive(a[1..], b[1..], c[1..]);
    }
  }

  lemma {:induction false} LessIrreflexive(a: seq<int>)
    ensures !Less(a, a)
  {
    if a != [] {
      LessIrreflexive(a[1..]);
    }
  }

  predicate IsLeast(m: seq<int>, s: set<seq<int>>) {
    m in s && forall x :: x in s && x != m ==> Less(m, x)
  }

  lemma {:induction false} LeastExists(s: set<seq<int>>)
    requires s != {}
    ensures exists m :: IsLeast(m, s)
  {
    var x :| x in s;
    if s == {x} {
      assert IsLeast(x, s);
    } else {
      var rest := s - {x};
      LeastExists(rest);
      var m :| IsLeast(m, rest);
      LessTotal(m, x);
      if Less(m, x) {
        assert IsLeast(m, s);
      } else {
        forall y | y in s && y != x ensures Less(x, y) {
          if y != m { LessTransitive(x, m, y); }
        }
        assert IsLeast(x, s);
      }
    }
  }

  lemma {:induction false} LeastUnique(s: set<seq<int>>)
    ensures forall m, n :: IsLeast(m, s) && IsLeast(n, s) ==> m == n
  {
    forall m, n | IsLeast(m, s) && IsLeast(n, s) ensures m == n {
      if m != n {
        LessTransitive(m, n, m);
        LessIrreflexive(m);
      }
    }
  }

  ghost predicate Ascending(s: seq<seq<int>>) {
    forall i, j :: 0 <= i < j < |s| ==> Less(s[i], s[j])
  }

  /** The elements of `s` in ascending order: how a `BTreeMap` iterates its keys. */
  function Sorted(s: set<seq<int>>): (r: seq<seq<int>>)
    ensures Ascending(r)
    ensures Elements(r) == s
  {
    if s == {} then [] else
      LeastExists(s);
      LeastUnique(s);
      var m :| IsLeast(m, s);
      var tail := Sorted(s - {m});
      LeastFirst(m, s, tail);
      [m] + tail
  }

  lemma {:induction false} LeastFirst(m: seq<int>, s: set<seq<int>>, tail: seq<seq<int>>)
    requires IsLeast(m, s)
    requires Ascending(tail) && Elements(tail) == s - {m}
    ensures Ascending([m] + tail)
    ensures Elements([m] + tail) == s
  {
    var all := [m] + tail;
    forall i, j | 0 <= i < j < |all| ensures Less(all[i], all[j]) {
      assert tail[j - 1] in Elements(tail);
    }
    assert Elements(all) == {m} + Elements(tail);
  }

  lemma {:induction false} AscendingDistinct(a: seq<seq<int>>)
    requires Ascending(a)
    ensures Distinct(a) && forall i, j :: 0 <= i < j < |a| ==> a[i] != a[j]
  {
    forall i, j | 0 <= i < j < |a| ensures a[i] != a[j] {
      LessIrreflexive(a[i]);
    }
    DistinctPositions(a);
  }

  lemma {:induction false} AscendingTail(a: seq<seq<int>>)
    requires Ascending(a) && a != []
    ensures Ascending(a[1..])
    ensures Elements(a[1..]) == Elements(a) - {a[0]}
    ensures IsLeast(a[0], Elements(a))
  {
    AscendingDistinct(a);
    assert a == [a[0]] + a[1..];
    DistinctConcat([a[0]], a[1..]);
    DistinctSingle(a[0]);
  }

  /** Ascending enumeration is unique, so any loop that visits keys in order visits `Sorted`. */
  lemma {:induction false} AscendingUnique(a: seq<seq<int>>, b: seq<seq<int>>)
    requires Ascending(a) && Ascending(b)
    requires Elements(a) == Elements(b)
    ensures a == b
  {
    if a != [] && b != [] {
      AscendingTail(a);
      AscendingTail(b);
      assert a[0] == b[0] by {
        if a[0] != b[0] {
          LessTransitive(a[0], b[0], a[0]);
          LessIrreflexive(a[0]);
        }
      }
      AscendingUnique(a[1..], b[1..]);
      assert a == [a[0]] + a[1..] && b == [b[0]] + b[1..];
    } else {
      NoElements(a);
      NoElements(b);
    }
  }
}
