/** Notions shared by all parts. */
module Basics {
  datatype Option<+T> = None | Some(value: T)

  function Min(a: int, b: int): int { if a < b then a else b }

  function Max(a: int, b: int): int { if a > b then a else b }

  predicate NoDup<T(==)>(s: seq<T>)
  {
    forall i, j :: 0 <= i < j < |s| ==> s[i] != s[j]
  }

  function Elements<T>(s: seq<T>): set<T>
  {
    set x | x in s
  }

  lemma EmptyElements<T>(s: seq<T>)
    ensures Elements(s) == {} <==> s == []
  {
    if s != [] { assert s[0] in Elements(s); }
  }

  lemma ElementsPrefix<T>(s: seq<T>, i: nat)
    requires i < |s|
    ensures Elements(s[..i + 1]) == Elements(s[..i]) + {s[i]}
  {
    assert s[..i + 1] == s[..i] + [s[i]];
  }

  lemma {:induction false} NoDupSize<T>(s: seq<T>)
    requires NoDup(s)
    ensures |Elements(s)| == |s|
  {
    if s != [] {
      var rest := s[..|s| - 1];
      NoDupSize(rest);
      assert Elements(s) == Elements(rest) + {s[|s| - 1]};
    }
  }

  lemma {:induction false} SubsetSize<T>(a: set<T>, b: set<T>)
    requires a <= b
    ensures |a| <= |b|
  {
    if a != {} {
      var x :| x in a;
      SubsetSize(a - {x}, b - {x});
    }
  }

  // --- filtering ---

  function Filter<T>(f: T -> bool, s: seq<T>): seq<T>
  {
    if s == [] then []
    else Filter(f, s[..|s| - 1]) + if f(s[|s| - 1]) then [s[|s| - 1]] else []
  }

  lemma {:induction false} FilterMembers<T>(f: T -> bool, s: seq<T>)
    ensures forall x :: x in Filter(f, s) <==> x in s && f(x)
  {
    if s != [] {
      FilterMembers(f, s[..|s| - 1]);
      assert s == s[..|s| - 1] + [s[|s| - 1]];
    }
  }

  lemma {:induction false} FilterConcat<T>(f: T -> bool, a: seq<T>, b: seq<T>)
    ensures Filter(f, a + b) == Filter(f, a) + Filter(f, b)
  {
    if b == [] {
      assert a + b == a;
    } else {
      var init, last := b[..|b| - 1], b[|b| - 1];
      assert (a + b)[..|a + b| - 1] == a + init;
      FilterConcat(f, a, init);
    }
  }

  lemma {:induction false} FilterSwap<T>(f: T -> bool, g: T -> bool, s: seq<T>)
    ensures Filter(f, Filter(g, s)) == Filter(g, Filter(f, s))
  {
    if s != [] {
      var init, last := s[..|s| - 1], s[|s| - 1];
      FilterSwap(f, g, init);
      FilterConcat(f, Filter(g, init), if g(last) then [last] else []);
      FilterConcat(g, Filter(f, init), if f(last) then [last] else []);
      FilterOne(f, last);
      FilterOne(g, last);
    }
  }

  lemma FilterOne<T>(f: T -> bool, x: T)
    ensures Filter(f, [x]) == if f(x) then [x] else []
    ensures Filter(f, []) == []
  {
    assert [x][..0] == [];
  }

  /** Filtering keeps everything, or nothing. */
  lemma {:induction false} FilterUniform<T>(f: T -> bool, s: seq<T>, keep: bool)
    requires forall x | x in s :: f(x) == keep
    ensures Filter(f, s) == if keep then s else []
  {
    if s != [] {
      FilterUniform(f, s[..|s| - 1], keep);
      assert s == s[..|s| - 1] + [s[|s| - 1]];
    }
  }

  // --- first occurrences ---

  /** The distinct elements of ids, each at its first occurrence. */
  function FirstOccurrences<T(==)>(ids: seq<T>): seq<T>
  {
    if ids == [] then []
    else
      var init, last := ids[..|ids| - 1], ids[|ids| - 1];
      FirstOccurrences(init) + if last in init then [] else [last]
  }

  lemma {:induction false} FirstOccurrencesDistinct<T>(ids: seq<T>)
    ensures NoDup(FirstOccurrences(ids)) && Elements(FirstOccurrences(ids)) == Elements(ids)
  {
    if ids != [] {
      var init, last := ids[..|ids| - 1], ids[|ids| - 1];
      FirstOccurrencesDistinct(init);
      assert Elements(ids) == Elements(init) + {last} by { assert ids == init + [last]; }
      assert last in init <==> last in Elements(init);
      var out := FirstOccurrences(init);
      assert last in out <==> last in Elements(out);
      assert Elements(out + [last]) == Elements(out) + {last};
    }
  }

  lemma {:induction false} FirstOccurrencesPrefix<T>(ids: seq<T>, i: nat)
    requires i <= |ids|
    ensures FirstOccurrences(ids[..i]) <= FirstOccurrences(ids)
  {
    if i < |ids| {
      var init := ids[..|ids| - 1];
      FirstOccurrencesPrefix(init, i);
      assert init[..i] == ids[..i];
    } else {
      assert ids[..i] == ids;
    }
  }

  lemma FilterSnoc<T>(f: T -> bool, s: seq<T>, y: T)
    ensures Filter(f, s + [y]) == if f(y) then Filter(f, s) + [y] else Filter(f, s)
  {
    assert (s + [y])[..|s + [y]| - 1] == s;
  }

  lemma FirstOccurrencesSnoc<T>(ids: seq<T>, y: T)
    ensures FirstOccurrences(ids + [y]) == if y in ids then FirstOccurrences(ids) else FirstOccurrences(ids) + [y]
  {
    assert (ids + [y])[..|ids + [y]| - 1] == ids;
  }

  lemma PutAndDrop<K, V>(m: map<K, V>, k: K, v: V)
    requires k !in m
    ensures m[k := v] - {k} == m
  {}

  lemma PutTwice<K, V>(m: map<K, V>, k: K, v: V, w: V)
    ensures m[k := v][k := w] == m[k := w]
  {}

  lemma TakeDrop<T>(s: seq<T>, n: nat)
    requires n <= |s|
    ensures s == s[..n] + s[n..]
  {}
}
