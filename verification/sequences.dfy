/** Facts about sequences without repeated elements. */
module Sequences {

  predicate NoDuplicates<T(==)>(s: seq<T>) {
    forall i, j :: 0 <= i < j < |s| ==> s[i] != s[j]
  }

  function Elements<T>(s: seq<T>): set<T> {
    set x | x in s
  }

  lemma ElementsAppend<T>(s: seq<T>, x: T)
    ensures Elements(s + [x]) == Elements(s) + {x}
  {
  }

  lemma PrependDistinct<T>(x: T, s: seq<T>)
    ensures NoDuplicates([x] + s) <==> NoDuplicates(s) && x !in s
  {
    var longer := [x] + s;
    if NoDuplicates(longer) {
      assert forall i :: 0 <= i < |s| ==> s[i] == longer[i + 1] && longer[0] != longer[i + 1];
      forall i, j | 0 <= i < j < |s| ensures s[i] != s[j] {
        assert longer[i + 1] != longer[j + 1];
      }
    }
  }

  function IndexOf<T(==)>(s: seq<T>, x: T): (i: nat)
    requires x in s
    ensures i < |s| && s[i] == x
  {
    IndexFrom(s, x, 0)
  }

  function IndexFrom<T(==)>(s: seq<T>, x: T, from: nat): (i: nat)
    requires from <= |s| && x in s[from..]
    ensures i < |s| && s[i] == x
    decreases |s| - from
  {
    if s[from] == x then from else IndexFrom(s, x, from + 1)
  }

  lemma IndexIsUnique<T>(s: seq<T>, i: nat)
    requires NoDuplicates(s) && i < |s|
    ensures IndexOf(s, s[i]) == i
  {
  }

  lemma Associative<T>(a: seq<T>, b: seq<T>, c: seq<T>)
    ensures a + (b + c) == (a + b) + c
  {
  }

  /** The sequence with one element taken out, the rest in place. */
  function Without<T(==)>(s: seq<T>, x: T): seq<T>
    requires x in s
  {
    var i := IndexOf(s, x);
    s[..i] + s[i + 1..]
  }

  lemma WithoutKeeps<T>(s: seq<T>, x: T)
    requires NoDuplicates(s) && x in s
    ensures |Without(s, x)| == |s| - 1 && NoDuplicates(Without(s, x))
    ensures Elements(Without(s, x)) == Elements(s) - {x}
  {
    var i := IndexOf(s, x);
    var w := Without(s, x);
    assert forall j :: 0 <= j < |w| ==> w[j] == if j < i then s[j] else s[j + 1];
    forall y ensures y in w <==> y in s && y != x {
      if y in s && y != x {
        var j :| 0 <= j < |s| && s[j] == y;
        assert w[if j < i then j else j - 1] == y;
      }
    }
  }

  /** Elements behind the one taken out move up by one. */
  lemma IndexWithout<T>(s: seq<T>, x: T, y: T)
    requires NoDuplicates(s) && x in s && y in s && x != y
    ensures y in Without(s, x)
    ensures IndexOf(Without(s, x), y) == IndexOf(s, y) - if IndexOf(s, x) < IndexOf(s, y) then 1 else 0
  {
    var i, j := IndexOf(s, x), IndexOf(s, y);
    var w := Without(s, x);
    WithoutKeeps(s, x);
    var k := if i < j then j - 1 else j;
    assert w[k] == y;
    IndexIsUnique(w, k);
  }

  lemma IndexAppend<T>(s: seq<T>, x: T, y: T)
    requires y in s
    ensures IndexOf(s + [x], y) == IndexOf(s, y)
  {
    IndexFromAppend(s, x, y, 0);
  }

  lemma {:induction false} IndexFromAppend<T>(s: seq<T>, x: T, y: T, from: nat)
    requires from <= |s| && y in s[from..]
    ensures y in (s + [x])[from..] && IndexFrom(s + [x], y, from) == IndexFrom(s, y, from)
    decreases |s| - from
  {
    assert (s + [x])[from..] == s[from..] + [x];
    if s[from] != y {
      IndexFromAppend(s, x, y, from + 1);
    }
  }

  lemma AppendDistinct<T>(s: seq<T>, x: T)
    requires NoDuplicates(s) && x !in s
    ensures NoDuplicates(s + [x])
  {
  }

  /** As many elements as places means that none is repeated. */
  lemma DistinctBySize<T>(s: seq<T>)
    ensures NoDuplicates(s) <==> |Elements(s)| == |s|
  {
    if s != [] {
      var rest, x := s[..|s| - 1], s[|s| - 1];
      DistinctBySize(rest);
      assert s == rest + [x];
      ElementsAppend(rest, x);
      assert x in rest <==> x in Elements(rest);
      assert forall i :: 0 <= i < |rest| ==> rest[i] == s[i];
      if x !in rest && NoDuplicates(rest) {
        AppendDistinct(rest, x);
      }
      ElementsAtMost(rest);
    }
  }

  lemma ElementsAtMost<T>(s: seq<T>)
    ensures |Elements(s)| <= |s|
  {
    if s != [] {
      var rest := s[..|s| - 1];
      ElementsAtMost(rest);
      assert s == rest + [s[|s| - 1]];
      ElementsAppend(rest, s[|s| - 1]);
    }
  }

  lemma SomeElement<T>(s: set<T>) returns (x: T)
    requires s != {}
    ensures x in s
  {
    x :| x in s;
  }

  lemma SubsetIsSmaller<T>(a: set<T>, b: set<T>)
    requires a <= b
    ensures |a| <= |b|
  {
    if a != {} {
      var x :| x in a;
      SubsetIsSmaller(a - {x}, b - {x});
    }
  }
}
