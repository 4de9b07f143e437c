/** Sorted directory listings: paths compare name by name, so a directory sorts before its entries. */
module PathOrder {

  type Name = seq<int>

  type Path = seq<Name>

  /** A name ends before any longer name it begins. */
  function Key(path: Path): seq<int> {
    if path == [] then [] else path[0] + [-1] + Key(path[1..])
  }

  ghost predicate Less(a: seq<int>, b: seq<int>) {
    b != [] && (a == [] || a[0] < b[0] || (a[0] == b[0] && Less(a[1..], b[1..])))
  }

  ghost predicate Before(p: Path, q: Path) {
    Less(Key(p), Key(q))
  }

  lemma {:induction false} LessIsAsymmetric(a: seq<int>, b: seq<int>)
    requires Less(a, b)
    ensures !Less(b, a)
  {
    if a != [] && a[0] == b[0] {
      LessIsAsymmetric(a[1..], b[1..]);
    }
  }

  lemma {:induction false} LessWhenLonger(a: seq<int>, b: seq<int>)
    requires b != []
    ensures Less(a, a + b)
  {
    if a == [] {
      assert a + b == b;
    } else {
      assert (a + b)[1..] == a[1..] + b;
      LessWhenLonger(a[1..], b);
    }
  }

  lemma {:induction false} KeyOfExtension(p: Path, name: Name)
    ensures Key(p + [name]) == Key(p) + (name + [-1])
  {
    if p == [] {
      assert p + [name] == [name] && [name][1..] == [];
    } else {
      assert (p + [name])[1..] == p[1..] + [name];
      KeyOfExtension(p[1..], name);
    }
  }

  lemma ParentIsBefore(p: Path)
    requires p != []
    ensures Before(p[..|p| - 1], p)
  {
    var parent, name := p[..|p| - 1], p[|p| - 1];
    assert p == parent + [name];
    KeyOfExtension(parent, name);
    LessWhenLonger(Key(parent), name + [-1]);
  }

  ghost predicate Sorted<T(!new)>(xs: seq<T>, path: T -> Path) {
    forall i, j :: 0 <= i < j < |xs| ==> Before(path(xs[i]), path(xs[j]))
  }

  /** What is listed has one sorted listing. */
  lemma {:induction false} SortedListingIsUnique<T(!new)>(a: seq<T>, b: seq<T>, path: T -> Path)
    requires Sorted(a, path) && Sorted(b, path)
    requires forall x :: x in a <==> x in b
    ensures a == b
  {
    if a != [] && b != [] {
      FirstIsFirst(a, b, path);
      RestIsSame(a, b, path);
      SortedListingIsUnique(a[1..], b[1..], path);
      assert a == [a[0]] + a[1..] && b == [b[0]] + b[1..];
    } else {
      SomethingIn(a);
      SomethingIn(b);
    }
  }

  lemma SomethingIn<T(!new)>(a: seq<T>)
    ensures a != [] ==> exists x :: x in a
  {
    if a != [] {
      assert a[0] in a;
    }
  }

  lemma FirstIsFirst<T(!new)>(a: seq<T>, b: seq<T>, path: T -> Path)
    requires a != [] && b != [] && Sorted(a, path) && Sorted(b, path)
    requires forall x :: x in a <==> x in b
    ensures a[0] == b[0]
  {
    assert a[0] in b && b[0] in a;
    var i :| 0 <= i < |b| && b[i] == a[0];
    var j :| 0 <= j < |a| && a[j] == b[0];
    if i > 0 && j > 0 {
      LessIsAsymmetric(Key(path(a[0])), Key(path(b[0])));
    }
  }

  lemma RestIsSame<T(!new)>(a: seq<T>, b: seq<T>, path: T -> Path)
    requires a != [] && b != [] && a[0] == b[0] && Sorted(a, path) && Sorted(b, path)
    requires forall x :: x in a <==> x in b
    ensures Sorted(a[1..], path) && Sorted(b[1..], path)
    ensures forall x :: x in a[1..] <==> x in b[1..]
  {
    FirstIsOnce(a, path);
    FirstIsOnce(b, path);
    hide Sorted;
    assert a == [a[0]] + a[1..] && b == [b[0]] + b[1..];
    assert forall x :: x in a <==> x == a[0] || x in a[1..];
    assert forall x :: x in b <==> x == b[0] || x in b[1..];
  }

  lemma FirstIsOnce<T(!new)>(a: seq<T>, path: T -> Path)
    requires a != [] && Sorted(a, path)
    ensures a[0] !in a[1..] && Sorted(a[1..], path)
  {
    if a[0] in a[1..] {
      var i :| 0 <= i < |a[1..]| && a[1..][i] == a[0];
      assert Before(path(a[0]), path(a[i + 1]));
      LessIsAsymmetric(Key(path(a[0])), Key(path(a[0])));
    }
  }
}
