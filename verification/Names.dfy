/** Module names, and the few facts about finite collections the other modules share. */
module Names {
  datatype Name = Name(text: string)

  /** The empty name. The resolver skips it wherever an edge lists it. */
  const NO_NAME := Name("")

  datatype Option<+T> = None | Some(value: T)

  function Elems<T>(s: seq<T>): set<T> {
    set x | x in s
  }

  predicate NoDup<T(==)>(s: seq<T>) {
    forall i, j :: 0 <= i < j < |s| ==> s[i] != s[j]
  }

  lemma {:induction false} NoDupLength<T>(s: seq<T>)
    requires NoDup(s)
    ensures |Elems(s)| == |s|
  {
    if s != [] {
      var front, last := s[..|s| - 1], s[|s| - 1];
      NoDupLength(front);
      assert s == front + [last];
      assert last !in front;
      assert Elems(s) == Elems(front) + {last};
    }
  }

  lemma {:induction false} SubsetSize<T>(a: set<T>, b: set<T>)
    requires a <= b
    ensures |a| <= |b|
    ensures |a| == |b| ==> a == b
  {
    if a == {} {
      assert |b| == 0 ==> b == {};
    } else {
      var x :| x in a;
      SubsetSize(a - {x}, b - {x});
      assert a == a - {x} + {x};
      assert b == b - {x} + {x};
    }
  }

  /** Iteration over an unordered container: every order of visiting is possible. */
  method AnyOrder<T(==)>(s: set<T>) returns (q: seq<T>)
    ensures NoDup(q) && Elems(q) == s
  {
    q := [];
    var rest := s;
    while rest != {}
      invariant NoDup(q) && Elems(q) + rest == s && Elems(q) !! rest
      decreases |rest|
    {
      var x :| x in rest;
      assert x !in Elems(q);
      q := q + [x];
      rest := rest - {x};
    }
  }

  /** The names a walk has not visited, repeats kept. */
  method NotSeen(edges: seq<Name>, seen: set<Name>) returns (r: seq<Name>)
    ensures forall d :: d in r <==> d in edges && d !in seen
  {
    r := [];
    for i := 0 to |edges|
      invariant forall d :: d in r <==> d in edges[..i] && d !in seen
    {
      assert edges[..i + 1] == edges[..i] + [edges[i]];
      if edges[i] !in seen {
        r := r + [edges[i]];
      }
    }
    assert edges[..|edges|] == edges;
  }
}
