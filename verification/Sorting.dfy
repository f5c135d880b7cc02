/** Names in ascending order, as std::sort leaves them. */
module Sorting {
  import opened Names

  predicate Before(a: string, b: string) {
    b != [] && (a == [] || a[0] < b[0] || (a[0] == b[0] && Before(a[1..], b[1..])))
  }

  /** Byte by byte: a proper prefix comes first, else whoever has the smaller byte where they first differ. */
  lemma {:induction false} BeforeIsLexicographic(a: string, b: string)
    ensures Before(a, b) <==>
            || (|a| < |b| && b[..|a|] == a)
            || exists k :: 0 <= k < |a| && k < |b| && a[..k] == b[..k] && a[k] < b[k]
  {
    if a != [] && b != [] && a[0] == b[0] {
      BeforeIsLexicographic(a[1..], b[1..]);
      assert |a| <= |b| ==> (b[..|a|] == a <==> b[1..][..|a| - 1] == a[1..]) by {
        assert a == [a[0]] + a[1..];
        assert |a| <= |b| ==> b[..|a|] == [b[0]] + b[1..][..|a| - 1];
      }
      forall k | 0 < k < |a| && k < |b|
        ensures a[..k] == b[..k] <==> a[1..][..k - 1] == b[1..][..k - 1]
      {
        assert a[..k] == [a[0]] + a[1..][..k - 1] && b[..k] == [b[0]] + b[1..][..k - 1];
      }
      if k :| 0 <= k < |a| && k < |b| && a[..k] == b[..k] && a[k] < b[k] {
        assert a[1..][k - 1] < b[1..][k - 1];
      }
      if k :| 0 <= k < |a[1..]| && k < |b[1..]| && a[1..][..k] == b[1..][..k] && a[1..][k] < b[1..][k] {
        assert a[k + 1] < b[k + 1] && a[..k + 1] == b[..k + 1];
      }
    } else if a != [] && b != [] {
      assert a[..0] == b[..0];
      assert forall k :: 0 < k < |a| && k < |b| ==> a[..k][0] != b[..k][0];
      assert |a| <= |b| ==> b[..|a|][0] != a[0];
    }
  }

  ghost predicate Ascending(s: seq<Name>) {
    forall i, j :: 0 <= i < j < |s| ==> Before(s[i].text, s[j].text)
  }

  lemma {:induction false} BeforeIsTotal(a: string, b: string)
    ensures Before(a, b) || a == b || Before(b, a)
    ensures !Before(a, a)
    decreases |a| + |b|
  {
    if a != [] && b != [] && a[0] == b[0] {
      BeforeIsTotal(a[1..], b[1..]);
      assert a == [a[0]] + a[1..] && b == [b[0]] + b[1..];
    }
    if a != [] {
      BeforeIsTotal(a[1..], []);
    }
  }

  lemma {:induction false} BeforeIsTransitive(a: string, b: string, c: string)
    requires Before(a, b) && Before(b, c)
    ensures Before(a, c)
  {
    if a != [] && a[0] == b[0] && b[0] == c[0] {
      BeforeIsTransitive(a[1..], b[1..], c[1..]);
    }
  }

  lemma InsertAt(s: seq<Name>, i: nat, x: Name)
    requires Ascending(s) && i <= |s| && x !in s
    requires forall j :: 0 <= j < i ==> Before(s[j].text, x.text)
    requires i < |s| ==> !Before(s[i].text, x.text)
    ensures Ascending(s[..i] + [x] + s[i..])
  {
    var r := s[..i] + [x] + s[i..];
    if i < |s| {
      BeforeIsTotal(s[i].text, x.text);
      assert s[i] != x;
    }
    forall j | i <= j < |s|
      ensures Before(x.text, s[j].text)
    {
      if i < j {
        BeforeIsTransitive(x.text, s[i].text, s[j].text);
      }
    }
    forall j, k | 0 <= j < k < |r|
      ensures Before(r[j].text, r[k].text)
    {
      assert j < i ==> r[j] == s[j];
      assert k > i ==> r[k] == s[k - 1];
      assert j > i ==> r[j] == s[j - 1];
      assert k < i ==> r[k] == s[k];
    }
  }

  method Insert(s: seq<Name>, x: Name) returns (r: seq<Name>)
    requires Ascending(s) && x !in s
    ensures Ascending(r) && Elems(r) == Elems(s) + {x}
  {
    var i := 0;
    while i < |s| && Before(s[i].text, x.text)
      invariant 0 <= i <= |s| && forall j :: 0 <= j < i ==> Before(s[j].text, x.text)
    {
      i := i + 1;
    }
    InsertAt(s, i, x);
    r := s[..i] + [x] + s[i..];
    assert s == s[..i] + s[i..];
  }

  method Sorted(s: set<Name>) returns (r: seq<Name>)
    ensures Ascending(r) && Elems(r) == s
  {
    r := [];
    var rest := s;
    while rest != {}
      invariant Ascending(r) && Elems(r) + rest == s && Elems(r) !! rest
      decreases |rest|
    {
      var x :| x in rest;
      assert x !in Elems(r);
      r := Insert(r, x);
      rest := rest - {x};
    }
  }

  /** There is only one such list of a set, so it does not matter how it was sorted. */
  lemma {:induction false} AscendingIsUnique(a: seq<Name>, b: seq<Name>)
    requires Ascending(a) && Ascending(b) && Elems(a) == Elems(b)
    ensures a == b
    decreases |a|
  {
    assert a != [] ==> a[0] in Elems(a);
    assert b != [] ==> b[0] in Elems(b);
    if a != [] {
      SameFirst(a, b);
      SameFirst(b, a);
      BeforeIsTotal(a[0].text, b[0].text);
      if Before(a[0].text, b[0].text) && Before(b[0].text, a[0].text) {
        BeforeIsTransitive(a[0].text, b[0].text, a[0].text);
      }
      TailElems(a);
      TailElems(b);
      AscendingIsUnique(a[1..], b[1..]);
      assert a == [a[0]] + a[1..] && b == [b[0]] + b[1..];
    }
  }

  lemma SameFirst(a: seq<Name>, b: seq<Name>)
    requires Ascending(a) && a != [] && b != [] && Elems(a) == Elems(b)
    ensures a[0] == b[0] || Before(a[0].text, b[0].text)
  {
    assert b[0] in Elems(a);
    var i :| 0 <= i < |a| && a[i] == b[0];
  }

  lemma TailElems(a: seq<Name>)
    requires Ascending(a) && a != []
    ensures Ascending(a[1..]) && Elems(a[1..]) == Elems(a) - {a[0]}
  {
    assert a == [a[0]] + a[1..];
    forall i | 0 < i < |a|
      ensures a[i] != a[0]
    {
      BeforeIsTotal(a[0].text, a[0].text);
    }
  }
}
