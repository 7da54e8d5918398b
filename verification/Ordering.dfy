/** Strict orders, ascending enumerations of finite sets, and the order of tag text. */
module Ordering {

  ghost predicate StrictOrder<T(!new)>(less: (T, T) -> bool) {
    && (forall x :: !less(x, x))
    && (forall x, y, z :: less(x, y) && less(y, z) ==> less(x, z))
    && (forall x, y :: less(x, y) || x == y || less(y, x))
  }

  ghost predicate Ascending<T>(less: (T, T) -> bool, q: seq<T>) {
    forall i, j :: 0 <= i < j < |q| ==> less(q[i], q[j])
  }

  /** `q` lists exactly the members of `s`, in order. */
  ghost predicate Enumerates<T(!new)>(less: (T, T) -> bool, q: seq<T>, s: set<T>) {
    Ascending(less, q) && (forall x :: x in q <==> x in s)
  }

  /** A set has only one ascending enumeration. */
  lemma {:induction false} EnumerationUnique<T(!new)>(less: (T, T) -> bool, p: seq<T>, q: seq<T>, s: set<T>)
    requires StrictOrder(less) && Enumerates(less, p, s) && Enumerates(less, q, s)
    ensures p == q
    decreases |p|
  {
    EnumeratesEmpty(less, p, s);
    EnumeratesEmpty(less, q, s);
    if p != [] {
      assert p[0] in s && p[0] in q;
      assert q[0] in s;
      assert p[0] == q[0] by {
        var i :| 0 <= i < |p| && p[i] == q[0];
        var j :| 0 <= j < |q| && q[j] == p[0];
      }
      EnumeratesTail(less, p, s);
      EnumeratesTail(less, q, s);
      EnumerationUnique(less, p[1..], q[1..], s - {p[0]});
      assert p == [p[0]] + p[1..] && q == [q[0]] + q[1..];
    }
  }

  lemma EnumeratesEmpty<T(!new)>(less: (T, T) -> bool, q: seq<T>, s: set<T>)
    requires Enumerates(less, q, s)
    ensures q == [] <==> s == {}
  {
    if q != [] { assert q[0] in q; }
  }

  lemma EnumeratesTail<T(!new)>(less: (T, T) -> bool, q: seq<T>, s: set<T>)
    requires StrictOrder(less) && Enumerates(less, q, s) && q != []
    ensures Enumerates(less, q[1..], s - {q[0]})
  {
    forall x ensures x in q[1..] <==> x in s - {q[0]} {
      if x in q[1..] {
        var i :| 0 <= i < |q[1..]| && q[1..][i] == x;
        assert less(q[0], q[i + 1]);
        assert x in q;
      }
      if x in s - {q[0]} {
        assert x in q;
        var i :| 0 <= i < |q| && q[i] == x;
        assert q[1..][i - 1] == x;
      }
    }
  }

  /** `sorted`: insertion into an ascending list. */
  method Insert<T(!new)>(less: (T, T) -> bool, q: seq<T>, x: T, ghost s: set<T>) returns (r: seq<T>)
    requires StrictOrder(less) && Enumerates(less, q, s) && x !in s
    ensures Enumerates(less, r, s + {x})
  {
    var i := 0;
    while i < |q| && less(q[i], x)
      invariant 0 <= i <= |q|
      invariant forall j :: 0 <= j < i ==> less(q[j], x)
    {
      i := i + 1;
    }
    assert forall j :: i <= j < |q| ==> less(x, q[j]) by {
      if i < |q| {
        assert q[i] in s;
        assert less(x, q[i]);
      }
    }
    r := q[..i] + [x] + q[i..];
    assert forall y :: y in r <==> y in q || y == x by {
      assert q == q[..i] + q[i..];
    }
  }

  method Sorted<T(!new, ==)>(less: (T, T) -> bool, s: set<T>) returns (q: seq<T>)
    requires StrictOrder(less)
    ensures Enumerates(less, q, s)
  {
    q := [];
    var rest := s;
    while rest != {}
      invariant rest <= s && Enumerates(less, q, s - rest)
      decreases rest
    {
      var x :| x in rest;
      q := Insert(less, q, x, s - rest);
      assert s - rest + {x} == s - (rest - {x});
      rest := rest - {x};
    }
    assert s - rest == s;
  }

  // ----- text -----

  /** Python's order of strings: by code point, shorter first. */
  predicate Below(a: string, b: string) {
    b != [] && (a == [] || a[0] < b[0] || (a[0] == b[0] && Below(a[1..], b[1..])))
  }

  /** One text is below another when it is a proper prefix, or smaller at the first character where they differ. */
  lemma {:induction false} BelowMeans(a: string, b: string)
    ensures Below(a, b) <==>
            a < b || exists i :: 0 <= i < |a| && i < |b| && a[..i] == b[..i] && a[i] < b[i]
  {
    if a != [] && b != [] {
      if a[0] == b[0] {
        BelowMeans(a[1..], b[1..]);
        assert a < b <==> a[1..] < b[1..] by { assert a == [a[0]] + a[1..] && b == [b[0]] + b[1..]; }
        SmallerLater(a, b);
      } else {
        assert a[..0] == b[..0];
        assert forall i :: 0 < i < |a| && i < |b| ==> a[..i][0] == a[0] && b[..i][0] == b[0];
      }
    }
  }

  lemma SmallerLater(a: string, b: string)
    requires a != [] && b != [] && a[0] == b[0]
    ensures (exists i :: 0 <= i < |a| && i < |b| && a[..i] == b[..i] && a[i] < b[i]) <==>
            var s, t := a[1..], b[1..];
            exists i :: 0 <= i < |s| && i < |t| && s[..i] == t[..i] && s[i] < t[i]
  {
    var s, t := a[1..], b[1..];
    if i :| 0 <= i < |a| && i < |b| && a[..i] == b[..i] && a[i] < b[i] {
      assert s[..i - 1] == a[..i][1..] && t[..i - 1] == b[..i][1..];
      assert s[i - 1] < t[i - 1];
    }
    if i :| 0 <= i < |s| && i < |t| && s[..i] == t[..i] && s[i] < t[i] {
      assert a[..i + 1] == [a[0]] + s[..i] && b[..i + 1] == [b[0]] + t[..i];
      assert a[i + 1] < b[i + 1];
    }
  }

  lemma {:induction false} BelowIrreflexive(a: string)
    ensures !Below(a, a)
  {
    if a != [] { BelowIrreflexive(a[1..]); }
  }

  lemma {:induction false} BelowTransitive(a: string, b: string, c: string)
    requires Below(a, b) && Below(b, c)
    ensures Below(a, c)
  {
    if a != [] && a[0] == b[0] && b[0] == c[0] { BelowTransitive(a[1..], b[1..], c[1..]); }
  }

  lemma {:induction false} BelowTotal(a: string, b: string)
    ensures Below(a, b) || a == b || Below(b, a)
  {
    if a != [] && b != [] && a[0] == b[0] {
      BelowTotal(a[1..], b[1..]);
      if a[1..] == b[1..] { assert a == [a[0]] + a[1..] == b; }
    }
  }

  lemma BelowIsStrictOrder()
    ensures StrictOrder(Below)
  {
    forall x: string ensures !Below(x, x) { BelowIrreflexive(x); }
    forall x: string, y: string, z: string | Below(x, y) && Below(y, z)
      ensures Below(x, z)
    {
      BelowTransitive(x, y, z);
    }
    forall x: string, y: string ensures Below(x, y) || x == y || Below(y, x) { BelowTotal(x, y); }
  }
}
