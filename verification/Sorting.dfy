/** Strings in byte order, and sorting a set of them: what sort.Strings and
    Python's sorted give for distinct strings. */
module Sorting {
  /** a comes before b. */
  predicate Less(a: string, b: string) {
    b != "" && (a == "" || a[0] < b[0] || (a[0] == b[0] && Less(a[1..], b[1..])))
  }

  lemma {:induction false} LessTotal(a: string, b: string)
    ensures a == b || Less(a, b) || Less(b, a)
  {
    if a != "" && b != "" && a[0] == b[0] {
      LessTotal(a[1..], b[1..]);
      if a[1..] == b[1..] {
        assert a == [a[0]] + a[1..] && b == [b[0]] + b[1..];
      }
    }
  }

  lemma {:induction false} LessTransitive(a: string, b: string, c: string)
    requires Less(a, b) && Less(b, c)
    ensures Less(a, c)
  {
    if a != "" && a[0] == b[0] && b[0] == c[0] {
      LessTransitive(a[1..], b[1..], c[1..]);
    }
  }

  lemma {:induction false} LessIrreflexive(a: string)
    ensures !Less(a, a)
  {
    if a != "" {
      LessIrreflexive(a[1..]);
    }
  }

  /** The strings agree on their first n characters and part there: a ends, or its
      next character is the smaller. */
  predicate PartAt(a: string, b: string, n: nat) {
    && n <= |a| && n < |b| && a[..n] == b[..n]
    && (n == |a| || a[n] < b[n])
  }

  /** That is what the order is. */
  lemma {:induction false} LessMeansPartAt(a: string, b: string)
    ensures Less(a, b) <==> exists n: nat :: PartAt(a, b, n)
  {
    if Less(a, b) {
      if a == "" || a[0] < b[0] {
        assert PartAt(a, b, 0);
      } else {
        LessMeansPartAt(a[1..], b[1..]);
        var n: nat :| PartAt(a[1..], b[1..], n);
        assert a[..n + 1] == [a[0]] + a[1..][..n] && b[..n + 1] == [b[0]] + b[1..][..n];
        assert PartAt(a, b, n + 1);
      }
    }
    forall n: nat | PartAt(a, b, n)
      ensures Less(a, b)
    {
      if n > 0 {
        assert a[0] == a[..n][0] == b[..n][0] == b[0];
        assert a[1..][..n - 1] == a[..n][1..] && b[1..][..n - 1] == b[..n][1..];
        assert PartAt(a[1..], b[1..], n - 1);
        LessMeansPartAt(a[1..], b[1..]);
      }
    }
  }

  ghost predicate Sorted(s: seq<string>) {
    forall i, j :: 0 <= i < j < |s| ==> Less(s[i], s[j])
  }

  function Elements(s: seq<string>): set<string> {
    set x | x in s
  }

  /** A set has one strictly sorted listing: where it comes from does not matter. */
  lemma {:induction false} SortedIsUnique(s: seq<string>, t: seq<string>)
    requires Sorted(s) && Sorted(t) && Elements(s) == Elements(t)
    ensures s == t
    decreases |s|
  {
    assert |t| > 0 ==> t[0] in Elements(t);
    if s != [] {
      assert s[0] in Elements(s) && s[0] in Elements(t);
      assert t[0] in Elements(t) && t[0] in Elements(s);
      FirstIsLeast(s, t[0]);
      FirstIsLeast(t, s[0]);
      assert s[0] == t[0] by {
        if Less(s[0], t[0]) && Less(t[0], s[0]) {
          LessTransitive(s[0], t[0], s[0]);
          LessIrreflexive(s[0]);
        }
      }
      RestElements(s);
      RestElements(t);
      SortedIsUnique(s[1..], t[1..]);
    }
  }

  lemma FirstIsLeast(s: seq<string>, x: string)
    requires Sorted(s) && x in s
    ensures x == s[0] || Less(s[0], x)
  {
    var i :| 0 <= i < |s| && s[i] == x;
  }

  lemma RestElements(s: seq<string>)
    requires Sorted(s) && s != []
    ensures Elements(s[1..]) == Elements(s) - {s[0]}
  {
    LessIrreflexive(s[0]);
    forall x | x in s && x != s[0] ensures x in s[1..] {
      var i :| 0 <= i < |s| && s[i] == x;
      assert x == s[1..][i - 1];
    }
    forall x | x in s[1..] ensures x != s[0] {
      var i :| 0 <= i < |s[1..]| && s[1..][i] == x;
      assert Less(s[0], s[i + 1]);
    }
  }

  /** x goes between what is before it and what is after it. */
  lemma SortedWith(s: seq<string>, i: nat, x: string)
    requires Sorted(s) && i <= |s|
    requires forall j :: 0 <= j < i ==> Less(s[j], x)
    requires i < |s| ==> Less(x, s[i])
    ensures Sorted(s[..i] + [x] + s[i..])
  {
    forall j | i < j < |s| ensures Less(x, s[j]) {
      LessTransitive(x, s[i], s[j]);
    }
  }

  lemma ElementsWith(s: seq<string>, i: nat, x: string)
    requires i <= |s|
    ensures Elements(s[..i] + [x] + s[i..]) == Elements(s) + {x}
  {
    assert s == s[..i] + s[i..];
  }

  method Insert(s: seq<string>, x: string) returns (t: seq<string>)
    requires Sorted(s) && x !in s
    ensures Sorted(t) && Elements(t) == Elements(s) + {x}
  {
    var i := 0;
    while i < |s| && Less(s[i], x)
      invariant 0 <= i <= |s|
      invariant forall j :: 0 <= j < i ==> Less(s[j], x)
    {
      i := i + 1;
    }
    if i < |s| {
      LessTotal(s[i], x);
    }
    SortedWith(s, i, x);
    ElementsWith(s, i, x);
    t := s[..i] + [x] + s[i..];
  }

  method SortSet(xs: set<string>) returns (s: seq<string>)
    ensures Sorted(s) && Elements(s) == xs
  {
    var todo := xs;
    s := [];
    while todo != {}
      invariant todo <= xs && Sorted(s) && Elements(s) == xs - todo
      decreases todo
    {
      var x :| x in todo;
      assert x !in s;
      s := Insert(s, x);
      todo := todo - {x};
    }
  }
}
