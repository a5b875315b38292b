/** Names in the byte-wise order the source sorts them in. */
module Names {

  predicate LessEq(a: string, b: string) {
    if a == "" then true
    else if b == "" then false
    else if a[0] == b[0] then LessEq(a[1..], b[1..])
    else a[0] < b[0]
  }

  /** One name comes before another if it is a start of it, or has the smaller character where they first
      differ. */
  lemma {:induction false} LessEqExactly(a: string, b: string)
    ensures LessEq(a, b) <==>
      || a <= b
      || exists i :: 0 <= i < |a| && i < |b| && a[..i] == b[..i] && a[i] < b[i]
  {
    if a != "" && b != "" && a[0] == b[0] {
      LessEqExactly(a[1..], b[1..]);
      assert a == [a[0]] + a[1..] && b == [b[0]] + b[1..];
      if i :| 0 <= i < |a[1..]| && i < |b[1..]| && a[1..][..i] == b[1..][..i] && a[1..][i] < b[1..][i] {
        assert a[..i + 1] == [a[0]] + a[1..][..i] && b[..i + 1] == [b[0]] + b[1..][..i];
        assert a[i + 1] < b[i + 1];
      }
      if i :| 0 <= i < |a| && i < |b| && a[..i] == b[..i] && a[i] < b[i] {
        assert i > 0;
        assert a[1..][..i - 1] == a[..i][1..] == b[..i][1..] == b[1..][..i - 1];
        assert a[1..][i - 1] < b[1..][i - 1];
      }
    } else if a != "" && b != "" && a[0] < b[0] {
      assert a[..0] == b[..0];
    } else if a != "" && b != "" {
      if i :| 0 <= i < |a| && i < |b| && a[..i] == b[..i] && a[i] < b[i] {
        if i > 0 { assert a[..i][0] == b[..i][0]; }
      }
    }
  }

  lemma {:induction false} Total(a: string, b: string)
    ensures LessEq(a, b) || LessEq(b, a)
  {
    if a != "" && b != "" && a[0] == b[0] { Total(a[1..], b[1..]); }
  }

  lemma {:induction false} Transitive(a: string, b: string, c: string)
    requires LessEq(a, b) && LessEq(b, c)
    ensures LessEq(a, c)
  {
    if a != "" && b != "" && c != "" && a[0] == b[0] == c[0] { Transitive(a[1..], b[1..], c[1..]); }
  }

  predicate Sorted(ns: seq<string>) {
    forall i, j :: 0 <= i < j < |ns| ==> LessEq(ns[i], ns[j])
  }

  predicate Distinct(ns: seq<string>) {
    forall i, j :: 0 <= i < j < |ns| ==> ns[i] != ns[j]
  }

  function Insert(n: string, ns: seq<string>): seq<string> {
    if ns == [] then [n]
    else if LessEq(n, ns[0]) then [n] + ns
    else [ns[0]] + Insert(n, ns[1..])
  }

  function Sort(ns: seq<string>): seq<string> {
    if ns == [] then [] else Insert(ns[0], Sort(ns[1..]))
  }

  lemma {:induction false} InsertAdds(n: string, ns: seq<string>)
    ensures multiset(Insert(n, ns)) == multiset(ns) + multiset{n}
  {
    if ns != [] {
      InsertAdds(n, ns[1..]);
      assert ns == [ns[0]] + ns[1..];
    }
  }

  lemma {:induction false} InsertMembers(n: string, ns: seq<string>, x: string)
    requires x in Insert(n, ns)
    ensures x == n || x in ns
  {
    if ns != [] && !LessEq(n, ns[0]) && x != ns[0] { InsertMembers(n, ns[1..], x); }
  }

  predicate BelowAll(n: string, ns: seq<string>) {
    forall x <- ns :: LessEq(n, x)
  }

  lemma SortedCons(n: string, ns: seq<string>)
    requires Sorted(ns) && BelowAll(n, ns)
    ensures Sorted([n] + ns)
  {
    var r := [n] + ns;
    forall i, j | 0 <= i < j < |r| ensures LessEq(r[i], r[j]) {
      assert r[j] == ns[j - 1];
      if i > 0 { assert r[i] == ns[i - 1]; }
    }
  }

  lemma {:induction false} InsertSorts(n: string, ns: seq<string>)
    requires Sorted(ns)
    ensures Sorted(Insert(n, ns))
  {
    if ns == [] {
    } else if LessEq(n, ns[0]) {
      forall x | x in ns ensures LessEq(n, x) {
        var i :| 0 <= i < |ns| && ns[i] == x;
        if i > 0 { Transitive(n, ns[0], ns[i]); }
      }
      SortedCons(n, ns);
    } else {
      InsertSorts(n, ns[1..]);
      forall x | x in Insert(n, ns[1..]) ensures LessEq(ns[0], x) {
        InsertMembers(n, ns[1..], x);
        if x == n { Total(n, ns[0]); }
      }
      SortedCons(ns[0], Insert(n, ns[1..]));
    }
  }

  lemma {:induction false} SortSorts(ns: seq<string>)
    ensures Sorted(Sort(ns)) && multiset(Sort(ns)) == multiset(ns)
  {
    if ns != [] {
      SortSorts(ns[1..]);
      InsertSorts(ns[0], Sort(ns[1..]));
      InsertAdds(ns[0], Sort(ns[1..]));
      assert ns == [ns[0]] + ns[1..];
    }
  }

  lemma {:induction false} DistinctCounts(ns: seq<string>, n: string)
    requires Distinct(ns)
    ensures multiset(ns)[n] <= 1
  {
    if ns != [] {
      DistinctCounts(ns[1..], n);
      assert ns == [ns[0]] + ns[1..];
      if n == ns[0] { assert n !in ns[1..]; }
    }
  }

  lemma {:induction false} CountsDistinct(ns: seq<string>)
    requires forall n <- ns :: multiset(ns)[n] <= 1
    ensures Distinct(ns)
  {
    if ns != [] {
      assert ns == [ns[0]] + ns[1..];
      assert multiset(ns) == multiset{ns[0]} + multiset(ns[1..]);
      forall n | n in ns[1..] ensures multiset(ns[1..])[n] <= 1 { assert n in ns; }
      CountsDistinct(ns[1..]);
      assert ns[0] in ns && multiset(ns)[ns[0]] <= 1;
      assert ns[0] !in multiset(ns[1..]);
    }
  }

  lemma SortDistinct(ns: seq<string>)
    requires Distinct(ns)
    ensures Distinct(Sort(ns)) && Sorted(Sort(ns))
    ensures forall n :: n in Sort(ns) <==> n in ns
  {
    SortSorts(ns);
    forall n | n in Sort(ns) ensures multiset(Sort(ns))[n] <= 1 { DistinctCounts(ns, n); }
    CountsDistinct(Sort(ns));
    forall n ensures n in Sort(ns) <==> n in ns {
      assert n in Sort(ns) <==> n in multiset(Sort(ns));
    }
  }
}
