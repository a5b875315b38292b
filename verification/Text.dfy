/** Text helpers the source takes from its standard libraries: white-space trimming, and splitting
    and joining on one separator. Strings are sequences of characters; only the ASCII white space
    is recognised. */
module Text {

  predicate IsSpace(c: char) {
    c == ' ' || c == '\t' || c == '\n' || c == '\r' || c == '\U{000B}' || c == '\U{000C}'
  }

  predicate IsBlank(s: string) {
    forall i :: 0 <= i < |s| ==> IsSpace(s[i])
  }

  function TrimLeft(s: string): (r: string)
    ensures |r| <= |s| && r == s[|s| - |r|..]
    ensures IsBlank(s[..|s| - |r|])
    ensures r == "" || !IsSpace(r[0])
  {
    if s != "" && IsSpace(s[0]) then
      var r := TrimLeft(s[1..]);
      assert s[..|s| - |r|] == [s[0]] + s[1..][..|s| - 1 - |r|];
      r
    else s
  }

  function TrimRight(s: string): (r: string)
    ensures |r| <= |s| && r == s[..|r|]
    ensures IsBlank(s[|r|..])
    ensures r == "" || !IsSpace(r[|r| - 1])
  {
    if s != "" && IsSpace(s[|s| - 1]) then
      var r := TrimRight(s[..|s| - 1]);
      assert s[|r|..] == s[..|s| - 1][|r|..] + [s[|s| - 1]];
      r
    else s
  }

  function Trim(s: string): string { TrimRight(TrimLeft(s)) }

  /** Trimming on the right never removes a character that is not white space. */
  lemma {:induction false} TrimRightKeeps(s: string, i: nat)
    requires i < |s| && !IsSpace(s[i])
    ensures |TrimRight(s)| > i
    decreases |s|
  {
    if IsSpace(s[|s| - 1]) {
      TrimRightKeeps(s[..|s| - 1], i);
    }
  }

  lemma TrimBlank(s: string)
    ensures Trim(s) == "" <==> IsBlank(s)
  {
    var l := TrimLeft(s);
    var k := |s| - |l|;
    if l == "" {
      assert s[..k] == s;
    } else {
      assert l[0] == s[k];
      TrimRightKeeps(l, 0);
    }
  }

  lemma {:induction false} TrimLeftOf(s: string, a: string, m: string)
    requires s == a + m && IsBlank(a) && m != "" && !IsSpace(m[0])
    ensures TrimLeft(s) == m
    decreases |a|
  {
    if a == "" {
      assert s == m;
    } else {
      assert s[1..] == a[1..] + m && s[0] == a[0];
      TrimLeftOf(s[1..], a[1..], m);
    }
  }

  lemma {:induction false} TrimRightOf(s: string, m: string, b: string)
    requires s == m + b && IsBlank(b) && m != "" && !IsSpace(m[|m| - 1])
    ensures TrimRight(s) == m
    decreases |b|
  {
    if b == "" {
      assert s == m;
    } else {
      var n := |b| - 1;
      assert s[..|s| - 1] == m + b[..n] && s[|s| - 1] == b[n];
      TrimRightOf(s[..|s| - 1], m, b[..n]);
    }
  }

  /** What trimming takes away is white space on both sides. */
  lemma TrimSplits(s: string) returns (a: string, b: string)
    ensures IsBlank(a) && IsBlank(b) && s == a + Trim(s) + b
  {
    var l := TrimLeft(s);
    var m := TrimRight(l);
    a := s[..|s| - |l|];
    b := l[|m|..];
    Parted(s, |s| - |l|, l);
    Parted(l, |m|, b);
    Regroup(s, a, m, b, l);
  }

  lemma Parted(s: string, k: nat, t: string)
    requires k <= |s| && t == s[k..]
    ensures s == s[..k] + t
  {
  }

  lemma Regroup(s: string, a: string, m: string, b: string, l: string)
    requires s == a + l && l == m + b
    ensures s == a + m + b && s == a + (m + b)
  {
  }

  lemma TrimOf(s: string, a: string, m: string, b: string)
    requires m != "" && !IsSpace(m[0]) && !IsSpace(m[|m| - 1])
    requires IsBlank(a) && IsBlank(b) && s == a + m + b
    ensures Trim(s) == m
  {
    Regroup(s, a, m, b, m + b);
    TrimLeftOf(s, a, m + b);
    TrimRightOf(m + b, m, b);
  }

  /** s is m between white space. */
  ghost predicate Between(s: string, m: string) { exists a, b :: IsBlank(a) && IsBlank(b) && s == a + m + b }

  /** A text trims to m exactly when it is m between white space. */
  lemma TrimExactly(s: string, m: string)
    requires m != "" && !IsSpace(m[0]) && !IsSpace(m[|m| - 1])
    ensures Trim(s) == m <==> Between(s, m)
  {
    var a, b := TrimSplits(s);
    if Between(s, m) {
      var x, y :| IsBlank(x) && IsBlank(y) && s == x + m + y;
      TrimOf(s, x, m, y);
    }
  }

  /** The parts between separators; always at least one. */
  function Split(s: string, sep: char): (parts: seq<string>)
    ensures |parts| >= 1
    decreases |s|
  {
    if s == "" then [""]
    else
      var rest := Split(s[1..], sep);
      if s[0] == sep then [""] + rest
      else [[s[0]] + rest[0]] + rest[1..]
  }

  function Join(parts: seq<string>, sep: char): string
    requires |parts| >= 1
  {
    if |parts| == 1 then parts[0] else parts[0] + [sep] + Join(parts[1..], sep)
  }

  lemma {:induction false} JoinSplit(s: string, sep: char)
    ensures Join(Split(s, sep), sep) == s
    decreases |s|
  {
    if s != "" {
      JoinSplit(s[1..], sep);
      var rest := Split(s[1..], sep);
      var parts := Split(s, sep);
      if s[0] == sep {
        assert parts[1..] == rest;
        assert s == [sep] + s[1..];
      } else if |rest| == 1 {
        assert s == [s[0]] + s[1..];
      } else {
        assert parts[1..] == rest[1..];
        assert s == [s[0]] + s[1..];
      }
    }
  }

  predicate SepFree(parts: seq<string>, sep: char) {
    forall i :: 0 <= i < |parts| ==> sep !in parts[i]
  }

  lemma {:induction false} SplitSepFree(s: string, sep: char)
    ensures SepFree(Split(s, sep), sep)
    decreases |s|
  {
    if s != "" { SplitSepFree(s[1..], sep); }
  }

  lemma {:induction false} SplitNone(s: string, sep: char)
    requires sep !in s
    ensures Split(s, sep) == [s]
    decreases |s|
  {
    if s != "" {
      SplitNone(s[1..], sep);
      assert s == [s[0]] + s[1..];
    }
  }

  lemma {:induction false} SplitHead(a: string, b: string, sep: char)
    requires sep !in a
    ensures Split(a + [sep] + b, sep) == [a] + Split(b, sep)
    decreases |a|
  {
    var s := a + [sep] + b;
    if a == "" {
      assert s[1..] == b;
    } else {
      assert s[1..] == a[1..] + [sep] + b;
      SplitHead(a[1..], b, sep);
      assert a == [a[0]] + a[1..];
    }
  }

  lemma {:induction false} SplitJoin(parts: seq<string>, sep: char)
    requires |parts| >= 1 && SepFree(parts, sep)
    ensures Split(Join(parts, sep), sep) == parts
    decreases |parts|
  {
    if |parts| == 1 {
      SplitNone(parts[0], sep);
    } else {
      SplitJoin(parts[1..], sep);
      SplitHead(parts[0], Join(parts[1..], sep), sep);
    }
  }

  function Each<T, U>(f: T -> U, xs: seq<T>): seq<U> { seq(|xs|, i requires 0 <= i < |xs| => f(xs[i])) }

  lemma EachOfBoth<T, U>(f: T -> U, xs: seq<T>, ys: seq<T>)
    ensures Each(f, xs + ys) == Each(f, xs) + Each(f, ys)
  {
  }
}
