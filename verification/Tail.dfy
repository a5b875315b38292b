/** The bounded tail of a mover's standard error, and the last line quoted from it. */
module Tail {
  import Text

  const NEWLINE := '\n'

  /** The last max characters of a stream. */
  function Last(s: string, max: nat): string { if |s| <= max then s else s[|s| - max..] }

  lemma LastExactly(s: string, max: nat)
    ensures |Last(s, max)| == (if |s| < max then |s| else max)
    ensures s == s[..|s| - |Last(s, max)|] + Last(s, max)
  {
  }

  lemma LastOfAppended(s: string, p: string, max: nat)
    ensures Last(Last(s, max) + p, max) == Last(s + p, max)
  {
    var t := Last(s, max) + p;
    if |s| > max {
      assert s + p == s[..|s| - max] + t;
    }
  }

  class TailWriter {
    const max: nat
    var buf: string
    ghost var stream: string

    ghost predicate Valid()
      reads this
    {
      buf == Last(stream, max)
    }

    constructor (max: nat)
      ensures Valid() && stream == "" && this.max == max
    {
      this.max := max;
      buf := "";
      stream := "";
    }

    /** Reports the whole input as written and keeps the tail of everything written so far. */
    method Write(p: string) returns (n: nat)
      requires Valid()
      modifies this
      ensures Valid() && stream == old(stream) + p && n == |p|
    {
      LastOfAppended(stream, p, max);
      buf := buf + p;
      if |buf| > max {
        buf := buf[|buf| - max..];
      }
      stream := stream + p;
      n := |p|;
    }

    /** After any number of writes, the buffer is the tail of their concatenation. */
    method WriteAll(ps: seq<string>)
      requires Valid()
      modifies this
      ensures Valid() && stream == old(stream) + Concat(ps)
    {
      assert Concat(ps[..0]) == "";
      for i := 0 to |ps|
        invariant Valid() && stream == old(stream) + Concat(ps[..i])
      {
        assert ps[..i + 1][..i] == ps[..i];
        var n := Write(ps[i]);
      }
      assert ps[..|ps|] == ps;
    }
  }

  function Concat(ps: seq<string>): string {
    if ps == [] then "" else Concat(ps[..|ps| - 1]) + ps[|ps| - 1]
  }

  // ---- The last line ----

  /** The last of these that is not empty; empty when there is none. */
  function LastNonEmpty(ts: seq<string>): string {
    if ts == [] then ""
    else if ts[|ts| - 1] != "" then ts[|ts| - 1]
    else LastNonEmpty(ts[..|ts| - 1])
  }

  function Trimmed(lines: seq<string>): seq<string> { Text.Each(Text.Trim, lines) }

  /** The last line that is not blank, trimmed. */
  function LastLineOf(b: string): string { LastNonEmpty(Trimmed(Text.Split(b, NEWLINE))) }

  /** It is empty when every line is blank; otherwise it is some line, trimmed, with only blank ones after it. */
  lemma LastLineExactly(b: string) returns (i: nat)
    ensures var lines := Text.Split(b, NEWLINE);
      if forall k :: 0 <= k < |lines| ==> Text.IsBlank(lines[k]) then LastLineOf(b) == ""
      else
        && i < |lines| && !Text.IsBlank(lines[i]) && LastLineOf(b) == Text.Trim(lines[i])
        && forall k :: i < k < |lines| ==> Text.IsBlank(lines[k])
  {
    var lines := Text.Split(b, NEWLINE);
    var ts := Trimmed(lines);
    forall k | 0 <= k < |lines| ensures ts[k] == "" <==> Text.IsBlank(lines[k]) { Text.TrimBlank(lines[k]); }
    i := LastNonEmptyAt(ts);
  }

  lemma {:induction false} LastNonEmptyAt(ts: seq<string>) returns (i: nat)
    ensures if forall k :: 0 <= k < |ts| ==> ts[k] == "" then LastNonEmpty(ts) == ""
            else i < |ts| && ts[i] != "" && LastNonEmpty(ts) == ts[i] && forall k :: i < k < |ts| ==> ts[k] == ""
  {
    i := 0;
    if ts != [] {
      var n := |ts| - 1;
      if ts[n] != "" { i := n; } else { i := LastNonEmptyAt(ts[..n]); }
    }
  }

  method LastLine(b: string) returns (r: string)
    ensures r == LastLineOf(b)
  {
    var lines := Text.Split(b, NEWLINE);
    r := LastMapped(Text.Trim, lines);
  }

  method LastMapped(trim: string -> string, lines: seq<string>) returns (r: string)
    ensures r == LastNonEmpty(Text.Each(trim, lines))
  {
    ghost var ts := Text.Each(trim, lines);
    var i := |lines|;
    assert ts[..i] == ts;
    while i > 0
      invariant 0 <= i <= |lines|
      invariant LastNonEmpty(ts) == LastNonEmpty(ts[..i])
    {
      i := i - 1;
      assert ts[..i + 1][..i] == ts[..i];
      var s := trim(lines[i]);
      if s != "" { return s; }
    }
    return "";
  }

  // ---- What the tail keeps of it ----

  /** The lines of a concatenation: the last line of one part runs on into the first of the other. */
  function Merged(a: seq<string>, b: seq<string>): seq<string>
    requires |a| >= 1 && |b| >= 1
  {
    a[..|a| - 1] + [a[|a| - 1] + b[0]] + b[1..]
  }

  lemma MergedAfter(x: string, a: seq<string>, b: seq<string>)
    requires |a| >= 1 && |b| >= 1
    ensures Merged([x] + a, b) == [x] + Merged(a, b)
  {
    assert ([x] + a)[..|a|] == [x] + a[..|a| - 1];
  }

  /** A sequence whose first string is grown by a character in front. */
  function Grown(c: char, a: seq<string>): seq<string>
    requires |a| >= 1
  {
    [[c] + a[0]] + a[1..]
  }

  lemma MergedGrown(c: char, a: seq<string>, b: seq<string>)
    requires |a| >= 1 && |b| >= 1
    ensures Merged(Grown(c, a), b) == Grown(c, Merged(a, b))
  {
    var g := Grown(c, a);
    if |a| == 1 {
      assert g == [[c] + a[0]];
      assert [c] + (a[0] + b[0]) == [c] + a[0] + b[0];
    } else {
      assert g[..|a| - 1] == [[c] + a[0]] + a[1..|a| - 1];
      assert Merged(a, b)[1..] == a[1..|a| - 1] + [a[|a| - 1] + b[0]] + b[1..];
    }
  }

  lemma {:induction false} SplitConcat(a: string, b: string)
    ensures Text.Split(a + b, NEWLINE) == Merged(Text.Split(a, NEWLINE), Text.Split(b, NEWLINE))
    decreases |a|
  {
    var bs := Text.Split(b, NEWLINE);
    if a == "" {
      assert a + b == b && "" + bs[0] == bs[0];
      assert Merged([""], bs) == bs;
    } else {
      assert (a + b)[1..] == a[1..] + b;
      SplitConcat(a[1..], b);
      var rest := Text.Split(a[1..], NEWLINE);
      if a[0] == NEWLINE { MergedAfter("", rest, bs); } else { MergedGrown(a[0], rest, bs); }
    }
  }

  predicate AllBlank(lines: seq<string>) { forall i :: 0 <= i < |lines| ==> Text.IsBlank(lines[i]) }

  predicate AllEmpty(ts: seq<string>) { forall i :: 0 <= i < |ts| ==> ts[i] == "" }

  lemma BlankIsTrimmedEmpty(lines: seq<string>)
    ensures AllBlank(lines) <==> AllEmpty(Trimmed(lines))
  {
    var ts := Trimmed(lines);
    forall i | 0 <= i < |lines| ensures Text.IsBlank(lines[i]) <==> ts[i] == "" { Text.TrimBlank(lines[i]); }
  }

  lemma {:induction false} LastOfBoth(a: seq<string>, b: seq<string>)
    ensures LastNonEmpty(a + b) == if AllEmpty(b) then LastNonEmpty(a) else LastNonEmpty(b)
    decreases |b|
  {
    if b == [] {
      assert a + b == a;
    } else {
      var n := |b| - 1;
      assert (a + b)[..|a| + n] == a + b[..n];
      LastOfBoth(a, b[..n]);
    }
  }

  lemma {:induction false} LastEmptyExactly(ts: seq<string>)
    ensures LastNonEmpty(ts) == "" <==> AllEmpty(ts)
  {
    if ts != [] {
      var n := |ts| - 1;
      LastEmptyExactly(ts[..n]);
    }
  }

  lemma {:induction false} TrimLeftSkipsBlank(g: string, f: string)
    requires Text.IsBlank(g)
    ensures Text.TrimLeft(g + f) == Text.TrimLeft(f)
    decreases |g|
  {
    if g == "" {
      assert g + f == f;
    } else {
      assert (g + f)[1..] == g[1..] + f;
      TrimLeftSkipsBlank(g[1..], f);
    }
  }

  lemma {:induction false} TrimRightOfBoth(g: string, f: string)
    requires !Text.IsBlank(f)
    ensures Text.TrimRight(g + f) == g + Text.TrimRight(f)
    decreases |f|
  {
    assert f != "";
    var n := |f| - 1;
    if Text.IsSpace(f[n]) {
      assert (g + f)[..|g| + n] == g + f[..n];
      assert f == f[..n] + [f[n]];
      TrimRightOfBoth(g, f[..n]);
    }
  }

  lemma {:induction false} TrimLeftOfBoth(g: string, f: string)
    requires !Text.IsBlank(g)
    ensures Text.TrimLeft(g + f) == Text.TrimLeft(g) + f
    decreases |g|
  {
    assert g != "";
    if Text.IsSpace(g[0]) {
      assert (g + f)[1..] == g[1..] + f;
      assert g == [g[0]] + g[1..];
      TrimLeftOfBoth(g[1..], f);
    }
  }

  lemma {:induction false} TrimLeftKeeps(g: string)
    requires !Text.IsBlank(g)
    ensures Text.TrimLeft(g) != "" && !Text.IsBlank(Text.TrimLeft(g))
  {
    if Text.IsSpace(g[0]) {
      assert g == [g[0]] + g[1..];
      TrimLeftKeeps(g[1..]);
    }
  }

  /** Text cut off in front of a line's content shows, unless it was white space. */
  lemma CutShows(g: string, f: string)
    requires !Text.IsBlank(f)
    ensures Text.Trim(g + f) == Text.Trim(f) <==> Text.IsBlank(g)
  {
    if Text.IsBlank(g) {
      TrimLeftSkipsBlank(g, f);
    } else {
      TrimOfBoth(g, f);
      TrimLeftKeeps(g);
      TrimIsShorter(f);
    }
  }

  lemma TrimOfBoth(g: string, f: string)
    requires !Text.IsBlank(g) && !Text.IsBlank(f)
    ensures Text.Trim(g + f) == Text.TrimLeft(g) + Text.TrimRight(f)
  {
    TrimLeftOfBoth(g, f);
    TrimRightOfBoth(Text.TrimLeft(g), f);
  }

  lemma TrimIsShorter(f: string)
    requires !Text.IsBlank(f)
    ensures |Text.Trim(f)| <= |Text.TrimRight(f)|
  {
    var l := Text.TrimLeft(f);
    TrimLeftKeeps(f);
    assert f[..|f| - |l|] + l == f;
    SuffixTrims(f[..|f| - |l|], l);
  }

  lemma SuffixTrims(p: string, l: string)
    requires !Text.IsBlank(l)
    ensures |Text.TrimRight(l)| <= |Text.TrimRight(p + l)|
  {
    TrimRightOfBoth(p, l);
  }

  /** The stream's last line lies in its tail: a later line of the tail is not blank, or the tail's first
      line is not blank and nothing but white space of it was cut off. */
  predicate LastLineInside(cut: string, tail: string) {
    var ls := Text.Split(tail, NEWLINE);
    var before := Text.Split(cut, NEWLINE);
    !AllBlank(ls[1..]) || (!Text.IsBlank(ls[0]) && Text.IsBlank(before[|before| - 1]))
  }

  /** The tail quotes what the whole stream would exactly when that line lies in the tail, or the whole
      stream is blank. */
  lemma TailQuotesExactly(cut: string, tail: string)
    ensures LastLineOf(tail) == LastLineOf(cut + tail) <==>
      LastLineInside(cut, tail) || AllBlank(Text.Split(cut + tail, NEWLINE))
  {
    SplitConcat(cut, tail);
    var a := Text.Split(cut, NEWLINE);
    var b := Text.Split(tail, NEWLINE);
    QuotedFromLines(a[..|a| - 1], a[|a| - 1], b[0], b[1..], b, Text.Split(cut + tail, NEWLINE));
  }

  /** The last of some trimmed lines, the line at the cut once whole and once as kept. */
  lemma LastAroundCut(head: seq<string>, mid: string, kept: string, rest: seq<string>)
    ensures LastNonEmpty([kept] + rest) == if AllEmpty(rest) then kept else LastNonEmpty(rest)
    ensures LastNonEmpty(head + [mid] + rest) ==
      if AllEmpty(rest) then (if mid == "" then LastNonEmpty(head) else mid) else LastNonEmpty(rest)
    ensures AllEmpty(head + [mid] + rest) <==> AllEmpty(head) && mid == "" && AllEmpty(rest)
  {
    LastOfBoth([kept], rest);
    LastOfBoth(head + [mid], rest);
    LastOfBoth(head, [mid]);
    assert [kept][..0] == [] && [mid][..0] == [];
    var all := head + [mid] + rest;
    assert all[|head|] == mid;
    assert forall i :: 0 <= i < |head| ==> all[i] == head[i];
    assert forall i :: 0 <= i < |rest| ==> all[|head| + 1 + i] == rest[i];
  }

  /** The same on lines: head and g were cut off, f and rest are kept, and g + f was one line. */
  lemma QuotedFromLines(head: seq<string>, g: string, f: string, rest: seq<string>,
                        tail: seq<string>, whole: seq<string>)
    requires tail == [f] + rest && whole == head + [g + f] + rest
    ensures LastNonEmpty(Trimmed(tail)) == LastNonEmpty(Trimmed(whole)) <==>
      !AllBlank(rest) || (!Text.IsBlank(f) && Text.IsBlank(g)) || AllBlank(whole)
  {
    Text.EachOfBoth(Text.Trim, [f], rest);
    Text.EachOfBoth(Text.Trim, head + [g + f], rest);
    Text.EachOfBoth(Text.Trim, head, [g + f]);
    assert Trimmed([f]) == [Text.Trim(f)] && Trimmed([g + f]) == [Text.Trim(g + f)];
    LastAroundCut(Trimmed(head), Text.Trim(g + f), Text.Trim(f), Trimmed(rest));
    BlankIsTrimmedEmpty(rest);
    BlankIsTrimmedEmpty(whole);
    LastEmptyExactly(Trimmed(head));
    Text.TrimBlank(f);
    LineAtCut(g, f);
  }

  lemma LineAtCut(g: string, f: string)
    ensures Text.Trim(g + f) == "" ==> Text.Trim(f) == ""
    ensures Text.Trim(f) != "" ==> (Text.Trim(g + f) == Text.Trim(f) <==> Text.IsBlank(g))
  {
    Text.TrimBlank(f);
    Text.TrimBlank(g + f);
    if !Text.IsBlank(f) {
      CutShows(g, f);
      var i :| 0 <= i < |f| && !Text.IsSpace(f[i]);
      assert (g + f)[|g| + i] == f[i];
    }
  }

  /** For a writer: what it quotes is right whenever the last line lies inside what it kept. */
  lemma WriterQuotesTheStream(stream: string, max: nat)
    requires LastLineInside(stream[..|stream| - |Last(stream, max)|], Last(stream, max))
    ensures LastLineOf(Last(stream, max)) == LastLineOf(stream)
  {
    var tail := Last(stream, max);
    var cut := stream[..|stream| - |tail|];
    assert cut + tail == stream;
    TailQuotesExactly(cut, tail);
  }
}
