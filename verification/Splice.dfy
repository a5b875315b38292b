/** The generated-region splice: replace the lines between two markers, keep every other byte. */
module Splice {
  import opened Prelude
  import Text

  const NEWLINE := '\n'

  const BEGIN := "# >>> BEGIN GENERATED " + ['\U{2014}'] + " exposer selection (make preflight-table) >>>"
  const END := "# <<< END GENERATED <<<"

  datatype Mark = Opening | Closing | Ordinary

  function Classify(line: string): Mark {
    var t := Text.Trim(line);
    if t == BEGIN then Opening else if t == END then Closing else Ordinary
  }

  function Marks(lines: seq<string>): seq<Mark> { Text.Each(Classify, lines) }

  datatype Failure = DuplicateBegin | DuplicateEnd | Missing | Reversed

  datatype Region = At(begin: nat, end: nat) | Bad(why: Failure)

  /** Exactly one marker of each kind, at these lines. */
  predicate OnlyMarks(ms: seq<Mark>, begin: nat, end: nat) {
    && begin < |ms| && end < |ms|
    && forall i :: 0 <= i < |ms| ==> (ms[i].Opening? <==> i == begin) && (ms[i].Closing? <==> i == end)
  }

  predicate NoMark(ms: seq<Mark>) { forall m <- ms :: m.Ordinary? }

  /** The scan for the markers. */
  method FindRegion(lines: seq<string>) returns (r: Region)
    ensures r.At? <==> exists b: nat, e: nat :: b < e && OnlyMarks(Marks(lines), b, e)
    ensures r.At? ==> r.begin < r.end && OnlyMarks(Marks(lines), r.begin, r.end)
    ensures r == Bad(Reversed) <==> exists b: nat, e: nat :: e < b && OnlyMarks(Marks(lines), b, e)
    ensures r == Bad(Missing) ==> Opening !in Marks(lines) || Closing !in Marks(lines)
    ensures r == Bad(DuplicateBegin) ==> exists i, j :: 0 <= i < j < |lines| && Marks(lines)[i] == Marks(lines)[j] == Opening
    ensures r == Bad(DuplicateEnd) ==> exists i, j :: 0 <= i < j < |lines| && Marks(lines)[i] == Marks(lines)[j] == Closing
  {
    var ms := Marks(lines);
    r := FindMarks(ms);
  }

  method FindMarks(ms: seq<Mark>) returns (r: Region)
    ensures r.At? <==> exists b: nat, e: nat :: b < e && OnlyMarks(ms, b, e)
    ensures r.At? ==> r.begin < r.end && OnlyMarks(ms, r.begin, r.end)
    ensures r == Bad(Reversed) <==> exists b: nat, e: nat :: e < b && OnlyMarks(ms, b, e)
    ensures r == Bad(Missing) ==> Opening !in ms || Closing !in ms
    ensures r == Bad(DuplicateBegin) ==> exists i, j :: 0 <= i < j < |ms| && ms[i] == ms[j] == Opening
    ensures r == Bad(DuplicateEnd) ==> exists i, j :: 0 <= i < j < |ms| && ms[i] == ms[j] == Closing
  {
    var begin, end := -1, -1;
    for i := 0 to |ms|
      invariant -1 <= begin < i && -1 <= end < i
      invariant forall k :: 0 <= k < i ==> (ms[k].Opening? <==> k == begin) && (ms[k].Closing? <==> k == end)
    {
      match ms[i] {
        case Opening =>
          if begin >= 0 {
            assert ms[begin] == ms[i] == Opening;
            return Bad(DuplicateBegin);
          }
          begin := i;
        case Closing =>
          if end >= 0 {
            assert ms[end] == ms[i] == Closing;
            return Bad(DuplicateEnd);
          }
          end := i;
        case Ordinary =>
      }
    }
    assert forall b: nat, e: nat :: OnlyMarks(ms, b, e) ==> ms[b].Opening? && ms[e].Closing?;
    if begin < 0 || end < 0 { return Bad(Missing); }
    assert ms[begin].Opening? && ms[end].Closing?;
    assert OnlyMarks(ms, begin, end);
    if end < begin { return Bad(Reversed); }
    return At(begin, end);
  }

  /** A line marks the region's start or end exactly when it is the marker between white space. */
  lemma MarkersExactly(line: string)
    ensures Classify(line).Opening? <==> Text.Between(line, BEGIN)
    ensures Classify(line).Closing? <==> Text.Between(line, END)
  {
    MarkerShapes();
    IsMarker(line, BEGIN);
    IsMarker(line, END);
  }

  lemma IsMarker(line: string, m: string)
    requires |m| > 1 && m[0] == '#' && (m[|m| - 1] == '>' || m[|m| - 1] == '<')
    ensures Text.Trim(line) == m <==> Text.Between(line, m)
  {
    Text.TrimExactly(line, m);
  }

  lemma MarkerShapes()
    ensures |BEGIN| > 1 && BEGIN[0] == '#' && BEGIN[|BEGIN| - 1] == '>'
    ensures |END| > 1 && END[0] == '#' && END[|END| - 1] == '<' && BEGIN != END
  {
  }

  // ---- The splice ----

  function TrimNewlines(s: string): string {
    if s != "" && s[|s| - 1] == NEWLINE then TrimNewlines(s[..|s| - 1]) else s
  }

  /** What is trimmed is newlines, and all of those at the end. */
  lemma {:induction false} TrimNewlinesExactly(s: string)
    ensures var t := TrimNewlines(s);
      && t <= s && (forall i :: |t| <= i < |s| ==> s[i] == NEWLINE) && (t != "" ==> t[|t| - 1] != NEWLINE)
  {
    if s != "" && s[|s| - 1] == NEWLINE { TrimNewlinesExactly(s[..|s| - 1]); }
  }

  function RegionLines(region: string): (r: seq<string>)
    ensures |r| >= 1
  {
    Text.Split(TrimNewlines(region), NEWLINE)
  }

  ghost predicate Spliceable(src: string) {
    exists b: nat, e: nat :: b < e && OnlyMarks(Marks(Text.Split(src, NEWLINE)), b, e)
  }

  /** The new lines stand between the two marker lines; every other line is the old one. */
  function Replaced<T>(lines: seq<T>, begin: nat, end: nat, region: seq<T>): seq<T>
    requires begin < end < |lines|
  {
    lines[..begin + 1] + region + lines[end..]
  }

  /** Succeeds exactly on a source with one region, and then changes only what is inside it. */
  method SpliceRegion(src: string, region: string) returns (out: Option<string>)
    ensures out.Some? <==> Spliceable(src)
    ensures forall b: nat, e: nat :: b < e && OnlyMarks(Marks(Text.Split(src, NEWLINE)), b, e) ==>
      out == Some(Text.Join(Replaced(Text.Split(src, NEWLINE), b, e, RegionLines(region)), NEWLINE))
  {
    var lines := Text.Split(src, NEWLINE);
    var found := FindRegion(lines);
    if found.Bad? { return None; }
    forall b: nat, e: nat | b < e && OnlyMarks(Marks(lines), b, e) ensures b == found.begin && e == found.end {
      SameRegion(Marks(lines), b, e, found.begin, found.end);
    }
    var result := lines[..found.begin + 1] + RegionLines(region) + lines[found.end..];
    return Some(Text.Join(result, NEWLINE));
  }

  lemma SameRegion(ms: seq<Mark>, b: nat, e: nat, b': nat, e': nat)
    requires OnlyMarks(ms, b, e) && OnlyMarks(ms, b', e')
    ensures b == b' && e == e'
  {
    assert ms[b].Opening? && ms[e].Closing?;
  }

  // ---- The lens laws ----

  /** The splice as a function on a source known to have its region at b..e. */
  function Spliced(src: string, b: nat, e: nat, region: string): string
    requires b < e < |Text.Split(src, NEWLINE)|
  {
    Text.Join(Replaced(Text.Split(src, NEWLINE), b, e, RegionLines(region)), NEWLINE)
  }

  /** Splitting a splice gives its lines back. */
  lemma SplitSpliced(src: string, b: nat, e: nat, region: string)
    requires b < e < |Text.Split(src, NEWLINE)|
    ensures Text.Split(Spliced(src, b, e, region), NEWLINE) == Replaced(Text.Split(src, NEWLINE), b, e, RegionLines(region))
  {
    Text.SplitSepFree(src, NEWLINE);
    Text.SplitSepFree(TrimNewlines(region), NEWLINE);
    Text.SplitJoin(Replaced(Text.Split(src, NEWLINE), b, e, RegionLines(region)), NEWLINE);
  }

  lemma EachOfReplaced<T, U>(f: T -> U, xs: seq<T>, b: nat, e: nat, ys: seq<T>)
    requires b < e < |xs|
    ensures Text.Each(f, Replaced(xs, b, e, ys)) == Replaced(Text.Each(f, xs), b, e, Text.Each(f, ys))
  {
  }

  /** Replacing between the only marks leaves them the only marks exactly when nothing new is one. */
  lemma OnlyMarksAfter(ms: seq<Mark>, b: nat, e: nat, rs: seq<Mark>)
    requires b < e && OnlyMarks(ms, b, e)
    ensures var out := Replaced(ms, b, e, rs); var e' := b + 1 + |rs|;
      && (OnlyMarks(out, b, e') <==> NoMark(rs))
      && ((exists x: nat, y: nat :: x < y && OnlyMarks(out, x, y)) <==> NoMark(rs))
  {
    var out := Replaced(ms, b, e, rs);
    var e' := b + 1 + |rs|;
    assert out[b] == ms[b] && out[e'] == ms[e];
    assert forall i :: 0 <= i < |rs| ==> out[b + 1 + i] == rs[i];
    assert forall i :: e' <= i < |out| ==> out[i] == ms[i - e' + e];
    if NoMark(rs) {
      forall i | 0 <= i < |out| ensures (out[i].Opening? <==> i == b) && (out[i].Closing? <==> i == e') {
        if i < b { assert out[i] == ms[i]; }
        else if b < i < e' { assert out[i] == rs[i - b - 1] && rs[i - b - 1] in rs; }
        else if i > e' { assert out[i] == ms[i - e' + e]; }
      }
      assert OnlyMarks(out, b, e');
    }
    if x: nat, y: nat :| x < y && OnlyMarks(out, x, y) {
      assert x == b && y == e';
      forall m | m in rs ensures m.Ordinary? {
        var i :| 0 <= i < |rs| && rs[i] == m;
        assert out[b + 1 + i] == m;
      }
    }
  }

  /** Every line outside the markers is kept, and the markers too. */
  lemma OutsideIsKept(src: string, b: nat, e: nat, region: string)
    requires b < e && OnlyMarks(Marks(Text.Split(src, NEWLINE)), b, e)
    ensures var lines := Text.Split(src, NEWLINE); var out := Text.Split(Spliced(src, b, e, region), NEWLINE);
      var n := |RegionLines(region)|;
      && |out| == b + 1 + n + (|lines| - e)
      && out[..b + 1] == lines[..b + 1]
      && out[b + 1..b + 1 + n] == RegionLines(region)
      && out[b + 1 + n..] == lines[e..]
  {
    SplitSpliced(src, b, e, region);
  }

  /** The result can be spliced again exactly when the new lines contain no marker. */
  lemma SpliceableAgainExactly(src: string, b: nat, e: nat, region: string)
    requires b < e && OnlyMarks(Marks(Text.Split(src, NEWLINE)), b, e)
    ensures var once := Spliced(src, b, e, region); var e' := b + 1 + |RegionLines(region)|;
      && (Spliceable(once) <==> NoMark(Marks(RegionLines(region))))
      && (Spliceable(once) ==> OnlyMarks(Marks(Text.Split(once, NEWLINE)), b, e'))
  {
    var lines := Text.Split(src, NEWLINE);
    SplitSpliced(src, b, e, region);
    EachOfReplaced(Classify, lines, b, e, RegionLines(region));
    var rs := Marks(RegionLines(region));
    assert |rs| == |RegionLines(region)|;
    var out := Replaced(Marks(lines), b, e, rs);
    assert Marks(Text.Split(Spliced(src, b, e, region), NEWLINE)) == out;
    OnlyMarksAfter(Marks(lines), b, e, rs);
  }

  lemma ReplacedTwice<T>(lines: seq<T>, b: nat, e: nat, first: seq<T>, second: seq<T>)
    requires b < e < |lines|
    ensures var once := Replaced(lines, b, e, first);
      b + 1 + |first| < |once| && Replaced(once, b, b + 1 + |first|, second) == Replaced(lines, b, e, second)
  {
    var once := Replaced(lines, b, e, first);
    assert once[..b + 1] == lines[..b + 1];
    assert once[b + 1 + |first|..] == lines[e..];
  }

  /** A later region fully replaces an earlier one, and the same region again changes nothing. */
  lemma LaterRegionReplaces(src: string, b: nat, e: nat, region: string, later: string)
    requires b < e && OnlyMarks(Marks(Text.Split(src, NEWLINE)), b, e)
    ensures var once := Spliced(src, b, e, region); var e' := b + 1 + |RegionLines(region)|;
      && |Text.Split(once, NEWLINE)| > e'
      && Spliced(once, b, e', later) == Spliced(src, b, e, later)
      && Spliced(once, b, e', region) == once
  {
    SplitSpliced(src, b, e, region);
    ReplacedTwice(Text.Split(src, NEWLINE), b, e, RegionLines(region), RegionLines(later));
    ReplacedTwice(Text.Split(src, NEWLINE), b, e, RegionLines(region), RegionLines(region));
  }

  /** Joining lines and taking them as a region gives the same lines. */
  lemma RegionOfLines(inside: seq<string>)
    requires |inside| >= 1 && Text.SepFree(inside, NEWLINE) && inside[|inside| - 1] != ""
    ensures RegionLines(Text.Join(inside, NEWLINE)) == inside
  {
    Text.SplitJoin(inside, NEWLINE);
    JoinEnd(inside);
  }

  /** What was between the markers is what a splice of it puts back, unless it ends in an empty line. */
  lemma SplicingTheOldLinesBack(src: string, b: nat, e: nat)
    requires b + 1 < e && OnlyMarks(Marks(Text.Split(src, NEWLINE)), b, e)
    requires Text.Split(src, NEWLINE)[e - 1] != ""
    ensures Spliced(src, b, e, Text.Join(Text.Split(src, NEWLINE)[b + 1..e], NEWLINE)) == src
  {
    var lines := Text.Split(src, NEWLINE);
    var inside := lines[b + 1..e];
    Text.SplitSepFree(src, NEWLINE);
    RegionOfLines(inside);
    assert lines[..b + 1] + inside + lines[e..] == lines;
    Text.JoinSplit(src, NEWLINE);
  }

  /** A join whose last part is not empty does not end in the separator. */
  lemma {:induction false} JoinEnd(parts: seq<string>)
    requires |parts| >= 1 && Text.SepFree(parts, NEWLINE) && parts[|parts| - 1] != ""
    ensures var j := Text.Join(parts, NEWLINE); j != "" && j[|j| - 1] != NEWLINE
  {
    if |parts| == 1 {
      assert parts[0][|parts[0]| - 1] in parts[0];
    } else {
      JoinEnd(parts[1..]);
    }
  }
}
