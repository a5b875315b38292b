/** The string-aware argument splitter of the dashboard check: find the matching parenthesis, then
    cut the text between at its top-level commas. */
module Splitter {
  import opened Prelude
  import Text

  // ---- The scanner ----

  /** Code, inside a string, or just after a backslash inside one. */
  datatype Mode = Code | Str | Esc

  datatype State = State(depth: int, mode: Mode)

  const Top := State(0, Code)

  predicate Opens(c: char) { c == '(' || c == '[' || c == '{' }

  predicate Closes(c: char) { c == ')' || c == ']' || c == '}' }

  function NextMode(m: Mode, c: char): Mode {
    match m
    case Code => if c == '"' then Str else Code
    case Str => if c == '\\' then Esc else if c == '"' then Code else Str
    case Esc => Str
  }

  function Step(s: State, c: char): State {
    State(if !s.mode.Code? then s.depth
          else if Opens(c) then s.depth + 1
          else if Closes(c) then s.depth - 1
          else s.depth,
          NextMode(s.mode, c))
  }

  function End(s: State, text: string): State
    decreases |text|
  {
    if text == "" then s else End(Step(s, text[0]), text[1..])
  }

  // ---- Splitting ----

  predicate Cuts(s: State, c: char) { c == ',' && s == Top }

  function Prefixed(x: string, ps: seq<string>): seq<string>
    requires |ps| >= 1
  {
    [x + ps[0]] + ps[1..]
  }

  lemma PrefixedNothing(ps: seq<string>)
    requires |ps| >= 1
    ensures Prefixed("", ps) == ps && [] + ps == ps
  {
    assert "" + ps[0] == ps[0];
    assert ps == [ps[0]] + ps[1..];
  }

  lemma PrefixedTwice(x: string, y: string, ps: seq<string>)
    requires |ps| >= 1
    ensures Prefixed(x, Prefixed(y, ps)) == Prefixed(x + y, ps)
  {
    assert Prefixed(y, ps)[1..] == ps[1..];
    assert x + (y + ps[0]) == x + y + ps[0];
  }

  lemma PrefixedBlank(x: string, ps: seq<string>)
    ensures Prefixed(x, [""] + ps) == [x] + ps
  {
    assert x + "" == x;
    assert ([""] + ps)[1..] == ps;
  }

  /** The parts of the text from here on, blank ones included; None when it ends just after a
      backslash in a string. */
  function Parts(s: State, text: string): (r: Option<seq<string>>)
    ensures r.Some? ==> |r.value| >= 1
    decreases |text|
  {
    if text == "" then if s.mode.Esc? then None else Some([""])
    else
      match Parts(Step(s, text[0]), text[1..])
      case None => None
      case Some(ps) => Some(if Cuts(s, text[0]) then [""] + ps else Prefixed([text[0]], ps))
  }

  function NonBlank(ps: seq<string>): seq<string> {
    if ps == [] then [] else (if Text.IsBlank(ps[0]) then [] else [ps[0]]) + NonBlank(ps[1..])
  }

  function SplitTopLevel(text: string): Option<seq<string>> {
    var r := Parts(Top, text);
    if r.None? then None else Some(NonBlank(r.value))
  }

  /** What the loop has, put before what is still to come. */
  function Glued(parts: seq<string>, cur: string, r: Option<seq<string>>): Option<seq<string>>
    requires r.Some? ==> |r.value| >= 1
  {
    if r.None? then None else Some(parts + Prefixed(cur, r.value))
  }

  lemma GlueChar(parts: seq<string>, cur: string, s: State, text: string)
    requires text != "" && !Cuts(s, text[0])
    ensures Glued(parts, cur, Parts(s, text)) == Glued(parts, cur + [text[0]], Parts(Step(s, text[0]), text[1..]))
  {
    var r := Parts(Step(s, text[0]), text[1..]);
    if r.Some? { PrefixedTwice(cur, [text[0]], r.value); }
  }

  lemma GlueCut(parts: seq<string>, cur: string, text: string)
    requires text != "" && text[0] == ','
    ensures Glued(parts, cur, Parts(Top, text)) == Glued(parts + [cur], "", Parts(Top, text[1..]))
  {
    var r := Parts(Top, text[1..]);
    if r.Some? {
      assert Step(Top, ',') == Top;
      PrefixedBlank(cur, r.value);
      PrefixedNothing(r.value);
      assert parts + ([cur] + r.value) == parts + [cur] + r.value;
    }
  }

  /** The index loop. An index error on a backslash that ends the text is the None result. */
  method Split(args: string) returns (r: Option<seq<string>>)
    ensures r == SplitTopLevel(args)
  {
    var parts: seq<string> := [];
    var depth, cur, inStr := 0, "", false;
    var i := 0;
    assert args[0..] == args;
    ghost var whole := Parts(Top, args);
    assert whole.Some? ==> Glued([], "", whole) == whole by {
      if whole.Some? { PrefixedNothing(whole.value); }
    }
    while i < |args|
      invariant 0 <= i <= |args|
      invariant whole == Glued(parts, cur, Parts(State(depth, if inStr then Str else Code), args[i..]))
      decreases |args| - i
    {
      var ch := args[i];
      ghost var s := State(depth, if inStr then Str else Code);
      assert args[i..][1..] == args[i + 1..];
      if !Cuts(s, ch) { GlueChar(parts, cur, s, args[i..]); }
      if inStr {
        cur := cur + [ch];
        if ch == '\\' {
          if i + 1 >= |args| {
            assert args[i + 1..] == "";
            return None;
          }
          assert args[i + 1..][1..] == args[i + 2..];
          GlueChar(parts, cur, State(depth, Esc), args[i + 1..]);
          cur := cur + [args[i + 1]];
          i := i + 2;
          continue;
        }
        if ch == '"' { inStr := false; }
      } else if ch == '"' {
        inStr := true;
        cur := cur + [ch];
      } else if Opens(ch) {
        depth := depth + 1;
        cur := cur + [ch];
      } else if Closes(ch) {
        depth := depth - 1;
        cur := cur + [ch];
      } else if ch == ',' && depth == 0 {
        GlueCut(parts, cur, args[i..]);
        parts := parts + [cur];
        cur := "";
      } else {
        cur := cur + [ch];
      }
      i := i + 1;
    }
    assert args[i..] == "";
    PrefixedBlank(cur, []);
    assert [""] + [] == [""] && [cur] + [] == [cur];
    parts := parts + [cur];
    assert whole == Some(parts);
    var kept := KeepNonBlank(parts);
    return Some(kept);
  }

  method KeepNonBlank(ps: seq<string>) returns (r: seq<string>)
    ensures r == NonBlank(ps)
  {
    r := [];
    for i := 0 to |ps|
      invariant NonBlank(ps) == r + NonBlank(ps[i..])
    {
      assert ps[i..][1..] == ps[i + 1..];
      var blank := StripsToNothing(ps[i]);
      if !blank { r := r + [ps[i]]; }
    }
  }

  method StripsToNothing(p: string) returns (blank: bool)
    ensures blank <==> Text.IsBlank(p)
  {
    Text.TrimBlank(p);
    blank := Text.Trim(p) == "";
  }

  // ---- Laws of the split ----

  /** The split fails exactly when the text ends with the backslash of an escape inside a string. */
  lemma {:induction false} FailsExactlyOnADanglingEscape(s: State, text: string)
    ensures Parts(s, text).None? <==> End(s, text).mode.Esc?
    decreases |text|
  {
    if text != "" { FailsExactlyOnADanglingEscape(Step(s, text[0]), text[1..]); }
  }

  /** Joining the unfiltered parts with commas gives the text back. */
  lemma {:induction false} JoinUndoesSplit(s: State, text: string)
    requires Parts(s, text).Some?
    ensures Text.Join(Parts(s, text).value, ',') == text
    decreases |text|
  {
    if text != "" {
      JoinUndoesSplit(Step(s, text[0]), text[1..]);
      var ps := Parts(Step(s, text[0]), text[1..]).value;
      assert text == [text[0]] + text[1..];
      if Cuts(s, text[0]) {
        assert ([""] + ps)[1..] == ps;
      } else if |ps| > 1 {
        assert Prefixed([text[0]], ps)[1..] == ps[1..];
        assert [text[0]] + (ps[0] + [','] + Text.Join(ps[1..], ',')) == [text[0]] + ps[0] + [','] + Text.Join(ps[1..], ',');
      }
    }
  }

  /** No comma at the top level. */
  predicate CommaFree(s: State, text: string)
    decreases |text|
  {
    text == "" || (!Cuts(s, text[0]) && CommaFree(Step(s, text[0]), text[1..]))
  }

  /** One argument: no top-level comma, and back at the top level with every string closed. */
  predicate Whole(a: string) { CommaFree(Top, a) && End(Top, a) == Top }

  lemma {:induction false} PartsAfter(s: State, a: string, rest: string)
    requires CommaFree(s, a)
    ensures Parts(s, a + rest) == Glued([], a, Parts(End(s, a), rest))
    decreases |a|
  {
    if a == "" {
      assert a + rest == rest;
      var r := Parts(s, rest);
      if r.Some? { PrefixedNothing(r.value); }
    } else {
      assert (a + rest)[1..] == a[1..] + rest;
      PartsAfter(Step(s, a[0]), a[1..], rest);
      var r := Parts(End(s, a), rest);
      if r.Some? {
        PrefixedTwice([a[0]], a[1..], r.value);
        assert [a[0]] + a[1..] == a;
        assert [] + Prefixed(a[1..], r.value) == Prefixed(a[1..], r.value);
        assert [] + Prefixed(a, r.value) == Prefixed(a, r.value);
      }
    }
  }

  /** Splitting comma-joined arguments gives exactly those arguments. */
  lemma {:induction false} SplitUndoesJoin(args: seq<string>)
    requires |args| >= 1 && forall a <- args :: Whole(a)
    ensures Parts(Top, Text.Join(args, ',')) == Some(args)
  {
    assert args[0] in args;
    if |args| == 1 {
      PartsAfter(Top, args[0], "");
      assert args[0] + "" == args[0];
      PrefixedBlank(args[0], []);
      assert [""] + [] == [""] && [args[0]] + [] == args && [] + args == args;
    } else {
      assert forall a <- args[1..] :: a in args;
      SplitUndoesJoin(args[1..]);
      var rest := Text.Join(args[1..], ',');
      PartsAfter(Top, args[0], [','] + rest);
      assert args[0] + ([','] + rest) == Text.Join(args, ',');
      assert ([','] + rest)[1..] == rest && Step(Top, ',') == Top;
      assert Parts(Top, [','] + rest) == Some([""] + args[1..]);
      PrefixedBlank(args[0], args[1..]);
      assert [] + args == args && args == [args[0]] + args[1..];
    }
  }

  lemma {:induction false} NonBlankKeepsAll(ps: seq<string>)
    requires forall p <- ps :: !Text.IsBlank(p)
    ensures NonBlank(ps) == ps
  {
    if ps != [] {
      assert ps[0] in ps && forall p <- ps[1..] :: p in ps;
      NonBlankKeepsAll(ps[1..]);
    }
  }

  lemma SplitTopLevelUndoesJoin(args: seq<string>)
    requires |args| >= 1 && forall a <- args :: Whole(a) && !Text.IsBlank(a)
    ensures SplitTopLevel(Text.Join(args, ',')) == Some(args)
  {
    SplitUndoesJoin(args);
    NonBlankKeepsAll(args);
  }

  /** Every part of a text that ends back at the top level is one argument, so the split is the only
      way to write it as a join of arguments. */
  lemma {:induction false} PartsAreArguments(s: State, text: string)
    requires End(s, text) == Top
    ensures Parts(s, text).Some?
    ensures var ps := Parts(s, text).value;
      CommaFree(s, ps[0]) && End(s, ps[0]) == Top && forall p <- ps[1..] :: Whole(p)
    decreases |text|
  {
    if text != "" {
      PartsAreArguments(Step(s, text[0]), text[1..]);
      var ps := Parts(Step(s, text[0]), text[1..]).value;
      if Cuts(s, text[0]) {
        assert ([""] + ps)[1..] == ps && ps == [ps[0]] + ps[1..];
      } else {
        var p := [text[0]] + ps[0];
        assert p[1..] == ps[0];
        assert Prefixed([text[0]], ps)[1..] == ps[1..];
      }
    }
  }

  // ---- What a comma has to be to cut ----

  /** Opening brackets of the three kinds less closing ones. */
  function Depth(text: string): int {
    if text == "" then 0
    else (if text[0] in "([{" then 1 else if text[0] in ")]}" then -1 else 0) + Depth(text[1..])
  }

  /** Outside strings the depth counts brackets, of whatever kind. */
  lemma {:induction false} BracketsCount(s: State, text: string)
    requires s.mode.Code? && '"' !in text
    ensures End(s, text) == State(s.depth + Depth(text), Code)
    decreases |text|
  {
    if text != "" {
      assert text == [text[0]] + text[1..];
      BracketsCount(Step(s, text[0]), text[1..]);
    }
  }

  /** Inside a string nothing counts: not a bracket, not a comma, and not a quote after a backslash. */
  lemma {:induction false} StringsAreSkipped(depth: int, x: string)
    requires '"' !in x && '\\' !in x
    ensures End(State(depth, Str), x) == State(depth, Str)
    ensures End(State(depth, Code), ['"'] + x + ['"']) == State(depth, Code)
    ensures forall c :: End(State(depth, Str), ['\\', c]) == State(depth, Str)
  {
    InString(depth, x);
    EndSnoc(State(depth, Str), x, '"');
    assert (['"'] + x + ['"'])[1..] == x + ['"'];
    forall c ensures End(State(depth, Str), ['\\', c]) == State(depth, Str) {
      assert ['\\', c] == ['\\'] + [c];
      EndSnoc(State(depth, Str), ['\\'], c);
      assert ['\\'][1..] == "";
    }
  }

  lemma {:induction false} InString(depth: int, x: string)
    requires '"' !in x && '\\' !in x
    ensures End(State(depth, Str), x) == State(depth, Str)
    decreases |x|
  {
    if x != "" {
      assert x == [x[0]] + x[1..];
      InString(depth, x[1..]);
    }
  }

  /** A comma cuts exactly outside strings and outside every bracket. */
  lemma CutsExactly(before: string, c: char)
    ensures '"' !in before ==> (Cuts(End(Top, before), c) <==> c == ',' && Depth(before) == 0)
    ensures forall s: State :: Cuts(s, c) ==> c == ',' && s.mode.Code? && s.depth == 0
  {
    if '"' !in before { BracketsCount(Top, before); }
  }

  /** Dropped from the parts are exactly the blank ones; the others keep their order. */
  lemma {:induction false} NonBlankExactly(ps: seq<string>, qs: seq<string>, p: string)
    ensures p in NonBlank(ps) <==> p in ps && exists i :: 0 <= i < |p| && !Text.IsSpace(p[i])
    ensures NonBlank(ps + qs) == NonBlank(ps) + NonBlank(qs)
    decreases |ps|
  {
    if ps == [] {
      assert ps + qs == qs && [] + NonBlank(qs) == NonBlank(qs);
    } else {
      NonBlankExactly(ps[1..], qs, p);
      assert (ps + qs)[1..] == ps[1..] + qs;
      assert ps == [ps[0]] + ps[1..];
    }
  }

  // ---- The matching parenthesis ----

  function RoundStep(s: State, c: char): State {
    State(if !s.mode.Code? then s.depth
          else if c == '(' then s.depth + 1
          else if c == ')' then s.depth - 1
          else s.depth,
          NextMode(s.mode, c))
  }

  function RoundEnd(s: State, text: string): State {
    if text == "" then s else RoundStep(RoundEnd(s, text[..|text| - 1]), text[|text| - 1])
  }

  /** The closing parenthesis at i brings the group opened at `from` back to the top. */
  predicate ClosesAt(text: string, from: nat, i: nat)
    requires from <= i < |text|
  {
    text[i] == ')' && RoundEnd(Top, text[from..i]) == State(1, Code)
  }

  /** Finds the end of the group that starts at openAt. */
  method Balanced(text: string, openAt: nat) returns (r: Option<(string, nat)>)
    ensures r.Some? ==>
      && openAt < r.value.1 < |text| && r.value.0 == text[openAt + 1..r.value.1]
      && ClosesAt(text, openAt, r.value.1)
      && forall j :: openAt <= j < r.value.1 ==> !ClosesAt(text, openAt, j)
    ensures r.None? ==> forall j :: openAt <= j < |text| ==> !ClosesAt(text, openAt, j)
  {
    var depth, i, inStr := 0, openAt, false;
    while i < |text|
      invariant openAt <= i
      invariant i == openAt ==> depth == 0 && !inStr
      invariant openAt <= i <= |text| ==> RoundEnd(Top, text[openAt..i]) == State(depth, if inStr then Str else Code)
      invariant forall j :: openAt <= j < i && j < |text| ==> !ClosesAt(text, openAt, j)
      decreases |text| - i
    {
      var ch := text[i];
      RoundNext(text, openAt, i);
      if inStr {
        if ch == '\\' {
          if i + 1 < |text| { RoundNext(text, openAt, i + 1); }
          i := i + 2;
          continue;
        }
        if ch == '"' { inStr := false; }
      } else if ch == '"' {
        inStr := true;
      } else if ch == '(' {
        depth := depth + 1;
      } else if ch == ')' {
        depth := depth - 1;
        if depth == 0 {
          return Some((text[openAt + 1..i], i));
        }
      }
      i := i + 1;
    }
    return None;
  }

  /** Outside strings this depth counts round parentheses alone. */
  lemma {:induction false} ParenthesesCount(text: string)
    requires '"' !in text
    ensures RoundEnd(Top, text) == State(multiset(text)['('] as int - multiset(text)[')'] as int, Code)
    decreases |text|
  {
    if text != "" {
      var n := |text| - 1;
      assert text == text[..n] + [text[n]];
      ParenthesesCount(text[..n]);
    }
  }

  /** Inside a string it counts nothing. */
  lemma ParenthesesInStringsDoNotCount(s: State, x: string)
    requires s.mode.Code? && '"' !in x && '\\' !in x
    ensures RoundEnd(s, ['"'] + x + ['"']) == s
  {
    var inside := State(s.depth, Str);
    RoundInString(inside, x);
    var all := ['"'] + x + ['"'];
    assert all == ['"'] + (x + ['"']) && (x + ['"'])[..|x|] == x;
    RoundFrom(s, '"', x + ['"']);
  }

  lemma {:induction false} RoundInString(s: State, x: string)
    requires s.mode.Str? && '"' !in x && '\\' !in x
    ensures RoundEnd(s, x) == s
    decreases |x|
  {
    if x != "" {
      var n := |x| - 1;
      assert x == x[..n] + [x[n]];
      RoundInString(s, x[..n]);
    }
  }

  lemma RoundNext(text: string, from: nat, i: nat)
    requires from <= i < |text|
    ensures RoundEnd(Top, text[from..i + 1]) == RoundStep(RoundEnd(Top, text[from..i]), text[i])
  {
    assert text[from..i + 1][..i - from] == text[from..i];
  }

  /** Both scanners agree on what is a string. */
  lemma {:induction false} SameMode(s: State, u: State, text: string)
    requires s.mode == u.mode
    ensures RoundEnd(s, text).mode == End(u, text).mode
    decreases |text|
  {
    if text != "" {
      var n := |text| - 1;
      SameMode(s, u, text[..n]);
      EndSnoc(u, text[..n], text[n]);
      assert text == text[..n] + [text[n]];
    }
  }

  lemma {:induction false} EndSnoc(s: State, text: string, c: char)
    ensures End(s, text + [c]) == Step(End(s, text), c)
    decreases |text|
  {
    if text == "" {
      assert text + [c] == [c] && [c][1..] == "";
    } else {
      assert (text + [c])[1..] == text[1..] + [c];
      EndSnoc(Step(s, text[0]), text[1..], c);
    }
  }

  lemma {:induction false} RoundFrom(s: State, c: char, text: string)
    ensures RoundEnd(s, [c] + text) == RoundEnd(RoundStep(s, c), text)
    decreases |text|
  {
    if text == "" {
      assert [c] + text == [c] && [c][..0] == "";
    } else {
      var n := |text| - 1;
      assert ([c] + text)[..|text|] == [c] + text[..n];
      RoundFrom(s, c, text[..n]);
    }
  }

  /** What the matching parenthesis encloses never makes the splitter fail: its strings are closed, and
      its unfiltered parts join back to it. */
  lemma ExtractedContentSplits(text: string, openAt: nat, end: nat)
    requires openAt < end < |text| && text[openAt] == '(' && ClosesAt(text, openAt, end)
    ensures var content := text[openAt + 1..end];
      && Parts(Top, content).Some?
      && Text.Join(Parts(Top, content).value, ',') == content
      && SplitTopLevel(content).Some?
  {
    var content := text[openAt + 1..end];
    assert text[openAt..end] == ['('] + content;
    RoundFrom(Top, '(', content);
    SameMode(State(1, Code), Top, content);
    FailsExactlyOnADanglingEscape(Top, content);
    JoinUndoesSplit(Top, content);
  }
}
