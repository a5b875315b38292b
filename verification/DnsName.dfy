/** The DNS-name sanitiser behind every derived object name. Lower-casing and the 32-bit hash are
    parameters: what matters of them is stated where it is used. */
module DnsName {

  predicate Alnum(c: char) { ('a' <= c <= 'z') || ('0' <= c <= '9') }

  predicate NoDoubleHyphen(s: string) {
    forall i :: 0 <= i < |s| - 1 ==> !(s[i] == '-' && s[i + 1] == '-')
  }

  predicate Allowed(s: string) { forall i :: 0 <= i < |s| ==> Alnum(s[i]) || s[i] == '-' }

  /** A label under section 2.1 of RFC 1123, in the lower-case form the API server accepts, with no
      two hyphens in a row. */
  predicate Label(s: string) {
    s != "" && Allowed(s) && Alnum(s[0]) && Alnum(s[|s| - 1]) && NoDoubleHyphen(s)
  }

  /** Eight characters of lower-case hexadecimal. */
  ghost predicate HashShape(hash: string -> string) {
    forall s :: |hash(s)| == 8 && forall i :: 0 <= i < 8 ==> Alnum(hash(s)[i])
  }

  // ---- Cleaning ----

  /** Every run of other characters becomes one hyphen; after: the previous character written was one. */
  function Collapsed(s: string, lower: char -> char, after: bool): string
    decreases |s|
  {
    if s == "" then ""
    else
      var c := lower(s[0]);
      if Alnum(c) then [c] + Collapsed(s[1..], lower, false)
      else (if after then "" else "-") + Collapsed(s[1..], lower, true)
  }

  function TrimLeft(s: string): string { if s != "" && s[0] == '-' then TrimLeft(s[1..]) else s }

  function TrimRight(s: string): string { if s != "" && s[|s| - 1] == '-' then TrimRight(s[..|s| - 1]) else s }

  function Clean(raw: string, lower: char -> char): string {
    var t := TrimRight(TrimLeft(Collapsed(raw, lower, false)));
    if t == "" then "x" else t
  }

  function Sanitized(raw: string, max: int, lower: char -> char, hash: string -> string): string {
    var s := Clean(raw, lower);
    if |s| <= max then s
    else
      var keep := if max - |hash(raw)| - 1 < 1 then 1 else max - |hash(raw)| - 1;
      TrimRight(if keep <= |s| then s[..keep] else s) + "-" + hash(raw)
  }

  /** What one character adds to the collapsed text. */
  function Piece(c: char, after: bool): string {
    if Alnum(c) then [c] else if after then "" else "-"
  }

  lemma CollapsedNext(raw: string, i: nat, lower: char -> char, b: string, after: bool)
    requires i < |raw|
    ensures var c := lower(raw[i]);
      b + Collapsed(raw[i..], lower, after) == b + Piece(c, after) + Collapsed(raw[i + 1..], lower, !Alnum(c))
  {
    var c := lower(raw[i]);
    var rest := Collapsed(raw[i + 1..], lower, !Alnum(c));
    assert raw[i..][1..] == raw[i + 1..];
    assert Collapsed(raw[i..], lower, after) == Piece(c, after) + rest;
    assert b + (Piece(c, after) + rest) == b + Piece(c, after) + rest;
  }

  method Collapse(raw: string, lower: char -> char) returns (b: string)
    ensures b == Collapsed(raw, lower, false)
  {
    b := "";
    var prevHyphen := false;
    assert raw[0..] == raw;
    for i := 0 to |raw|
      invariant Collapsed(raw, lower, false) == b + Collapsed(raw[i..], lower, prevHyphen)
    {
      CollapsedNext(raw, i, lower, b, prevHyphen);
      var c := lower(raw[i]);
      b, prevHyphen := Written(b, c, prevHyphen);
    }
    assert raw[|raw|..] == "";
  }

  method Written(b: string, c: char, prevHyphen: bool) returns (r: string, hyphen: bool)
    ensures r == b + Piece(c, prevHyphen) && hyphen == !Alnum(c)
  {
    r := b;
    if Alnum(c) {
      r := b + [c];
      hyphen := false;
    } else {
      if !prevHyphen { r := b + "-"; }
      hyphen := true;
    }
  }

  method SanitizeDNSName(raw: string, max: int, lower: char -> char, hash: string -> string) returns (r: string)
    ensures r == Sanitized(raw, max, lower, hash)
  {
    var b := Collapse(raw, lower);
    var s := TrimRight(TrimLeft(b));
    if s == "" { s := "x"; }
    if |s| <= max { return s; }
    var suffix := hash(raw);
    var keep := max - |suffix| - 1;
    if keep < 1 { keep := 1; }
    return TrimRight(if keep <= |s| then s[..keep] else s) + "-" + suffix;
  }

  // ---- Its shape ----

  lemma {:induction false} CollapsedShape(s: string, lower: char -> char, after: bool)
    ensures var r := Collapsed(s, lower, after);
      Allowed(r) && NoDoubleHyphen(r) && (after && r != "" ==> r[0] != '-')
    decreases |s|
  {
    if s != "" {
      CollapsedShape(s[1..], lower, !Alnum(lower(s[0])));
    }
  }

  lemma {:induction false} TrimLeftShape(s: string)
    requires Allowed(s) && NoDoubleHyphen(s)
    ensures var r := TrimLeft(s); Allowed(r) && NoDoubleHyphen(r) && (r != "" ==> Alnum(r[0]))
  {
    if s != "" && s[0] == '-' { TrimLeftShape(s[1..]); }
  }

  lemma {:induction false} TrimRightShape(s: string)
    requires Allowed(s) && NoDoubleHyphen(s) && (s != "" ==> Alnum(s[0]))
    ensures var r := TrimRight(s);
      && |r| <= |s| && r == s[..|r|]
      && (s != "" ==> Label(r)) && (s == "" ==> r == "")
  {
    if s != "" && s[|s| - 1] == '-' { TrimRightShape(s[..|s| - 1]); }
  }

  lemma CleanIsLabel(raw: string, lower: char -> char)
    ensures Label(Clean(raw, lower))
  {
    CollapsedShape(raw, lower, false);
    TrimLeftShape(Collapsed(raw, lower, false));
    TrimRightShape(TrimLeft(Collapsed(raw, lower, false)));
  }

  /** For every input and every maximum the result is a label. */
  lemma SanitizedIsLabel(raw: string, max: int, lower: char -> char, hash: string -> string)
    requires HashShape(hash)
    ensures Label(Sanitized(raw, max, lower, hash))
  {
    CleanIsLabel(raw, lower);
    var s := Clean(raw, lower);
    if |s| > max {
      var h := hash(raw);
      var keep := if max - |h| - 1 < 1 then 1 else max - |h| - 1;
      var cut := if keep <= |s| then s[..keep] else s;
      TrimRightShape(cut);
      var t := TrimRight(cut);
      var r := t + "-" + h;
      assert forall i :: 0 <= i < |r| ==> r[i] == if i < |t| then t[i] else if i == |t| then '-' else h[i - |t| - 1];
    }
  }

  /** The result keeps to the maximum exactly when the cleaned name already does or the maximum has room
      for one character, a hyphen and the hash. */
  lemma LengthIsKeptExactly(raw: string, max: int, lower: char -> char, hash: string -> string)
    requires HashShape(hash)
    ensures |Sanitized(raw, max, lower, hash)| <= max <==> |Clean(raw, lower)| <= max || max >= 10
  {
    CleanIsLabel(raw, lower);
    var s := Clean(raw, lower);
    if |s| > max {
      var keep := if max - 9 < 1 then 1 else max - 9;
      var cut := if keep <= |s| then s[..keep] else s;
      TrimRightShape(cut);
    }
  }

  // ---- What the name is made of ----

  /** The maximal runs of letters and digits of the lower-cased text, in order. */
  function Words(s: string, lower: char -> char): (ws: seq<string>)
    ensures s != "" && Alnum(lower(s[0])) ==> ws != []
    decreases |s|
  {
    if s == "" then []
    else
      var rest := Words(s[1..], lower);
      if !Alnum(lower(s[0])) then rest
      else if |s| > 1 && Alnum(lower(s[1])) then [[lower(s[0])] + rest[0]] + rest[1..]
      else [[lower(s[0])]] + rest
  }

  /** With a hyphen between any two of them. */
  function Hyphenated(ws: seq<string>): string
    requires ws != []
  {
    if |ws| == 1 then ws[0] else ws[0] + "-" + Hyphenated(ws[1..])
  }

  predicate AllWords(ws: seq<string>) { forall w <- ws :: w != "" && forall i :: 0 <= i < |w| ==> Alnum(w[i]) }

  lemma {:induction false} WordsAreWords(s: string, lower: char -> char)
    ensures AllWords(Words(s, lower))
    decreases |s|
  {
    if s != "" { WordsAreWords(s[1..], lower); }
  }

  lemma {:induction false} HyphenatedEnds(ws: seq<string>)
    requires ws != [] && AllWords(ws)
    ensures var h := Hyphenated(ws); h != "" && Alnum(h[0]) && Alnum(h[|h| - 1])
  {
    assert ws[0] in ws;
    if |ws| > 1 {
      assert forall w <- ws[1..] :: w in ws;
      HyphenatedEnds(ws[1..]);
    }
  }

  /** A hyphen where other characters come before the words, unless one was just written. */
  function Before(s: string, lower: char -> char, after: bool): string {
    if s != "" && !Alnum(lower(s[0])) && !after then "-" else ""
  }

  function Behind(s: string, lower: char -> char): string {
    if s != "" && !Alnum(lower(s[|s| - 1])) then "-" else ""
  }

  /** The words with hyphens between them, and whatever stands before and behind. */
  function Spaced(b: string, ws: seq<string>, e: string): string {
    if ws == [] then b else b + Hyphenated(ws) + e
  }

  lemma GrowFirst(c: char, ws: seq<string>, e: string)
    requires ws != []
    ensures Spaced("", [[c] + ws[0]] + ws[1..], e) == [c] + Spaced("", ws, e)
  {
    var grown := [[c] + ws[0]] + ws[1..];
    assert grown[1..] == ws[1..];
    if |ws| > 1 {
      assert [c] + ws[0] + "-" + Hyphenated(ws[1..]) == [c] + (ws[0] + "-" + Hyphenated(ws[1..]));
    }
    assert Hyphenated(grown) == [c] + Hyphenated(ws);
    assert "" + Hyphenated(grown) + e == [c] + ("" + Hyphenated(ws) + e);
  }

  lemma PutFirst(c: char, ws: seq<string>, e: string)
    requires ws == [] ==> e == "-"
    ensures Spaced("", [[c]] + ws, e) == [c] + Spaced("-", ws, e)
  {
    var more := [[c]] + ws;
    assert more[1..] == ws;
    if ws == [] {
      assert more == [[c]];
    } else {
      assert "" + Hyphenated(more) + e == [c] + ("-" + Hyphenated(ws) + e);
    }
  }

  lemma {:induction false} CollapsedIsHyphenated(s: string, lower: char -> char, after: bool)
    ensures Collapsed(s, lower, after) == Spaced(Before(s, lower, after), Words(s, lower), Behind(s, lower))
    decreases |s|
  {
    if |s| == 1 {
      assert s[1..] == "";
    } else if s != "" {
      var t := s[1..];
      CollapsedIsHyphenated(t, lower, !Alnum(lower(s[0])));
      assert t[0] == s[1] && t[|t| - 1] == s[|s| - 1];
      assert Behind(t, lower) == Behind(s, lower);
      if Alnum(lower(s[0])) { OneMoreLetter(s, lower, t); } else { OneMoreOther(s, lower, after, t); }
    }
  }

  lemma OneMoreOther(s: string, lower: char -> char, after: bool, t: string)
    requires |s| > 1 && t == s[1..] && !Alnum(lower(s[0])) && Behind(t, lower) == Behind(s, lower)
    requires Collapsed(t, lower, true) == Spaced(Before(t, lower, true), Words(t, lower), Behind(t, lower))
    ensures Collapsed(s, lower, after) == Spaced(Before(s, lower, after), Words(s, lower), Behind(s, lower))
  {
    var ws := Words(t, lower);
    assert Words(s, lower) == ws && Before(t, lower, true) == "";
    var b := Before(s, lower, after);
    if ws != [] { assert b + ("" + Hyphenated(ws) + Behind(s, lower)) == b + Hyphenated(ws) + Behind(s, lower); }
  }

  lemma OneMoreLetter(s: string, lower: char -> char, t: string)
    requires |s| > 1 && t == s[1..] && Alnum(lower(s[0])) && Behind(t, lower) == Behind(s, lower)
    requires Collapsed(t, lower, false) == Spaced(Before(t, lower, false), Words(t, lower), Behind(t, lower))
    ensures Collapsed(s, lower, false) == Spaced("", Words(s, lower), Behind(s, lower))
    ensures Collapsed(s, lower, true) == Collapsed(s, lower, false)
  {
    var c := lower(s[0]);
    var ws := Words(t, lower);
    assert t[0] == s[1];
    if Alnum(lower(s[1])) {
      GrowFirst(c, ws, Behind(s, lower));
    } else {
      if ws == [] {
        NoWords(t, lower);
        assert !Alnum(lower(t[|t| - 1]));
      }
      PutFirst(c, ws, Behind(s, lower));
    }
  }

  lemma {:induction false} NoWords(s: string, lower: char -> char)
    requires Words(s, lower) == []
    ensures forall i :: 0 <= i < |s| ==> !Alnum(lower(s[i]))
    decreases |s|
  {
    if s != "" { NoWords(s[1..], lower); }
  }

  lemma TrimsLeft(b: string, t: string)
    requires (b == "" || b == "-") && t != "" && t[0] != '-'
    ensures TrimLeft(b + t) == t
  {
    if b == "-" { assert (b + t)[1..] == t; } else { assert b + t == t; }
  }

  lemma TrimsRight(h: string, e: string)
    requires (e == "" || e == "-") && h != "" && h[|h| - 1] != '-'
    ensures TrimRight(h + e) == h
  {
    if e == "-" { assert (h + e)[..|h|] == h; } else { assert h + e == h; }
  }

  lemma TrimsToMiddle(b: string, h: string, e: string)
    requires (b == "" || b == "-") && (e == "" || e == "-") && h != "" && Alnum(h[0]) && Alnum(h[|h| - 1])
    ensures TrimRight(TrimLeft(b + h + e)) == h
  {
    var t := h + e;
    assert t[0] == h[0];
    assert b + h + e == b + t;
    TrimsLeft(b, t);
    TrimsRight(h, e);
  }

  /** The cleaned name is the words of the raw one with hyphens between them, or an x for want of any. */
  lemma CleanIsHyphenated(raw: string, lower: char -> char)
    ensures Clean(raw, lower) == if Words(raw, lower) == [] then "x" else Hyphenated(Words(raw, lower))
  {
    CollapsedIsHyphenated(raw, lower, false);
    WordsAreWords(raw, lower);
    var ws := Words(raw, lower);
    if ws == [] {
      assert TrimLeft("") == "" && TrimLeft("-") == TrimLeft("");
    } else {
      HyphenatedEnds(ws);
      TrimsToMiddle(Before(raw, lower, false), Hyphenated(ws), Behind(raw, lower));
    }
  }

  /** A start of s of at most this length, without hyphens at the cut. */
  predicate CutAt(start: string, s: string, keep: int) {
    && start <= s && |start| <= keep && (start != "" ==> start[|start| - 1] != '-')
    && forall i :: |start| <= i < keep && i < |s| ==> s[i] == '-'
  }

  lemma CutExactly(s: string, keep: int)
    requires 0 <= keep
    ensures CutAt(TrimRight(if keep <= |s| then s[..keep] else s), s, keep)
  {
    var cut := if keep <= |s| then s[..keep] else s;
    TrimRightExactly(cut);
    assert cut <= s;
  }

  /** And the sanitised name is the cleaned one where it fits; otherwise a start of it, cut to leave room for a
      hyphen and the hash of the raw name, without hyphens at the cut. */
  lemma SanitizedExactly(raw: string, max: int, lower: char -> char, hash: string -> string) returns (start: string)
    requires HashShape(hash)
    ensures var s := Clean(raw, lower);
      && (|s| <= max ==> Sanitized(raw, max, lower, hash) == s)
      && (|s| > max ==>
            && Sanitized(raw, max, lower, hash) == start + "-" + hash(raw)
            && CutAt(start, s, if max >= 10 then max - 9 else 1))
  {
    var s := Clean(raw, lower);
    var keep := if max >= 10 then max - 9 else 1;
    assert |hash(raw)| == 8;
    CutExactly(s, keep);
    start := TrimRight(if keep <= |s| then s[..keep] else s);
  }

  lemma {:induction false} TrimRightExactly(s: string)
    ensures var t := TrimRight(s);
      && t <= s && (t != "" ==> t[|t| - 1] != '-') && forall i :: |t| <= i < |s| ==> s[i] == '-'
  {
    if s != "" && s[|s| - 1] == '-' { TrimRightExactly(s[..|s| - 1]); }
  }

  /** An input at which it does not: two letters, a maximum of one, ten characters back. */
  lemma LengthIsOverrun(lower: char -> char, hash: string -> string)
    requires HashShape(hash) && lower('a') == 'a' && lower('b') == 'b'
    ensures |Sanitized("ab", 1, lower, hash)| == 10
  {
    assert "ab"[1..] == "b" && "b"[1..] == "";
    assert Collapsed("ab", lower, false) == "ab";
    assert TrimRight("a") == "a";
    assert "ab"[..1] == "a";
  }

  // ---- Sanitising twice ----

  /** Lower-casing leaves the characters of a label alone. */
  ghost predicate FixesLabels(lower: char -> char) { forall c :: Alnum(c) || c == '-' ==> lower(c) == c }

  lemma {:induction false} CollapsedFixes(s: string, lower: char -> char, after: bool)
    requires FixesLabels(lower) && Allowed(s) && NoDoubleHyphen(s) && (after && s != "" ==> s[0] != '-')
    ensures Collapsed(s, lower, after) == s
    decreases |s|
  {
    if s != "" {
      assert s == [s[0]] + s[1..];
      CollapsedFixes(s[1..], lower, s[0] == '-');
    }
  }

  /** A label is its own clean form. */
  lemma CleanFixesLabels(s: string, lower: char -> char)
    requires FixesLabels(lower) && Label(s)
    ensures Clean(s, lower) == s
  {
    CollapsedFixes(s, lower, false);
  }

  /** Sanitising twice is sanitising once, whenever the first result fits. */
  lemma SanitizingIsIdempotent(raw: string, max: int, lower: char -> char, hash: string -> string)
    requires HashShape(hash) && FixesLabels(lower)
    requires |Clean(raw, lower)| <= max || max >= 10
    ensures var once := Sanitized(raw, max, lower, hash); Sanitized(once, max, lower, hash) == once
  {
    SanitizedIsLabel(raw, max, lower, hash);
    LengthIsKeptExactly(raw, max, lower, hash);
    CleanFixesLabels(Sanitized(raw, max, lower, hash), lower);
  }

  const MOVER_PREFIX_MAX := 56

  /** With the cap of 56 the mover Job's name is a label that fits the 63 characters of one. */
  lemma MoverNameFits(raw: string, lower: char -> char, hash: string -> string)
    requires HashShape(hash)
    ensures var name := Sanitized(raw, MOVER_PREFIX_MAX, lower, hash) + "-mover"; Label(name) && |name| <= 63
  {
    SanitizedIsLabel(raw, MOVER_PREFIX_MAX, lower, hash);
    LengthIsKeptExactly(raw, MOVER_PREFIX_MAX, lower, hash);
    var p := Sanitized(raw, MOVER_PREFIX_MAX, lower, hash);
    var name := p + "-mover";
    assert forall i :: 0 <= i < |name| ==> name[i] == if i < |p| then p[i] else "-mover"[i - |p|];
  }
}
