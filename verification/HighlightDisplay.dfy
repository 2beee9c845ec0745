/** When highlighted text, shown by a browser, is the original text. Marks are put into the escaped
    text, so a mark can fall inside a character reference and leave its two halves on display. */
module HighlightDisplay {
  import opened GoStrings
  import opened Highlight

  /** The `(?i)` matching of the highlighter, for ASCII letters. */
  predicate FoldEq(a: char, b: char) {
    LowerChar(a) == LowerChar(b)
  }

  /** The text a browser shows for an output, or `None` when its marks do not nest properly. */
  function ShownText(output: string, table: EntityTable): Option<string> {
    match ReadMarks(output)
    case None => None
    case Some(h) => Some(h.Display(table))
  }

  predicate Overlaps(a: string, b: string) {
    forall i :: 0 <= i < |a| && i < |b| ==> FoldEq(a[i], b[i])
  }

  /** The escaped term can match from inside a character reference: it agrees with the remainder of
      one of the five references, as far as both go. */
  predicate CutsEntity(term: string) {
    exists c, j :: c in "&'<>\"" && 1 <= j < |EscapeChar(c)| && Overlaps(EscapeString(term), EscapeChar(c)[j..])
  }

  // ---- Terms that cut no reference ----

  lemma PeelMatch(a: string, b: string, x: string, y: string)
    requires |a| == |x| && MatchesAt(a + b, x + y, FoldEq)
    ensures MatchesAt(b, y, FoldEq)
  {
    forall k | 0 <= k < |b| ensures FoldEq(b[k], y[k]) {
      assert FoldEq((a + b)[|a| + k], (x + y)[|a| + k]);
    }
  }

  lemma SameReference(c: char, d: char, s: string, t: string)
    requires Special(c) && MatchesAt(EscapeChar(c) + s, EscapeChar(d) + t, FoldEq)
    ensures |EscapeChar(c)| == |EscapeChar(d)|
  {
    var a, b := EscapeChar(c) + s, EscapeChar(d) + t;
    assert FoldEq(a[0], b[0]) && FoldEq(a[1], b[1]);
    assert a[0] == '&' && b[0] == EscapeChar(d)[0];
    if Special(d) {
      assert a[1] == EntityName(c)[0] && b[1] == EntityName(d)[0];
    }
  }

  lemma MatchesCharByChar(c: char, s: string, d: char, t: string)
    requires MatchesAt(EscapeChar(c) + s, EscapeChar(d) + t, FoldEq)
    ensures |EscapeChar(c)| == |EscapeChar(d)| && MatchesAt(s, t, FoldEq)
  {
    assert FoldEq((EscapeChar(c) + s)[0], (EscapeChar(d) + t)[0]);
    if Special(c) {
      SameReference(c, d, s, t);
    }
    PeelMatch(EscapeChar(c), s, EscapeChar(d), t);
  }

  lemma {:induction false} EscapeSplits(s: string, n: nat)
    requires n <= |s|
    ensures EscapeString(s) == EscapeString(s[..n]) + EscapeString(s[n..])
  {
    if n > 0 {
      EscapeSplits(s[1..], n - 1);
      assert s[..n][1..] == s[1..][..n - 1] && s[1..][n - 1..] == s[n..];
    } else {
      assert s[0..] == s;
    }
  }

  /** A match that starts at a character of the text also ends at one. */
  lemma {:induction false} MatchEndsAligned(term: string, text: string)
    requires MatchesAt(EscapeString(term), EscapeString(text), FoldEq)
    ensures |term| <= |text| && |EscapeString(term)| == |EscapeString(text[..|term|])|
  {
    if term != "" {
      EscapeNonEmpty(term);
      EscapeNonEmpty(text);
      MatchesCharByChar(term[0], EscapeString(term[1..]), text[0], EscapeString(text[1..]));
      MatchEndsAligned(term[1..], text[1..]);
      assert text[..|term|][1..] == text[1..][..|term| - 1];
    }
  }

  lemma MatchInsideReference(term: string, u: string, rest: string)
    requires MatchesAt(EscapeString(term), u + rest, FoldEq)
    ensures Overlaps(EscapeString(term), u)
  {
    var e := EscapeString(term);
    forall i | 0 <= i < |e| && i < |u| ensures FoldEq(e[i], u[i]) {
      assert (u + rest)[i] == u[i];
    }
  }

  lemma NoMatchInsideReference(term: string, c: char, j: nat, rest: string)
    requires !CutsEntity(term) && 1 <= j < |EscapeChar(c)|
    ensures !MatchesAt(EscapeString(term), EscapeChar(c)[j..] + rest, FoldEq)
  {
    if MatchesAt(EscapeString(term), EscapeChar(c)[j..] + rest, FoldEq) {
      MatchInsideReference(term, EscapeChar(c)[j..], rest);
    }
  }

  lemma {:induction false} StretchesAfterUnmatched(u: string, rest: string, e: string)
    requires e != "" && forall j :: 0 <= j < |u| ==> !MatchesAt(e, u[j..] + rest, FoldEq)
    ensures Stretches(u + rest, e, FoldEq) == Stretches(rest, e, FoldEq).Prepend(u)
  {
    if u == "" {
      assert u + rest == rest;
    } else {
      assert u[0..] == u;
      assert (u + rest)[1..] == u[1..] + rest;
      forall j | 0 <= j < |u[1..]| ensures !MatchesAt(e, u[1..][j..] + rest, FoldEq) {
        assert u[1..][j..] == u[j + 1..];
      }
      StretchesAfterUnmatched(u[1..], rest, e);
      var h := Stretches(rest, e, FoldEq);
      assert [u[0]] + (u[1..] + h.plain) == u + h.plain;
    }
  }

  /** A character outside every match is shown as itself. */
  lemma CharIsShown(c: char, rest: string, term: string, table: EntityTable)
    requires !CutsEntity(term) && Standard(table) && EscapeString(term) != ""
    requires !MatchesAt(EscapeString(term), EscapeChar(c) + rest, FoldEq)
    ensures Stretches(EscapeChar(c) + rest, EscapeString(term), FoldEq).Display(table)
         == [c] + Stretches(rest, EscapeString(term), FoldEq).Display(table)
  {
    var u, e := EscapeChar(c), EscapeString(term);
    forall j | 0 <= j < |u| ensures !MatchesAt(e, u[j..] + rest, FoldEq) {
      if j == 0 {
        assert u[0..] == u;
      } else {
        NoMatchInsideReference(term, c, j, rest);
      }
    }
    StretchesAfterUnmatched(u, rest, e);
    PrependedCharIsShown(Stretches(rest, e, FoldEq), c, table);
  }

  lemma PrependedIsShown(h: Highlighted, s: string, table: EntityTable)
    ensures h.Prepend(s).Display(table) == Unescape(s + h.plain, table) + h.DisplayHits(table)
  {
    var p := h.Prepend(s);
    assert p.DisplayHits(table) == h.DisplayHits(table);
  }

  lemma ConsAppend(c: char, a: string, b: string)
    ensures ([c] + a) + b == [c] + (a + b)
  {
  }

  lemma PrependedCharIsShown(h: Highlighted, c: char, table: EntityTable)
    requires Standard(table)
    ensures h.Prepend(EscapeChar(c)).Display(table) == [c] + h.Display(table)
  {
    PrependedIsShown(h, EscapeChar(c), table);
    UnescapeEscapedChar(c, h.plain, table);
    ConsAppend(c, Unescape(h.plain, table), h.DisplayHits(table));
  }

  /** A match is shown as the characters of the text it covers. */
  lemma MatchIsShown(text: string, term: string, table: EntityTable)
    requires Standard(table) && EscapeString(term) != "" && |term| <= |text|
    requires MatchesAt(EscapeString(term), EscapeString(text), FoldEq)
    requires |EscapeString(term)| == |EscapeString(text[..|term|])|
    ensures Stretches(EscapeString(text), EscapeString(term), FoldEq).Display(table)
         == text[..|term|] + Stretches(EscapeString(text[|term|..]), EscapeString(term), FoldEq).Display(table)
  {
    var e, s, n := EscapeString(term), EscapeString(text), |term|;
    EscapeSplits(text, n);
    UnescapeEscaped(text[..n], table);
    assert s[..|e|] == EscapeString(text[..n]) && s[|e|..] == EscapeString(text[n..]);
    var h := Stretches(s, e, FoldEq);
    assert h.Display(table) == h.DisplayHits(table);
  }

  lemma Rejoined(s: string, n: nat)
    requires n <= |s|
    ensures s[..n] + s[n..] == s
  {
  }

  lemma {:induction false} UncutTextIsShown(text: string, term: string, table: EntityTable)
    requires term != "" && !CutsEntity(term) && Standard(table) && EscapeString(term) != ""
    ensures Stretches(EscapeString(text), EscapeString(term), FoldEq).Display(table) == text
    decreases |text|
  {
    var e, s := EscapeString(term), EscapeString(text);
    if text == "" {
    } else if MatchesAt(e, s, FoldEq) {
      MatchEndsAligned(term, text);
      UncutTextIsShown(text[|term|..], term, table);
      MatchIsShown(text, term, table);
      Rejoined(text, |term|);
    } else {
      CharIsShown(text[0], EscapeString(text[1..]), term, table);
      UncutTextIsShown(text[1..], term, table);
    }
  }

  // ---- Terms that cut one ----

  lemma {:induction false} UnescapeWithoutEnd(s: string, table: EntityTable)
    requires ';' !in s
    ensures Unescape(s, table) == s
  {
    if s != "" {
      UnescapeWithoutEnd(s[1..], table);
      assert s + "" == s;
      IndexOfPrefix(s, "", ';');
    }
  }

  lemma {:induction false} UnescapeWithoutStart(a: string, b: string, table: EntityTable)
    requires '&' !in a
    ensures Unescape(a + b, table) == a + Unescape(b, table)
  {
    if a == "" {
      assert a + b == b;
    } else {
      assert a[0] in a && (a + b)[1..] == a[1..] + b;
      UnescapeWithoutStart(a[1..], b, table);
    }
  }

  lemma {:induction false} UnescapeAfterEnd(s: string, m: nat, table: EntityTable)
    requires m == IndexOf(s, ';') < |s|
    ensures |Unescape(s[m + 1..], table)| <= |Unescape(s, table)|
  {
    if m > 0 {
      assert s[1..][m..] == s[m + 1..];
      UnescapeAfterEnd(s[1..], m - 1, table);
    }
  }

  lemma {:induction false} IndexOfInPrefix(a: string, b: string, c: char)
    ensures IndexOf(a, c) < |a| ==> IndexOf(a + b, c) == IndexOf(a, c)
  {
    if a != "" && a[0] != c {
      assert (a + b)[1..] == a[1..] + b;
      IndexOfInPrefix(a[1..], b, c);
    }
  }

  /** Decoding at an `&` takes one character, or one reference, for one character. */
  lemma UnescapeAtAmpersand(s: string, table: EntityTable) returns (rest: string)
    requires s != "" && s[0] == '&'
    ensures |Unescape(s, table)| == 1 + |Unescape(rest, table)|
    ensures rest == s[1..] || (IndexOf(s, ';') < |s| && rest == s[IndexOf(s, ';') + 1..])
  {
    var m := IndexOf(s, ';');
    rest := if m < |s| && s[1..m] in table then s[m + 1..] else s[1..];
  }

  /** The first half ends inside a reference, or after an `&` that starts none. */
  lemma SplitInsideReference(a: string, b: string, table: EntityTable)
    requires a != "" && a[0] == '&' && ';' !in a
    requires |Unescape(a[1..] + b, table)| <= |a| - 1 + |Unescape(b, table)|
    ensures |Unescape(a + b, table)| <= |a| + |Unescape(b, table)|
  {
    var rest := UnescapeAtAmpersand(a + b, table);
    DropInto(a, b, 1);
    if rest != a[1..] + b {
      var n := AfterReference(a, b);
      UnescapeAfterEnd(b, n, table);
    }
  }

  /** A reference begun in the first half ends in the second. */
  lemma AfterReference(a: string, b: string) returns (n: nat)
    requires ';' !in a && IndexOf(a + b, ';') < |a + b|
    ensures n == IndexOf(b, ';') < |b| && (a + b)[IndexOf(a + b, ';') + 1..] == b[n + 1..]
  {
    IndexOfPrefix(a, b, ';');
    n := IndexOf(b, ';');
    DropInto(a, b, |a| + n + 1);
  }

  lemma DropInto(a: string, b: string, n: nat)
    requires n <= |a| + |b|
    ensures (a + b)[n..] == if n <= |a| then a[n..] + b else b[n - |a|..]
  {
  }

  /** Decoding the two halves of a string on their own never gives less than decoding it whole. */
  lemma {:induction false} SplittingShowsNoLess(a: string, b: string, table: EntityTable)
    ensures |Unescape(a + b, table)| <= |Unescape(a, table)| + |Unescape(b, table)|
    decreases |a|
  {
    if a == "" {
      assert a + b == b;
    } else {
      SplittingShowsNoLess(a[1..], b, table);
      var s, i := a + b, IndexOf(a, ';');
      assert s[1..] == a[1..] + b;
      if a[0] == '&' && i < |a| {
        IndexOfInPrefix(a, b, ';');
        assert s[1..i] == a[1..i] && s[i + 1..] == a[i + 1..] + b;
        SplittingShowsNoLess(a[i + 1..], b, table);
      } else if a[0] == '&' {
        assert a[..i] == a;
        UnescapeWithoutEnd(a, table);
        UnescapeWithoutEnd(a[1..], table);
        SplitInsideReference(a, b, table);
      }
    }
  }

  lemma {:induction false} DisplayShowsNoLess(h: Highlighted, table: EntityTable)
    ensures |Unescape(h.Body(), table)| <= |h.Display(table)|
  {
    if h.Hit? {
      DisplayShowsNoLess(h.rest, table);
      SplittingShowsNoLess(h.marked, h.rest.Body(), table);
      SplittingShowsNoLess(h.plain, h.marked + h.rest.Body(), table);
    } else {
      assert h.Body() == h.plain;
    }
  }

  lemma {:induction false} FirstMatchWithin(s: string, e: string, j: nat)
    requires e != "" && j <= |s| && MatchesAt(e, s[j..], FoldEq)
    ensures var h := Stretches(s, e, FoldEq);
            h.Hit? && |h.plain| <= j && (h.plain == "" ==> MatchesAt(e, s, FoldEq))
  {
    assert s[0..] == s;
    if !MatchesAt(e, s, FoldEq) {
      assert s[1..][j - 1..] == s[j..];
      FirstMatchWithin(s[1..], e, j - 1);
    }
  }

  /** An escaped term starts with plain characters for as long as it shows no `&`. */
  lemma {:induction false} EscapedPlainPrefix(term: string, k: nat)
    requires k <= |EscapeString(term)| && forall i :: 0 <= i < k ==> EscapeString(term)[i] != '&'
    ensures k <= |term| && EscapeString(term)[k..] == EscapeString(term[k..])
  {
    if k > 0 {
      var e := EscapeString(term);
      EscapeNonEmpty(term);
      assert e[0] == EscapeChar(term[0])[0];
      assert e[1..] == EscapeString(term[1..]);
      EscapedPlainPrefix(term[1..], k - 1);
      assert e[1..][k - 1..] == e[k..] && term[1..][k - 1..] == term[k..];
    } else {
      assert term[0..] == term && EscapeString(term)[0..] == EscapeString(term);
    }
  }

  lemma ReferenceShape(c: char, j: nat)
    requires Special(c) && 1 <= j < |EscapeChar(c)|
    ensures EscapeChar(c)[0] == '&'
    ensures '&' !in EscapeChar(c)[j..] && ';' !in EscapeChar(c)[..j]
  {
    assert '&' !in EntityName(c) && ';' !in EntityName(c);
    var e := EscapeChar(c);
    forall i | 1 <= i < |e| - 1 ensures e[i] != '&' && e[i] != ';' {
      assert e[i] == EntityName(c)[i - 1] && EntityName(c)[i - 1] in EntityName(c);
    }
  }

  /** The text on which a term that cuts the reference of `c` is caught doing so. */
  function CutText(term: string, c: char, j: nat): string
    requires 1 <= j < |EscapeChar(c)|
  {
    var k := |EscapeChar(c)| - j;
    [c] + (if k < |EscapeString(term)| && k <= |term| then term[k..] else "")
  }

  lemma CutTextMatches(term: string, c: char, j: nat)
    requires term != "" && Special(c) && 1 <= j < |EscapeChar(c)|
    requires Overlaps(EscapeString(term), EscapeChar(c)[j..])
    ensures MatchesAt(EscapeString(term), EscapeChar(c)[j..] + EscapeString(CutText(term, c, j)[1..]), FoldEq)
  {
    var v, e := EscapeChar(c)[j..], EscapeString(term);
    ReferenceShape(c, j);
    if |v| < |e| {
      forall i | 0 <= i < |v| ensures e[i] != '&' {
        assert FoldEq(e[i], v[i]) && v[i] in v;
      }
      EscapedPlainPrefix(term, |v|);
      assert CutText(term, c, j)[1..] == term[|v|..];
      OverlapThenEqual(e, v, EscapeString(term[|v|..]));
    } else {
      assert CutText(term, c, j)[1..] == "";
      assert v + "" == v;
    }
  }

  lemma OverlapThenEqual(e: string, v: string, rest: string)
    requires |v| <= |e| && Overlaps(e, v) && e[|v|..] == rest
    ensures MatchesAt(e, v + rest, FoldEq)
  {
    forall i | 0 <= i < |e| ensures FoldEq(e[i], (v + rest)[i]) {
      if i >= |v| { assert e[i] == e[|v|..][i - |v|]; }
    }
  }

  lemma CutParts(a: string, b: string, u: string, rest: string)
    requires a + b == u + rest && |a| <= |u|
    ensures a == u[..|a|] && b == u[|a|..] + rest
  {
    assert a == (a + b)[..|a|] == (u + rest)[..|a|];
    assert b == (a + b)[|a|..] == (u + rest)[|a|..];
  }

  /** A mark inside the reference of `c` leaves all of that reference's characters on display. */
  lemma CutReferenceIsShown(h: Highlighted, c: char, text: string, table: EntityTable)
    requires h.Hit? && Special(c) && Standard(table)
    requires h.Body() == EscapeChar(c) + EscapeString(text)
    requires 1 <= |h.plain| < |EscapeChar(c)|
    ensures |h.Display(table)| >= |EscapeChar(c)| + |text|
  {
    var u, i, tail := EscapeChar(c), |h.plain|, h.marked + h.rest.Body();
    ReferenceShape(c, i);
    CutParts(h.plain, tail, u, EscapeString(text));
    CutTailIsShown(u[i..], text, table);
    UnescapeWithoutEnd(h.plain, table);
    SplittingShowsNoLess(h.marked, h.rest.Body(), table);
    DisplayShowsNoLess(h.rest, table);
  }

  lemma CutTailIsShown(v: string, text: string, table: EntityTable)
    requires '&' !in v && Standard(table)
    ensures |Unescape(v + EscapeString(text), table)| == |v| + |text|
  {
    UnescapeWithoutStart(v, EscapeString(text), table);
    UnescapeEscaped(text, table);
  }

  lemma CutTextIsNotShown(term: string, c: char, j: nat, table: EntityTable)
    requires term != "" && Special(c) && 1 <= j < |EscapeChar(c)| && Standard(table)
    requires Overlaps(EscapeString(term), EscapeChar(c)[j..]) && EscapeString(term) != ""
    ensures var text := CutText(term, c, j);
            |Stretches(EscapeString(text), EscapeString(term), FoldEq).Display(table)| > |text|
  {
    var e, text := EscapeString(term), CutText(term, c, j);
    CutTextMatches(term, c, j);
    ReferenceShape(c, j);
    FirstMatchInReference(e, c, j, EscapeString(text[1..]));
    StretchesCoverText(EscapeString(text), e, FoldEq);
    CutReferenceIsShown(Stretches(EscapeString(text), e, FoldEq), c, text[1..], table);
  }

  lemma FirstMatchInReference(e: string, c: char, j: nat, rest: string)
    requires e != "" && Special(c) && 1 <= j < |EscapeChar(c)|
    requires Overlaps(e, EscapeChar(c)[j..]) && MatchesAt(e, EscapeChar(c)[j..] + rest, FoldEq)
    ensures var h := Stretches(EscapeChar(c) + rest, e, FoldEq); h.Hit? && 1 <= |h.plain| <= j
  {
    var u := EscapeChar(c);
    var s := u + rest;
    assert s[j..] == u[j..] + rest && s[0..] == s;
    FirstMatchWithin(s, e, j);
    ReferenceShape(c, j);
  }

  // ---- The exact condition ----

  lemma ShownIsDisplay(text: string, term: string, table: EntityTable)
    requires term != "" && EscapeString(term) != ""
    ensures ShownText(HighlightTerm(text, term, FoldEq), table)
         == Some(Stretches(EscapeString(text), EscapeString(term), FoldEq).Display(table))
  {
    EscapeHasNoTag(text);
    StretchesCoverText(EscapeString(text), EscapeString(term), FoldEq);
    MarksAreReadBack(Stretches(EscapeString(text), EscapeString(term), FoldEq));
  }

  // ---- One text ----

  /** The piece is the first `n` characters of the text, escaped. */
  predicate IsFirst(piece: string, text: string, n: nat) {
    n <= |text| && piece == EscapeString(text[..n])
  }

  /** The marks begin and end at characters of the text. */
  predicate Aligned(h: Highlighted, text: string)
    decreases h
  {
    h.Hit? ==>
      exists n: nat, k: nat | n <= |text| && k <= |text| - n ::
        IsFirst(h.plain, text, n) && IsFirst(h.marked, text[n..], k) && Aligned(h.rest, text[n..][k..])
  }

  lemma FirstEnds(piece: string, tail: string, text: string, n: nat, table: EntityTable)
    requires Standard(table) && IsFirst(piece, text, n) && piece + tail == EscapeString(text)
    ensures tail == EscapeString(text[n..]) && Unescape(piece, table) == text[..n]
  {
    EscapeSplits(text, n);
    UnescapeEscaped(text[..n], table);
    assert tail == (piece + tail)[|piece|..];
  }

  /** A first piece of an escaped text ends at a character, or inside a reference, and then its two ends show
      more than the text holds. */
  lemma {:induction false} FirstOrCut(a: string, b: string, text: string, table: EntityTable) returns (n: nat)
    requires Standard(table) && a + b == EscapeString(text)
    ensures IsFirst(a, text, n) || |Unescape(a, table)| + |Unescape(b, table)| > |text|
    decreases |text|
  {
    n := 0;
    if a != "" {
      EscapeNonEmpty(text);
      var u, rest := EscapeChar(text[0]), EscapeString(text[1..]);
      if |a| < |u| {
        ReferenceShape(text[0], |a|);
        CutParts(a, b, u, rest);
        UnescapeWithoutEnd(a, table);
        CutTailIsShown(u[|a|..], text[1..], table);
      } else {
        var a' := a[|u|..];
        Peel(a, b, u, rest);
        n := FirstOrCut(a', b, text[1..], table);
        UnescapeEscapedChar(text[0], a', table);
        if IsFirst(a', text[1..], n) {
          n := n + 1;
          assert text[..n][1..] == text[1..][..n - 1];
        }
      }
    }
  }

  lemma Peel(a: string, b: string, u: string, rest: string)
    requires a + b == u + rest && |u| <= |a|
    ensures a == u + a[|u|..] && a[|u|..] + b == rest
  {
    assert a[..|u|] == (a + b)[..|u|] == u;
    assert a[|u|..] + b == (a + b)[|u|..] == rest;
  }

  lemma {:induction false} AlignedIsShown(h: Highlighted, text: string, table: EntityTable)
    requires Standard(table) && h.Body() == EscapeString(text) && Aligned(h, text)
    ensures h.Display(table) == text
    decreases h
  {
    match h
    case End(plain) =>
      UnescapeEscaped(text, table);
      assert h.Body() == plain && h.Display(table) == Unescape(plain, table);
    case Hit(plain, marked, rest) =>
      var n: nat, k: nat :| n <= |text| && k <= |text| - n
        && IsFirst(plain, text, n) && IsFirst(marked, text[n..], k) && Aligned(rest, text[n..][k..]);
      FirstEnds(plain, marked + rest.Body(), text, n, table);
      FirstEnds(marked, rest.Body(), text[n..], k, table);
      AlignedIsShown(rest, text[n..][k..], table);
      Rejoined(text[n..], k);
      Rejoined(text, n);
  }

  lemma {:induction false} CutShowsMore(h: Highlighted, text: string, table: EntityTable)
    requires Standard(table) && h.Body() == EscapeString(text) && !Aligned(h, text)
    ensures |h.Display(table)| > |text|
    decreases h
  {
    DisplayShowsNoLess(h.rest, table);
    SplittingShowsNoLess(h.marked, h.rest.Body(), table);
    var n := FirstOrCut(h.plain, h.marked + h.rest.Body(), text, table);
    if IsFirst(h.plain, text, n) {
      FirstEnds(h.plain, h.marked + h.rest.Body(), text, n, table);
      var k := FirstOrCut(h.marked, h.rest.Body(), text[n..], table);
      if IsFirst(h.marked, text[n..], k) {
        FirstEnds(h.marked, h.rest.Body(), text[n..], k, table);
        CutShowsMore(h.rest, text[n..][k..], table);
      }
    }
  }

  /** Highlighting a term shows a text unchanged exactly when every mark begins and ends at a character of
      it; otherwise more characters are shown than the text has. */
  lemma ShowsTextIffAligned(text: string, term: string, table: EntityTable)
    requires term != "" && Standard(table)
    ensures ShownText(HighlightTerm(text, term, FoldEq), table) == Some(text)
            <==> Aligned(Stretches(EscapeString(text), EscapeString(term), FoldEq), text)
  {
    var h := Stretches(EscapeString(text), EscapeString(term), FoldEq);
    EscapeNonEmpty(term);
    ShownIsDisplay(text, term, table);
    StretchesCoverText(EscapeString(text), EscapeString(term), FoldEq);
    if Aligned(h, text) {
      AlignedIsShown(h, text, table);
    } else {
      CutShowsMore(h, text, table);
    }
  }

  /** Highlighting a term shows every text unchanged exactly when the term cuts no character reference. */
  lemma ShowsEveryTextIffNoCut(term: string, table: EntityTable)
    requires term != "" && Standard(table)
    ensures (forall text :: ShownText(HighlightTerm(text, term, FoldEq), table) == Some(text)) <==> !CutsEntity(term)
  {
    EscapeNonEmpty(term);
    if CutsEntity(term) {
      var c, j :| c in "&'<>\"" && 1 <= j < |EscapeChar(c)| && Overlaps(EscapeString(term), EscapeChar(c)[j..]);
      var text := CutText(term, c, j);
      CutTextIsNotShown(term, c, j, table);
      ShownIsDisplay(text, term, table);
      assert ShownText(HighlightTerm(text, term, FoldEq), table) != Some(text);
    } else {
      forall text ensures ShownText(HighlightTerm(text, term, FoldEq), table) == Some(text) {
        ShownIsDisplay(text, term, table);
        UncutTextIsShown(text, term, table);
      }
    }
  }

  /** Searching for `b` in the text `aB` marks the capital letter. */
  lemma CapitalIsMarked()
    ensures HighlightTerm("aB", "b", FoldEq) == "a<mark>B</mark>"
  {
    assert "aB"[1..] == "B" && "B"[1..] == "" && "b"[1..] == "";
    assert EscapeString("B") == "B" && EscapeString("aB") == "aB" && EscapeString("b") == "b";
    assert MarkMatches("B", "b", FoldEq) == "<mark>" + ("B" + ("</mark>" + ""));
  }

  /** Searching for `amp` in a text that is a single ampersand shows `&amp;` instead of it. */
  lemma AmpersandIsCut(table: EntityTable)
    requires Standard(table)
    ensures CutsEntity("amp")
    ensures exists text :: ShownText(HighlightTerm(text, "amp", FoldEq), table) != Some(text)
  {
    var e := EscapeString("amp");
    assert "amp"[1..] == "mp" && "mp"[1..] == "p" && "p"[1..] == "";
    assert e == "amp";
    assert EscapeChar('&') == "&amp;";
    assert Overlaps(e, EscapeChar('&')[1..]);
    ShowsEveryTextIffNoCut("amp", table);
  }
}
