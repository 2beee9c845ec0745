/** The search-term highlighter of internal/search/search_repository.go. */
module Highlight {
  import opened GoStrings

  const OPEN := "<mark>"
  const CLOSE := "</mark>"

  // ---- HTML escaping ----

  predicate Special(c: char) {
    c in "&'<>\""
  }

  /** The name of the reference that stands for a special character. */
  function EntityName(c: char): string {
    match c
    case '&' => "amp"
    case '\'' => "#39"
    case '<' => "lt"
    case '>' => "gt"
    case _ => "#34"
  }

  /** `html.EscapeString` on one character. */
  function EscapeChar(c: char): (r: string)
    ensures r != ""
  {
    if Special(c) then ['&'] + EntityName(c) + [';'] else [c]
  }

  function EscapeString(s: string): string {
    if s == "" then "" else EscapeChar(s[0]) + EscapeString(s[1..])
  }

  /** Named and numeric character references; `EscapeString` only writes the five of `Standard`. */
  type EntityTable = map<string, char>

  predicate Standard(table: EntityTable) {
    && "amp" in table && table["amp"] == '&'
    && "#39" in table && table["#39"] == '\''
    && "lt" in table && table["lt"] == '<'
    && "gt" in table && table["gt"] == '>'
    && "#34" in table && table["#34"] == '"'
  }

  /** What a reader of HTML text sees: each known `&name;` stands for its character. */
  function Unescape(s: string, table: EntityTable): (r: string)
    decreases |s|
  {
    if s == "" then ""
    else if s[0] == '&' then
      var i := IndexOf(s, ';');
      if i < |s| && s[1..i] in table then [table[s[1..i]]] + Unescape(s[i + 1..], table)
      else ['&'] + Unescape(s[1..], table)
    else [s[0]] + Unescape(s[1..], table)
  }

  // ---- Highlighting ----

  predicate MatchesAt(term: string, s: string, same: CharRelation) {
    |term| <= |s| && forall k :: 0 <= k < |term| ==> same(term[k], s[k])
  }

  /** Replacing the leftmost matches, without overlap, by marked copies of themselves. */
  function MarkMatches(s: string, term: string, same: CharRelation): string
    requires term != ""
    decreases |s|
  {
    if s == "" then ""
    else if MatchesAt(term, s, same) then
      OPEN + (s[..|term|] + (CLOSE + MarkMatches(s[|term|..], term, same)))
    else [s[0]] + MarkMatches(s[1..], term, same)
  }

  lemma EscapeNonEmpty(s: string)
    ensures EscapeString(s) == "" <==> s == ""
  {
  }

  function HighlightTerm(text: string, term: string, same: CharRelation): string {
    if term == "" then EscapeString(text)
    else
      EscapeNonEmpty(term);
      MarkMatches(EscapeString(text), EscapeString(term), same)
  }

  // ---- Highlighted text, read from the output ----

  /** Unmarked and marked stretches in turn: marks alternate and never nest. */
  datatype Highlighted = End(plain: string) | Hit(plain: string, marked: string, rest: Highlighted) {
    function Write(): string
      decreases this, 1
    {
      plain + WriteHits()
    }

    function WriteHits(): string
      decreases this, 0
    {
      match this
      case End(_) => ""
      case Hit(_, marked, rest) => OPEN + (marked + (CLOSE + rest.Write()))
    }

    /** The text without its marks. */
    function Body(): string
      decreases this, 1
    {
      plain + BodyOfHits()
    }

    function BodyOfHits(): string
      decreases this, 0
    {
      match this
      case End(_) => ""
      case Hit(_, marked, rest) => marked + rest.Body()
    }

    /** What is shown: HTML decodes each stretch between two tags on its own. */
    function Display(table: EntityTable): string
      decreases this, 1
    {
      Unescape(plain, table) + DisplayHits(table)
    }

    function DisplayHits(table: EntityTable): string
      decreases this, 0
    {
      match this
      case End(_) => ""
      case Hit(_, marked, rest) => Unescape(marked, table) + rest.Display(table)
    }

    function Prepend(s: string): Highlighted {
      this.(plain := s + plain)
    }
  }

  /** Reads the marks of an output; `None` when they do not alternate or another tag occurs. */
  function ReadMarks(s: string): Option<Highlighted>
    decreases |s|
  {
    var i := IndexOf(s, '<');
    if i == |s| then Some(End(s))
    else if !HasPrefix(s[i..], OPEN) then None
    else
      var t := s[i + |OPEN|..];
      var j := IndexOf(t, '<');
      if !HasPrefix(t[j..], CLOSE) then None
      else
        match ReadMarks(t[j + |CLOSE|..])
        case None => None
        case Some(rest) => Some(Hit(s[..i], t[..j], rest))
  }

  /** The marked stretches are matches, and no match starts in an unmarked one. */
  predicate Correct(h: Highlighted, term: string, same: CharRelation) {
    && (forall p :: 0 <= p < |h.plain| ==> !MatchesAt(term, h.Body()[p..], same))
    && (h.Hit? ==>
          && |h.marked| == |term| && MatchesAt(term, h.marked, same)
          && Correct(h.rest, term, same))
  }

  /** The stretches of a text, by the leftmost matches. */
  function Stretches(s: string, term: string, same: CharRelation): Highlighted
    requires term != ""
    decreases |s|
  {
    if s == "" then End("")
    else if MatchesAt(term, s, same) then Hit("", s[..|term|], Stretches(s[|term|..], term, same))
    else Stretches(s[1..], term, same).Prepend([s[0]])
  }

  lemma {:induction false} StretchesCoverText(s: string, term: string, same: CharRelation)
    requires term != ""
    ensures var h := Stretches(s, term, same);
            h.Write() == MarkMatches(s, term, same) && h.Body() == s
    decreases |s|
  {
    if s == "" {
    } else if MatchesAt(term, s, same) {
      StretchesCoverText(s[|term|..], term, same);
      assert s == s[..|term|] + s[|term|..];
      var h := Stretches(s, term, same);
      assert h.Write() == h.WriteHits() && h.Body() == h.BodyOfHits();
    } else {
      StretchesCoverText(s[1..], term, same);
      PrependCovers(Stretches(s[1..], term, same), [s[0]]);
      assert s == [s[0]] + s[1..];
    }
  }

  lemma PrependCovers(h: Highlighted, s: string)
    ensures h.Prepend(s).Write() == s + h.Write() && h.Prepend(s).Body() == s + h.Body()
  {
    assert h.Prepend(s).WriteHits() == h.WriteHits();
  }

  lemma {:induction false} StretchesAreCorrect(s: string, term: string, same: CharRelation)
    requires term != ""
    ensures Correct(Stretches(s, term, same), term, same)
    decreases |s|
  {
    if s == "" {
    } else if MatchesAt(term, s, same) {
      StretchesAreCorrect(s[|term|..], term, same);
      assert MatchesAt(term, s[..|term|], same);
    } else {
      StretchesAreCorrect(s[1..], term, same);
      StretchesCoverText(s, term, same);
      StretchesCoverText(s[1..], term, same);
      var r, h := Stretches(s[1..], term, same), Stretches(s, term, same);
      forall p | 0 <= p < |h.plain| ensures !MatchesAt(term, h.Body()[p..], same) {
        if p == 0 {
          assert s[0..] == s;
        } else {
          assert s[p..] == s[1..][p - 1..];
          assert !MatchesAt(term, r.Body()[p - 1..], same);
        }
      }
    }
  }

  /** Only one division into stretches is correct. */
  lemma {:induction false} CorrectStretchesAreUnique(h: Highlighted, term: string, same: CharRelation)
    requires term != "" && Correct(h, term, same)
    ensures h == Stretches(h.Body(), term, same)
    decreases |h.Body()|
  {
    var s := h.Body();
    if h.plain != "" {
      var r := h.(plain := h.plain[1..]);
      assert h == r.Prepend([h.plain[0]]);
      PrependCovers(r, [h.plain[0]]);
      assert s[0..] == s;
      assert s[1..] == r.Body();
      forall p | 0 <= p < |r.plain| ensures !MatchesAt(term, r.Body()[p..], same) {
        assert r.Body()[p..] == s[p + 1..];
      }
      CorrectStretchesAreUnique(r, term, same);
    } else if h.Hit? {
      assert s == h.BodyOfHits() && |h.marked| == |term|;
      CorrectStretchesAreUnique(h.rest, term, same);
      assert s[..|term|] == h.marked && s[|term|..] == h.rest.Body();
      assert MatchesAt(term, s, same);
    }
  }

  /** An unmarked stretch holds no match of its own. */
  lemma NoMatchInUnmarked(h: Highlighted, term: string, same: CharRelation, p: nat)
    requires Correct(h, term, same) && p < |h.plain|
    ensures !MatchesAt(term, h.plain[p..], same)
  {
    var s := h.Body()[p..];
    assert h.plain[p..] <= s;
  }

  lemma {:induction false} EscapeHasNoTag(s: string)
    ensures '<' !in EscapeString(s)
  {
    if s != "" {
      EscapeHasNoTag(s[1..]);
    }
  }

  /** Text without `<` is read back from its marks. */
  lemma {:induction false} MarksAreReadBack(h: Highlighted)
    requires '<' !in h.Body()
    ensures ReadMarks(h.Write()) == Some(h)
  {
    if h.Hit? {
      MarksAreReadBack(h.rest);
      ReadHit(h.plain, h.marked, h.rest.Write(), h.rest);
    } else {
      assert h.Write() == h.plain + "" == h.plain;
      IndexOfPrefix(h.plain, "", '<');
    }
  }

  lemma ReadHit(plain: string, marked: string, after: string, rest: Highlighted)
    requires '<' !in plain && '<' !in marked && ReadMarks(after) == Some(rest)
    ensures ReadMarks(plain + (OPEN + (marked + (CLOSE + after)))) == Some(Hit(plain, marked, rest))
  {
    FindTag(plain, OPEN, marked + (CLOSE + after));
    FindTag(marked, CLOSE, after);
  }

  lemma FindTag(plain: string, tag: string, after: string)
    requires '<' !in plain && tag != "" && tag[0] == '<'
    ensures var s := plain + (tag + after);
            && IndexOf(s, '<') == |plain| && s[..|plain|] == plain
            && HasPrefix(s[|plain|..], tag) && s[|plain| + |tag|..] == after
  {
    IndexOfPrefix(plain, tag + after, '<');
    assert (plain + (tag + after))[|plain|..] == tag + after;
  }

  /** The output reads as alternating stretches of the escaped text. Marked ones match the escaped
      term, no match starts in an unmarked one, and no other division has these properties. */
  lemma HighlightIsExact(text: string, term: string, same: CharRelation)
    requires term != ""
    ensures exists h: Highlighted ::
              && ReadMarks(HighlightTerm(text, term, same)) == Some(h)
              && h.Body() == EscapeString(text) && Correct(h, EscapeString(term), same)
    ensures forall h: Highlighted :: h.Body() == EscapeString(text) && Correct(h, EscapeString(term), same)
                                     ==> h.Write() == HighlightTerm(text, term, same)
  {
    EscapeNonEmpty(term);
    EscapeHasNoTag(text);
    var t := EscapeString(term);
    var h := Stretches(EscapeString(text), t, same);
    StretchesAreCorrect(EscapeString(text), t, same);
    StretchesCoverText(EscapeString(text), t, same);
    MarksAreReadBack(h);
    forall h: Highlighted | h.Body() == EscapeString(text) && Correct(h, t, same)
      ensures h.Write() == HighlightTerm(text, term, same)
    {
      CorrectStretchesAreUnique(h, t, same);
    }
  }

  // ---- Removing the marks ----

  lemma PrefixDiffers(s: string, prefix: string, k: nat)
    requires k < |s| && k < |prefix| && s[k] != prefix[k]
    ensures !HasPrefix(s, prefix)
  {
  }

  lemma {:induction false} ReplaceAfterPlain(a: string, b: string, tag: string)
    requires '<' !in a && tag != "" && tag[0] == '<'
    ensures ReplaceAll(a + b, tag, "") == a + ReplaceAll(b, tag, "")
  {
    if a == "" {
      assert a + b == b;
    } else {
      var s := a + b;
      assert a[0] in a && s[0] == a[0] && s[1..] == a[1..] + b;
      PrefixDiffers(s, tag, 0);
      ReplaceAfterPlain(a[1..], b, tag);
      assert ReplaceAll(s, tag, "") == [a[0]] + (a[1..] + ReplaceAll(b, tag, ""));
    }
  }

  lemma ReplaceTag(tag: string, s: string)
    requires tag != ""
    ensures ReplaceAll(tag + s, tag, "") == ReplaceAll(s, tag, "")
  {
    assert (tag + s)[..|tag|] == tag && (tag + s)[|tag|..] == s;
  }

  function StripMarks(s: string): string {
    ReplaceAll(ReplaceAll(s, OPEN, ""), CLOSE, "")
  }

  lemma {:induction false} StripWritten(h: Highlighted)
    requires '<' !in h.Body()
    ensures StripMarks(h.Write()) == h.Body()
  {
    var plain := h.plain;
    ReplaceAfterPlain(plain, h.WriteHits(), OPEN);
    ReplaceAfterPlain(plain, ReplaceAll(h.WriteHits(), OPEN, ""), CLOSE);
    if h.Hit? {
      StripWritten(h.rest);
      StripHit(h.marked, h.rest.Write());
    }
  }

  lemma StripHit(marked: string, after: string)
    requires '<' !in marked
    ensures StripMarks(OPEN + (marked + (CLOSE + after))) == marked + StripMarks(after)
  {
    ReplaceTag(OPEN, marked + (CLOSE + after));
    ReplaceAfterPlain(marked, CLOSE + after, OPEN);
    OpenLeavesClose(after);
    var after' := ReplaceAll(after, OPEN, "");
    ReplaceAfterPlain(marked, CLOSE + after', CLOSE);
    ReplaceTag(CLOSE, after');
  }

  lemma OpenLeavesClose(s: string)
    ensures ReplaceAll(CLOSE + s, OPEN, "") == CLOSE + ReplaceAll(s, OPEN, "")
  {
    var t := CLOSE + s;
    PrefixDiffers(t, OPEN, 1);
    assert t[1..] == "/mark>" + s;
    ReplaceAfterPlain("/mark>", s, OPEN);
    assert ['<'] + ("/mark>" + ReplaceAll(s, OPEN, "")) == CLOSE + ReplaceAll(s, OPEN, "");
  }

  lemma UnescapeEscapedChar(c: char, s: string, table: EntityTable)
    requires Standard(table)
    ensures Unescape(EscapeChar(c) + s, table) == [c] + Unescape(s, table)
  {
    var e := EscapeChar(c);
    if Special(c) {
      var name := EntityName(c);
      assert e + s == (['&'] + name) + ([';'] + s);
      IndexOfPrefix(['&'] + name, [';'] + s, ';');
      assert (e + s)[1..|e| - 1] == name;
      assert (e + s)[|e|..] == s;
    } else {
      assert ([c] + s)[1..] == s;
    }
  }

  /** Unescaping undoes escaping, for every table that knows the five written references. */
  lemma {:induction false} UnescapeEscaped(s: string, table: EntityTable)
    requires Standard(table)
    ensures Unescape(EscapeString(s), table) == s
  {
    if s != "" {
      UnescapeEscapedChar(s[0], EscapeString(s[1..]), table);
      UnescapeEscaped(s[1..], table);
    }
  }

  /** Deleting the marks gives the escaped text, which unescapes to the text. */
  lemma HighlightKeepsText(text: string, term: string, same: CharRelation, table: EntityTable)
    requires Standard(table)
    ensures StripMarks(HighlightTerm(text, term, same)) == EscapeString(text)
    ensures Unescape(StripMarks(HighlightTerm(text, term, same)), table) == text
  {
    UnescapeEscaped(text, table);
    StripHighlighted(text, term, same);
  }

  lemma StripHighlighted(text: string, term: string, same: CharRelation)
    ensures StripMarks(HighlightTerm(text, term, same)) == EscapeString(text)
  {
    EscapeHasNoTag(text);
    var s := EscapeString(text);
    if term == "" {
      var h := End(s);
      assert h.Write() == s && h.Body() == s;
      StripWritten(h);
    } else {
      EscapeNonEmpty(term);
      var h := Stretches(s, EscapeString(term), same);
      StretchesCoverText(s, EscapeString(term), same);
      StripWritten(h);
    }
  }
}
