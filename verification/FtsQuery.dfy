/** The full-text query builder of internal/search/search_repository.go and the language it writes. */
module FtsQuery {
  import opened GoStrings

  /** A piece of a query: a word searched by prefix, or a quoted phrase. */
  datatype Token = Word(text: string) | Phrase(text: string) {
    predicate WellFormed() {
      && text != ""
      && match this {
        case Word(_) => forall c :: c in text ==> IsAlnum(c)
        case Phrase(_) => '"' !in text
      }
    }

    function Render(): string {
      match this
      case Word(_) => text + "*"
      case Phrase(_) => "\"" + text + "\""
    }
  }

  ghost predicate AllWellFormed(tokens: seq<Token>) {
    forall t :: t in tokens ==> t.WellFormed()
  }

  /** Tokens as they stand in a query, one space between them. */
  function RenderAll(tokens: seq<Token>): string
    decreases |tokens|, 0
  {
    if tokens == [] then ""
    else tokens[0].Render() + Following(tokens[1..])
  }

  /** The tokens after a first one. */
  function Following(tokens: seq<Token>): string
    decreases |tokens|, 1
  {
    if tokens == [] then "" else " " + RenderAll(tokens)
  }

  // ---- Building a query ----

  /** Drops every character that is not an ASCII letter or digit. */
  function SanitizeFTSWord(word: string): (r: string)
    ensures forall c :: c in r <==> c in word && IsAlnum(c)
  {
    if word == "" then ""
    else (if IsAlnum(word[0]) then [word[0]] else "") + SanitizeFTSWord(word[1..])
  }

  /** Sanitizing goes character by character, and leaves exactly the letters and digits of ASCII, in order. */
  lemma {:induction false} SanitizeIsByChar(a: string, b: string, c: char)
    ensures SanitizeFTSWord(a + b) == SanitizeFTSWord(a) + SanitizeFTSWord(b)
    ensures SanitizeFTSWord([c])
            == if 'a' <= c <= 'z' || 'A' <= c <= 'Z' || '0' <= c <= '9' then [c] else ""
    decreases |a|
  {
    assert [c][1..] == "";
    if a == "" {
      assert a + b == b;
    } else {
      assert (a + b)[1..] == a[1..] + b;
      SanitizeIsByChar(a[1..], b, c);
    }
  }

  /** The prefix words of a list of fields. */
  function WordTokens(fields: seq<string>): (r: seq<Token>)
    ensures forall t :: t in r ==> t.WellFormed()
  {
    if fields == [] then []
    else
      var word := SanitizeFTSWord(fields[0]);
      (if word != "" then [Word(word)] else []) + WordTokens(fields[1..])
  }

  /** What the text between two quotes stands for, `quoted` telling on which side of a quote it is. */
  function SegmentTokens(segment: string, quoted: bool): seq<Token> {
    if !quoted then WordTokens(Fields(segment))
    else if segment == "" then [] else [Phrase(segment)]
  }

  /** The pieces of the input between quotes are alternately plain text and phrases. */
  function Tokens(segments: seq<string>, quoted: bool): seq<Token> {
    if segments == [] then []
    else SegmentTokens(segments[0], quoted) + Tokens(segments[1..], !quoted)
  }

  /** The tokens of a query: split at the quotes, then read each side of them. */
  function QueryTokens(input: string): seq<Token> {
    Tokens(Split(TrimSpace(input), '"'), false)
  }

  function Rendered(tokens: seq<Token>): (r: seq<string>)
    ensures |r| == |tokens|
  {
    seq(|tokens|, i requires 0 <= i < |tokens| => tokens[i].Render())
  }

  lemma {:induction false} JoinRendered(tokens: seq<Token>)
    ensures Join(Rendered(tokens), " ") == RenderAll(tokens)
  {
    if |tokens| > 1 {
      assert Rendered(tokens)[1..] == Rendered(tokens[1..]);
      JoinRendered(tokens[1..]);
      var t := tokens[0].Render();
      assert t + " " + RenderAll(tokens[1..]) == t + Following(tokens[1..]);
    }
  }

  lemma MoveDone(done: seq<Token>, here: seq<Token>, later: seq<Token>)
    ensures done + (here + later) == (done + here) + later
    ensures Rendered(done + here) == Rendered(done) + Rendered(here)
  {
  }

  lemma TokensAtQuote(current: string, rest: string, quoted: bool)
    requires '"' !in current
    ensures Tokens(Split(current + ['"'] + rest, '"'), quoted)
         == SegmentTokens(current, quoted) + Tokens(Split(rest, '"'), !quoted)
  {
    SplitAtSeparator(current, rest, '"');
  }

  lemma TokensOfLastSegment(current: string, quoted: bool)
    requires '"' !in current
    ensures Tokens(Split(current, '"'), quoted) == SegmentTokens(current, quoted)
  {
    SplitWithoutSeparator(current, '"', 1);
    assert Tokens([current][1..], !quoted) == [];
  }

  /** The loop over the fields of one unquoted stretch. */
  method AppendWords(parts: seq<string>, current: string) returns (r: seq<string>)
    ensures r == parts + Rendered(SegmentTokens(current, false))
  {
    var fields := Fields(current);
    var words: seq<string> := [];
    ghost var done: seq<Token> := [];
    for i := 0 to |fields|
      invariant words == Rendered(done)
      invariant done + WordTokens(fields[i..]) == WordTokens(fields)
    {
      var word := SanitizeFTSWord(fields[i]);
      ghost var here := if word != "" then [Word(word)] else [];
      assert fields[i..][1..] == fields[i + 1..];
      MoveDone(done, here, WordTokens(fields[i + 1..]));
      if word != "" {
        assert Rendered(here) == [word + "*"];
        words := words + [word + "*"];
      }
      done := done + here;
    }
    r := parts + words;
  }

  lemma TakeOne(current: string, text: string, i: nat)
    requires i < |text|
    ensures current + text[i..] == current + [text[i]] + text[i + 1..]
  {
  }

  /** Adds what the text collected so far stands for. */
  method AddSegment(parts: seq<string>, current: string, inQuote: bool) returns (r: seq<string>)
    ensures r == parts + Rendered(SegmentTokens(current, inQuote))
  {
    r := parts;
    if |current| > 0 {
      if inQuote {
        r := r + ["\"" + current + "\""];
      } else {
        r := AppendWords(r, current);
      }
    }
  }

  lemma NothingBefore(s: string)
    ensures "" + s == s
  {
  }

  lemma ScanQuote(all: seq<Token>, done: seq<Token>, current: string, text: string, i: nat, inQuote: bool)
    requires i < |text| && text[i] == '"' && '"' !in current
    requires all == done + Tokens(Split(current + text[i..], '"'), inQuote)
    ensures all == (done + SegmentTokens(current, inQuote)) + Tokens(Split("" + text[i + 1..], '"'), !inQuote)
    ensures Rendered(done + SegmentTokens(current, inQuote))
         == Rendered(done) + Rendered(SegmentTokens(current, inQuote))
  {
    TakeOne(current, text, i);
    TokensAtQuote(current, text[i + 1..], inQuote);
    NothingBefore(text[i + 1..]);
    MoveDone(done, SegmentTokens(current, inQuote), Tokens(Split(text[i + 1..], '"'), !inQuote));
  }

  /** The character loop of `BuildFTSQuery`. */
  method ScanParts(text: string) returns (parts: seq<string>)
    ensures parts == Rendered(Tokens(Split(text, '"'), false))
  {
    parts := [];
    var inQuote := false;
    var current := "";
    ghost var all := Tokens(Split(text, '"'), false);
    ghost var done: seq<Token> := [];
    assert current + text[0..] == text;
    for i := 0 to |text|
      invariant '"' !in current
      invariant parts == Rendered(done)
      invariant all == done + Tokens(Split(current + text[i..], '"'), inQuote)
    {
      if text[i] == '"' {
        ghost var here := SegmentTokens(current, inQuote);
        ScanQuote(all, done, current, text, i, inQuote);
        parts := AddSegment(parts, current, inQuote);
        done := done + here;
        inQuote := !inQuote;
        current := "";
      } else {
        TakeOne(current, text, i);
        current := current + [text[i]];
      }
    }
    assert current + text[|text|..] == current;
    TokensOfLastSegment(current, inQuote);
    MoveDone(done, SegmentTokens(current, inQuote), []);
    parts := AddSegment(parts, current, inQuote);
  }

  /** `BuildFTSQuery` writes the tokens of the input, separated by single spaces. */
  method BuildFTSQuery(input: string) returns (query: string)
    ensures query == RenderAll(QueryTokens(input))
  {
    var text := TrimSpace(input);
    if text == "" {
      TokensOfLastSegment("", false);
      return "";
    }
    var parts := ScanParts(text);
    JoinRendered(QueryTokens(input));
    query := Join(parts, " ");
  }

  // ---- Reading a query back ----

  /** Reads one token off the front of a query. */
  function LexToken(s: string): (r: Option<(Token, string)>)
    ensures r.Some? ==> |r.value.1| < |s|
  {
    if s == "" then None
    else if s[0] == '"' then
      var i := IndexOf(s[1..], '"');
      if 0 < i < |s| - 1 then Some((Phrase(s[1..][..i]), s[1..][i + 1..])) else None
    else
      var i := IndexOf(s, '*');
      if 0 < i < |s| && (forall k :: 0 <= k < i ==> IsAlnum(s[k])) then Some((Word(s[..i]), s[i + 1..])) else None
  }

  /** Reads a whole query: tokens with exactly one space between two of them. */
  function Lex(s: string): Option<seq<Token>>
    decreases |s|
  {
    if s == "" then Some([]) else
      match LexToken(s)
      case None => None
      case Some((token, rest)) =>
        if rest == "" then Some([token])
        else if rest[0] != ' ' || rest == " " then None
        else
          match Lex(rest[1..])
          case None => None
          case Some(tokens) => Some([token] + tokens)
  }

  lemma RenderThen(t: Token, rest: string)
    ensures t.Render() + rest
            == if t.Phrase? then "\"" + t.text + (['"'] + rest) else t.text + (['*'] + rest)
  {
  }

  lemma LexTokenOfRender(t: Token, rest: string)
    requires t.WellFormed()
    ensures LexToken(t.Render() + rest) == Some((t, rest))
  {
    RenderThen(t, rest);
    if t.Phrase? {
      LexPhrase(t.text, rest);
    } else {
      LexWord(t.text, rest);
    }
  }

  lemma LexPhrase(text: string, rest: string)
    requires text != "" && '"' !in text
    ensures LexToken("\"" + text + (['"'] + rest)) == Some((Phrase(text), rest))
  {
    var s := "\"" + text + (['"'] + rest);
    assert s[1..] == text + (['"'] + rest);
    IndexOfPrefix(text, ['"'] + rest, '"');
    assert s[1..][..|text|] == text && s[1..][|text| + 1..] == rest;
  }

  lemma LexWord(text: string, rest: string)
    requires text != "" && forall c :: c in text ==> IsAlnum(c)
    ensures LexToken(text + (['*'] + rest)) == Some((Word(text), rest))
  {
    var s := text + (['*'] + rest);
    IndexOfPrefix(text, ['*'] + rest, '*');
    assert s[..|text|] == text && s[|text| + 1..] == rest;
    assert text[0] in text;
    assert forall k :: 0 <= k < |text| ==> s[k] == text[k] && text[k] in text;
  }

  /** Every list of well-formed tokens is read back from its query. */
  lemma {:induction false} LexReadsRendered(tokens: seq<Token>)
    requires AllWellFormed(tokens)
    ensures Lex(RenderAll(tokens)) == Some(tokens)
  {
    if tokens != [] {
      var rest := Following(tokens[1..]);
      LexTokenOfRender(tokens[0], rest);
      assert tokens == [tokens[0]] + tokens[1..];
      if |tokens| > 1 {
        assert AllWellFormed(tokens[1..]);
        LexReadsRendered(tokens[1..]);
        assert rest[1..] == RenderAll(tokens[1..]);
      } else {
        assert rest == "" && tokens == [tokens[0]];
      }
    }
  }

  lemma LexTokenIsSound(s: string)
    requires LexToken(s).Some?
    ensures var (t, rest) := LexToken(s).value; t.WellFormed() && s == t.Render() + rest
  {
    var (t, rest) := LexToken(s).value;
    if s[0] == '"' {
      var i := IndexOf(s[1..], '"');
      assert s == "\"" + s[1..][..i] + "\"" + s[1..][i + 1..];
    } else {
      var i := IndexOf(s, '*');
      assert s == s[..i] + "*" + s[i + 1..];
    }
  }

  /** The lexer accepts nothing but queries made of well-formed tokens. */
  lemma {:induction false} LexIsSound(s: string)
    requires Lex(s).Some?
    ensures AllWellFormed(Lex(s).value) && RenderAll(Lex(s).value) == s
    ensures Lex(s).value == [] <==> s == ""
    decreases |s|
  {
    if s != "" {
      LexTokenIsSound(s);
      var t, rest := LexToken(s).value.0, LexToken(s).value.1;
      if rest == "" {
        assert Lex(s) == Some([t]);
        assert [t][1..] == [];
      } else {
        var more := Lex(rest[1..]);
        assert more.Some? && Lex(s) == Some([t] + more.value);
        LexIsSound(rest[1..]);
        assert ([t] + more.value)[1..] == more.value;
        assert rest == " " + rest[1..];
      }
    }
  }

  // ---- The normal form ----

  lemma {:induction false} TokensAreWellFormed(segments: seq<string>, quoted: bool)
    requires forall k :: 0 <= k < |segments| ==> '"' !in segments[k]
    ensures AllWellFormed(Tokens(segments, quoted))
  {
    if segments != [] {
      TokensAreWellFormed(segments[1..], !quoted);
    }
  }

  /** Every query built from any input reads back as quote-free phrases and alphanumeric prefix words. */
  lemma QueryLexes(input: string)
    ensures AllWellFormed(QueryTokens(input))
    ensures Lex(RenderAll(QueryTokens(input))) == Some(QueryTokens(input))
  {
    TokensAreWellFormed(Split(TrimSpace(input), '"'), false);
    LexReadsRendered(QueryTokens(input));
  }

  lemma {:induction false} RenderAllIsTrimmed(tokens: seq<Token>)
    requires AllWellFormed(tokens)
    ensures Trimmed(RenderAll(tokens))
  {
    if tokens != [] {
      var t := tokens[0];
      assert t.WellFormed();
      assert t.text[0] in t.text;
      assert t.Render()[0] == if t.Word? then t.text[0] else '"';
      assert t.Render()[|t.Render()| - 1] == if t.Word? then '*' else '"';
      if |tokens| > 1 {
        assert AllWellFormed(tokens[1..]);
        RenderAllIsTrimmed(tokens[1..]);
        var s, f, r := RenderAll(tokens), Following(tokens[1..]), RenderAll(tokens[1..]);
        assert f[|f| - 1] == r[|r| - 1];
        assert s[|s| - 1] == f[|f| - 1];
        assert s[0] == t.Render()[0];
      }
    }
  }

  lemma {:induction false} SanitizeAlnum(word: string)
    requires forall c :: c in word ==> IsAlnum(c)
    ensures SanitizeFTSWord(word + "*") == word
  {
    if word == "" {
      assert SanitizeFTSWord("*"[1..]) == "";
    } else {
      assert (word + "*")[1..] == word[1..] + "*";
      assert word[0] in word;
      SanitizeAlnum(word[1..]);
    }
  }

  /** Reading a plain stretch that starts with a rendered word, or with the space between tokens. */
  lemma SegmentStartingWithWord(t: Token, rest: string)
    requires t.Word? && t.WellFormed()
    requires rest == "" || rest[0] == ' '
    ensures SegmentTokens(t.Render() + rest, false) == [t] + SegmentTokens(rest, false)
  {
    var w := t.Render();
    forall k | 0 <= k < |w| ensures !IsSpace(w[k]) {
      if k < |t.text| { assert t.text[k] in t.text; }
    }
    FieldsOfWord(w, rest);
    SanitizeAlnum(t.text);
    assert ([w] + Fields(rest))[1..] == Fields(rest);
  }

  /** Splitting a rendered query at its quotes and reading the pieces gives its tokens back. */
  lemma {:induction false} TokensOfRendered(tokens: seq<Token>)
    requires AllWellFormed(tokens)
    ensures Tokens(Split(RenderAll(tokens), '"'), false) == tokens
  {
    if tokens == [] {
      TokensOfLastSegment("", false);
    } else {
      assert tokens[0].WellFormed() && AllWellFormed(tokens[1..]);
      TokensOfRendered(tokens[1..]);
      TokensAfterSpace(tokens[1..]);
      TokensOfFirst(tokens[0], Following(tokens[1..]));
      assert tokens == [tokens[0]] + tokens[1..];
    }
  }

  lemma TokensOfFirst(t: Token, rest: string)
    requires t.WellFormed()
    requires rest == "" || rest[0] == ' '
    ensures Tokens(Split(t.Render() + rest, '"'), false) == [t] + Tokens(Split(rest, '"'), false)
  {
    if t.Word? {
      TokensOfWord(t, rest, Split(rest, '"')[0], Split(rest, '"')[1..]);
    } else {
      TokensOfPhrase(t, rest);
    }
  }

  lemma TokensOfWord(t: Token, rest: string, first: string, others: seq<string>)
    requires t.WellFormed() && t.Word?
    requires Split(rest, '"') == [first] + others
    requires first == "" || first[0] == ' '
    ensures Tokens(Split(t.Render() + rest, '"'), false) == [t] + Tokens(Split(rest, '"'), false)
  {
    SplitPrefix(t.Render(), rest, '"');
    SegmentStartingWithWord(t, first);
  }

  lemma TokensOfPhrase(t: Token, rest: string)
    requires t.WellFormed() && t.Phrase?
    ensures Tokens(Split(t.Render() + rest, '"'), false) == [t] + Tokens(Split(rest, '"'), false)
  {
    assert t.Render() + rest == "" + ['"'] + (t.text + ['"'] + rest);
    TokensAtQuote("", t.text + ['"'] + rest, false);
    TokensAtQuote(t.text, rest, true);
  }

  /** The separating space adds no token. */
  lemma TokensAfterSpace(tokens: seq<Token>)
    ensures Tokens(Split(Following(tokens), '"'), false) == Tokens(Split(RenderAll(tokens), '"'), false)
  {
    if tokens != [] {
      var r := RenderAll(tokens);
      SplitPrefix(" ", r, '"');
      var pieces := Split(r, '"');
      assert ([" " + pieces[0]] + pieces[1..])[1..] == pieces[1..];
      assert (" " + pieces[0])[1..] == pieces[0];
    }
  }

  /** The builder leaves a text unchanged exactly when it is already in normal form,
      that is, when it lexes into well-formed tokens separated by single spaces. */
  lemma FixpointsAreNormalForms(s: string)
    ensures RenderAll(QueryTokens(s)) == s <==> Lex(s).Some?
  {
    QueryLexes(s);
    if Lex(s).Some? {
      LexIsSound(s);
      RenderAllIsTrimmed(Lex(s).value);
      TrimSpaceTrims(s);
      TokensOfRendered(Lex(s).value);
    }
  }

  /** Building a query from a built query changes nothing, whatever the first input. */
  lemma BuildIsIdempotent(input: string)
    ensures RenderAll(QueryTokens(RenderAll(QueryTokens(input)))) == RenderAll(QueryTokens(input))
  {
    QueryLexes(input);
    FixpointsAreNormalForms(RenderAll(QueryTokens(input)));
  }

  // ---- Words the query language keeps for itself ----

  /** The operators of the FTS5 query language, which it does not take as search words. */
  predicate Reserved(word: string) {
    word == "AND" || word == "OR" || word == "NOT"
  }

  ghost predicate HoldsReserved(tokens: seq<Token>) {
    exists t: Token :: t in tokens && t.Word? && Reserved(t.text)
  }

  /** A field of unquoted text is left with an operator once it is sanitized. */
  ghost predicate FieldsReserved(fields: seq<string>) {
    exists f :: f in fields && Reserved(SanitizeFTSWord(f))
  }

  lemma {:induction false} WordsReservedIff(fields: seq<string>)
    ensures HoldsReserved(WordTokens(fields)) <==> FieldsReserved(fields)
  {
    if fields != [] {
      var word := SanitizeFTSWord(fields[0]);
      var first := if word != "" then [Word(word)] else [];
      WordsReservedIff(fields[1..]);
      assert HoldsReserved(first) <==> Reserved(word) by {
        if Reserved(word) { assert Word(word) in first; }
      }
      assert fields == [fields[0]] + fields[1..];
    }
  }

  lemma SegmentReservedIff(segment: string, quoted: bool)
    ensures HoldsReserved(SegmentTokens(segment, quoted)) <==> !quoted && FieldsReserved(Fields(segment))
  {
    if !quoted {
      WordsReservedIff(Fields(segment));
    }
  }

  /** Some segment outside quotes holds such a field; `quoted` tells where the first segment is. */
  ghost predicate SegmentsReserved(segments: seq<string>, quoted: bool) {
    exists k :: 0 <= k < |segments| && (k % 2 == 0) != quoted && FieldsReserved(Fields(segments[k]))
  }

  lemma {:induction false} TokensReservedIff(segments: seq<string>, quoted: bool)
    ensures HoldsReserved(Tokens(segments, quoted)) <==> SegmentsReserved(segments, quoted)
    decreases |segments|
  {
    if segments != [] {
      var rest := segments[1..];
      TokensReservedIff(rest, !quoted);
      SegmentReservedIff(segments[0], quoted);
      SegmentsReservedOfTail(segments, quoted);
    }
  }

  lemma SegmentsReservedOfTail(segments: seq<string>, quoted: bool)
    requires segments != []
    ensures SegmentsReserved(segments, quoted)
            <==> (!quoted && FieldsReserved(Fields(segments[0]))) || SegmentsReserved(segments[1..], !quoted)
  {
    var rest := segments[1..];
    if k :| 0 <= k < |segments| && (k % 2 == 0) != quoted && FieldsReserved(Fields(segments[k])) {
      if k > 0 {
        assert rest[k - 1] == segments[k];
      }
    }
    if k :| 0 <= k < |rest| && (k % 2 == 0) != !quoted && FieldsReserved(Fields(rest[k])) {
      assert segments[k + 1] == rest[k];
    }
  }

  /** A built query holds an operator as a search word, which FTS5 refuses, if and only if some field of the
      input outside quotes is left with one. */
  lemma QueryReservedIff(input: string)
    ensures HoldsReserved(QueryTokens(input)) <==> SegmentsReserved(Split(TrimSpace(input), '"'), false)
  {
    TokensReservedIff(Split(TrimSpace(input), '"'), false);
  }

  /** The input `AND` is such an input. */
  lemma AndIsReserved()
    ensures HoldsReserved(QueryTokens("AND"))
  {
    var s := "AND";
    TrimSpaceTrims(s);
    SplitWithoutSeparator(s, '"', 2);
    FieldsOfWord(s, "");
    assert s + "" == s;
    QueryReservedIff(s);
    var segments := Split(TrimSpace(s), '"');
    assert segments == [s];
    assert Fields(segments[0]) == [s] + Fields("");
    assert s in Fields(segments[0]);
    assert (0 % 2 == 0) != false && FieldsReserved(Fields(segments[0]));
  }
}
