/** The parts of Go's `strings` package the repository uses, on sequences of characters. */
module GoStrings {

  datatype Option<+T> = None | Some(value: T)

  /** When two characters are the same to a matcher: any relation, such as equality or case folding. */
  type CharRelation = (char, char) -> bool

  /** `unicode.IsSpace`, the class of characters cut by `TrimSpace` and `Fields`. */
  predicate IsSpace(c: char) {
    || c == ' ' || '\t' <= c <= '\r' || c == '\U{0085}' || c == '\U{00A0}' || c == '\U{1680}'
    || '\U{2000}' <= c <= '\U{200A}' || c == '\U{2028}' || c == '\U{2029}' || c == '\U{202F}'
    || c == '\U{205F}' || c == '\U{3000}'
  }

  predicate IsAlnum(c: char) {
    'a' <= c <= 'z' || 'A' <= c <= 'Z' || '0' <= c <= '9'
  }

  /** Lower case of one character; only ASCII letters change. */
  function LowerChar(c: char): char {
    if 'A' <= c <= 'Z' then (c as int + 32) as char else c
  }

  function ToLower(s: string): (r: string)
    ensures |r| == |s|
  {
    seq(|s|, i requires 0 <= i < |s| => LowerChar(s[i]))
  }

  function TrimLeft(s: string): (r: string)
    ensures |r| <= |s|
  {
    if s != "" && IsSpace(s[0]) then TrimLeft(s[1..]) else s
  }

  function TrimRight(s: string): (r: string)
    ensures |r| <= |s|
  {
    if s != "" && IsSpace(s[|s| - 1]) then TrimRight(s[..|s| - 1]) else s
  }

  function TrimSpace(s: string): string {
    TrimRight(TrimLeft(s))
  }

  /** No space at either end. */
  predicate Trimmed(s: string) {
    s == "" || (!IsSpace(s[0]) && !IsSpace(s[|s| - 1]))
  }

  predicate HasPrefix(s: string, prefix: string) {
    |prefix| <= |s| && s[..|prefix|] == prefix
  }

  function TrimPrefix(s: string, prefix: string): string {
    if HasPrefix(s, prefix) then s[|prefix|..] else s
  }

  /** Index of the first `c` in `s`, or `|s|` when there is none. */
  function IndexOf(s: string, c: char): (i: nat)
    ensures i <= |s|
    ensures c !in s[..i]
    ensures i < |s| ==> s[i] == c
  {
    if s == "" || s[0] == c then 0 else 1 + IndexOf(s[1..], c)
  }

  /** `strings.SplitN` for a one-character separator and a positive limit. */
  function SplitN(s: string, c: char, n: nat): (r: seq<string>)
    requires n > 0
    ensures 1 <= |r| <= n
    decreases |s|
  {
    var i := IndexOf(s, c);
    if n == 1 || i == |s| then [s] else [s[..i]] + SplitN(s[i + 1..], c, n - 1)
  }

  /** `strings.Split` for a one-character separator. */
  function Split(s: string, c: char): (r: seq<string>)
    ensures |r| >= 1
    ensures forall k :: 0 <= k < |r| ==> c !in r[k]
    decreases |s|
  {
    var i := IndexOf(s, c);
    if i == |s| then assert s[..i] == s; [s] else [s[..i]] + Split(s[i + 1..], c)
  }

  function Join(parts: seq<string>, sep: string): string {
    if parts == [] then ""
    else if |parts| == 1 then parts[0]
    else parts[0] + sep + Join(parts[1..], sep)
  }

  /** Length of the leading run of characters that are not spaces. */
  function WordLength(s: string): (n: nat)
    ensures n <= |s|
    ensures forall k :: 0 <= k < n ==> !IsSpace(s[k])
    ensures n < |s| ==> IsSpace(s[n])
  {
    if s == "" || IsSpace(s[0]) then 0 else 1 + WordLength(s[1..])
  }

  /** `strings.Fields`: the maximal runs of characters that are not spaces. */
  function Fields(s: string): seq<string>
    decreases |s|
  {
    if s == "" then []
    else if IsSpace(s[0]) then Fields(s[1..])
    else
      var n := WordLength(s);
      [s[..n]] + Fields(s[n..])
  }

  /** `strings.ReplaceAll` for a non-empty target: left to right, without overlap. */
  function ReplaceAll(s: string, target: string, substitute: string): string
    requires target != ""
    decreases |s|
  {
    if s == "" then ""
    else if HasPrefix(s, target) then substitute + ReplaceAll(s[|target|..], target, substitute)
    else [s[0]] + ReplaceAll(s[1..], target, substitute)
  }

  lemma {:induction false} TrimLeftTrims(s: string)
    ensures var r := TrimLeft(s);
            (r != "" ==> !IsSpace(r[0])) &&
            exists k: nat :: k <= |s| && s[k..] == r && forall i :: 0 <= i < k ==> IsSpace(s[i])
  {
    if s != "" && IsSpace(s[0]) {
      TrimLeftTrims(s[1..]);
      var t := s[1..];
      var k: nat :| k <= |t| && t[k..] == TrimLeft(t) && forall i :: 0 <= i < k ==> IsSpace(t[i]);
      assert s[k + 1..] == t[k..];
      forall i | 0 <= i < k + 1 ensures IsSpace(s[i]) {
        if i > 0 { assert s[i] == t[i - 1]; }
      }
    } else {
      assert s[0..] == s;
    }
  }

  lemma {:induction false} TrimRightTrims(s: string)
    ensures var r := TrimRight(s);
            (r != "" ==> !IsSpace(r[|r| - 1])) && r <= s &&
            forall i :: |r| <= i < |s| ==> IsSpace(s[i])
  {
    if s != "" && IsSpace(s[|s| - 1]) {
      TrimRightTrims(s[..|s| - 1]);
    }
  }

  /** The result of trimming is trimmed, and trimming leaves exactly the trimmed strings unchanged. */
  lemma TrimSpaceTrims(s: string)
    ensures Trimmed(TrimSpace(s))
    ensures TrimSpace(s) == s <==> Trimmed(s)
    ensures |TrimSpace(s)| <= |s|
  {
    TrimLeftTrims(s);
    var l := TrimLeft(s);
    TrimRightTrims(l);
    if TrimRight(l) != "" {
      assert TrimRight(l)[0] == l[0];
    }
  }

  /** A prefix without the separator ends up in the first piece of the split. */
  lemma SplitPrefix(a: string, s: string, c: char)
    requires c !in a
    ensures Split(a + s, c) == [a + Split(s, c)[0]] + Split(s, c)[1..]
  {
    IndexOfPrefix(a, s, c);
    var i := IndexOf(s, c);
    if i == |s| {
      assert Split(s, c) == [s];
    } else {
      assert (a + s)[..|a| + i] == a + s[..i];
      assert (a + s)[|a| + i + 1..] == s[i + 1..];
    }
  }

  lemma {:induction false} IndexOfPrefix(a: string, s: string, c: char)
    requires c !in a
    ensures IndexOf(a + s, c) == |a| + IndexOf(s, c)
  {
    if a == "" {
      assert a + s == s;
    } else {
      IndexOfPrefix(a[1..], s, c);
      assert (a + s)[1..] == a[1..] + s;
    }
  }

  lemma SplitAtSeparator(a: string, s: string, c: char)
    requires c !in a
    ensures Split(a + [c] + s, c) == [a] + Split(s, c)
  {
    assert a + [c] + s == a + ([c] + s);
    IndexOfPrefix(a, [c] + s, c);
    var t := a + ([c] + s);
    assert IndexOf(t, c) == |a|;
    assert t[..|a|] == a && t[|a| + 1..] == s;
  }

  lemma SplitNAtSeparator(a: string, s: string, c: char, n: nat)
    requires c !in a && n > 1
    ensures SplitN(a + [c] + s, c, n) == [a] + SplitN(s, c, n - 1)
  {
    assert a + [c] + s == a + ([c] + s);
    IndexOfPrefix(a, [c] + s, c);
    var t := a + ([c] + s);
    assert IndexOf(t, c) == |a|;
    assert t[..|a|] == a && t[|a| + 1..] == s;
  }

  lemma SplitWithoutSeparator(a: string, c: char, n: nat)
    requires c !in a && n > 0
    ensures SplitN(a, c, n) == [a] && Split(a, c) == [a]
  {
    assert a + "" == a;
    IndexOfPrefix(a, "", c);
  }

  /** Reading word by word: a word, a space and the rest. */
  lemma FieldsOfWord(w: string, s: string)
    requires w != "" && (forall k :: 0 <= k < |w| ==> !IsSpace(w[k]))
    requires s == "" || IsSpace(s[0])
    ensures Fields(w + s) == [w] + Fields(s)
  {
    WordLengthOfWord(w, s);
    assert (w + s)[..|w|] == w && (w + s)[|w|..] == s;
  }

  lemma {:induction false} WordLengthOfWord(w: string, s: string)
    requires forall k :: 0 <= k < |w| ==> !IsSpace(w[k])
    requires s == "" || IsSpace(s[0])
    ensures WordLength(w + s) == |w|
  {
    if w == "" {
      assert w + s == s;
    } else {
      assert (w + s)[1..] == w[1..] + s;
      WordLengthOfWord(w[1..], s);
    }
  }

  // ---- What these functions come to ----

  const SPACES := " \t\n\U{000B}\U{000C}\r\U{0085}\U{00A0}\U{1680}\U{2000}\U{2001}\U{2002}\U{2003}\U{2004}\U{2005}" +
    "\U{2006}\U{2007}\U{2008}\U{2009}\U{200A}\U{2028}\U{2029}\U{202F}\U{205F}\U{3000}"
  const UPPER := "ABCDEFGHIJKLMNOPQRSTUVWXYZ"
  const LOWER := "abcdefghijklmnopqrstuvwxyz"

  /** The white space of Unicode, and nothing else, is cut from a string's ends and separates fields. */
  lemma SpacesAreCut(c: char)
    ensures TrimSpace([c]) == if c in SPACES then "" else [c]
    ensures Fields([c]) == if c in SPACES then [] else [[c]]
  {
    var s := [c];
    assert s[1..] == "" && s[..0] == "";
    assert IsSpace(c) <==> c in SPACES;
    if !IsSpace(c) {
      FieldsOfWord(s, "");
      assert s + "" == s;
    }
  }

  lemma SpaceIsCaseless(c: char)
    ensures IsSpace(LowerChar(c)) <==> IsSpace(c)
  {
  }

  /** Lower-casing goes character by character, and changes the letters of ASCII only. */
  lemma ToLowerIsByChar(a: string, b: string, c: char)
    ensures ToLower(a + b) == ToLower(a) + ToLower(b)
    ensures c !in UPPER ==> ToLower([c]) == [c]
    ensures forall i :: 0 <= i < 26 ==> ToLower([UPPER[i]]) == [LOWER[i]]
  {
    forall i | 0 <= i < 26 ensures ToLower([UPPER[i]]) == [LOWER[i]] {
      assert UPPER[i] as int == 65 + i && LOWER[i] as int == 97 + i;
    }
    if 'A' <= c <= 'Z' {
      assert UPPER[c as int - 65] == c;
    }
  }

  predicate Blank(s: string) {
    forall c :: c in s ==> IsSpace(c)
  }

  lemma {:induction false} TrimLeftOfBlank(a: string, s: string)
    requires Blank(a) && (s == "" || !IsSpace(s[0]))
    ensures TrimLeft(a + s) == s
  {
    if a == "" {
      assert a + s == s;
    } else {
      assert a[0] in a && (a + s)[1..] == a[1..] + s;
      TrimLeftOfBlank(a[1..], s);
    }
  }

  lemma {:induction false} TrimRightOfBlank(s: string, b: string)
    requires Blank(b) && (s == "" || !IsSpace(s[|s| - 1]))
    ensures TrimRight(s + b) == s
    decreases |b|
  {
    if b == "" {
      assert s + b == s;
    } else {
      var n := |b| - 1;
      assert b[n] in b && (s + b)[..|s + b| - 1] == s + b[..n];
      TrimRightOfBlank(s, b[..n]);
    }
  }

  /** Trimming finds the string between two stretches of white space. */
  lemma TrimSpaceCuts(a: string, s: string, b: string)
    requires Blank(a) && Blank(b) && s != "" && Trimmed(s)
    ensures TrimSpace(a + s + b) == s
  {
    assert a + s + b == a + (s + b);
    assert (s + b)[0] == s[0];
    TrimLeftOfBlank(a, s + b);
    TrimRightOfBlank(s, b);
  }

  /** Lower-casing changes nothing about the white space around a string. */
  lemma LowerThenTrim(a: string, s: string, b: string)
    requires Blank(a) && Blank(b) && s != "" && Trimmed(s)
    ensures TrimSpace(ToLower(a + s + b)) == ToLower(s)
  {
    BlankIsCaseless(a);
    BlankIsCaseless(b);
    assert ToLower(a + s + b) == ToLower(a) + ToLower(s) + ToLower(b);
    TrimSpaceCuts(ToLower(a), ToLower(s), ToLower(b));
  }

  lemma BlankIsCaseless(a: string)
    requires Blank(a)
    ensures Blank(ToLower(a)) && TrimSpace(a) == ""
  {
    TrimLeftOfBlank(a, "");
    assert a + "" == a;
    forall c | c in ToLower(a) ensures IsSpace(c) {
      var i :| 0 <= i < |a| && ToLower(a)[i] == c;
      assert a[i] in a;
    }
  }

  lemma FieldsAfterWord(w: string, rest: string, t: string, b: string)
    requires w != "" && forall k :: 0 <= k < |w| ==> !IsSpace(w[k])
    requires (rest == "" || IsSpace(rest[0])) && (t == "" || IsSpace(t[0])) && Fields(t) == Fields(rest) + Fields(b)
    ensures Fields(w + t) == Fields(w + rest) + Fields(b)
  {
    FieldsOfWord(w, rest);
    FieldsOfWord(w, t);
    FirstThenRest(w, Fields(rest), Fields(b));
  }

  lemma FirstThenRest(w: string, x: seq<string>, y: seq<string>)
    ensures [w] + (x + y) == ([w] + x) + y
  {
  }

  lemma SplitOff(a: string, n: nat, c: char, b: string)
    requires n <= |a|
    ensures a + [c] + b == a[..n] + (a[n..] + [c] + b) && a == a[..n] + a[n..]
    ensures (a[n..] + [c] + b)[0] == if n < |a| then a[n] else c
  {
  }

  /** Fields on both sides of a space are found separately. */
  lemma {:induction false} FieldsSplitAtSpace(a: string, c: char, b: string)
    requires IsSpace(c)
    ensures Fields(a + [c] + b) == Fields(a) + Fields(b)
    decreases |a|
  {
    if a == "" {
      assert (a + [c] + b)[1..] == b;
    } else if IsSpace(a[0]) {
      assert (a + [c] + b)[1..] == a[1..] + [c] + b;
      FieldsSplitAtSpace(a[1..], c, b);
    } else {
      var n := WordLength(a);
      FieldsSplitAtSpace(a[n..], c, b);
      SplitOff(a, n, c, b);
      FieldsAfterWord(a[..n], a[n..], a[n..] + [c] + b, b);
    }
  }
}
