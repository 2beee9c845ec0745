/** The LIKE patterns of internal/search/search_repository.go and what they match. */
module LikePattern {
  import opened GoStrings

  /** SQL's `text LIKE pattern ESCAPE '\'`. `eq` is ASCII case folding in SQLite, equality in PostgreSQL. */
  predicate Like(pattern: string, text: string, eq: CharRelation)
    decreases |pattern| + |text|
  {
    if pattern == "" then text == ""
    else if pattern[0] == '%' then
      Like(pattern[1..], text, eq) || (text != "" && Like(pattern, text[1..], eq))
    else if pattern[0] == '_' then
      text != "" && Like(pattern[1..], text[1..], eq)
    else if pattern[0] == '\\' then
      |pattern| >= 2 && text != "" && eq(pattern[1], text[0]) && Like(pattern[2..], text[1..], eq)
    else
      text != "" && eq(pattern[0], text[0]) && Like(pattern[1..], text[1..], eq)
  }

  function BuildLIKEPattern(input: string): string {
    var input := TrimSpace(input);
    if input == "" then "%" else
      var input := ReplaceAll(input, "\\", "\\\\");
      var input := ReplaceAll(input, "%", "\\%");
      var input := ReplaceAll(input, "_", "\\_");
      "%" + input + "%"
  }

  /** `term` stands at position `i` of `text`, up to `eq`. */
  predicate OccursAt(term: string, text: string, i: nat, eq: CharRelation) {
    i + |term| <= |text| && forall k :: 0 <= k < |term| ==> eq(term[k], text[i + k])
  }

  /** One pass over the term, putting the escape before each character special to LIKE. */
  function EscapeOnce(term: string): string {
    if term == "" then ""
    else (if term[0] in "\\%_" then ['\\', term[0]] else [term[0]]) + EscapeOnce(term[1..])
  }

  /** Replacing a one-character string goes character by character. */
  lemma {:induction false} ReplaceOfAppend(a: string, b: string, target: char, substitute: string)
    ensures ReplaceAll(a + b, [target], substitute) == ReplaceAll(a, [target], substitute) + ReplaceAll(b, [target], substitute)
  {
    if a == "" {
      assert a + b == b;
    } else {
      assert (a + b)[1..] == a[1..] + b;
      ReplaceOfAppend(a[1..], b, target, substitute);
    }
  }

  function ThreeReplacements(s: string): string {
    ReplaceAll(ReplaceAll(ReplaceAll(s, "\\", "\\\\"), "%", "\\%"), "_", "\\_")
  }

  lemma ThreeReplacementsOfAppend(a: string, b: string)
    ensures ThreeReplacements(a + b) == ThreeReplacements(a) + ThreeReplacements(b)
  {
    ReplaceOfAppend(a, b, '\\', "\\\\");
    var a1, b1 := ReplaceAll(a, "\\", "\\\\"), ReplaceAll(b, "\\", "\\\\");
    ReplaceOfAppend(a1, b1, '%', "\\%");
    ReplaceOfAppend(ReplaceAll(a1, "%", "\\%"), ReplaceAll(b1, "%", "\\%"), '_', "\\_");
  }

  lemma ThreeReplacementsOfChar(c: char)
    ensures ThreeReplacements([c]) == if c in "\\%_" then ['\\', c] else [c]
  {
    if c == '\\' {
      assert "\\\\" == "\\" + "\\";
      ReplaceOfAppend("\\", "\\", '%', "\\%");
      ReplaceOfAppend("\\", "\\", '_', "\\_");
    } else if c == '%' {
      assert "\\%" == "\\" + "%";
      ReplaceOfAppend("\\", "%", '_', "\\_");
    }
  }

  /** The three replacements in a row amount to one pass: no replacement touches an earlier one's output. */
  lemma {:induction false} ReplacementsAreOnePass(term: string)
    ensures ThreeReplacements(term) == EscapeOnce(term)
  {
    if term != "" {
      assert term == [term[0]] + term[1..];
      ThreeReplacementsOfAppend([term[0]], term[1..]);
      ThreeReplacementsOfChar(term[0]);
      ReplacementsAreOnePass(term[1..]);
    }
  }

  lemma {:induction false} PercentMatchesAll(text: string, eq: CharRelation)
    ensures Like("%", text, eq)
  {
    if text == "" {
      assert Like("%"[1..], text, eq);
    } else {
      PercentMatchesAll(text[1..], eq);
    }
  }

  lemma {:induction false} EscapedMatchesPrefix(term: string, text: string, eq: CharRelation)
    ensures Like(EscapeOnce(term) + "%", text, eq) <==> OccursAt(term, text, 0, eq)
  {
    var p := EscapeOnce(term) + "%";
    if term == "" {
      assert p == "%";
      PercentMatchesAll(text, eq);
    } else {
      var special := term[0] in "\\%_";
      assert p[if special then 2 else 1..] == EscapeOnce(term[1..]) + "%";
      if text != "" {
        EscapedMatchesPrefix(term[1..], text[1..], eq);
        assert OccursAt(term, text, 0, eq) <==> eq(term[0], text[0]) && OccursAt(term[1..], text[1..], 0, eq) by {
          if eq(term[0], text[0]) && OccursAt(term[1..], text[1..], 0, eq) {
            forall k | 0 <= k < |term| ensures eq(term[k], text[0 + k]) {
              if k > 0 { assert eq(term[1..][k - 1], text[1..][0 + (k - 1)]); }
            }
          }
          if OccursAt(term, text, 0, eq) {
            forall k | 0 <= k < |term[1..]| ensures eq(term[1..][k], text[1..][0 + k]) {
              assert eq(term[k + 1], text[0 + (k + 1)]);
            }
          }
        }
      }
    }
  }

  lemma {:induction false} EscapedMatchesAnywhere(term: string, text: string, eq: CharRelation)
    ensures Like("%" + EscapeOnce(term) + "%", text, eq) <==>
            exists i: nat :: i <= |text| && OccursAt(term, text, i, eq)
  {
    var p := "%" + EscapeOnce(term) + "%";
    assert p[1..] == EscapeOnce(term) + "%";
    EscapedMatchesPrefix(term, text, eq);
    if text != "" {
      EscapedMatchesAnywhere(term, text[1..], eq);
      if i: nat :| i <= |text[1..]| && OccursAt(term, text[1..], i, eq) {
        forall k | 0 <= k < |term| ensures eq(term[k], text[i + 1 + k]) {
          assert text[i + 1 + k] == text[1..][i + k];
        }
        assert OccursAt(term, text, i + 1, eq);
      }
      if i: nat :| i <= |text| && OccursAt(term, text, i, eq) {
        if i > 0 {
          forall k | 0 <= k < |term| ensures eq(term[k], text[1..][(i - 1) + k]) {
            assert text[i + k] == text[1..][(i - 1) + k];
          }
          assert OccursAt(term, text[1..], i - 1, eq);
        }
      }
    }
  }

  /** LIKE accepts the pattern exactly when the trimmed input is a substring of the text;
      blank input therefore accepts every text. */
  lemma PatternFindsSubstrings(input: string, text: string, eq: CharRelation)
    ensures Like(BuildLIKEPattern(input), text, eq) <==>
            exists i: nat :: i <= |text| && OccursAt(TrimSpace(input), text, i, eq)
  {
    var term := TrimSpace(input);
    if term == "" {
      PercentMatchesAll(text, eq);
      assert OccursAt(term, text, 0, eq);
    } else {
      ReplacementsAreOnePass(term);
      EscapedMatchesAnywhere(term, text, eq);
    }
  }
}
