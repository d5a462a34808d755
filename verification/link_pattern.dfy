/**
 * The link/username classifier both handler files use: a case-insensitive
 * search for the pattern `(t\.me|http[s]?://|@[\w_]+)`. A text is flagged
 * when some position starts `t.me`, `http://` or `https://` in any letter
 * case, or holds `@` followed by a word character. Case folding and word
 * characters are the ASCII ones.
 */
module LinkPattern {
  import opened Telegram

  const DotMe: string := "t.me"
  const HttpScheme: string := "http://"
  const HttpsScheme: string := "https://"

  /** ASCII lower-casing; every other character is left alone. */
  function FoldCase(c: char): char
  {
    if 'A' <= c <= 'Z' then (c as int - 'A' as int + 'a' as int) as char else c
  }

  /** `\w` restricted to ASCII (it already includes `_`). */
  predicate IsWordChar(c: char)
  {
    'a' <= c <= 'z' || 'A' <= c <= 'Z' || '0' <= c <= '9' || c == '_'
  }

  /** `lit` (written in lower case) occurs at `i`, ignoring letter case. */
  predicate LiteralAt(text: string, i: nat, lit: string)
  {
    i + |lit| <= |text| && forall k :: 0 <= k < |lit| ==> FoldCase(text[i + k]) == lit[k]
  }

  /** `@[\w_]+` matches at `i`; one word character suffices for the search. */
  predicate UsernameAt(text: string, i: nat)
  {
    i + 1 < |text| && text[i] == '@' && IsWordChar(text[i + 1])
  }

  /** Some alternative of the pattern matches starting at `i`. */
  predicate MatchStartsAt(text: string, i: nat)
  {
    LiteralAt(text, i, DotMe) || LiteralAt(text, i, HttpScheme) || LiteralAt(text, i, HttpsScheme)
    || UsernameAt(text, i)
  }

  /** `re.search` finds a match somewhere in `text`; the shortest match, `@` and one word character, has two characters. */
  predicate IsFlagged(text: string)
    ensures IsFlagged(text) ==> |text| >= 2
  {
    exists i: nat :: i < |text| && MatchStartsAt(text, i)
  }

  /** Compares `lit` against `text` at `i` character by character. */
  method MatchLiteral(text: string, i: nat, lit: string) returns (matched: bool)
    ensures matched <==> LiteralAt(text, i, lit)
  {
    if i + |lit| > |text| {
      return false;
    }
    var k := 0;
    while k < |lit|
      invariant 0 <= k <= |lit|
      invariant forall j :: 0 <= j < k ==> FoldCase(text[i + j]) == lit[j]
    {
      if FoldCase(text[i + k]) != lit[k] {
        return false;
      }
      k := k + 1;
    }
    return true;
  }

  /**
   * Scans left to right as `re.search` does and returns where the first
   * match starts, or None when the text is not flagged.
   */
  method Search(text: string) returns (start: Option<nat>)
    ensures start.Some? <==> IsFlagged(text)
    ensures start.Some? ==> start.value < |text| && MatchStartsAt(text, start.value)
    ensures start.Some? ==> forall j: nat :: j < start.value ==> !MatchStartsAt(text, j)
  {
    var i: nat := 0;
    while i < |text|
      invariant i <= |text|
      invariant forall j: nat :: j < i ==> !MatchStartsAt(text, j)
    {
      var hit := MatchLiteral(text, i, DotMe);
      if !hit {
        hit := MatchLiteral(text, i, HttpScheme);
      }
      if !hit {
        hit := MatchLiteral(text, i, HttpsScheme);
      }
      if !hit {
        hit := i + 1 < |text| && text[i] == '@' && IsWordChar(text[i + 1]);
      }
      if hit {
        assert MatchStartsAt(text, i);
        return Some(i);
      }
      i := i + 1;
    }
    return None;
  }

  /** Two characters equal up to case are both word characters or neither, and both `@` or neither. */
  lemma SameFoldSameClass(a: char, b: char)
    requires FoldCase(a) == FoldCase(b)
    ensures IsWordChar(a) == IsWordChar(b)
    ensures a == '@' <==> b == '@'
  {
  }

  lemma MatchIgnoresCase(a: string, b: string, i: nat)
    requires |a| == |b|
    requires forall k :: 0 <= k < |a| ==> FoldCase(a[k]) == FoldCase(b[k])
    ensures MatchStartsAt(a, i) == MatchStartsAt(b, i)
  {
    if i + 1 < |a| {
      SameFoldSameClass(a[i], b[i]);
      SameFoldSameClass(a[i + 1], b[i + 1]);
    }
  }

  /** The search is case-insensitive: texts equal up to ASCII case are flagged alike. */
  lemma FlaggedIgnoresCase(a: string, b: string)
    requires |a| == |b|
    requires forall k :: 0 <= k < |a| ==> FoldCase(a[k]) == FoldCase(b[k])
    ensures IsFlagged(a) <==> IsFlagged(b)
  {
    if IsFlagged(a) {
      var i: nat :| i < |a| && MatchStartsAt(a, i);
      MatchIgnoresCase(a, b, i);
    }
    if IsFlagged(b) {
      var i: nat :| i < |b| && MatchStartsAt(b, i);
      MatchIgnoresCase(a, b, i);
    }
  }

  lemma MatchShifts(pre: string, text: string, post: string, i: nat)
    requires MatchStartsAt(text, i)
    ensures MatchStartsAt(pre + text + post, |pre| + i)
  {
  }

  /** A flagged text stays flagged whatever surrounds it: the search is a substring search. */
  lemma FlaggedInAnyContext(pre: string, text: string, post: string)
    requires IsFlagged(text)
    ensures IsFlagged(pre + text + post)
  {
    var i: nat :| i < |text| && MatchStartsAt(text, i);
    MatchShifts(pre, text, post, i);
  }

  /** `t.me` inside an ordinary word is flagged too. */
  lemma DotMeInsideWordIsFlagged()
    ensures IsFlagged("dont.meet")
  {
    assert LiteralAt("dont.meet", 3, DotMe);
    assert MatchStartsAt("dont.meet", 3);
  }

  /** An e-mail address is flagged through its `@` followed by a word character. */
  lemma EmailAddressIsFlagged()
    ensures IsFlagged("a@b.com")
  {
    assert UsernameAt("a@b.com", 1);
    assert MatchStartsAt("a@b.com", 1);
  }

  /** Letter case does not matter for the schemes. */
  lemma UpperCaseSchemeIsFlagged()
    ensures IsFlagged("see HTTPS://x")
  {
    assert LiteralAt("see HTTPS://x", 4, HttpsScheme);
    assert MatchStartsAt("see HTTPS://x", 4);
  }

  /** An `@` not followed by a word character, a scheme without `//`, and `t. me` are not flagged. */
  lemma NearMissesAreNotFlagged()
    ensures !IsFlagged("@ t. me http:")
  {
    var s := "@ t. me http:";
    forall i: nat | i < |s| ensures !MatchStartsAt(s, i) {
      if i != 0 {
        assert s[i] != '@';
      }
      assert !LiteralAt(s, i, DotMe) by {
        if i + 4 <= |s| {
          assert exists k :: 0 <= k < 4 && FoldCase(s[i + k]) != DotMe[k] by {
            if i == 2 { assert FoldCase(s[i + 2]) != DotMe[2]; }
            else if i == 9 { assert FoldCase(s[i + 1]) != DotMe[1]; }
            else { assert FoldCase(s[i]) != DotMe[0]; }
          }
        }
      }
      assert !LiteralAt(s, i, HttpScheme) by {
        if i + 7 <= |s| {
          assert FoldCase(s[i]) != HttpScheme[0];
        }
      }
      assert !LiteralAt(s, i, HttpsScheme) by {
        if i + 8 <= |s| {
          assert FoldCase(s[i]) != HttpsScheme[0];
        }
      }
    }
  }
}
