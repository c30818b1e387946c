/**
 * The variable substitution at the end of the preview: for each variable,
 * in order, every `{{key}}` of the whole text is replaced by the value, or
 * by the placeholder itself when the value is empty.  `String.replace`
 * with a global pattern scans left to right and never rescans what it has
 * just inserted.
 */
module Substitution {
  import opened Strings
  import opened Variables

  /** The placeholder text of a key. */
  function Pattern(key: string): (p: string)
    ensures |p| == |key| + 4 && p[0] == '{'
  {
    "{{" + key + "}}"
  }

  /** `variables[key] || '{{key}}'`. */
  function Replacement(b: Binding): string {
    if b.value == [] then Pattern(b.key) else b.value
  }

  /** Whether `pat` occurs in `s` at index `i`. */
  predicate OccursAt(s: string, pat: string, i: nat) {
    i <= |s| && pat <= s[i..]
  }

  /** `s.replace(/pat/g, rep)` for a pattern that matches itself literally: leftmost, non-overlapping. */
  function ReplaceAll(s: string, pat: string, rep: string): (r: string)
    requires pat != []
    ensures |rep| == |pat| ==> |r| == |s|
    decreases |s|
  {
    if s == [] then []
    else if pat <= s then rep + ReplaceAll(s[|pat|..], pat, rep)
    else [s[0]] + ReplaceAll(s[1..], pat, rep)
  }

  /** One step of the `forEach` over the variables. */
  function Substitute(text: string, b: Binding): string {
    ReplaceAll(text, Pattern(b.key), Replacement(b))
  }

  /** The text after the first `|vars|` steps of the `forEach`. */
  function SubstituteAll(text: string, vars: seq<Binding>): string
    decreases |vars|
  {
    if vars == [] then text else Substitute(SubstituteAll(text, vars[..|vars| - 1]), vars[|vars| - 1])
  }

  // ----- what replacing does -----

  /** Text in which the pattern does not occur is left as it is. */
  lemma {:induction false} ReplaceAllAbsent(s: string, pat: string, rep: string)
    requires pat != []
    requires forall i: nat :: !OccursAt(s, pat, i)
    ensures ReplaceAll(s, pat, rep) == s
    decreases |s|
  {
    if s != [] {
      assert !(pat <= s) by {
        assert !OccursAt(s, pat, 0) && s[0..] == s;
      }
      AbsentFromTail(s, pat);
      ReplaceAllAbsent(s[1..], pat, rep);
    }
  }

  lemma AbsentFromTail(s: string, pat: string)
    requires s != []
    requires forall i: nat :: !OccursAt(s, pat, i)
    ensures forall i: nat :: !OccursAt(s[1..], pat, i)
  {
    forall i: nat ensures !OccursAt(s[1..], pat, i) {
      assert !OccursAt(s, pat, i + 1);
      if i <= |s[1..]| {
        assert s[1..][i..] == s[i + 1..];
      }
    }
  }

  /** Replacing the pattern by itself changes nothing, so a variable with an empty value leaves its placeholder. */
  lemma {:induction false} ReplaceAllIdentity(s: string, pat: string)
    requires pat != []
    ensures ReplaceAll(s, pat, pat) == s
    decreases |s|
  {
    if s != [] {
      if pat <= s {
        ReplaceAllIdentity(s[|pat|..], pat);
        assert s[..|pat|] == pat;
        assert s == s[..|pat|] + s[|pat|..];
      } else {
        ReplaceAllIdentity(s[1..], pat);
        assert s == [s[0]] + s[1..];
      }
    }
  }

  /** Variables whose values are all empty leave the text unchanged. */
  lemma {:induction false} EmptyValuesKeepText(text: string, vars: seq<Binding>)
    requires forall k :: 0 <= k < |vars| ==> vars[k].value == []
    ensures SubstituteAll(text, vars) == text
    decreases |vars|
  {
    if vars != [] {
      EmptyValuesKeepText(text, vars[..|vars| - 1]);
      ReplaceAllIdentity(text, Pattern(vars[|vars| - 1].key));
    }
  }

  /** A placeholder at the front is replaced, and scanning resumes right after it. */
  lemma ReplaceAllHead(pat: string, rest: string, rep: string)
    requires pat != []
    ensures ReplaceAll(pat + rest, pat, rep) == rep + ReplaceAll(rest, pat, rep)
  {
    assert pat <= pat + rest;
    assert (pat + rest)[|pat|..] == rest;
  }

  /**
   * No occurrence can straddle the end of `a` when `a`'s last character
   * does not occur in the pattern, so the two parts are rewritten apart.
   */
  lemma {:induction false} ReplaceAllSplit(a: string, b: string, pat: string, rep: string)
    requires pat != []
    requires a == [] || a[|a| - 1] !in pat
    ensures ReplaceAll(a + b, pat, rep) == ReplaceAll(a, pat, rep) + ReplaceAll(b, pat, rep)
    decreases |a|
  {
    var s := a + b;
    if a == [] {
      assert s == b;
    } else if pat <= a {
      ConcatSlices(a, b, |pat|);
      assert pat <= s;
      ReplaceAllSplit(a[|pat|..], b, pat, rep);
    } else {
      FrontIsNoMatch(a, b, pat);
      ReplaceAllStep(a, pat, rep);
      ReplaceAllStep(s, pat, rep);
      ConcatSlices(a, b, 1);
      ReplaceAllSplit(a[1..], b, pat, rep);
    }
  }

  /** Cutting `a + b` inside `a`. */
  lemma ConcatSlices(a: string, b: string, n: nat)
    requires n <= |a|
    ensures (a + b)[..n] == a[..n] && (a + b)[n..] == a[n..] + b
  {
  }

  /** Without a match at the front, the first character is kept as it is. */
  lemma ReplaceAllStep(s: string, pat: string, rep: string)
    requires pat != [] && s != [] && !(pat <= s)
    ensures ReplaceAll(s, pat, rep) == [s[0]] + ReplaceAll(s[1..], pat, rep)
  {
  }

  /** When `a` does not start with the pattern and its last character is not in it, neither does `a + b`. */
  lemma FrontIsNoMatch(a: string, b: string, pat: string)
    requires a != [] && a[|a| - 1] !in pat
    requires !(pat <= a)
    ensures !(pat <= a + b)
  {
    var s := a + b;
    if |pat| <= |a| {
      assert s[..|pat|] == a[..|pat|];
    } else if |pat| <= |s| {
      assert s[|a| - 1] == a[|a| - 1];
    }
  }

  /** The last character survives when it does not occur in the pattern. */
  lemma {:induction false} ReplaceAllKeepsLast(s: string, pat: string, rep: string)
    requires pat != [] && s != [] && s[|s| - 1] !in pat
    ensures ReplaceAll(s, pat, rep) != []
    ensures ReplaceAll(s, pat, rep)[|ReplaceAll(s, pat, rep)| - 1] == s[|s| - 1]
    decreases |s|
  {
    if s != [] {
      if pat <= s {
        assert s[|pat| - 1] == pat[|pat| - 1];
        ReplaceAllKeepsLast(s[|pat|..], pat, rep);
      } else if |s| > 1 {
        ReplaceAllKeepsLast(s[1..], pat, rep);
      }
    }
  }

  /** Text that is empty or ends a line. */
  predicate EndsLine(s: string) {
    s == [] || s[|s| - 1] == '\n'
  }

  lemma EndsLineConcat(a: string, b: string)
    requires EndsLine(a) && EndsLine(b)
    ensures EndsLine(a + b)
  {
    if b == [] {
      assert a + b == a;
    }
  }

  /** No key spans lines. */
  predicate SingleLineKeys(vars: seq<Binding>) {
    forall k :: 0 <= k < |vars| ==> '\n' !in vars[k].key
  }

  /**
   * With keys on one line, text that ends a line is substituted apart from
   * what follows it: each section of the preview is rewritten on its own,
   * and keeps ending a line.
   */
  lemma {:induction false} SubstituteAllSplit(a: string, b: string, vars: seq<Binding>)
    requires EndsLine(a) && SingleLineKeys(vars)
    ensures SubstituteAll(a + b, vars) == SubstituteAll(a, vars) + SubstituteAll(b, vars)
    ensures EndsLine(SubstituteAll(a, vars))
    decreases |vars|
  {
    if vars != [] {
      var init, last := vars[..|vars| - 1], vars[|vars| - 1];
      SubstituteAllSplit(a, b, init);
      var x := SubstituteAll(a, init);
      var pat := Pattern(last.key);
      assert '\n' !in last.key;
      assert '\n' !in pat;
      ReplaceAllSplit(x, SubstituteAll(b, init), pat, Replacement(last));
      if x != [] {
        ReplaceAllKeepsLast(x, pat, Replacement(last));
      }
    }
  }

  /**
   * A placeholder becomes its replacement wherever it stands, as long as
   * the character before it (if any) cannot be the start of an earlier
   * match that overlaps it: at the start of the text, after a line end, or
   * in mid-line after a space when the key has none.
   */
  lemma PlaceholderReplaced(before: string, after: string, b: Binding)
    requires before == [] || before[|before| - 1] !in Pattern(b.key)
    ensures Substitute(before + Pattern(b.key) + after, b)
         == Substitute(before, b) + Replacement(b) + Substitute(after, b)
  {
    var pat := Pattern(b.key);
    assert before + pat + after == before + (pat + after);
    ReplaceAllSplit(before, pat + after, pat, Replacement(b));
    ReplaceAllHead(pat, after, Replacement(b));
  }

  /**
   * In mid-line, after a space: a placeholder whose key has no space,
   * surrounded by text without braces, is the only thing that changes.
   */
  lemma MidLinePlaceholder(before: string, after: string, b: Binding)
    requires ' ' !in b.key && '{' !in before && '{' !in after
    ensures Substitute(before + " " + Pattern(b.key) + after, b) == before + " " + Replacement(b) + after
  {
    var lead := before + " ";
    assert lead[|lead| - 1] == ' ' && ' ' !in Pattern(b.key);
    PlaceholderReplaced(lead, after, b);
    assert '{' !in lead;
    NoBraceUnchanged(lead, b);
    NoBraceUnchanged(after, b);
  }

  /** Text without a `{` holds no placeholder. */
  lemma NoBraceUnchanged(s: string, b: Binding)
    requires '{' !in s
    ensures Substitute(s, b) == s
  {
    var pat := Pattern(b.key);
    forall i: nat ensures !OccursAt(s, pat, i) {
      if i + |pat| <= |s| {
        assert s[i..i + |pat|][0] == s[i];
      }
    }
    ReplaceAllAbsent(s, pat, Replacement(b));
  }

  /** Only the exact `{{key}}` matches: `{{ key }}`, written with inner spaces, is left alone. */
  lemma SpacedPlaceholderKept(key: string, value: string)
    requires key == [] || key[0] != ' '
    ensures Substitute("{{ " + key + " }}", Binding(key, value)) == "{{ " + key + " }}"
  {
    var s := "{{ " + key + " }}";
    var pat := Pattern(key);
    forall i: nat ensures !OccursAt(s, pat, i) {
      if i + |pat| <= |s| {
        assert i <= 2;
        if i == 0 {
          if key == [] {
            assert s[i..i + |pat|][2] == ' ' && pat[2] == '}';
          } else {
            assert s[i..i + |pat|][2] == ' ' && pat[2] == key[0];
          }
        } else {
          assert s[i..i + |pat|][1] == s[i + 1] && pat[1] == '{';
        }
      }
    }
    ReplaceAllAbsent(s, pat, Replacement(Binding(key, value)));
  }

  // ----- the pattern as the source builds it -----

  predicate AllDigits(s: string) {
    s != [] && forall i :: 0 <= i < |s| ==> '0' <= s[i] <= '9'
  }

  function Braces(n: nat): (r: string)
    ensures |r| == n && forall i :: 0 <= i < n ==> r[i] == '{'
  {
    seq(n, _ => '{')
  }

  /**
   * What `new RegExp('{{' + escapedKey + '}}')` matches.  The key's own
   * special characters are escaped, but the outer braces are not: for an
   * all-digit key `n` the text `{n}` is read as a quantifier on the first
   * `{`, so the regular expression matches `n` opening braces and one
   * closing brace instead of the placeholder.
   */
  function SourcePattern(key: string): (p: string)
    ensures p != []
    ensures !AllDigits(key) ==> p == Pattern(key)
    ensures AllDigits(key) ==> p[|p| - 1] == '}' && '}' !in p[..|p| - 1]
  {
    if AllDigits(key) then Braces(DecimalValue(key)) + "}" else Pattern(key)
  }

  /** One substitution step as the source performs it. */
  function SourceSubstitute(text: string, b: Binding): (r: string)
    ensures !AllDigits(b.key) ==> r == Substitute(text, b)
  {
    ReplaceAll(text, SourcePattern(b.key), Replacement(b))
  }

  /** For the key "3" the source leaves `{{3}}` in place whatever the value, where the literal pattern substitutes it. */
  lemma NumericKeyIgnored(value: string)
    requires value != []
    ensures SourceSubstitute("{{3}}", Binding("3", value)) == "{{3}}"
    ensures Substitute("{{3}}", Binding("3", value)) == value
  {
    assert DecimalValue("3") == 3;
    assert Braces(3) == "{{{";
    var s, p := "{{3}}", "{{{}";
    assert SourcePattern("3") == p;
    forall i: nat ensures !OccursAt(s, p, i) {
      if i <= 1 {
        assert s[i..][2] == s[i + 2] != p[2];
      }
    }
    var b := Binding("3", value);
    assert Replacement(b) == value && Pattern("3") == s;
    ReplaceAllAbsent(s, p, value);
    assert SourceSubstitute(s, b) == s;
    ReplaceAllHead(s, [], value);
    assert s + [] == s;
  }

  /**
   * For the key "0" the source's pattern is a lone `}`: every closing brace
   * is replaced, so text ending in `}}` loses both braces to two copies of
   * the value.
   */
  lemma ZeroKeyEatsBraces(text: string, value: string)
    requires '}' !in text && value != []
    ensures SourceSubstitute(text + "}}", Binding("0", value)) == text + value + value
  {
    assert DecimalValue("0") == 0;
    var p := "}";
    assert SourcePattern("0") == p;
    forall i: nat ensures !OccursAt(text, p, i) {
      if i < |text| {
        assert text[i..][0] == text[i];
      }
    }
    ReplaceAllAbsent(text, p, value);
    assert "}}" == p + p;
    ReplaceAllSplit(text, p + p, p, value);
    ReplaceAllHead(p, p, value);
    ReplaceAllHead(p, [], value);
  }

  /** The placeholder `{{0}}` itself becomes `{{0` followed by the value twice. */
  lemma ZeroKeyPlaceholder(value: string)
    requires value != []
    ensures SourceSubstitute(Pattern("0"), Binding("0", value)) == "{{0" + value + value
  {
    assert Pattern("0") == "{{0" + "}}";
    ZeroKeyEatsBraces("{{0", value);
  }

  /**
   * For every all-digit key other than zero, the source never substitutes
   * the key's placeholder: no run of opening braces there is followed by a
   * closing brace.
   */
  lemma NumericPlaceholderNeverSubstituted(key: string, value: string)
    requires AllDigits(key) && DecimalValue(key) > 0
    ensures SourceSubstitute(Pattern(key), Binding(key, value)) == Pattern(key)
  {
    var s := Pattern(key);
    var n := DecimalValue(key);
    var pat := SourcePattern(key);
    assert pat == Braces(n) + "}";
    forall i: nat ensures !OccursAt(s, pat, i) {
      if i + |pat| <= |s| {
        var w := s[i..];
        assert w[n] == s[i + n] && w[n - 1] == s[i + n - 1];
        if s[i + n] == '}' {
          assert i + n >= |key| + 2;
          assert s[i + n - 1] == key[|key| - 1] || s[i + n - 1] == '}';
        }
      }
    }
    ReplaceAllAbsent(s, pat, Replacement(Binding(key, value)));
  }
}
