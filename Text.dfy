/** String helpers shared by every part of the model.
    Strings are sequences of characters; the helpers below give the
    JavaScript string operations the bot relies on (`trim`, `includes`,
    `startsWith`, `replace`, `toLowerCase`, number-to-string) a meaning
    stated by their contracts. */
module Text {

  datatype Option<T> = None | Some(value: T)

  /** JavaScript's WhiteSpace and LineTerminator characters: the set that
      `String.prototype.trim` strips and that the regular-expression
      class `\s` matches. */
  predicate IsSpace(c: char) {
    || c == ' ' || c == '\t' || c == '\n' || c == '\r'
    || c == '\U{000B}' || c == '\U{000C}' || c == '\U{00A0}' || c == '\U{1680}'
    || ('\U{2000}' <= c <= '\U{200A}')
    || c == '\U{2028}' || c == '\U{2029}' || c == '\U{202F}' || c == '\U{205F}'
    || c == '\U{3000}' || c == '\U{FEFF}'
  }

  predicate AllSpace(s: string) {
    forall i :: 0 <= i < |s| ==> IsSpace(s[i])
  }

  /** The characters of the regular-expression class `[a-zA-Z0-9_]` (`\w`). */
  predicate IsWordChar(c: char) {
    ('a' <= c <= 'z') || ('A' <= c <= 'Z') || ('0' <= c <= '9') || c == '_'
  }

  /** The characters of the class `[A-Za-z0-9_-]` used for post identifiers. */
  predicate IsIdChar(c: char) {
    IsWordChar(c) || c == '-'
  }

  predicate IsDigit(c: char) {
    '0' <= c <= '9'
  }

  /** `s.trimStart()`: drops the leading run of whitespace. */
  function TrimStart(s: string): (r: string)
    ensures |r| <= |s|
    ensures r == [] || !IsSpace(r[0])
    decreases |s|
  {
    if |s| > 0 && IsSpace(s[0]) then TrimStart(s[1..]) else s
  }

  /** `s.trimEnd()`: drops the trailing run of whitespace. */
  function TrimEnd(s: string): (r: string)
    ensures |r| <= |s|
    ensures r == [] || !IsSpace(r[|r| - 1])
    decreases |s|
  {
    if |s| > 0 && IsSpace(s[|s| - 1]) then TrimEnd(s[..|s| - 1]) else s
  }

  /** `s.trim()`: the part of `s` between its leading and trailing
      whitespace runs; empty exactly when `s` is all whitespace. */
  function Trim(s: string): (r: string)
    ensures |r| <= |s|
    ensures r == [] || (!IsSpace(r[0]) && !IsSpace(r[|r| - 1]))
    ensures r == [] <==> AllSpace(s)
  {
    TrimBounds(s);
    TrimEnd(TrimStart(s))
  }

  /** `trimEnd(trimStart(s))` is empty exactly when `s` is all
      whitespace, and otherwise starts with a non-whitespace character. */
  lemma TrimBounds(s: string)
    ensures var r := TrimEnd(TrimStart(s));
      && (r == [] <==> AllSpace(s))
      && (r == [] || !IsSpace(r[0]))
  {
    var l := TrimStartSplit(s);
    var t := TrimStart(s);
    var w := TrimEndSplit(t);
    var r := TrimEnd(t);
    assert t == r + w && s == l + t;
    SpaceFramed(s, l, r, w);
  }

  /** A text made of a whitespace run, a part `r` not starting with
      whitespace, and a whitespace run, is all whitespace exactly when `r`
      is empty. */
  lemma SpaceFramed(s: string, l: string, r: string, w: string)
    requires AllSpace(l) && AllSpace(w) && s == l + (r + w)
    requires r + w == [] || !IsSpace((r + w)[0])
    ensures s[..|l|] == l && s[|l|..|l| + |r|] == r && s[|l| + |r|..] == w
    ensures r == [] <==> AllSpace(s)
    ensures r == [] || !IsSpace(r[0])
  {
    SliceParts(l, r, w);
    if r == [] {
      if w != [] {
        assert false;
      }
      assert s == l;
    } else {
      assert s[|l|] == r[0];
    }
  }

  /** The three parts of `l + (r + w)` are found back by slicing. */
  lemma SliceParts(l: string, r: string, w: string)
    ensures var s := l + (r + w);
      s[..|l|] == l && s[|l|..|l| + |r|] == r && s[|l| + |r|..] == w
  {
    var s := l + (r + w);
    assert s[|l|..] == r + w;
    assert s[|l|..][..|r|] == r;
  }

  /** The characters of the trimmed text come from the text. */
  lemma TrimChars(s: string)
    ensures forall c :: c in Trim(s) ==> c in s
  {
    var l, w := TrimSplit(s);
  }

  /** A text is its leading whitespace followed by `trimStart` of it. */
  lemma {:induction false} TrimStartSplit(s: string) returns (l: string)
    ensures AllSpace(l) && s == l + TrimStart(s)
    decreases |s|
  {
    if |s| > 0 && IsSpace(s[0]) {
      var rest := TrimStartSplit(s[1..]);
      l := [s[0]] + rest;
      assert s == [s[0]] + s[1..];
    } else {
      l := [];
      assert s == [] + s;
    }
  }

  /** A text is `trimEnd` of it followed by its trailing whitespace. */
  lemma {:induction false} TrimEndSplit(s: string) returns (w: string)
    ensures AllSpace(w) && s == TrimEnd(s) + w
    decreases |s|
  {
    if |s| > 0 && IsSpace(s[|s| - 1]) {
      var rest := TrimEndSplit(s[..|s| - 1]);
      w := rest + [s[|s| - 1]];
      assert s == s[..|s| - 1] + [s[|s| - 1]];
    } else {
      w := [];
      assert s == s + [];
    }
  }

  /** A text is its trimmed form between two runs of whitespace. */
  lemma TrimSplit(s: string) returns (l: string, w: string)
    ensures AllSpace(l) && AllSpace(w)
    ensures s == l + (Trim(s) + w)
  {
    l := TrimStartSplit(s);
    w := TrimEndSplit(TrimStart(s));
    assert Trim(s) == TrimEnd(TrimStart(s));
  }

  /** Leading whitespace is invisible to `trimStart`. */
  lemma {:induction false} TrimStartSpacePrefix(l: string, s: string)
    requires AllSpace(l)
    ensures TrimStart(l + s) == TrimStart(s)
    decreases |l|
  {
    if |l| > 0 {
      assert (l + s)[1..] == l[1..] + s;
      TrimStartSpacePrefix(l[1..], s);
    } else {
      assert l + s == s;
    }
  }

  /** Trailing whitespace is invisible to `trimEnd`. */
  lemma {:induction false} TrimEndSpaceSuffix(s: string, w: string)
    requires AllSpace(w)
    ensures TrimEnd(s + w) == TrimEnd(s)
    decreases |w|
  {
    if |w| > 0 {
      assert (s + w)[..|s + w| - 1] == s + w[..|w| - 1];
      TrimEndSpaceSuffix(s, w[..|w| - 1]);
    } else {
      assert s + w == s;
    }
  }

  /** `trimStart` of text that is not all whitespace leaves what follows it
      alone. */
  lemma {:induction false} TrimStartAppend(s: string, w: string)
    requires !AllSpace(s)
    ensures TrimStart(s + w) == TrimStart(s) + w
    decreases |s|
  {
    assert |s| > 0;
    assert (s + w)[0] == s[0];
    if IsSpace(s[0]) {
      assert (s + w)[1..] == s[1..] + w;
      TrimStartAppend(s[1..], w);
    }
  }

  /** Whitespace around a text does not change its trimmed form. */
  lemma TrimSurrounded(l: string, s: string, w: string)
    requires AllSpace(l) && AllSpace(w)
    ensures Trim(l + s + w) == Trim(s)
  {
    assert l + s + w == l + (s + w);
    TrimStartSpacePrefix(l, s + w);
    if AllSpace(s) {
      assert AllSpace(l + s + w);
    } else {
      TrimStartAppend(s, w);
      TrimEndSpaceSuffix(TrimStart(s), w);
    }
  }

  predicate StartsWith(s: string, prefix: string) {
    |prefix| <= |s| && s[..|prefix|] == prefix
  }

  /** A concatenation starts with its first part and continues with the
      second. */
  lemma StartsWithAppend(a: string, b: string)
    ensures StartsWith(a + b, a) && (a + b)[|a|..] == b
  {
    assert (a + b)[..|a|] == a;
  }

  /** The maximal-prefix length is determined by its two defining facts. */
  lemma {:induction false} PrefixRunUnique(s: string, p: char -> bool, m: nat)
    requires m <= |s| && forall i :: 0 <= i < m ==> p(s[i])
    requires m == |s| || !p(s[m])
    ensures PrefixRun(s, p) == m
    decreases m
  {
    if m > 0 {
      assert p(s[0]);
      assert forall i :: 0 <= i < m - 1 ==> s[1..][i] == s[i + 1];
      PrefixRunUnique(s[1..], p, m - 1);
    }
  }

  /** `s.includes(sub)`. */
  predicate Contains(s: string, sub: string)
    decreases |s|
  {
    StartsWith(s, sub) || (|s| > 0 && Contains(s[1..], sub))
  }

  lemma {:induction false} ContainsIff(s: string, sub: string)
    ensures Contains(s, sub) <==> exists i :: 0 <= i <= |s| && StartsWith(s[i..], sub)
    decreases |s|
  {
    if StartsWith(s, sub) {
      assert s[0..] == s;
    } else if |s| > 0 {
      ContainsIff(s[1..], sub);
      if Contains(s[1..], sub) {
        var i :| 0 <= i <= |s| - 1 && StartsWith(s[1..][i..], sub);
        assert s[1..][i..] == s[i + 1..];
      }
      if exists i :: 0 <= i <= |s| && StartsWith(s[i..], sub) {
        var i :| 0 <= i <= |s| && StartsWith(s[i..], sub);
        assert i != 0 by { assert s[0..] == s; }
        assert s[1..][i - 1..] == s[i..];
      }
    } else {
      assert forall i :: 0 <= i <= |s| ==> s[i..] == s;
    }
  }

  /** An occurrence of `sub` at position `i` is enough for `Contains`. */
  lemma ContainsAt(s: string, sub: string, i: nat)
    requires i + |sub| <= |s| && s[i..i + |sub|] == sub
    ensures Contains(s, sub)
  {
    assert s[i..][..|sub|] == s[i..i + |sub|];
    ContainsIff(s, sub);
  }

  /** An occurrence of an occurrence is an occurrence. */
  lemma {:induction false} ContainsTransitive(s: string, sub: string, part: string)
    requires Contains(s, sub) && Contains(sub, part)
    ensures Contains(s, part)
  {
    ContainsIff(s, sub);
    ContainsIff(sub, part);
    var i :| 0 <= i <= |s| && StartsWith(s[i..], sub);
    var j :| 0 <= j <= |sub| && StartsWith(sub[j..], part);
    var w := s[i + j..i + j + |part|];
    forall q | 0 <= q < |part| ensures w[q] == part[q] {
      assert part[q] == sub[j..][..|part|][q] == sub[j + q];
      assert sub[j + q] == s[i..][..|sub|][j + q] == s[i + j + q];
    }
    ContainsAt(s, part, i + j);
  }

  /** An occurrence in `b` is an occurrence in `a + b`. */
  lemma {:induction false} ContainsSuffix(a: string, b: string, sub: string)
    requires Contains(b, sub)
    ensures Contains(a + b, sub)
    decreases |a|
  {
    if |a| > 0 {
      assert (a + b)[1..] == a[1..] + b;
      ContainsSuffix(a[1..], b, sub);
    } else {
      assert a + b == b;
    }
  }

  /** A character of `sub` that never occurs in `s` means `sub` does not
      occur in `s`. */
  lemma MissingCharRulesOut(s: string, sub: string, k: nat)
    requires k < |sub| && sub[k] !in s
    ensures !Contains(s, sub)
  {
    ContainsIff(s, sub);
    forall i | 0 <= i <= |s|
      ensures !StartsWith(s[i..], sub)
    {
      if i + |sub| <= |s| {
        assert s[i..][..|sub|][k] == s[i + k];
        assert s[i + k] in s;
      }
    }
  }

  /** When no window of `s` has `sub[k]` at offset `k`, `sub` does not
      occur in `s`. */
  lemma NoMatchAt(s: string, sub: string, k: nat)
    requires k < |sub|
    requires forall j :: k <= j <= |s| - |sub| + k ==> s[j] != sub[k]
    ensures !Contains(s, sub)
  {
    ContainsIff(s, sub);
    forall i | 0 <= i <= |s|
      ensures !StartsWith(s[i..], sub)
    {
      if i + |sub| <= |s| {
        assert s[i..][..|sub|][k] == s[i + k];
      }
    }
  }

  /** `s.replace(/pat/g, rep)` for a literal, non-empty pattern: every
      occurrence, scanning left to right without overlap, is replaced. */
  function ReplaceAll(s: string, pat: string, rep: string): (r: string)
    requires |pat| > 0
    ensures !Contains(s, pat) ==> r == s
    decreases |s|
  {
    if |s| < |pat| then s
    else if s[..|pat|] == pat then rep + ReplaceAll(s[|pat|..], pat, rep)
    else [s[0]] + ReplaceAll(s[1..], pat, rep)
  }

  /** `s.replace(/[…]/g, '')`: drops every character of `cs`. */
  function DeleteChars(s: string, cs: set<char>): (r: string)
    ensures |r| <= |s|
    ensures forall c :: c in r ==> c in s && c !in cs
    ensures forall c :: c in s && c !in cs ==> c in r
    decreases |s|
  {
    if |s| == 0 then ""
    else if s[0] in cs then DeleteChars(s[1..], cs)
    else [s[0]] + DeleteChars(s[1..], cs)
  }

  /** Deleting characters that are already absent changes nothing. */
  lemma {:induction false} DeleteAbsentChars(s: string, cs: set<char>)
    requires forall c :: c in s ==> c !in cs
    ensures DeleteChars(s, cs) == s
    decreases |s|
  {
    if |s| > 0 {
      assert s[0] in s;
      assert forall c :: c in s[1..] ==> c in s;
      DeleteAbsentChars(s[1..], cs);
      assert s == [s[0]] + s[1..];
    }
  }

  /** `s.replace(pat, rep)` with a string pattern: only the first
      occurrence is replaced. */
  function ReplaceFirst(s: string, pat: string, rep: string): (r: string)
    ensures StartsWith(s, pat) ==> r == rep + s[|pat|..]
    ensures !Contains(s, pat) ==> r == s
    ensures forall c :: c in r ==> c in s || c in rep
    decreases |s|
  {
    if StartsWith(s, pat) then rep + s[|pat|..]
    else if |s| == 0 then s
    else [s[0]] + ReplaceFirst(s[1..], pat, rep)
  }

  /** `pat` occurs at `i` and nowhere before. */
  predicate FirstOccurrence(s: string, pat: string, i: nat) {
    i <= |s| && StartsWith(s[i..], pat)
    && forall j :: 0 <= j < i ==> !StartsWith(s[j..], pat)
  }

  lemma FirstOccurrenceTail(s: string, pat: string, i: nat)
    requires i > 0 && FirstOccurrence(s, pat, i)
    ensures FirstOccurrence(s[1..], pat, i - 1) && !StartsWith(s, pat)
  {
    assert s[0..] == s;
    assert s[1..][i - 1..] == s[i..];
    forall j | 0 <= j < i - 1
      ensures !StartsWith(s[1..][j..], pat)
    {
      assert s[1..][j..] == s[j + 1..];
    }
  }

  /** `ReplaceFirst` swaps the first occurrence of `pat`, wherever it is,
      for `rep` and leaves the rest of `s` as it was. */
  lemma {:induction false} ReplaceFirstAt(s: string, pat: string, rep: string, i: nat)
    requires FirstOccurrence(s, pat, i)
    ensures ReplaceFirst(s, pat, rep) == s[..i] + rep + s[i + |pat|..]
    decreases i
  {
    if i == 0 {
      assert s[0..] == s;
    } else {
      FirstOccurrenceTail(s, pat, i);
      ReplaceFirstAt(s[1..], pat, rep, i - 1);
      assert ReplaceFirst(s, pat, rep) == [s[0]] + ReplaceFirst(s[1..], pat, rep);
      ConsSplice(s, rep, i, i + |pat|);
    }
  }

  lemma ConsSplice(s: string, rep: string, i: nat, j: nat)
    requires 0 < i <= j <= |s|
    ensures [s[0]] + (s[1..][..i - 1] + rep + s[1..][j - 1..]) == s[..i] + rep + s[j..]
  {
    assert s[..i] == [s[0]] + s[1..][..i - 1];
    assert s[1..][j - 1..] == s[j..];
  }

  /** `s.split(c)[0]`: everything before the first `c`. */
  function BeforeFirst(s: string, c: char): (r: string)
    ensures c !in r
    ensures StartsWith(s, r)
    ensures |r| < |s| ==> s[|r|] == c
    ensures c !in s ==> r == s
    decreases |s|
  {
    if |s| == 0 || s[0] == c then "" else [s[0]] + BeforeFirst(s[1..], c)
  }

  function ToLowerChar(c: char): char {
    if 'A' <= c <= 'Z' then (c as int - 'A' as int + 'a' as int) as char else c
  }

  /** `s.toLowerCase()` on the ASCII letters. */
  function ToLower(s: string): (r: string)
    ensures |r| == |s|
    ensures forall i :: 0 <= i < |s| ==> r[i] == ToLowerChar(s[i])
    decreases |s|
  {
    if |s| == 0 then "" else [ToLowerChar(s[0])] + ToLower(s[1..])
  }

  /** Lowering twice is lowering once. */
  lemma ToLowerIdempotent(s: string)
    ensures ToLower(ToLower(s)) == ToLower(s)
  {
  }

  /** `tags.map(tag => tag.toLowerCase())`. */
  function LowerAll(tags: seq<string>): (r: seq<string>)
    ensures |r| == |tags|
    ensures forall i :: 0 <= i < |r| ==> r[i] == ToLower(tags[i])
  {
    if |tags| == 0 then [] else [ToLower(tags[0])] + LowerAll(tags[1..])
  }

  /** Length of the longest prefix of `s` whose characters satisfy `p`. */
  function PrefixRun(s: string, p: char -> bool): (n: nat)
    ensures n <= |s|
    ensures forall i :: 0 <= i < n ==> p(s[i])
    ensures n == |s| || !p(s[n])
    decreases |s|
  {
    if |s| > 0 && p(s[0]) then 1 + PrefixRun(s[1..], p) else 0
  }

  function DigitChar(d: nat): char
    requires d < 10
  {
    ('0' as int + d) as char
  }

  function DigitValue(c: char): nat
    requires IsDigit(c)
  {
    c as int - '0' as int
  }

  /** Decimal digits of a natural number, most significant first. */
  function NatToString(n: nat): (r: string)
    ensures |r| > 0 && forall i :: 0 <= i < |r| ==> IsDigit(r[i])
    ensures |r| > 1 ==> r[0] != '0'
  {
    if n < 10 then [DigitChar(n)] else NatToString(n / 10) + [DigitChar(n % 10)]
  }

  /** The value of a run of decimal digits. */
  function DigitsValue(s: string): nat
    requires forall i :: 0 <= i < |s| ==> IsDigit(s[i])
    decreases |s|
  {
    if |s| == 0 then 0 else 10 * DigitsValue(s[..|s| - 1]) + DigitValue(s[|s| - 1])
  }

  /** Reading back the digits of `n` gives `n`. */
  lemma {:induction false} NatToStringValue(n: nat)
    ensures DigitsValue(NatToString(n)) == n
  {
    if n >= 10 {
      NatToStringValue(n / 10);
      var r := NatToString(n);
      assert r[..|r| - 1] == NatToString(n / 10);
    }
  }

  /** JavaScript's rendering of an integer-valued number (`${n}`). */
  function IntToString(n: int): (r: string)
    ensures n >= 0 ==> r == NatToString(n)
    ensures n < 0 ==> r == "-" + NatToString(-n)
  {
    if n < 0 then "-" + NatToString(-n) else NatToString(n)
  }

  /** The matches of the global pattern `/#[a-zA-Z0-9_]+/g`, in order:
      each is a `#` followed by the maximal run of word characters. */
  function HashtagMatches(s: string): (r: seq<string>)
    ensures forall k :: 0 <= k < |r| ==> IsHashtagShape(r[k])
    ensures |r| <= |s|
    decreases |s|
  {
    if |s| == 0 then []
    else if s[0] == '#' && |s| > 1 && IsWordChar(s[1]) then
      var n := PrefixRun(s[1..], IsWordChar);
      [s[..1 + n]] + HashtagMatches(s[1 + n..])
    else HashtagMatches(s[1..])
  }

  /** The shape `^#[a-zA-Z0-9_]+$`. */
  predicate IsHashtagShape(t: string) {
    |t| >= 2 && t[0] == '#' && forall i :: 1 <= i < |t| ==> IsWordChar(t[i])
  }

  /** Somewhere in `s` a `#` is followed by a word character. */
  predicate HasHashtag(s: string) {
    exists i :: 0 <= i < |s| - 1 && s[i] == '#' && IsWordChar(s[i + 1])
  }

  /** The pattern matches at all exactly when some `#` is followed by a
      word character. */
  lemma {:induction false} HashtagMatchesEmpty(s: string)
    ensures HashtagMatches(s) == [] <==> !HasHashtag(s)
    decreases |s|
  {
    if |s| > 0 && !(s[0] == '#' && |s| > 1 && IsWordChar(s[1])) {
      HashtagMatchesEmpty(s[1..]);
      if HasHashtag(s) {
        var i :| 0 <= i < |s| - 1 && s[i] == '#' && IsWordChar(s[i + 1]);
        assert s[1..][i - 1] == s[i] && s[1..][i] == s[i + 1];
      }
      if HasHashtag(s[1..]) {
        var i :| 0 <= i < |s[1..]| - 1 && s[1..][i] == '#' && IsWordChar(s[1..][i + 1]);
        assert s[i + 1] == '#' && IsWordChar(s[i + 2]);
      }
    }
  }

  // ---------------------------------------------------------------------
  // First-match classification of messages

  /** A row of a table that classifies error messages: any of the
      keywords selects the row's message. */
  datatype Rule = Rule(keywords: seq<string>, message: string)

  predicate MentionsAny(m: string, keywords: seq<string>) {
    exists k :: 0 <= k < |keywords| && Contains(m, keywords[k])
  }

  /** The message of the first row whose keywords occur in `m`. */
  function FirstRule(rules: seq<Rule>, m: string): (r: Option<string>)
    ensures r.Some? <==> exists i :: 0 <= i < |rules| && MentionsAny(m, rules[i].keywords)
  {
    if |rules| == 0 then None
    else if MentionsAny(m, rules[0].keywords) then Some(rules[0].message)
    else
      var r := FirstRule(rules[1..], m);
      assert forall i :: 1 <= i < |rules| ==> rules[i] == rules[1..][i - 1];
      r
  }

  /** Membership in a one- or two-keyword row. */
  lemma MentionsFew(m: string, a: string, b: string)
    ensures MentionsAny(m, [a]) <==> Contains(m, a)
    ensures MentionsAny(m, [a, b]) <==> Contains(m, a) || Contains(m, b)
  {
    if Contains(m, a) {
      assert [a][0] == a && [a, b][0] == a;
    }
    if Contains(m, b) {
      assert [a, b][1] == b;
    }
  }

  /** Reading the table one row at a time. */
  lemma FirstRuleCons(rules: seq<Rule>, m: string)
    requires |rules| > 0
    ensures FirstRule(rules, m) ==
      if MentionsAny(m, rules[0].keywords) then Some(rules[0].message) else FirstRule(rules[1..], m)
  {
  }
}
