/** The caption helpers of `src/services/captionGenerator.ts`: the gating
    of the original text, the handling of what Gemini returns (hashtags,
    word count, keyword sentiment), the mapping of Gemini errors to user
    messages, and the selection of styles for variations.

    Gemini itself is an oracle: a script of replies consumed in order and a
    log of the requests made. A request records the original text and, for
    a styled caption, the style; the wording of the prompts is not
    modelled. */
module CaptionGenerator {
  import opened Text
  import opened Oracle

  // ---------------------------------------------------------------------
  // The Gemini oracle

  datatype Style = Casual | Professional | Funny | Motivational | Trendy

  datatype Request = Plain(original: string) | Styled(original: string, style: Style)

  /** Scripted answers of `generateContent(...).response.text()` and the
      requests made so far. */
  datatype Gemini = Gemini(replies: seq<Reply<string>>, requests: seq<Request>)

  /** One call of the model: the next scripted reply, `NO_REPLY` thrown
      when the script is exhausted. */
  function Generate(g: Gemini, req: Request): (r: (Reply<string>, Gemini))
    ensures r.1.requests == g.requests + [req]
    ensures |g.replies| > 0 ==> r.0 == g.replies[0] && r.1.replies == g.replies[1..]
    ensures |g.replies| == 0 ==> r.0 == Fail(NO_REPLY) && r.1.replies == []
  {
    if |g.replies| == 0 then (Fail(NO_REPLY), g.(requests := g.requests + [req]))
    else (g.replies[0], Gemini(g.replies[1..], g.requests + [req]))
  }

  // ---------------------------------------------------------------------
  // Results

  datatype CaptionMetadata = CaptionMetadata(
    hashtags: seq<string>,
    wordCount: nat,
    sentiment: string,
    model: string)

  datatype CaptionResult =
    | Captioned(caption: string, metadata: CaptionMetadata)
    | CaptionFailed(error: string)

  const MODEL_NAME := "gemini-2.5-flash-lite"
  const MAX_TEXT := 1000

  const EMPTY_TEXT_MSG := "Empty text provided"
  const TOO_LONG_MSG := "Text too long - maximum 1000 characters"
  const NO_CAPTION_MSG := "No caption generated"
  const KEY_MSG := "Gemini API key not configured or invalid"
  const QUOTA_MSG := "API quota exceeded - please try again later"
  const RATE_MSG := "Rate limit exceeded - please wait a moment"
  const SAFETY_MSG := "Content filtered by safety settings - try different text"
  const CAPTION_FAILED_MSG := "Failed to generate caption - please try again"
  const STYLED_FAILED_MSG := "Failed to generate styled caption"

  // ---------------------------------------------------------------------
  // Hashtags

  /** `extractHashtags`: the matches of `/#[a-zA-Z0-9_]+/g`, lowered. */
  function ExtractHashtags(text: string): (r: seq<string>)
    ensures |r| == |HashtagMatches(text)|
  {
    LowerAll(HashtagMatches(text))
  }

  /** `m` occurs in `s` at `p` and is not followed by a word character. */
  predicate MatchedAt(s: string, m: string, p: int) {
    0 <= p && p + |m| <= |s| && s[p..p + |m|] == m
    && (p + |m| == |s| || !IsWordChar(s[p + |m|]))
  }

  function Shift(xs: seq<nat>, d: nat): (r: seq<nat>)
    ensures |r| == |xs| && forall i :: 0 <= i < |xs| ==> r[i] == xs[i] + d
  {
    seq(|xs|, i requires 0 <= i < |xs| => xs[i] + d)
  }

  /** Where each match of `HashtagMatches(s)` starts. */
  function HashtagStarts(s: string): (r: seq<nat>)
    ensures |r| == |HashtagMatches(s)|
    decreases |s|
  {
    if |s| == 0 then []
    else if s[0] == '#' && |s| > 1 && IsWordChar(s[1]) then
      var n := PrefixRun(s[1..], IsWordChar);
      [0] + Shift(HashtagStarts(s[1 + n..]), 1 + n)
    else Shift(HashtagStarts(s[1..]), 1)
  }

  lemma MatchedShift(s: string, d: nat, m: string, p: int)
    requires d <= |s| && MatchedAt(s[d..], m, p)
    ensures MatchedAt(s, m, p + d)
  {
    assert s[d..][p..p + |m|] == s[p + d..p + d + |m|];
    if p + |m| < |s[d..]| {
      assert s[d..][p + |m|] == s[p + d + |m|];
    }
  }

  /** Each of `ms` occurs in `s` at the matching position of `st`, not
      followed by a word character. */
  predicate AllMatched(s: string, ms: seq<string>, st: seq<nat>) {
    |ms| == |st| && forall k :: 0 <= k < |ms| ==> MatchedAt(s, ms[k], st[k])
  }

  /** Each of `ms` ends before the next one starts. */
  predicate InOrder(ms: seq<string>, st: seq<nat>) {
    |ms| == |st| && forall j, k :: 0 <= j < k < |ms| ==> st[j] + |ms[j]| <= st[k]
  }

  lemma MatchedAfter(s: string, d: nat, ms: seq<string>, st: seq<nat>)
    requires d <= |s| && AllMatched(s[d..], ms, st)
    ensures AllMatched(s, ms, Shift(st, d))
  {
    forall k | 0 <= k < |ms| ensures MatchedAt(s, ms[k], Shift(st, d)[k]) {
      MatchedShift(s, d, ms[k], st[k]);
    }
  }

  lemma MatchedCons(s: string, m: string, ms: seq<string>, st: seq<nat>)
    requires MatchedAt(s, m, 0) && AllMatched(s, ms, st)
    ensures AllMatched(s, [m] + ms, [0] + st)
  {
    forall k | 1 <= k < |ms| + 1 ensures MatchedAt(s, ([m] + ms)[k], ([0] + st)[k]) {
      assert ([m] + ms)[k] == ms[k - 1] && ([0] + st)[k] == st[k - 1];
    }
  }

  lemma OrderedShift(ms: seq<string>, st: seq<nat>, d: nat)
    requires InOrder(ms, st)
    ensures InOrder(ms, Shift(st, d))
  {
  }

  lemma OrderedCons(m: string, ms: seq<string>, st: seq<nat>)
    requires InOrder(ms, st)
    requires forall k :: 0 <= k < |st| ==> |m| <= st[k]
    ensures InOrder([m] + ms, [0] + st)
  {
    var ms2 := [m] + ms;
    var st2 := [0] + st;
    forall j, k | 0 <= j < k < |ms2| ensures st2[j] + |ms2[j]| <= st2[k] {
      assert st2[k] == st[k - 1];
      if j > 0 {
        assert ms2[j] == ms[j - 1] && st2[j] == st[j - 1];
      }
    }
  }

  /** A leading `#` and word-character run is matched at 0. */
  lemma HashtagHead(s: string)
    requires |s| > 1 && s[0] == '#' && IsWordChar(s[1])
    ensures MatchedAt(s, s[..1 + PrefixRun(s[1..], IsWordChar)], 0)
  {
    var n := PrefixRun(s[1..], IsWordChar);
    if 1 + n < |s| {
      assert s[1..][n] == s[1 + n];
    }
  }

  /** The matches after a leading hashtag, shifted past it, with the
      hashtag itself put in front. */
  lemma HashtagStep(s: string, ms: seq<string>, st: seq<nat>)
    requires |s| > 1 && s[0] == '#' && IsWordChar(s[1])
    requires AllMatched(s[1 + PrefixRun(s[1..], IsWordChar)..], ms, st)
    ensures AllMatched(s, [s[..1 + PrefixRun(s[1..], IsWordChar)]] + ms,
                       [0] + Shift(st, 1 + PrefixRun(s[1..], IsWordChar)))
  {
    var n := PrefixRun(s[1..], IsWordChar);
    MatchedAfter(s, 1 + n, ms, st);
    HashtagHead(s);
    MatchedCons(s, s[..1 + n], ms, Shift(st, 1 + n));
  }

  /** Each match is a maximal `#`-and-word-characters run of `s`. */
  lemma {:induction false} HashtagsMatched(s: string)
    ensures AllMatched(s, HashtagMatches(s), HashtagStarts(s))
    decreases |s|
  {
    if |s| == 0 {
    } else if s[0] == '#' && |s| > 1 && IsWordChar(s[1]) {
      var n := PrefixRun(s[1..], IsWordChar);
      var t := s[1 + n..];
      assert HashtagMatches(s) == [s[..1 + n]] + HashtagMatches(t);
      assert HashtagStarts(s) == [0] + Shift(HashtagStarts(t), 1 + n);
      HashtagsMatched(t);
      HashtagStep(s, HashtagMatches(t), HashtagStarts(t));
    } else {
      assert HashtagMatches(s) == HashtagMatches(s[1..]);
      assert HashtagStarts(s) == Shift(HashtagStarts(s[1..]), 1);
      HashtagsMatched(s[1..]);
      MatchedAfter(s, 1, HashtagMatches(s[1..]), HashtagStarts(s[1..]));
    }
  }

  /** The matches come in the order they appear in `s`, without
      overlapping. */
  lemma {:induction false} HashtagsOrdered(s: string)
    ensures InOrder(HashtagMatches(s), HashtagStarts(s))
    decreases |s|
  {
    if |s| == 0 {
    } else if s[0] == '#' && |s| > 1 && IsWordChar(s[1]) {
      var n := PrefixRun(s[1..], IsWordChar);
      var t := s[1 + n..];
      HashtagsOrdered(t);
      var st := Shift(HashtagStarts(t), 1 + n);
      OrderedShift(HashtagMatches(t), HashtagStarts(t), 1 + n);
      assert forall k :: 0 <= k < |st| ==> |s[..1 + n]| <= st[k];
      OrderedCons(s[..1 + n], HashtagMatches(t), st);
      assert HashtagMatches(s) == [s[..1 + n]] + HashtagMatches(t);
      assert HashtagStarts(s) == [0] + st;
    } else {
      HashtagsOrdered(s[1..]);
      OrderedShift(HashtagMatches(s[1..]), HashtagStarts(s[1..]), 1);
    }
  }

  /** Where `x` first occurs in `xs`. */
  function IndexOf(xs: seq<nat>, x: nat): (i: nat)
    requires x in xs
    ensures i < |xs| && xs[i] == x
  {
    if xs[0] == x then 0 else 1 + IndexOf(xs[1..], x)
  }

  /** A `#` at `p` followed by a word character. */
  predicate HashAt(s: string, p: nat) {
    p + 1 < |s| && s[p] == '#' && IsWordChar(s[p + 1])
  }

  /** A `#` after a leading match lies past it, as a match holds only word
      characters after its `#`. */
  lemma HashPastMatch(s: string, n: nat, p: nat)
    requires |s| > 1 && s[0] == '#' && IsWordChar(s[1]) && n == PrefixRun(s[1..], IsWordChar)
    requires 0 < p && HashAt(s, p)
    ensures 1 + n <= p && HashAt(s[1 + n..], p - 1 - n)
  {
    assert s[1..][p - 1] == '#';
    assert n <= p - 1;
    assert s[1 + n..][p - 1 - n] == s[p] && s[1 + n..][p - n] == s[p + 1];
  }

  lemma HashPastOne(s: string, p: nat)
    requires HashAt(s, p) && !(s[0] == '#' && |s| > 1 && IsWordChar(s[1]))
    ensures 0 < p && HashAt(s[1..], p - 1)
  {
    assert s[1..][p - 1] == s[p];
  }

  /** No hashtag is missed: every `#` followed by a word character starts
      a match. */
  lemma {:induction false} HashtagsComplete(s: string, p: nat)
    requires HashAt(s, p)
    ensures p in HashtagStarts(s)
    decreases |s|
  {
    if s[0] == '#' && |s| > 1 && IsWordChar(s[1]) {
      if p != 0 {
        var n := PrefixRun(s[1..], IsWordChar);
        var t := s[1 + n..];
        HashPastMatch(s, n, p);
        HashtagsComplete(t, p - 1 - n);
        assert Shift(HashtagStarts(t), 1 + n)[IndexOf(HashtagStarts(t), p - 1 - n)] == p;
      }
    } else {
      HashPastOne(s, p);
      HashtagsComplete(s[1..], p - 1);
      assert Shift(HashtagStarts(s[1..]), 1)[IndexOf(HashtagStarts(s[1..]), p - 1)] == p;
    }
  }

  /** What `extractHashtags` returns: for each maximal `#`-and-word-characters
      run of the text, in order, that run in lower case; `[]` exactly when
      no `#` is followed by a word character. */
  lemma ExtractedHashtags(text: string)
    ensures forall k :: 0 <= k < |ExtractHashtags(text)| ==>
      ExtractHashtags(text)[k] == ToLower(HashtagMatches(text)[k])
      && IsHashtagShape(ExtractHashtags(text)[k])
      && ToLower(ExtractHashtags(text)[k]) == ExtractHashtags(text)[k]
    ensures AllMatched(text, HashtagMatches(text), HashtagStarts(text))
    ensures InOrder(HashtagMatches(text), HashtagStarts(text))
    ensures ExtractHashtags(text) == [] <==> !HasHashtag(text)
  {
    HashtagsMatched(text);
    HashtagsOrdered(text);
    HashtagMatchesEmpty(text);
    var ms := HashtagMatches(text);
    var r := ExtractHashtags(text);
    forall k | 0 <= k < |r|
      ensures IsHashtagShape(r[k]) && ToLower(r[k]) == r[k]
    {
      assert r[k] == ToLower(ms[k]);
      LoweredHashtag(ms[k]);
    }
  }

  /** Lowering keeps the hashtag shape and is then a no-op. */
  lemma LoweredHashtag(m: string)
    requires IsHashtagShape(m)
    ensures IsHashtagShape(ToLower(m)) && ToLower(ToLower(m)) == ToLower(m)
  {
    var l := ToLower(m);
    forall i | 1 <= i < |l| ensures IsWordChar(l[i]) {
      assert l[i] == ToLowerChar(m[i]);
    }
    ToLowerIdempotent(m);
  }

  // ---------------------------------------------------------------------
  // Word count

  predicate NotSpace(c: char) {
    !IsSpace(c)
  }

  predicate NoSpace(t: string) {
    forall i :: 0 <= i < |t| ==> !IsSpace(t[i])
  }

  /** `s.split(/\s+/)`: the pieces between the maximal runs of whitespace;
      a leading or a trailing run yields an empty first or last piece. */
  function SplitOnSpaces(s: string): (r: seq<string>)
    ensures |r| >= 1
    decreases |s|
  {
    var n := PrefixRun(s, NotSpace);
    if n == |s| then [s]
    else
      var m := PrefixRun(s[n..], IsSpace);
      [s[..n]] + SplitOnSpaces(s[n + m..])
  }

  lemma NoSpaceCons(t: string, ps: seq<string>)
    requires NoSpace(t) && forall k :: 0 <= k < |ps| ==> NoSpace(ps[k])
    ensures forall k :: 0 <= k < |[t] + ps| ==> NoSpace(([t] + ps)[k])
  {
    forall k | 0 <= k < |[t] + ps| ensures NoSpace(([t] + ps)[k]) {
      if k > 0 {
        assert ([t] + ps)[k] == ps[k - 1];
      }
    }
  }

  /** No piece of the split contains whitespace. */
  lemma {:induction false} SplitPiecesHaveNoSpace(s: string)
    ensures forall k :: 0 <= k < |SplitOnSpaces(s)| ==> NoSpace(SplitOnSpaces(s)[k])
    decreases |s|
  {
    var n := PrefixRun(s, NotSpace);
    if n < |s| {
      var m := PrefixRun(s[n..], IsSpace);
      var rest := s[n + m..];
      SplitPiecesHaveNoSpace(rest);
      SplitStep(s, n, m);
      NoSpaceCons(s[..n], SplitOnSpaces(rest));
    }
  }

  /** `text.split(/\s+/).length`. */
  function WordCount(text: string): nat {
    |SplitOnSpaces(text)|
  }

  /** The number of places where a whitespace run starts; `prevSpace` says
      whether the character before `s` was whitespace. */
  function RunStarts(s: string, prevSpace: bool): nat
    decreases |s|
  {
    if |s| == 0 then 0
    else (if IsSpace(s[0]) && !prevSpace then 1 else 0) + RunStarts(s[1..], IsSpace(s[0]))
  }

  lemma {:induction false} RunStartsSkipWord(s: string, n: nat)
    requires n <= |s| && forall i :: 0 <= i < n ==> !IsSpace(s[i])
    ensures RunStarts(s, false) == RunStarts(s[n..], false)
  {
    if n > 0 {
      RunStartsSkipWord(s[1..], n - 1);
      assert s[1..][n - 1..] == s[n..];
    }
  }

  lemma {:induction false} RunStartsInsideRun(s: string, k: nat)
    requires k <= |s| && forall i :: 0 <= i < k ==> IsSpace(s[i])
    requires k == |s| || !IsSpace(s[k])
    ensures RunStarts(s, true) == RunStarts(s[k..], false)
  {
    if k > 0 {
      RunStartsInsideRun(s[1..], k - 1);
      assert s[1..][k - 1..] == s[k..];
    }
  }

  /** `split(/\s+/)` yields one piece more than the text has whitespace
      runs, leading and trailing runs included. */
  lemma {:induction false} WordCountIsRuns(s: string)
    ensures WordCount(s) == 1 + RunStarts(s, false)
    decreases |s|
  {
    var n := PrefixRun(s, NotSpace);
    if n < |s| {
      var m := PrefixRun(s[n..], IsSpace);
      WordThenRun(s, n, m);
      WordCountIsRuns(s[n + m..]);
    } else {
      RunStartsSkipWord(s, n);
      assert s[n..] == [];
    }
  }

  /** A word followed by a whitespace run: one piece and one run start,
      then the rest of the text. */
  lemma WordThenRun(s: string, n: nat, m: nat)
    requires n == PrefixRun(s, NotSpace) && n < |s|
    requires m == PrefixRun(s[n..], IsSpace)
    ensures n + m <= |s|
    ensures RunStarts(s, false) == 1 + RunStarts(s[n + m..], false)
    ensures WordCount(s) == 1 + WordCount(s[n + m..])
  {
    RunStartsSkipWord(s, n);
    var u := s[n..];
    RunStartsOpenRun(u, m);
    assert u[m..] == s[n + m..];
    SplitStep(s, n, m);
  }

  /** A text opening with a whitespace run of length `m` has one run start
      more than what follows the run. */
  lemma RunStartsOpenRun(u: string, m: nat)
    requires |u| > 0 && IsSpace(u[0]) && m == PrefixRun(u, IsSpace)
    ensures 1 <= m <= |u| && RunStarts(u, false) == 1 + RunStarts(u[m..], false)
  {
    assert RunStarts(u, false) == 1 + RunStarts(u[1..], true);
    RunStartsInsideRun(u[1..], m - 1);
    assert u[1..][m - 1..] == u[m..];
  }

  /** A word followed by a whitespace run is one piece of the split. */
  lemma SplitStep(s: string, n: nat, m: nat)
    requires n == PrefixRun(s, NotSpace) && n < |s|
    requires m == PrefixRun(s[n..], IsSpace)
    ensures SplitOnSpaces(s) == [s[..n]] + SplitOnSpaces(s[n + m..])
  {
  }

  /** Whitespace in front of the text adds a piece unless the text already
      starts with whitespace: the count is taken on the untrimmed text. */
  lemma LeadingSpaceCounts(c: char, s: string)
    requires IsSpace(c)
    ensures WordCount([c] + s) == WordCount(s) + (if |s| > 0 && IsSpace(s[0]) then 0 else 1)
  {
    WordCountIsRuns([c] + s);
    WordCountIsRuns(s);
    assert ([c] + s)[1..] == s;
    if |s| > 0 {
      assert RunStarts(s, true) == RunStarts(s[1..], IsSpace(s[0]));
    }
  }

  // ---------------------------------------------------------------------
  // Sentiment

  const POSITIVE_WORDS := [
    "amazing", "awesome", "great", "love", "beautiful", "perfect", "incredible",
    "fantastic", "wonderful", "excited", "happy", "joy", "blessed", "grateful",
    "inspiring", "motivating", "success", "achievement", "celebration", "win"]

  const NEGATIVE_WORDS := [
    "bad", "terrible", "awful", "hate", "horrible", "worst", "disappointed",
    "frustrated", "angry", "sad", "difficult", "problem", "issue", "struggle"]

  /** `words.filter(word => text.includes(word)).length`: each listed word
      counts once, however often it occurs. */
  function CountPresent(words: seq<string>, text: string): (n: nat)
    ensures n <= |words|
    ensures n == 0 <==> forall i :: 0 <= i < |words| ==> !Contains(text, words[i])
    ensures n == |words| <==> forall i :: 0 <= i < |words| ==> Contains(text, words[i])
  {
    if |words| == 0 then 0
    else
      var rest := CountPresent(words[1..], text);
      assert forall i :: 1 <= i < |words| ==> words[i] == words[1..][i - 1];
      (if Contains(text, words[0]) then 1 else 0) + rest
  }

  /** A text that contains another finds every listed word the other
      finds, so it never counts fewer. */
  lemma {:induction false} CountPresentMonotone(words: seq<string>, text: string, part: string)
    requires Contains(text, part)
    ensures CountPresent(words, part) <= CountPresent(words, text)
  {
    if |words| > 0 {
      CountPresentMonotone(words[1..], text, part);
      if Contains(part, words[0]) {
        ContainsTransitive(text, part, words[0]);
      }
    }
  }

  const POSITIVE := "positive"
  const NEGATIVE := "negative"
  const NEUTRAL := "neutral"

  /** `analyzeSentiment`. */
  function AnalyzeSentiment(text: string): string {
    var lower := ToLower(text);
    var p := CountPresent(POSITIVE_WORDS, lower);
    var n := CountPresent(NEGATIVE_WORDS, lower);
    if p > n then POSITIVE else if n > p then NEGATIVE else NEUTRAL
  }

  /** The verdict is exactly one of the three, decided by comparing the
      numbers of positive and negative words present in the lowered text;
      a tie, including none of either, is neutral. */
  lemma SentimentTrichotomy(text: string)
    ensures var p := CountPresent(POSITIVE_WORDS, ToLower(text));
      var n := CountPresent(NEGATIVE_WORDS, ToLower(text));
      && (AnalyzeSentiment(text) == POSITIVE <==> p > n)
      && (AnalyzeSentiment(text) == NEGATIVE <==> n > p)
      && (AnalyzeSentiment(text) == NEUTRAL <==> p == n)
  {
  }

  /** A text in which no listed word occurs is neutral. */
  lemma NoKeywordsNeutral(text: string)
    requires forall i :: 0 <= i < |POSITIVE_WORDS| ==> !Contains(ToLower(text), POSITIVE_WORDS[i])
    requires forall i :: 0 <= i < |NEGATIVE_WORDS| ==> !Contains(ToLower(text), NEGATIVE_WORDS[i])
    ensures AnalyzeSentiment(text) == NEUTRAL
  {
  }

  /** The verdict does not depend on letter case. */
  lemma SentimentIgnoresCase(text: string)
    ensures AnalyzeSentiment(ToLower(text)) == AnalyzeSentiment(text)
  {
    ToLowerIdempotent(text);
  }

  // ---------------------------------------------------------------------
  // Completing a request

  /** What both generators return once the model has answered `t`: an
      empty answer is a failure; otherwise the caption is the trimmed
      answer, and hashtags, word count and sentiment are taken from the
      answer as it came. */
  function Completed(t: string): (r: CaptionResult)
    ensures r.CaptionFailed? <==> t == ""
    ensures r.Captioned? ==>
      && r.caption == Trim(t) && r.metadata.model == MODEL_NAME
      && r.metadata.wordCount == 1 + RunStarts(t, false)
      && |r.metadata.hashtags| == |HashtagMatches(t)|
  {
    if t == "" then CaptionFailed(NO_CAPTION_MSG)
    else
      WordCountIsRuns(t);
      Captioned(Trim(t), CaptionMetadata(ExtractHashtags(t), WordCount(t), AnalyzeSentiment(t), MODEL_NAME))
  }

  /** The `catch` of `generateCaption`, as a table read top to bottom. */
  const GEMINI_RULES := [
    Rule(["API_KEY"], KEY_MSG),
    Rule(["quota", "QUOTA"], QUOTA_MSG),
    Rule(["rate", "RATE_LIMIT"], RATE_MSG),
    Rule(["SAFETY"], SAFETY_MSG)]

  /** The `catch` of `generateCaption`. */
  function MapGeminiError(e: Thrown): string {
    if e.Error? then
      var m := e.message;
      if Contains(m, "API_KEY") then KEY_MSG
      else if Contains(m, "quota") || Contains(m, "QUOTA") then QUOTA_MSG
      else if Contains(m, "rate") || Contains(m, "RATE_LIMIT") then RATE_MSG
      else if Contains(m, "SAFETY") then SAFETY_MSG
      else CAPTION_FAILED_MSG
    else CAPTION_FAILED_MSG
  }

  /** The error mapping is the first row of `GEMINI_RULES` one of whose
      keywords occurs in the message, or the generic text when none does
      or the thrown value is not an `Error`. */
  lemma MapGeminiErrorIsFirstRule(e: Thrown)
    ensures MapGeminiError(e) ==
      if e.Error? && FirstRule(GEMINI_RULES, e.message).Some?
      then FirstRule(GEMINI_RULES, e.message).value
      else CAPTION_FAILED_MSG
  {
    if e.Error? {
      var m := e.message;
      var rules := GEMINI_RULES;
      MentionsFew(m, "API_KEY", "");
      MentionsFew(m, "quota", "QUOTA");
      MentionsFew(m, "rate", "RATE_LIMIT");
      MentionsFew(m, "SAFETY", "");
      var r1 := rules[1..];
      var r2 := r1[1..];
      var r3 := r2[1..];
      FirstRuleCons(rules, m);
      FirstRuleCons(r1, m);
      FirstRuleCons(r2, m);
      FirstRuleCons(r3, m);
      assert r3[1..] == [];
    }
  }

  /** `generateCaption`. */
  function GenerateCaption(text: string, g: Gemini): (r: (CaptionResult, Gemini))
    ensures AllSpace(text) ==> r == (CaptionFailed(EMPTY_TEXT_MSG), g)
    ensures !AllSpace(text) && |text| > MAX_TEXT ==> r == (CaptionFailed(TOO_LONG_MSG), g)
    ensures !AllSpace(text) && |text| <= MAX_TEXT ==> r.1.requests == g.requests + [Plain(text)]
  {
    if Trim(text) == "" then (CaptionFailed(EMPTY_TEXT_MSG), g)
    else if |text| > MAX_TEXT then (CaptionFailed(TOO_LONG_MSG), g)
    else
      var (reply, g2) := Generate(g, Plain(text));
      match reply
      case Fail(e) => (CaptionFailed(MapGeminiError(e)), g2)
      case Ok(t) => (Completed(t), g2)
  }

  /** Once the text is admitted, the model is asked exactly once, and its
      answer decides: a thrown error is mapped, an empty answer is 'No
      caption generated', any other answer is completed. */
  lemma CaptionFromReply(text: string, g: Gemini)
    requires !AllSpace(text) && |text| <= MAX_TEXT && |g.replies| > 0
    ensures GenerateCaption(text, g).1 == Gemini(g.replies[1..], g.requests + [Plain(text)])
    ensures GenerateCaption(text, g).0 ==
      match g.replies[0]
      case Fail(e) => CaptionFailed(MapGeminiError(e))
      case Ok(t) => Completed(t)
  {
  }

  /** A non-empty answer gives the trimmed answer as the caption, with
      hashtags, word count and sentiment taken from the answer as it came. */
  lemma CompletedAnswer(t: string)
    requires t != ""
    ensures Completed(t) == Captioned(Trim(t),
      CaptionMetadata(ExtractHashtags(t), 1 + RunStarts(t, false), AnalyzeSentiment(t), MODEL_NAME))
  {
    WordCountIsRuns(t);
  }

  /** `generateContent` contains `rate`: an error message naming that
      endpoint is mapped to the rate-limit text even when the failure was
      something else, unless the message also names the key or a quota,
      whose rules come first. */
  lemma EndpointReadAsRateLimit(m: string)
    requires Contains(m, "generateContent")
    requires !Contains(m, "API_KEY") && !Contains(m, "quota") && !Contains(m, "QUOTA")
    ensures MapGeminiError(Error(m)) == RATE_MSG
  {
    var g := "generateContent";
    assert g[4..8] == "rate";
    ContainsAt(g, "rate", 4);
    ContainsTransitive(m, g, "rate");
  }

  /** The SDK's report of an overloaded model, `[503] generateContent`,
      names neither the key nor a quota. */
  lemma EndpointKeywords(m: string)
    requires m == "[503] generateContent"
    ensures !Contains(m, "API_KEY") && !Contains(m, "quota") && !Contains(m, "QUOTA")
  {
    assert forall j :: 0 <= j < |m| ==> m[j] != 'A' && m[j] != 'q' && m[j] != 'Q';
    NoMatchAt(m, "API_KEY", 0);
    NoMatchAt(m, "quota", 0);
    NoMatchAt(m, "QUOTA", 0);
  }

  /** So the user is told to wait for a rate limit when the model is
      overloaded. */
  lemma OverloadedReadAsRateLimit(m: string)
    requires m == "[503] generateContent"
    ensures MapGeminiError(Error(m)) == RATE_MSG
  {
    EndpointKeywords(m);
    assert m[6..21] == "generateContent";
    ContainsAt(m, "generateContent", 6);
    EndpointReadAsRateLimit(m);
  }

  /** A message naming the endpoint and an invalid key is reported as a
      key problem: the key rule is read before the rate rule. */
  lemma EndpointWithKeyReadAsKey(m: string)
    requires m == "generateContent API_KEY_INVALID"
    ensures Contains(m, "generateContent")
    ensures MapGeminiError(Error(m)) == KEY_MSG
  {
    assert m[..15] == "generateContent";
    ContainsAt(m, "generateContent", 0);
    assert m[16..23] == "API_KEY";
    ContainsAt(m, "API_KEY", 16);
  }

  // ---------------------------------------------------------------------
  // Styles and variations

  /** What `generateCaptionWithStyle` makes of the model's answer: anything
      thrown becomes the one styled-failure text. */
  function StyledOutcome(reply: Reply<string>): (r: CaptionResult)
    ensures reply.Fail? ==> r == CaptionFailed(STYLED_FAILED_MSG)
    ensures reply.Ok? ==> r == Completed(reply.value)
  {
    match reply
    case Fail(_) => CaptionFailed(STYLED_FAILED_MSG)
    case Ok(t) => Completed(t)
  }

  /** `generateCaptionWithStyle`: no gating of the text; the model is
      asked once. */
  function GenerateStyled(text: string, style: Style, g: Gemini): (r: (CaptionResult, Gemini))
    ensures r.1.requests == g.requests + [Styled(text, style)]
    ensures r.0.CaptionFailed? ==> r.0.error in {STYLED_FAILED_MSG, NO_CAPTION_MSG}
  {
    var (reply, g2) := Generate(g, Styled(text, style));
    (StyledOutcome(reply), g2)
  }

  const VARIATION_STYLES := [Casual, Funny, Motivational, Trendy, Professional]
  const DEFAULT_VARIATIONS := 3

  /** `styles.slice(0, Math.min(count, styles.length))`: a negative end
      of a slice counts from the back. */
  function SelectedStyles(count: int): (r: seq<Style>)
    ensures |r| <= |VARIATION_STYLES| && r == VARIATION_STYLES[..|r|]
  {
    var end := if count < |VARIATION_STYLES| then count else |VARIATION_STYLES|;
    var k := if end >= 0 then end
      else if |VARIATION_STYLES| + end >= 0 then |VARIATION_STYLES| + end
      else 0;
    VARIATION_STYLES[..k]
  }

  /** A count between 0 and 5 selects that many styles, a larger one all
      five; a negative count drops that many styles from the back. */
  lemma SelectedStylesCount(count: int)
    ensures 0 <= count ==> |SelectedStyles(count)| == if count < 5 then count else 5
    ensures count < 0 ==> |SelectedStyles(count)| == if count > -5 then 5 + count else 0
    ensures SelectedStyles(DEFAULT_VARIATIONS) == [Casual, Funny, Motivational]
  {
  }

  /** The styled results for `styles`, in order. */
  function RunStyles(text: string, styles: seq<Style>, g: Gemini): (r: (seq<CaptionResult>, Gemini))
    ensures |r.0| == |styles|
    decreases |styles|
  {
    if |styles| == 0 then ([], g)
    else
      var first := GenerateStyled(text, styles[0], g);
      var rest := RunStyles(text, styles[1..], first.1);
      ([first.0] + rest.0, rest.1)
  }

  /** `generateCaptionVariations`; an absent count is 3. */
  function GenerateVariations(text: string, count: Option<int>, g: Gemini): (r: (seq<CaptionResult>, Gemini))
    ensures |r.0| <= |VARIATION_STYLES|
  {
    var n := if count.Some? then count.value else DEFAULT_VARIATIONS;
    RunStyles(text, SelectedStyles(n), g)
  }

  /** One styled request per style, in order. */
  function StyledRequests(text: string, styles: seq<Style>): (r: seq<Request>)
    ensures |r| == |styles| && forall i :: 0 <= i < |styles| ==> r[i] == Styled(text, styles[i])
  {
    if |styles| == 0 then [] else [Styled(text, styles[0])] + StyledRequests(text, styles[1..])
  }

  /** One request per selected style is made, in order, whatever the
      answers. */
  lemma {:induction false} VariationsRequests(text: string, styles: seq<Style>, g: Gemini)
    ensures RunStyles(text, styles, g).1.requests == g.requests + StyledRequests(text, styles)
    decreases |styles|
  {
    if |styles| > 0 {
      var g1 := GenerateStyled(text, styles[0], g).1;
      assert RunStyles(text, styles, g).1 == RunStyles(text, styles[1..], g1).1;
      VariationsRequests(text, styles[1..], g1);
      assert StyledRequests(text, styles) == [Styled(text, styles[0])] + StyledRequests(text, styles[1..]);
    }
  }

  /** With enough scripted answers, the i-th result is the styled outcome
      of the i-th answer, and exactly those answers are consumed. */
  lemma {:induction false} VariationsFollowReplies(text: string, styles: seq<Style>, g: Gemini)
    requires |g.replies| >= |styles|
    ensures var (rs, g2) := RunStyles(text, styles, g);
      && (forall i :: 0 <= i < |styles| ==> rs[i] == StyledOutcome(g.replies[i]))
      && g2.replies == g.replies[|styles|..]
    decreases |styles|
  {
    if |styles| > 0 {
      var g1 := GenerateStyled(text, styles[0], g).1;
      VariationsFollowReplies(text, styles[1..], g1);
      var rest := RunStyles(text, styles[1..], g1).0;
      assert g1.replies == g.replies[1..];
      assert g.replies[1..][|styles| - 1..] == g.replies[|styles|..];
      forall i | 1 <= i < |styles| ensures rest[i - 1] == StyledOutcome(g.replies[i]) {
        assert g1.replies[i - 1] == g.replies[i];
      }
    }
  }
}
