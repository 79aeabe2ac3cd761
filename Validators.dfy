/** The static checks and sanitisers of `Validators`
    (`src/utils/validators.ts`). `isValidUrl` depends on the WHATWG URL
    parser and is not part of this model. */
module Validators {
  import opened Text
  import opened InstagramUrl
  import opened Environment

  /** A value of unknown type, as `isValidTelegramUserId` receives it. */
  datatype JsValue = JsNumber(n: Number) | JsString(s: string) | JsOther

  // ---------------------------------------------------------------------
  // Instagram links

  /** `isValidInstagramUrl`: empty input is refused; otherwise the anchored
      pattern is matched against the trimmed text. */
  predicate IsValidInstagramUrl(url: string) {
    url != "" && IsPostLink(Trim(url))
  }

  /** `extractInstagramPostId`: null for a refused link, otherwise the
      identifier after the first `/reel/` or `/p/` of the untrimmed text. */
  function ExtractInstagramPostId(url: string): Option<string> {
    if !IsValidInstagramUrl(url) then None else FirstPostId(url)
  }

  /** A run of whitespace contains no `/`. */
  lemma SpaceIsMarkerFree(w: string)
    requires AllSpace(w)
    ensures MarkerFree(w) && (|w| == 0 || w[|w| - 1] != '/')
  {
  }

  /** A prefix test that fits inside `s` ignores what is appended. */
  lemma StartsWithExtend(s: string, w: string, p: string)
    requires |p| <= |s|
    ensures StartsWith(s + w, p) <==> StartsWith(s, p)
  {
    assert (s + w)[..|p|] == s[..|p|];
  }

  /** The anchored prefix of a link is decided by its first characters
      only, so appending text to an accepted link changes nothing. */
  lemma IdStartExtend(t: string, w: string)
    requires IdStart(t).Some?
    ensures IdStart(t + w) == IdStart(t)
  {
    HostEndExtend(t, w);
    var c := HostEnd(t).value;
    assert (t + w)[c..] == t[c..] + w;
    MarkerExtend(t[c..], w);
  }

  /** The scheme-and-host part of a link is kept by appending text. */
  lemma HostEndExtend(t: string, w: string)
    requires HostEnd(t).Some?
    ensures HostEnd(t + w) == HostEnd(t)
  {
    var s := t + w;
    StartsWithExtend(t, w, HTTPS);
    StartsWithExtend(t, w, HTTP);
    var a := SchemeEnd(t).value;
    assert SchemeEnd(s) == SchemeEnd(t);
    assert s[a..] == t[a..] + w;
    StartsWithExtend(t[a..], w, WWW);
    var b := if StartsWith(t[a..], WWW) then a + 4 else a;
    assert s[b..] == t[b..] + w;
    StartsWithExtend(t[b..], w, HOST);
  }

  /** Appending text after `reel/` or `p/` keeps which of the two starts
      the text. */
  lemma MarkerExtend(u: string, w: string)
    requires StartsWith(u, REEL) || StartsWith(u, POST)
    ensures StartsWith(u + w, REEL) <==> StartsWith(u, REEL)
    ensures StartsWith(u + w, POST) <==> StartsWith(u, POST)
  {
    StartsWithExtend(u, w, POST);
    if |u| >= 5 {
      StartsWithExtend(u, w, REEL);
    } else {
      assert u[..2] == POST;
      assert (u + w)[0] == u[0] == 'p';
    }
  }

  /** Whitespace after an identifier does not lengthen its run. */
  lemma IdRunBeforeSpace(t: string, w: string)
    requires AllSpace(w)
    ensures IdRun(t + w) == IdRun(t)
  {
    var m := PrefixRun(t, IsIdChar);
    var s := t + w;
    assert forall i :: 0 <= i < m ==> s[i] == t[i];
    if m < |t| {
      assert s[m] == t[m];
    } else if |w| > 0 {
      assert s[m] == w[0];
    }
    PrefixRunUnique(s, IsIdChar, m);
    assert s[..m] == t[..m];
  }

  /** Every accepted link has an identifier: the maximal run of id
      characters right after `/reel/` or `/p/` of the trimmed link. So
      `extractInstagramPostId` never returns null for an accepted link. */
  lemma ExtractPostIdOfValid(url: string)
    requires IsValidInstagramUrl(url)
    ensures var t := Trim(url);
      && ExtractInstagramPostId(url) == Some(IdRun(t[IdStart(t).value..]))
      && |IdRun(t[IdStart(t).value..])| > 0
  {
    var t := Trim(url);
    var l, w := TrimSplit(url);
    SpaceIsMarkerFree(l);
    SkipMarkerFree(l, t + w);
    PostIdBeforeSpace(t, w);
  }

  /** Whitespace after an accepted link leaves its identifier unchanged. */
  lemma PostIdBeforeSpace(t: string, w: string)
    requires IsPostLink(t) && AllSpace(w)
    ensures FirstPostId(t + w) == Some(IdRun(t[IdStart(t).value..]))
    ensures |IdRun(t[IdStart(t).value..])| > 0
  {
    var k := IdStart(t).value;
    var s := t + w;
    IdStartExtend(t, w);
    assert IsPostLink(s) by {
      assert IdStart(s) == Some(k) && s[k] == t[k];
    }
    ValidLinkHasPostId(s);
    assert s[k..] == t[k..] + w;
    IdRunBeforeSpace(t[k..], w);
    ValidLinkHasPostId(t);
  }

  /** A refused link has no identifier; empty input is refused. */
  lemma ExtractPostIdOfInvalid(url: string)
    ensures !IsValidInstagramUrl(url) ==> ExtractInstagramPostId(url) == None
    ensures !IsValidInstagramUrl("")
  {
  }

  /** Surrounding whitespace does not change the verdict. */
  lemma ValidUrlIgnoresSpace(l: string, url: string, w: string)
    requires AllSpace(l) && AllSpace(w) && IsValidInstagramUrl(url)
    ensures IsValidInstagramUrl(l + url + w)
  {
    TrimSurrounded(l, url, w);
  }

  // ---------------------------------------------------------------------
  // Numbers and secrets

  /** `isValidTelegramUserId`: a number greater than zero. */
  predicate IsValidTelegramUserId(v: JsValue) {
    v.JsNumber? && v.n.Finite? && v.n.value > 0
  }

  /** Only positive numbers pass: NaN, zero, negatives and strings (even
      numeric ones) are refused. */
  lemma TelegramUserIdCases(v: JsValue)
    ensures IsValidTelegramUserId(v) ==> v.JsNumber? && v.n.Finite? && v.n.value >= 1
    ensures !IsValidTelegramUserId(JsNumber(NaN)) && !IsValidTelegramUserId(JsNumber(Finite(0)))
    ensures !IsValidTelegramUserId(JsString("42"))
  {
  }

  const BYTES_PER_MB := 1024 * 1024

  /** `isValidFileSize(size, maxMb)`: `0 < size <= maxMb * 1024 * 1024`;
      every comparison with NaN is false. */
  predicate IsValidFileSize(size: int, maxMb: Number) {
    maxMb.Finite? && 0 < size <= maxMb.value * BYTES_PER_MB
  }

  /** The limit is inclusive, a larger allowance accepts whatever a smaller
      one does, and a NaN limit refuses everything. */
  lemma FileSizeBounds(size: int, m: int, m2: int)
    requires m <= m2
    ensures IsValidFileSize(m * 1048576, Finite(m)) <==> m > 0
    ensures !IsValidFileSize(m * 1048576 + 1, Finite(m))
    ensures IsValidFileSize(size, Finite(m)) ==> IsValidFileSize(size, Finite(m2))
    ensures !IsValidFileSize(size, NaN) && !IsValidFileSize(0, Finite(m))
  {
    assert m * 1048576 <= m2 * 1048576;
  }

  /** `validateWebhookSecret`: no configured secret admits everything. */
  predicate ValidateWebhookSecret(provided: string, expected: string) {
    expected == "" || provided == expected
  }

  lemma WebhookSecretCases(provided: string, expected: string)
    ensures expected == "" ==> ValidateWebhookSecret(provided, expected)
    ensures expected != "" ==> (ValidateWebhookSecret(provided, expected) <==> provided == expected)
  {
  }

  // ---------------------------------------------------------------------
  // Caption text

  const DEFAULT_MAX_CAPTION := 1000

  /** `isValidCaptionText(text, maxLength)`: the trimmed text is non-empty
      and at most `maxLength` long. */
  predicate IsValidCaptionText(text: string, maxLength: int) {
    text != "" && var t := Trim(text); |t| > 0 && |t| <= maxLength
  }

  /** Whitespace-only text is refused whatever the limit, and text whose
      trimmed length fits is accepted. */
  lemma CaptionTextCases(text: string, m: int)
    ensures AllSpace(text) ==> !IsValidCaptionText(text, m)
    ensures !AllSpace(text) && |Trim(text)| <= m ==> IsValidCaptionText(text, m)
    ensures IsValidCaptionText(text, m) ==> 0 < |Trim(text)| <= m && |Trim(text)| <= |text|
  {
    if !AllSpace(text) {
      assert text != "";
    }
  }

  /** `.replace(/javascript:/gi, '')`: every case-insensitive occurrence,
      scanned left to right without overlap, is removed once. */
  function RemoveProtocol(s: string): (r: string)
    ensures |r| <= |s|
    ensures forall c :: c in r ==> c in s
    decreases |s|
  {
    if |s| == 0 then ""
    else if |s| >= 11 && ToLower(s[..11]) == "javascript:" then RemoveProtocol(s[11..])
    else [s[0]] + RemoveProtocol(s[1..])
  }

  /** Length of the match of `/on\w+=/i` at the start of `s`, or 0. The
      greedy `\w+` cannot give back characters to meet `=`, since `=` is
      not a word character. */
  function HandlerMatch(s: string): (n: nat)
    ensures n == 0 || (3 < n <= |s| && s[n - 1] == '=')
  {
    if |s| >= 2 && ToLowerChar(s[0]) == 'o' && ToLowerChar(s[1]) == 'n' then
      var k := PrefixRun(s[2..], IsWordChar);
      if k >= 1 && 2 + k < |s| && s[2 + k] == '=' then 3 + k else 0
    else 0
  }

  /** `.replace(/on\w+=/gi, '')`. */
  function RemoveHandlers(s: string): (r: string)
    ensures |r| <= |s|
    ensures forall c :: c in r ==> c in s
    decreases |s|
  {
    if |s| == 0 then ""
    else
      var n := HandlerMatch(s);
      if n > 0 then RemoveHandlers(s[n..]) else [s[0]] + RemoveHandlers(s[1..])
  }

  const MAX_SANITIZED := 1000

  /** `substring(0, n)`. */
  function Prefix(s: string, n: nat): (r: string)
    ensures |r| <= n && StartsWith(s, r)
    ensures |s| <= n ==> r == s
  {
    if |s| <= n then s else s[..n]
  }

  /** `sanitizeText`: trim, drop `<` and `>`, drop `javascript:` and
      `on...=` occurrences, keep at most 1000 characters. */
  function SanitizeText(text: string): (r: string)
    ensures text == "" ==> r == ""
    ensures '<' !in r && '>' !in r
    ensures |r| <= MAX_SANITIZED
    ensures forall c :: c in r ==> c in text
  {
    if text == "" then ""
    else
      TrimChars(text);
      Prefix(RemoveHandlers(RemoveProtocol(DeleteChars(Trim(text), {'<', '>'}))), MAX_SANITIZED)
  }

  // ---------------------------------------------------------------------
  // Environment

  const TOKEN_REQUIRED := "TELEGRAM_BOT_TOKEN is required"
  const KEY_REQUIRED := "GEMINI_API_KEY is required"
  const SIZE_POSITIVE := "MAX_FILE_SIZE_MB must be a positive number"
  const TIMEOUT_POSITIVE := "DOWNLOAD_TIMEOUT_MS must be a positive number"

  /** `n && (isNaN(n) || n <= 0)`: NaN and zero are falsy, so only a
      negative number is flagged. */
  predicate BadPositive(n: Number) {
    TruthyNumber(n) && (n.NaN? || n.value <= 0)
  }

  lemma BadPositiveIsNegative(n: Number)
    ensures BadPositive(n) <==> n.Finite? && n.value < 0
  {
  }

  /** `validateEnvironmentConfig`: the errors, pushed in source order. */
  method ValidateEnvironmentConfig(c: Config) returns (valid: bool, errors: seq<string>)
    ensures valid <==> errors == []
    ensures TOKEN_REQUIRED in errors <==> c.telegramBotToken == ""
    ensures KEY_REQUIRED in errors <==> c.geminiApiKey == ""
    ensures SIZE_POSITIVE in errors <==> c.maxFileSizeMb.Finite? && c.maxFileSizeMb.value < 0
    ensures TIMEOUT_POSITIVE in errors <==> c.downloadTimeoutMs.Finite? && c.downloadTimeoutMs.value < 0
    ensures errors == EnvironmentErrors(c)
  {
    errors := [];
    if c.telegramBotToken == "" {
      errors := errors + [TOKEN_REQUIRED];
    }
    if c.geminiApiKey == "" {
      errors := errors + [KEY_REQUIRED];
    }
    if BadPositive(c.maxFileSizeMb) {
      errors := errors + [SIZE_POSITIVE];
    }
    if BadPositive(c.downloadTimeoutMs) {
      errors := errors + [TIMEOUT_POSITIVE];
    }
    valid := |errors| == 0;
    DistinctMessages();
    FailedFour((c.telegramBotToken == "", TOKEN_REQUIRED), (c.geminiApiKey == "", KEY_REQUIRED),
      (BadPositive(c.maxFileSizeMb), SIZE_POSITIVE), (BadPositive(c.downloadTimeoutMs), TIMEOUT_POSITIVE));
  }

  /** The four checks of `validateEnvironmentConfig` as a table, in order:
      each message is listed when its check fails. */
  function EnvironmentErrors(c: Config): (errors: seq<string>)
    ensures |errors| <= 4
  {
    var checks := [
      (c.telegramBotToken == "", TOKEN_REQUIRED),
      (c.geminiApiKey == "", KEY_REQUIRED),
      (BadPositive(c.maxFileSizeMb), SIZE_POSITIVE),
      (BadPositive(c.downloadTimeoutMs), TIMEOUT_POSITIVE)];
    FailedChecks(checks)
  }

  /** The messages of the failed checks, in table order. */
  function FailedChecks(checks: seq<(bool, string)>): (r: seq<string>)
    ensures |r| <= |checks|
  {
    if |checks| == 0 then []
    else (if checks[0].0 then [checks[0].1] else []) + FailedChecks(checks[1..])
  }

  /** The two credential errors agree with `validateConfig`: the
      configuration passes `validateConfig` exactly when neither credential
      message is reported, and a NaN or zero size or timeout is never
      reported. */
  lemma FailedFour(a: (bool, string), b: (bool, string), c: (bool, string), d: (bool, string))
    ensures FailedChecks([a, b, c, d])
      == (if a.0 then [a.1] else []) + (if b.0 then [b.1] else [])
         + (if c.0 then [c.1] else []) + (if d.0 then [d.1] else [])
  {
    var t := [a, b, c, d];
    assert t[1..] == [b, c, d] && [b, c, d][1..] == [c, d] && [c, d][1..] == [d] && [d][1..] == [];
    assert FailedChecks([d]) == (if d.0 then [d.1] else []);
    assert FailedChecks([c, d]) == (if c.0 then [c.1] else []) + FailedChecks([d]);
    assert FailedChecks([b, c, d]) == (if b.0 then [b.1] else []) + FailedChecks([c, d]);
  }

  lemma EnvironmentErrorsAgree(c: Config)
    ensures ValidateConfig(c).Pass? <==> TOKEN_REQUIRED !in EnvironmentErrors(c) && KEY_REQUIRED !in EnvironmentErrors(c)
    ensures c.maxFileSizeMb.NaN? || c.maxFileSizeMb == Finite(0) ==> SIZE_POSITIVE !in EnvironmentErrors(c)
    ensures c.downloadTimeoutMs.NaN? || c.downloadTimeoutMs == Finite(0) ==> TIMEOUT_POSITIVE !in EnvironmentErrors(c)
  {
    DistinctMessages();
    FailedFour((c.telegramBotToken == "", TOKEN_REQUIRED), (c.geminiApiKey == "", KEY_REQUIRED),
      (BadPositive(c.maxFileSizeMb), SIZE_POSITIVE), (BadPositive(c.downloadTimeoutMs), TIMEOUT_POSITIVE));
  }

  lemma DistinctMessages()
    ensures TOKEN_REQUIRED != KEY_REQUIRED && TOKEN_REQUIRED != SIZE_POSITIVE && TOKEN_REQUIRED != TIMEOUT_POSITIVE
    ensures KEY_REQUIRED != SIZE_POSITIVE && KEY_REQUIRED != TIMEOUT_POSITIVE && SIZE_POSITIVE != TIMEOUT_POSITIVE
  {
    assert |TOKEN_REQUIRED| == 30 && |KEY_REQUIRED| == 26;
    assert |SIZE_POSITIVE| == 42 && |TIMEOUT_POSITIVE| == 45;
  }

  // ---------------------------------------------------------------------
  // Styles and hashtags

  const STYLES := ["casual", "professional", "funny", "motivational", "trendy"]

  /** `isValidCaptionStyle`: one of the five styles, ignoring case. */
  predicate IsValidCaptionStyle(style: string) {
    ToLower(style) in STYLES
  }

  /** The style check ignores case. */
  lemma CaptionStyleIgnoresCase(style: string)
    ensures IsValidCaptionStyle(style) <==> IsValidCaptionStyle(ToLower(style))
    ensures IsValidCaptionStyle(style) ==> ToLower(style) in STYLES
  {
    ToLowerIdempotent(style);
  }

  const MAX_HASHTAG := 100
  const MAX_HASHTAGS := 30

  /** `isValidHashtag`: the whole string is `#` followed by word characters,
      at most 100 characters long. */
  predicate IsValidHashtag(h: string) {
    h != "" && IsHashtagShape(h) && |h| <= MAX_HASHTAG
  }

  /** The valid tags of `tags`, in their order. */
  function FilterValid(tags: seq<string>): (r: seq<string>)
    ensures |r| <= |tags|
    ensures forall i :: 0 <= i < |r| ==> IsValidHashtag(r[i])
  {
    if |tags| == 0 then []
    else (if IsValidHashtag(tags[0]) then [tags[0]] else []) + FilterValid(tags[1..])
  }

  /** `FilterValid` keeps exactly the valid tags. */
  lemma {:induction false} FilterValidKeeps(tags: seq<string>, x: string)
    ensures x in FilterValid(tags) <==> x in tags && IsValidHashtag(x)
  {
    if |tags| > 0 {
      FilterValidKeeps(tags[1..], x);
      assert tags == [tags[0]] + tags[1..];
    }
  }

  /** `FilterValid` works piece by piece, so the kept tags stay in the
      order of the input. */
  lemma {:induction false} FilterValidAppend(a: seq<string>, b: seq<string>)
    ensures FilterValid(a + b) == FilterValid(a) + FilterValid(b)
  {
    if |a| == 0 {
      assert a + b == b;
    } else {
      assert (a + b)[1..] == a[1..] + b;
      FilterValidAppend(a[1..], b);
    }
  }

  /** `extractValidHashtags`. */
  function ExtractValidHashtags(text: string): (r: seq<string>)
    ensures |r| <= MAX_HASHTAGS
  {
    if text == "" then []
    else
      var lowered := LowerAll(FilterValid(HashtagMatches(text)));
      if |lowered| <= MAX_HASHTAGS then lowered else lowered[..MAX_HASHTAGS]
  }

  /** What `extractValidHashtags` returns: the valid matches of the text,
      in order and lowered, cut to the first 30 (an empty text has no
      match, so its guard changes nothing). */
  lemma ExtractValidHashtagsIs(text: string)
    ensures var lowered := LowerAll(FilterValid(HashtagMatches(text)));
      ExtractValidHashtags(text)
        == lowered[..if |lowered| <= MAX_HASHTAGS then |lowered| else MAX_HASHTAGS]
  {
    var lowered := LowerAll(FilterValid(HashtagMatches(text)));
    if text == "" {
      assert HashtagMatches(text) == [];
    } else {
      assert lowered[..|lowered|] == lowered;
    }
  }

  /** Lowering keeps a hashtag valid: word characters stay word characters. */
  lemma LowerKeepsHashtag(h: string)
    requires IsValidHashtag(h)
    ensures IsValidHashtag(ToLower(h))
  {
    var l := ToLower(h);
    forall i | 1 <= i < |l| ensures IsWordChar(l[i]) {
      assert l[i] == ToLowerChar(h[i]);
    }
  }

  /** Every extracted tag is valid and already lower case, and text
      without a `#` followed by a word character yields none. */
  lemma ExtractedHashtagsValid(text: string)
    ensures forall i :: 0 <= i < |ExtractValidHashtags(text)| ==>
      IsValidHashtag(ExtractValidHashtags(text)[i])
      && ToLower(ExtractValidHashtags(text)[i]) == ExtractValidHashtags(text)[i]
    ensures !HasHashtag(text) ==> ExtractValidHashtags(text) == []
  {
    var r := ExtractValidHashtags(text);
    if text != "" {
      var f := FilterValid(HashtagMatches(text));
      var lowered := LowerAll(f);
      forall i | 0 <= i < |r|
        ensures IsValidHashtag(r[i]) && ToLower(r[i]) == r[i]
      {
        assert r[i] == lowered[i] == ToLower(f[i]);
        LowerKeepsHashtag(f[i]);
        ToLowerIdempotent(f[i]);
      }
      HashtagMatchesEmpty(text);
    }
  }
}
