/** How the direct-scraping strategy of `src/services/reelsDownloader.ts`
    finds a video address in a page: four regular expressions tried in
    order, the unescaping applied to the first three, and the test a
    candidate must pass before it is downloaded. */
module Scraping {
  import opened Text

  /** One piece of a pattern. Each variable piece is followed in every
      pattern by a literal whose first character the piece cannot match
      (`\s*` by `[`, `{` or `"`; `\d+` by `,`; `[^"]+` by `"`), so the
      greedy maximal run is the only way the pattern can continue and the
      matcher never has to backtrack. */
  datatype Token =
    | Lit(text: string)   // the literal characters
    | Spaces              // `\s*`
    | Digits              // `\d+`
    | Capture             // `([^"]+)`, the capture group

  predicate NotQuote(c: char) {
    c != '"'
  }

  /** Matches `toks` at the start of `s`; the result is the capture group,
      `cap` until a `Capture` is met. */
  function MatchTokens(s: string, toks: seq<Token>, cap: string): (r: Option<string>)
    ensures r.Some? ==> r.value == cap || (|r.value| > 0 && '"' !in r.value)
    decreases |toks|
  {
    if |toks| == 0 then Some(cap)
    else match toks[0]
      case Lit(l) =>
        if StartsWith(s, l) then MatchTokens(s[|l|..], toks[1..], cap) else None
      case Spaces =>
        var n := PrefixRun(s, IsSpace);
        MatchTokens(s[n..], toks[1..], cap)
      case Digits =>
        var n := PrefixRun(s, IsDigit);
        if n == 0 then None else MatchTokens(s[n..], toks[1..], cap)
      case Capture =>
        var n := PrefixRun(s, NotQuote);
        if n == 0 then None
        else
          assert forall c :: c in s[..n] ==> c != '"';
          MatchTokens(s[n..], toks[1..], s[..n])
  }

  /** `s.match(pattern)[1]` for a pattern without the `g` flag: the capture
      of the leftmost match. */
  function FirstCapture(s: string, toks: seq<Token>): Option<string>
    decreases |s|
  {
    var here := MatchTokens(s, toks, "");
    if here.Some? then here
    else if |s| == 0 then None
    else FirstCapture(s[1..], toks)
  }

  /** `/"video_url":"([^"]+)"/` */
  const VIDEO_URL_PATTERN := [Lit("\"video_url\":\""), Capture, Lit("\"")]

  /** `/"video_versions":\s*\[\s*\{\s*"width":\s*\d+,\s*"height":\s*\d+,\s*"url":\s*"([^"]+)"/` */
  const VIDEO_VERSIONS_PATTERN := [
    Lit("\"video_versions\":"), Spaces, Lit("["), Spaces, Lit("{"), Spaces,
    Lit("\"width\":"), Spaces, Digits, Lit(","), Spaces,
    Lit("\"height\":"), Spaces, Digits, Lit(","), Spaces,
    Lit("\"url\":"), Spaces, Lit("\""), Capture, Lit("\"")]

  /** `/"playback_url":"([^"]+)"/` */
  const PLAYBACK_URL_PATTERN := [Lit("\"playback_url\":\""), Capture, Lit("\"")]

  /** The characters of `[^"'\s]`. */
  predicate UrlChar(c: char) {
    c != '"' && c != '\'' && !IsSpace(c)
  }

  const HTTPS_PREFIX := "https://"
  const MP4 := ".mp4"

  // The match of `https:\/\/[^"'\s]*\.mp4[^"'\s]*` at the start of `s`.
  // The two runs around `\.mp4` together cover the maximal run of
  // `[^"'\s]` after `https://`, since `.mp4` belongs to that class, so a
  // match exists exactly when that run contains `.mp4` and is then the
  // scheme followed by the whole run.
  function Mp4At(s: string): (r: Option<string>)
    ensures r.Some? ==> StartsWith(r.value, HTTPS_PREFIX) && Contains(r.value, MP4)
  {
    if StartsWith(s, HTTPS_PREFIX) then
      var rest := s[|HTTPS_PREFIX|..];
      var run := rest[..PrefixRun(rest, UrlChar)];
      if Contains(run, MP4) then
        var m := HTTPS_PREFIX + run;
        assert m[..|HTTPS_PREFIX|] == HTTPS_PREFIX;
        assert m[|HTTPS_PREFIX|..] == run;
        ContainsSuffix(HTTPS_PREFIX, run, MP4);
        Some(m)
      else None
    else None
  }

  // The leftmost match of the same pattern, `mp4Match[0]`.
  function FirstMp4(s: string): (r: Option<string>)
    ensures r.Some? ==> StartsWith(r.value, HTTPS_PREFIX) && Contains(r.value, MP4)
    decreases |s|
  {
    var here := Mp4At(s);
    if here.Some? then here
    else if |s| == 0 then None
    else FirstMp4(s[1..])
  }

  /** `.replace(/\\u0026/g, '&').replace(/\\/g, '')`. */
  function Unescape(s: string): (r: string)
    ensures '\\' !in r
  {
    DeleteChars(ReplaceAll(s, "\\u0026", "&"), {'\\'})
  }

  /** Unescaping is idempotent: its output has no backslash left, so a
      second pass finds nothing to replace or delete. */
  lemma UnescapeIdempotent(s: string)
    ensures Unescape(Unescape(s)) == Unescape(s)
  {
    var u := Unescape(s);
    MissingCharRulesOut(u, "\\u0026", 0);
    DeleteAbsentChars(u, {'\\'});
  }

  /** What `videoUrl` holds once the four patterns have been tried, or the
      `TypeError` pattern 4 raises by reading `mp4Match[0]` when there is
      no match at all. */
  datatype ScrapeOutcome = Scraped(videoUrl: Option<string>) | NullDereference

  /** JavaScript truthiness of `videoUrl`: null and the empty string are
      falsy. */
  predicate Truthy(v: Option<string>) {
    v.Some? && v.value != ""
  }

  /** A pattern's capture, unescaped, replaces `videoUrl`; without a
      match `videoUrl` keeps its earlier (falsy) value. */
  function Unescaped(prev: Option<string>, c: Option<string>): (r: Option<string>)
    ensures r == prev || (r.Some? && '\\' !in r.value)
  {
    match c
    case None => prev
    case Some(x) => Some(Unescape(x))
  }

  /** Patterns 1 to 3, each tried only while `videoUrl` is still falsy. */
  function FirstThreePatterns(html: string): (v: Option<string>)
    ensures Truthy(v) ==> '\\' !in v.value
  {
    var v1 := Unescaped(None, FirstCapture(html, VIDEO_URL_PATTERN));
    if Truthy(v1) then v1
    else
      var v2 := Unescaped(v1, FirstCapture(html, VIDEO_VERSIONS_PATTERN));
      if Truthy(v2) then v2
      else Unescaped(v2, FirstCapture(html, PLAYBACK_URL_PATTERN))
  }

  /** The four patterns as written: pattern 4's test reads
      `(mp4Match && mp4Match[0].includes('instagram')) || mp4Match[0].includes('fbcdn')`,
      which dereferences a null match. */
  function ScrapeVideoUrl(html: string): (o: ScrapeOutcome)
  {
    var v := FirstThreePatterns(html);
    if Truthy(v) then Scraped(v)
    else
      match FirstMp4(html)
      case None => NullDereference
      case Some(m) =>
        if Contains(m, "instagram") || Contains(m, "fbcdn") then Scraped(Some(m)) else Scraped(v)
  }

  /** Pattern 4 read as evidently meant:
      `mp4Match && (mp4Match[0].includes('instagram') || mp4Match[0].includes('fbcdn'))`. */
  function ScrapeIntended(html: string): ScrapeOutcome {
    var v := FirstThreePatterns(html);
    if Truthy(v) then Scraped(v)
    else
      match FirstMp4(html)
      case None => Scraped(v)
      case Some(m) =>
        if Contains(m, "instagram") || Contains(m, "fbcdn") then Scraped(Some(m)) else Scraped(v)
  }

  /** The acceptance test `videoUrl && videoUrl.startsWith('http') &&
      videoUrl.includes('.mp4')`. */
  predicate Acceptable(v: Option<string>) {
    Truthy(v) && StartsWith(v.value, "http") && Contains(v.value, MP4)
  }

  /** The address downloaded for a page, if any. A `TypeError` is caught by
      the per-address `catch`, which moves on just as a rejected candidate
      does. */
  function Candidate(o: ScrapeOutcome): (r: Option<string>)
    ensures r.Some? ==> StartsWith(r.value, "http") && Contains(r.value, MP4)
  {
    match o
    case NullDereference => None
    case Scraped(v) => if Acceptable(v) then v else None
  }

  /** The precedence slip in pattern 4 changes nothing observable: where
      it throws, the intended reading leaves a falsy `videoUrl`, which the
      acceptance test rejects, and both move on to the next address. A match
      that only contains `fbcdn` is accepted under both readings. */
  lemma PrecedenceSlipHarmless(html: string)
    ensures Candidate(ScrapeVideoUrl(html)) == Candidate(ScrapeIntended(html))
    ensures ScrapeVideoUrl(html).NullDereference? <==>
      !Truthy(FirstThreePatterns(html)) && FirstMp4(html).None?
  {
  }

  /** Once one of patterns 1 to 3 yields a non-empty address, pattern 4
      is not tried, and that address carries no backslash. */
  lemma FirstThreeWin(html: string)
    ensures Truthy(FirstThreePatterns(html)) ==>
      ScrapeVideoUrl(html) == Scraped(FirstThreePatterns(html))
      && '\\' !in FirstThreePatterns(html).value
  {
  }
}
