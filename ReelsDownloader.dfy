/** The download engine of `src/services/reelsDownloader.ts`, as functions
    from a world (scripted outside answers, call log, waits, global state)
    to a result and the world afterwards. The imperative rendering of the
    same steps is `ReelsRuntime.Runtime`, whose methods are proved to agree
    with these functions; the properties of the engine are lemmas here. */
module ReelsDownloader {
  import opened Text
  import opened InstagramUrl
  import opened Environment
  import opened Oracle
  import opened Scraping

  /** The `metadata` of a successful `DownloadResult`; absent optional
      fields are `None`. */
  datatype Metadata = Metadata(
    shortcode: string,
    title: string,
    ownerUsername: Option<string>,
    ownerFullname: Option<string>,
    likes: Option<int>,
    isVerified: Option<bool>)

  /** `{ success: true, videoBuffer, metadata }` or `{ success: false, error }`;
      the buffer is represented by its length. */
  datatype DownloadResult = Downloaded(byteLength: nat, metadata: Metadata) | Failed(error: string)

  const INVALID_URL := "Invalid Instagram URL"
  const NO_SHORTCODE_IN_URL := "Could not extract shortcode from URL"
  const NO_SHORTCODE := "Could not extract shortcode"
  const NO_VIDEO_URL := "Could not extract video URL - reel might be private, deleted, or temporarily unavailable"
  const TIMEOUT_MSG := "Download timeout - the reel might be too large or connection is slow"
  const NETWORK_MSG := "Network error - please try again later"
  const GONE_MSG := "Reel not found - it might be deleted or private"
  const DENIED_MSG := "Access denied - the reel might be private"
  const PRIVATE_MSG := "This reel is private and cannot be downloaded"
  const NOT_FOUND_MSG := "Reel not found - please check the URL and try again"
  const GENERIC_MSG := "Failed to download reel - it might be private, deleted, or temporarily unavailable"
  const NO_LOCAL_URLS := "No video URLs found with local headers"
  const LOCAL_FAILED := "Local headers method failed"
  const NO_VIDEO_IN_POST := "No video found in this post"
  const GRAPHQL_FAILED := "GraphQL method failed"
  const DIRECT_EXHAUSTED := "All direct scraping methods failed - reel might be private or unavailable"

  /** The desktop browser identity written to `process.env.HTTP_USER_AGENT`. */
  const CHROME_UA := "Mozilla/5.0 (Windows NT 10.0; Win64; x64) AppleWebKit/537.36 (KHTML, like Gecko) Chrome/120.0.0.0 Safari/537.36"

  const TITLE_PREFIX := "Instagram Reel "
  const INSTAGRAM_HOME := "https://www.instagram.com/"
  const GRAPHQL_URL := "https://www.instagram.com/graphql/query"
  const SIDECAR := "XDTGraphSidecar"

  /** `https://www.instagram.com/reel/${shortcode}/` */
  function ReelLink(sc: string): string {
    HTTPS + WWW + HOST + REEL + sc + "/"
  }

  /** `https://www.instagram.com/p/${shortcode}/` */
  function PostLink(sc: string): string {
    HTTPS + WWW + HOST + POST + sc + "/"
  }

  function InfoMetadata(sc: string, info: Option<PostInfo>): Metadata {
    match info
    case None => Metadata(sc, TITLE_PREFIX + sc, None, None, None, None)
    case Some(p) =>
      Metadata(sc, TITLE_PREFIX + sc, Some(p.ownerUsername), Some(p.ownerFullname), Some(p.likes), Some(p.isVerified))
  }

  // ---------------------------------------------------------------------
  // Error classification

  function TooLargeMsg(cfg: Config): string {
    "File too large - maximum size is " + NumberToString(cfg.maxFileSizeMb) + "MB"
  }

  /** The outer `catch` of `downloadReels`: the first substring found in
      the message picks the text; anything that is not an `Error` gets the
      generic text. */
  function Classify(cfg: Config, e: Thrown): string {
    match e
    case NonError => GENERIC_MSG
    case Error(m) =>
      if Contains(m, "timeout") then TIMEOUT_MSG
      else if Contains(m, "maxContentLength") then TooLargeMsg(cfg)
      else if Contains(m, "Network Error") || Contains(m, "ENOTFOUND") then NETWORK_MSG
      else if Contains(m, "Request failed with status code 404") then GONE_MSG
      else if Contains(m, "Request failed with status code 403") then DENIED_MSG
      else if Contains(m, "private") || Contains(m, "Private") then PRIVATE_MSG
      else if Contains(m, "Post not found") || Contains(m, "not found") then NOT_FOUND_MSG
      else GENERIC_MSG
  }

  function ClassifierRules(cfg: Config): seq<Rule> {
    [ Rule(["timeout"], TIMEOUT_MSG),
      Rule(["maxContentLength"], TooLargeMsg(cfg)),
      Rule(["Network Error", "ENOTFOUND"], NETWORK_MSG),
      Rule(["Request failed with status code 404"], GONE_MSG),
      Rule(["Request failed with status code 403"], DENIED_MSG),
      Rule(["private", "Private"], PRIVATE_MSG),
      Rule(["Post not found", "not found"], NOT_FOUND_MSG) ]
  }

  // ---------------------------------------------------------------------
  // The main path

  /** After a resolver answer: check `url_list`, download its first entry
      and build the metadata from `post_info`. A failed download goes to
      the classifier. */
  function UseResult(cfg: Config, w: World, sc: string, result: InstagramResult): (DownloadResult, World) {
    if result.urlList.None? || |result.urlList.value| == 0 then (Failed(NO_VIDEO_URL), w)
    else
      var (reply, w1) := Http(w, GetCall(result.urlList.value[0]));
      match reply
      case Ok(resp) => (Downloaded(resp.byteLength, InfoMetadata(sc, result.postInfo)), w1)
      case Fail(e) => (Failed(Classify(cfg, e)), w1)
  }

  /** The value `HTTP_USER_AGENT` is put back to after a successful resolver
      call: the saved value if it was truthy, otherwise deleted. */
  function RestoredAgent(saved: Option<string>): Option<string> {
    if saved.Some? && saved.value != "" then saved else None
  }

  /** `downloadReels(url)`. */
  function DownloadReels(cfg: Config, w: World, url: string): (DownloadResult, World) {
    if !IsPostLink(url) then (Failed(INVALID_URL), w)
    else match FirstPostId(url)
      case None => (Failed(NO_SHORTCODE_IN_URL), w)
      case Some(sc) =>
        var saved := w.userAgent;
        var (reply, w1) := Resolve(w.(userAgent := Some(CHROME_UA)), url);
        match reply
        case Ok(result) => UseResult(cfg, w1.(userAgent := RestoredAgent(saved)), sc, result)
        case Fail(e) =>
          if e.Error? && Contains(e.message, "401") then AuthChain(cfg, w1, url, sc)
          else (Failed(Classify(cfg, e)), w1)
  }

  /** The chain run after a `401`: the canonical reel link, then the
      local-header strategy, GraphQL and direct scraping; the first success
      ends it. */
  function AuthChain(cfg: Config, w: World, url: string, sc: string): (DownloadResult, World) {
    var (reply, w1) := Resolve(w, ReelLink(sc));
    match reply
    case Ok(result) => UseResult(cfg, w1, sc, result)
    case Fail(_) =>
      var (local, w2) := LocalHeaders(cfg, w1, url);
      if local.Downloaded? then (local, w2)
      else
        var (graph, w3) := GraphQL(cfg, w2, url);
        if graph.Downloaded? then (graph, w3)
        else Direct(w3, url)
  }

  // ---------------------------------------------------------------------
  // Local headers

  /** `downloadReelsWithLocalHeaders(url)`: the resolver is called with the
      global `axios` replaced by a local-header instance, which is put back
      only if there was one before. */
  function LocalHeaders(cfg: Config, w: World, url: string): (DownloadResult, World) {
    match FirstPostId(url)
    case None => (Failed(NO_SHORTCODE_IN_URL), w)
    case Some(sc) =>
      var saved := w.axios;
      var (reply, w1) := Resolve(w.(axios := Some(LocalHeadersClient)), url);
      var w2 := if saved.Some? then w1.(axios := saved) else w1;
      match reply
      case Fail(_) => (Failed(LOCAL_FAILED), w2)
      case Ok(result) =>
        if result.urlList.Some? && |result.urlList.value| > 0 then
          var (video, w3) := Http(w2, GetCall(result.urlList.value[0]));
          match video
          case Ok(resp) => (Downloaded(resp.byteLength, InfoMetadata(sc, result.postInfo)), w3)
          case Fail(_) => (Failed(LOCAL_FAILED), w3)
        else (Failed(NO_LOCAL_URLS), w2)
  }

  // ---------------------------------------------------------------------
  // GraphQL

  /** `csrfCookie.split(';')[0].replace('csrftoken=', '')`. */
  function CsrfToken(cookie: string): string {
    ReplaceFirst(BeforeFirst(cookie, ';'), "csrftoken=", "")
  }

  /** Position of the first child that is a video with an address, or the
      number of children when there is none. */
  function FirstVideoIndex(nodes: seq<SidecarNode>): (k: nat)
    ensures k <= |nodes|
    ensures forall i :: 0 <= i < k ==> !(nodes[i].isVideo && nodes[i].videoUrl != "")
    ensures k < |nodes| ==> nodes[k].isVideo && nodes[k].videoUrl != ""
  {
    if |nodes| == 0 then 0
    else if nodes[0].isVideo && nodes[0].videoUrl != "" then 0
    else 1 + FirstVideoIndex(nodes[1..])
  }

  /** A position before which no child is a video with an address, and
      which is one or is the end, is the first such position. */
  lemma {:induction false} FirstVideoIndexUnique(nodes: seq<SidecarNode>, i: nat)
    requires i <= |nodes|
    requires forall j :: 0 <= j < i ==> !(nodes[j].isVideo && nodes[j].videoUrl != "")
    requires i == |nodes| || (nodes[i].isVideo && nodes[i].videoUrl != "")
    ensures FirstVideoIndex(nodes) == i
    decreases i
  {
    if i > 0 {
      assert forall j :: 0 <= j < i - 1 ==> nodes[1..][j] == nodes[j + 1];
      FirstVideoIndexUnique(nodes[1..], i - 1);
    }
  }

  /** The address of that child, if any. */
  function FirstVideoChild(nodes: seq<SidecarNode>): Option<string> {
    var k := FirstVideoIndex(nodes);
    if k < |nodes| then Some(nodes[k].videoUrl) else None
  }

  /** The video of a post: its own when it is a video with an address,
      otherwise, for a carousel, the first video child. */
  function SelectVideoUrl(media: ShortcodeMedia): (v: Option<string>)
    ensures v.Some? ==> v.value != ""
  {
    if media.isVideo && media.videoUrl != "" then Some(media.videoUrl)
    else if media.typename == SIDECAR then
      FirstVideoChild(if media.children.Some? then media.children.value else [])
    else None
  }

  function MediaMetadata(sc: string, m: ShortcodeMedia): Metadata {
    Metadata(sc, TITLE_PREFIX + sc,
      if m.owner.Some? then Some(m.owner.value.username) else None,
      if m.owner.Some? then Some(m.owner.value.fullName) else None,
      m.likeCount,
      if m.owner.Some? then Some(m.owner.value.isVerified) else None)
  }

  /** `downloadReelsGraphQL(url)`: every exception, including a missing
      cookie or media object, becomes 'GraphQL method failed'. */
  function GraphQL(cfg: Config, w: World, url: string): (DownloadResult, World) {
    match FirstPostId(url)
    case None => (Failed(NO_SHORTCODE), w)
    case Some(sc) =>
      var (home, w1) := Http(w, GetCall(INSTAGRAM_HOME));
      if home.Fail? || home.value.setCookie.None? || |home.value.setCookie.value| == 0 then (Failed(GRAPHQL_FAILED), w1)
      else
        var cookie := home.value.setCookie.value[0];
        var (answer, w2) := Http(w1, PostCall(GRAPHQL_URL, sc, CsrfToken(cookie), cookie));
        if answer.Fail? || answer.value.media.None? then (Failed(GRAPHQL_FAILED), w2)
        else
          var media := answer.value.media.value;
          match SelectVideoUrl(media)
          case None => (Failed(NO_VIDEO_IN_POST), w2)
          case Some(v) =>
            var (video, w3) := Http(w2, GetCall(v));
            match video
            case Ok(resp) => (Downloaded(resp.byteLength, MediaMetadata(sc, media)), w3)
            case Fail(_) => (Failed(GRAPHQL_FAILED), w3)
  }

  // ---------------------------------------------------------------------
  // Direct scraping

  /** The three pages tried, in order. */
  function Approaches(sc: string, url: string): seq<string> {
    [PostLink(sc), ReelLink(sc), url]
  }

  /** One iteration of the scraping loop: `Some` result ends the loop,
      `None` moves on to the next page. */
  function TryDirect(w: World, sc: string, page: string): (Option<DownloadResult>, World) {
    var (reply, w1) := Http(w, GetCall(page));
    match reply
    case Fail(_) => (None, w1)
    case Ok(resp) =>
      match Candidate(ScrapeVideoUrl(resp.html))
      case None => (None, w1)
      case Some(v) =>
        var (video, w2) := Http(w1, GetCall(v));
        match video
        case Fail(_) => (None, w2)
        case Ok(bytes) =>
          (Some(Downloaded(bytes.byteLength, Metadata(sc, TITLE_PREFIX + sc, None, None, None, None))), w2)
  }

  /** The scraping loop over the remaining pages. */
  function DirectFrom(w: World, sc: string, pages: seq<string>): (DownloadResult, World)
    decreases |pages|
  {
    if |pages| == 0 then (Failed(DIRECT_EXHAUSTED), w)
    else
      var (r, w1) := TryDirect(w, sc, pages[0]);
      if r.Some? then (r.value, w1) else DirectFrom(w1, sc, pages[1..])
  }

  /** `downloadReelsDirect(url)`. */
  function Direct(w: World, url: string): (DownloadResult, World) {
    match FirstPostId(url)
    case None => (Failed(NO_SHORTCODE), w)
    case Some(sc) => DirectFrom(w, sc, Approaches(sc, url))
  }

  // ---------------------------------------------------------------------
  // Retry and fallback

  /** `result.error?.includes('private') || … 'not found' || … 'Invalid URL'`. */
  predicate NotRetried(error: string) {
    Contains(error, "private") || Contains(error, "not found") || Contains(error, "Invalid URL")
  }

  /** What the test above evidently means to catch as well: the
      downloader's own answer to a link it refuses, 'Invalid Instagram
      URL', which does not contain 'Invalid URL'. */
  predicate NotRetriedIntended(error: string) {
    NotRetried(error) || Contains(error, INVALID_URL)
  }

  /** `result.error || 'Unknown error'`. */
  function LastError(r: DownloadResult): string {
    if r.Failed? && r.error != "" then r.error else "Unknown error"
  }

  function FailedAfter(maxRetries: int, lastError: string): string {
    "Failed after " + IntToString(maxRetries) + " attempts. Last error: " + lastError
  }

  /** A run of the retry loop: its result, the world afterwards and how
      many attempts it made. */
  datatype RetryRun = RetryRun(result: DownloadResult, world: World, attempts: nat)

  /** One call of `downloadReels(url)`, as a step from world to world. */
  function Attempt(cfg: Config, url: string): World -> (DownloadResult, World) {
    w => DownloadReels(cfg, w, url)
  }

  /** The retry loop from attempt `attempt` on, each attempt being a call
      of `tryOnce` and `stop` the test for an error not worth retrying.
      The `catch` of the loop is not modelled: `downloadReels` catches
      every exception itself. */
  function RetryFrom(tryOnce: World -> (DownloadResult, World), stop: string -> bool, w: World, attempt: int, maxRetries: int, lastError: string): (run: RetryRun)
    requires attempt >= 1
    decreases maxRetries - attempt + 1, 1
  {
    if attempt > maxRetries then RetryRun(Failed(FailedAfter(maxRetries, lastError)), w, 0)
    else
      var (r, w1) := tryOnce(w);
      AfterAttempt(tryOnce, stop, w1, attempt, maxRetries, r)
  }

  /** The rest of the loop body once attempt `attempt` has answered `r`:
      a success or an error that is not worth retrying is returned as it
      is; any other error is remembered, and the loop waits `1000 * attempt`
      milliseconds unless this was the last attempt. */
  function AfterAttempt(tryOnce: World -> (DownloadResult, World), stop: string -> bool, w: World, attempt: int, maxRetries: int, r: DownloadResult): (run: RetryRun)
    requires 1 <= attempt <= maxRetries
    decreases maxRetries - attempt + 1, 0
  {
    if r.Downloaded? || stop(r.error) then RetryRun(r, w, 1)
    else
      var last := LastError(r);
      var w2 := if attempt < maxRetries then Wait(w, 1000 * attempt) else w;
      var rest := RetryFrom(tryOnce, stop, w2, attempt + 1, maxRetries, last);
      rest.(attempts := rest.attempts + 1)
  }

  /** `downloadReelsWithRetry(url, maxRetries)`. */
  function Retry(cfg: Config, w: World, url: string, maxRetries: int): RetryRun {
    RetryFrom(Attempt(cfg, url), NotRetried, w, 1, maxRetries, "")
  }

  /** The same loop giving up at once on 'Invalid Instagram URL' too. */
  function RetryIntended(cfg: Config, w: World, url: string, maxRetries: int): RetryRun {
    RetryFrom(Attempt(cfg, url), NotRetriedIntended, w, 1, maxRetries, "")
  }

  const DEFAULT_RETRIES := 2

  /** `downloadReelsWithFallback(url)`: the retry wrapper with its default
      of two attempts, then one more plain attempt on the `/p/` link. */
  function Fallback(cfg: Config, w: World, url: string): (DownloadResult, World) {
    var run := Retry(cfg, w, url, DEFAULT_RETRIES);
    if run.result.Downloaded? then (run.result, run.world)
    else match FirstPostId(url)
      case None => (Failed(NO_SHORTCODE_IN_URL), run.world)
      case Some(sc) => DownloadReels(cfg, run.world, PostLink(sc))
  }
}
