/** The download engine as the source writes it: statements that read and
    update the process-wide state (`process.env.HTTP_USER_AGENT`, the
    global `axios`) and the outside world step by step, with the retry and
    scraping loops and the carousel scan. Every method is proved to compute
    exactly what the function of the same name in `ReelsDownloader`
    specifies, so the lemmas proved there hold of this code. */
module ReelsRuntime {
  import opened Text
  import opened InstagramUrl
  import opened Environment
  import opened Oracle
  import opened Scraping
  import opened ReelsDownloader

  /** The first carousel child that is a video with an address: the
      `for (const edge of edges)` scan that breaks at the first hit. */
  method FirstSidecarVideo(edges: seq<SidecarNode>) returns (videoUrl: Option<string>)
    ensures videoUrl == FirstVideoChild(edges)
    ensures videoUrl.Some? ==> exists i :: 0 <= i < |edges| && edges[i].isVideo && edges[i].videoUrl == videoUrl.value
  {
    videoUrl := None;
    var i := 0;
    while i < |edges|
      invariant 0 <= i <= |edges|
      invariant forall j :: 0 <= j < i ==> !(edges[j].isVideo && edges[j].videoUrl != "")
    {
      if edges[i].isVideo && edges[i].videoUrl != "" {
        videoUrl := Some(edges[i].videoUrl);
        break;
      }
      i := i + 1;
    }
    FirstVideoIndexUnique(edges, i);
  }

  class Runtime {
    /** The `config` object read at start-up. */
    const cfg: Config
    /** Answers still to be given by the resolver and by HTTP. */
    var resolverReplies: seq<Reply<InstagramResult>>
    var httpReplies: seq<Reply<HttpResponse>>
    /** Every outside call made so far, and every delay waited. */
    var calls: seq<Call>
    var waits: seq<nat>
    /** `process.env.HTTP_USER_AGENT`; `None` when unset. */
    var userAgent: Option<string>
    /** `(global as any).axios`; `None` when unset. */
    var axios: Option<Client>

    function State(): World
      reads this
    {
      World(resolverReplies, httpReplies, calls, waits, userAgent, axios)
    }

    constructor(cfg: Config, w: World)
      ensures this.cfg == cfg && State() == w
    {
      this.cfg := cfg;
      resolverReplies := w.resolverReplies;
      httpReplies := w.httpReplies;
      calls := w.calls;
      waits := w.waits;
      userAgent := w.userAgent;
      axios := w.axios;
    }

    // -------------------------------------------------------------------
    // The outside calls

    /** `await instagramGetUrl(url)`. */
    method Resolve(url: string) returns (reply: Reply<InstagramResult>)
      modifies this
      ensures (reply, State()) == Oracle.Resolve(old(State()), url)
    {
      calls := calls + [ResolverCall(url, userAgent, axios)];
      if |resolverReplies| == 0 {
        reply := Fail(NO_REPLY);
      } else {
        reply := resolverReplies[0];
        resolverReplies := resolverReplies[1..];
      }
    }

    /** `await axios.get(…)` or `await axios.post(…)`. */
    method Http(call: Call) returns (reply: Reply<HttpResponse>)
      modifies this
      ensures (reply, State()) == Oracle.Http(old(State()), call)
    {
      calls := calls + [call];
      if |httpReplies| == 0 {
        reply := Fail(NO_REPLY);
      } else {
        reply := httpReplies[0];
        httpReplies := httpReplies[1..];
      }
    }

    /** `await new Promise(resolve => setTimeout(resolve, ms))`. */
    method Wait(ms: nat)
      modifies this
      ensures State() == Oracle.Wait(old(State()), ms)
    {
      waits := waits + [ms];
    }

    // -------------------------------------------------------------------
    // downloadReels

    method DownloadReels(url: string) returns (r: DownloadResult)
      modifies this
      ensures (r, State()) == ReelsDownloader.DownloadReels(cfg, old(State()), url)
    {
      if !IsPostLink(url) {
        return Failed(INVALID_URL);
      }
      var shortcode := FirstPostId(url);
      if shortcode.None? {
        return Failed(NO_SHORTCODE_IN_URL);
      }
      var sc := shortcode.value;
      var originalUserAgent := userAgent;
      userAgent := Some(CHROME_UA);
      var reply := Resolve(url);
      if reply.Ok? {
        if originalUserAgent.Some? && originalUserAgent.value != "" {
          userAgent := originalUserAgent;
        } else {
          userAgent := None;
        }
        r := UseResult(sc, reply.value);
      } else if reply.thrown.Error? && Contains(reply.thrown.message, "401") {
        r := AuthChain(url, sc);
      } else {
        r := Failed(Classify(cfg, reply.thrown));
      }
    }

    /** The part of `downloadReels` after a resolver answer. */
    method UseResult(sc: string, result: InstagramResult) returns (r: DownloadResult)
      modifies this
      ensures (r, State()) == ReelsDownloader.UseResult(cfg, old(State()), sc, result)
    {
      if result.urlList.None? || |result.urlList.value| == 0 {
        return Failed(NO_VIDEO_URL);
      }
      var videoUrl := result.urlList.value[0];
      var video := Http(GetCall(videoUrl));
      if video.Fail? {
        return Failed(Classify(cfg, video.thrown));
      }
      r := Downloaded(video.value.byteLength, InfoMetadata(sc, result.postInfo));
    }

    /** The `401` branch of `downloadReels`. */
    method AuthChain(url: string, sc: string) returns (r: DownloadResult)
      modifies this
      ensures (r, State()) == ReelsDownloader.AuthChain(cfg, old(State()), url, sc)
    {
      var clean := Resolve(ReelLink(sc));
      if clean.Ok? {
        r := UseResult(sc, clean.value);
        return;
      }
      var localResult := LocalHeaders(url);
      if localResult.Downloaded? {
        return localResult;
      }
      var graphqlResult := GraphQL(url);
      if graphqlResult.Downloaded? {
        return graphqlResult;
      }
      r := Direct(url);
    }

    // -------------------------------------------------------------------
    // downloadReelsWithLocalHeaders

    method LocalHeaders(url: string) returns (r: DownloadResult)
      modifies this
      ensures (r, State()) == ReelsDownloader.LocalHeaders(cfg, old(State()), url)
    {
      var shortcode := FirstPostId(url);
      if shortcode.None? {
        return Failed(NO_SHORTCODE_IN_URL);
      }
      var originalAxios := axios;
      axios := Some(LocalHeadersClient);
      var result := Resolve(url);
      if originalAxios.Some? {
        axios := originalAxios;
      }
      if result.Fail? {
        return Failed(LOCAL_FAILED);
      }
      if result.value.urlList.Some? && |result.value.urlList.value| > 0 {
        var video := Http(GetCall(result.value.urlList.value[0]));
        if video.Fail? {
          if originalAxios.Some? {
            axios := originalAxios;
          }
          return Failed(LOCAL_FAILED);
        }
        return Downloaded(video.value.byteLength, InfoMetadata(shortcode.value, result.value.postInfo));
      }
      r := Failed(NO_LOCAL_URLS);
    }

    // -------------------------------------------------------------------
    // downloadReelsGraphQL

    method GraphQL(url: string) returns (r: DownloadResult)
      modifies this
      ensures (r, State()) == ReelsDownloader.GraphQL(cfg, old(State()), url)
    {
      var shortcode := FirstPostId(url);
      if shortcode.None? {
        return Failed(NO_SHORTCODE);
      }
      var sc := shortcode.value;
      var csrfResponse := Http(GetCall(INSTAGRAM_HOME));
      if csrfResponse.Fail? || csrfResponse.value.setCookie.None? || |csrfResponse.value.setCookie.value| == 0 {
        return Failed(GRAPHQL_FAILED);
      }
      var csrfCookie := csrfResponse.value.setCookie.value[0];
      var csrfToken := CsrfToken(csrfCookie);
      var graphqlResponse := Http(PostCall(GRAPHQL_URL, sc, csrfToken, csrfCookie));
      if graphqlResponse.Fail? || graphqlResponse.value.media.None? {
        return Failed(GRAPHQL_FAILED);
      }
      var mediaData := graphqlResponse.value.media.value;
      var videoUrl: Option<string> := None;
      if mediaData.isVideo && mediaData.videoUrl != "" {
        videoUrl := Some(mediaData.videoUrl);
      } else if mediaData.typename == SIDECAR {
        var edges := if mediaData.children.Some? then mediaData.children.value else [];
        videoUrl := FirstSidecarVideo(edges);
      }
      if videoUrl.None? {
        return Failed(NO_VIDEO_IN_POST);
      }
      var video := Http(GetCall(videoUrl.value));
      if video.Fail? {
        return Failed(GRAPHQL_FAILED);
      }
      r := Downloaded(video.value.byteLength, MediaMetadata(sc, mediaData));
    }

    // -------------------------------------------------------------------
    // downloadReelsDirect

    method Direct(url: string) returns (r: DownloadResult)
      modifies this
      ensures (r, State()) == ReelsDownloader.Direct(old(State()), url)
    {
      var shortcode := FirstPostId(url);
      if shortcode.None? {
        return Failed(NO_SHORTCODE);
      }
      var sc := shortcode.value;
      var approaches := Approaches(sc, url);
      for i := 0 to |approaches|
        invariant DirectFrom(State(), sc, approaches[i..]) == DirectFrom(old(State()), sc, approaches)
      {
        var found := ScrapePage(sc, approaches[i]);
        assert approaches[i..][1..] == approaches[i + 1..];
        if found.Some? {
          return found.value;
        }
      }
      r := Failed(DIRECT_EXHAUSTED);
    }

    /** The body of the scraping loop for one page: `None` is the `catch`
        or the fall-through that moves on to the next page. */
    method ScrapePage(sc: string, testUrl: string) returns (found: Option<DownloadResult>)
      modifies this
      ensures (found, State()) == TryDirect(old(State()), sc, testUrl)
    {
      var response := Http(GetCall(testUrl));
      if response.Fail? {
        return None;
      }
      var scraped := ScrapeHtml(response.value.html);
      if scraped.NullDereference? {
        // `mp4Match[0]` threw a TypeError; the catch moves on.
        return None;
      }
      var videoUrl := scraped.videoUrl;
      if Truthy(videoUrl) && StartsWith(videoUrl.value, "http") && Contains(videoUrl.value, MP4) {
        var video := Http(GetCall(videoUrl.value));
        if video.Fail? {
          return None;
        }
        return Some(Downloaded(video.value.byteLength, Metadata(sc, TITLE_PREFIX + sc, None, None, None, None)));
      }
      found := None;
    }

    /** The four patterns of the scraping loop, tried in turn on the page
        text while `videoUrl` is still falsy. */
    static method ScrapeHtml(htmlContent: string) returns (outcome: ScrapeOutcome)
      ensures outcome == ScrapeVideoUrl(htmlContent)
    {
      var videoUrl: Option<string> := None;
      var videoUrlMatch := FirstCapture(htmlContent, VIDEO_URL_PATTERN);
      if videoUrlMatch.Some? {
        videoUrl := Some(Unescape(videoUrlMatch.value));
      }
      if !Truthy(videoUrl) {
        var videoVersionsMatch := FirstCapture(htmlContent, VIDEO_VERSIONS_PATTERN);
        if videoVersionsMatch.Some? {
          videoUrl := Some(Unescape(videoVersionsMatch.value));
        }
      }
      if !Truthy(videoUrl) {
        var playbackMatch := FirstCapture(htmlContent, PLAYBACK_URL_PATTERN);
        if playbackMatch.Some? {
          videoUrl := Some(Unescape(playbackMatch.value));
        }
      }
      assert videoUrl == FirstThreePatterns(htmlContent);
      if !Truthy(videoUrl) {
        var mp4Match := FirstMp4(htmlContent);
        if mp4Match.None? {
          return NullDereference;
        }
        if Contains(mp4Match.value, "instagram") || Contains(mp4Match.value, "fbcdn") {
          videoUrl := mp4Match;
        }
      }
      outcome := Scraped(videoUrl);
    }

    // -------------------------------------------------------------------
    // downloadReelsWithRetry and downloadReelsWithFallback

    method DownloadWithRetry(url: string, maxRetries: int) returns (r: DownloadResult)
      modifies this
      ensures r == Retry(cfg, old(State()), url, maxRetries).result
      ensures State() == Retry(cfg, old(State()), url, maxRetries).world
    {
      var lastError := "";
      var attempt := 1;
      while attempt <= maxRetries
        invariant attempt >= 1
        invariant RetryFrom(Attempt(cfg, url), NotRetried, State(), attempt, maxRetries, lastError).result
          == Retry(cfg, old(State()), url, maxRetries).result
        invariant RetryFrom(Attempt(cfg, url), NotRetried, State(), attempt, maxRetries, lastError).world
          == Retry(cfg, old(State()), url, maxRetries).world
        decreases maxRetries - attempt + 1
      {
        ghost var before := State();
        var result := DownloadReels(url);
        assert RetryFrom(Attempt(cfg, url), NotRetried, before, attempt, maxRetries, lastError)
          == AfterAttempt(Attempt(cfg, url), NotRetried, State(), attempt, maxRetries, result);
        if result.Downloaded? {
          return result;
        }
        lastError := LastError(result);
        if NotRetried(result.error) {
          return result;
        }
        ghost var rest := RetryFrom(Attempt(cfg, url), NotRetried,
          if attempt < maxRetries then Oracle.Wait(State(), 1000 * attempt) else State(),
          attempt + 1, maxRetries, lastError);
        assert AfterAttempt(Attempt(cfg, url), NotRetried, State(), attempt, maxRetries, result)
          == rest.(attempts := rest.attempts + 1);
        if attempt < maxRetries {
          Wait(1000 * attempt);
        }
        attempt := attempt + 1;
      }
      r := Failed(FailedAfter(maxRetries, lastError));
    }

    method DownloadWithFallback(url: string) returns (r: DownloadResult)
      modifies this
      ensures (r, State()) == Fallback(cfg, old(State()), url)
    {
      var result := DownloadWithRetry(url, DEFAULT_RETRIES);
      if result.Downloaded? {
        return result;
      }
      var shortcode := FirstPostId(url);
      if shortcode.None? {
        return Failed(NO_SHORTCODE_IN_URL);
      }
      r := DownloadReels(PostLink(shortcode.value));
    }
  }
}
