/** What the download engine of `src/services/reelsDownloader.ts` promises,
    proved about the functions of `ReelsDownloader` (and so, through the
    postconditions of `ReelsRuntime.Runtime`, about the imperative code):
    which outside calls it makes and in what order, what it leaves behind in
    the process-wide state, what a success carries, how the retry loop
    spaces its attempts, and what the fallback adds. */
module ReelsProperties {
  import opened Text
  import opened InstagramUrl
  import opened Environment
  import opened Oracle
  import opened Scraping
  import opened ReelsDownloader

  // ---------------------------------------------------------------------
  // Frames

  /** `w2` is `w` after further outside calls only: the call log has grown
      at its end, and neither a delay nor a change of `HTTP_USER_AGENT`
      happened. */
  predicate Grows(w: World, w2: World) {
    && |w.calls| <= |w2.calls|
    && (forall i :: 0 <= i < |w.calls| ==> w2.calls[i] == w.calls[i])
    && w2.waits == w.waits && w2.userAgent == w.userAgent
  }

  lemma GrowsTransitive(w1: World, w2: World, w3: World)
    requires Grows(w1, w2) && Grows(w2, w3)
    ensures Grows(w1, w3)
  {
  }

  /** One HTTP call appends itself to the log and changes nothing else the
      properties below speak of. */
  lemma HttpGrows(w: World, call: Call)
    ensures Grows(w, Http(w, call).1) && Http(w, call).1.axios == w.axios
    ensures |Http(w, call).1.calls| == |w.calls| + 1 && Http(w, call).1.calls[|w.calls|] == call
  {
  }

  /** A successful result names the shortcode `sc` and carries the title
      `Instagram Reel <sc>`. */
  predicate Titled(r: DownloadResult, sc: string) {
    r.Downloaded? ==> r.metadata.shortcode == sc && r.metadata.title == TITLE_PREFIX + sc
  }

  /** The part after a resolver answer downloads `url_list[0]` and nothing
      else, and reports a missing or empty list without any call. */
  lemma UseResultEffects(cfg: Config, w: World, sc: string, result: InstagramResult)
    ensures var (r, w2) := UseResult(cfg, w, sc, result);
      && Grows(w, w2) && w2.axios == w.axios && Titled(r, sc)
      && (result.urlList.None? || |result.urlList.value| == 0 ==> r == Failed(NO_VIDEO_URL) && w2 == w)
      && (result.urlList.Some? && |result.urlList.value| > 0 ==>
            w2.calls == w.calls + [GetCall(result.urlList.value[0])])
  {
  }

  /** The local-header strategy calls the resolver with the local-header
      client installed as the global `axios`; it puts the old value back
      only when there was one, so a missing one stays replaced. */
  lemma LocalHeadersEffects(cfg: Config, w: World, url: string)
    ensures var (r, w2) := LocalHeaders(cfg, w, url);
      && Grows(w, w2)
      && w2.axios == (if FirstPostId(url).Some? && w.axios.None? then Some(LocalHeadersClient) else w.axios)
      && (FirstPostId(url).None? ==> r == Failed(NO_SHORTCODE_IN_URL) && w2 == w)
      && (FirstPostId(url).Some? ==>
            && Titled(r, FirstPostId(url).value)
            && |w2.calls| > |w.calls|
            && w2.calls[|w.calls|] == ResolverCall(url, w.userAgent, Some(LocalHeadersClient)))
  {
    if FirstPostId(url).Some? {
      var v := w.(axios := Some(LocalHeadersClient));
      var first := Resolve(v, url);
      var w1 := first.1;
      assert Grows(w, w1) && |w1.calls| == |w.calls| + 1;
      var w2 := if w.axios.Some? then w1.(axios := w.axios) else w1;
      var reply := first.0;
      if reply.Ok? && reply.value.urlList.Some? && |reply.value.urlList.value| > 0 {
        var call := GetCall(reply.value.urlList.value[0]);
        HttpGrows(w2, call);
        GrowsTransitive(w, w2, Http(w2, call).1);
      }
    }
  }

  /** The GraphQL strategy starts by fetching the home page, and a success
      is titled after the shortcode. */
  lemma GraphQLEffects(cfg: Config, w: World, url: string)
    ensures var (r, w2) := GraphQL(cfg, w, url);
      && Grows(w, w2) && w2.axios == w.axios
      && (FirstPostId(url).None? ==> r == Failed(NO_SHORTCODE) && w2 == w)
      && (FirstPostId(url).Some? ==>
            && Titled(r, FirstPostId(url).value)
            && |w2.calls| > |w.calls| && w2.calls[|w.calls|] == GetCall(INSTAGRAM_HOME))
  {
    if FirstPostId(url).Some? {
      var sc := FirstPostId(url).value;
      var first := Http(w, GetCall(INSTAGRAM_HOME));
      HttpGrows(w, GetCall(INSTAGRAM_HOME));
      var home := first.0;
      if !(home.Fail? || home.value.setCookie.None? || |home.value.setCookie.value| == 0) {
        var cookie := home.value.setCookie.value[0];
        var call := PostCall(GRAPHQL_URL, sc, CsrfToken(cookie), cookie);
        var second := Http(first.1, call);
        HttpGrows(first.1, call);
        GrowsTransitive(w, first.1, second.1);
        var answer := second.0;
        if !(answer.Fail? || answer.value.media.None?) {
          var v := SelectVideoUrl(answer.value.media.value);
          if v.Some? {
            HttpGrows(second.1, GetCall(v.value));
            GrowsTransitive(w, second.1, Http(second.1, GetCall(v.value)).1);
          }
        }
      }
    }
  }

  /** One iteration of the scraping loop fetches its page first; only a
      download ends the loop. */
  lemma TryDirectEffects(w: World, sc: string, page: string)
    ensures var (r, w2) := TryDirect(w, sc, page);
      && Grows(w, w2) && w2.axios == w.axios
      && (r.Some? ==> r.value.Downloaded? && Titled(r.value, sc))
      && |w2.calls| > |w.calls| && w2.calls[|w.calls|] == GetCall(page)
  {
  }

  /** The scraping loop ends with a titled success or with 'All direct
      scraping methods failed …', and fetches the first page first. */
  lemma {:induction false} DirectFromEffects(w: World, sc: string, pages: seq<string>)
    ensures var (r, w2) := DirectFrom(w, sc, pages);
      && Grows(w, w2) && w2.axios == w.axios && Titled(r, sc)
      && (r.Failed? ==> r.error == DIRECT_EXHAUSTED)
      && (|pages| > 0 ==> |w2.calls| > |w.calls| && w2.calls[|w.calls|] == GetCall(pages[0]))
    decreases |pages|
  {
    if |pages| > 0 {
      var (t, w1) := TryDirect(w, sc, pages[0]);
      TryDirectEffects(w, sc, pages[0]);
      if t.None? {
        DirectFromEffects(w1, sc, pages[1..]);
        var (r, w2) := DirectFrom(w1, sc, pages[1..]);
        GrowsTransitive(w, w1, w2);
      }
    }
  }

  lemma DirectEffects(w: World, url: string)
    ensures var (r, w2) := Direct(w, url);
      && Grows(w, w2) && w2.axios == w.axios
      && (FirstPostId(url).None? ==> r == Failed(NO_SHORTCODE) && w2 == w)
      && (FirstPostId(url).Some? ==> Titled(r, FirstPostId(url).value))
  {
    if FirstPostId(url).Some? {
      var sc := FirstPostId(url).value;
      DirectFromEffects(w, sc, Approaches(sc, url));
    }
  }

  /** The page fetches of a scraping loop in which every fetch fails. */
  function PageFetches(pages: seq<string>): seq<Call>
    decreases |pages|
  {
    if |pages| == 0 then [] else [GetCall(pages[0])] + PageFetches(pages[1..])
  }

  /** When every page fetch fails, the loop fetches each page once, in
      order, and reports 'All direct scraping methods failed …'. */
  lemma {:induction false} DirectFromAllFail(w: World, sc: string, pages: seq<string>)
    requires |pages| <= |w.httpReplies|
    requires forall i :: 0 <= i < |pages| ==> w.httpReplies[i].Fail?
    ensures DirectFrom(w, sc, pages) ==
      (Failed(DIRECT_EXHAUSTED),
       w.(httpReplies := w.httpReplies[|pages|..], calls := w.calls + PageFetches(pages)))
    decreases |pages|
  {
    if |pages| == 0 {
      assert w.httpReplies[0..] == w.httpReplies;
      assert w.calls + [] == w.calls;
    } else {
      var w1 := w.(httpReplies := w.httpReplies[1..], calls := w.calls + [GetCall(pages[0])]);
      TryDirectFails(w, sc, pages[0]);
      assert DirectFrom(w, sc, pages) == DirectFrom(w1, sc, pages[1..]);
      forall i | 0 <= i < |pages| - 1 ensures w1.httpReplies[i].Fail? {
        assert w1.httpReplies[i] == w.httpReplies[i + 1];
      }
      DirectFromAllFail(w1, sc, pages[1..]);
      assert w1.httpReplies[|pages| - 1..] == w.httpReplies[|pages|..];
      assert w1.calls + PageFetches(pages[1..]) == w.calls + PageFetches(pages) by {
        assert PageFetches(pages) == [GetCall(pages[0])] + PageFetches(pages[1..]);
      }
    }
  }

  /** A page fetch that fails ends the attempt on that page with nothing. */
  lemma TryDirectFails(w: World, sc: string, page: string)
    requires |w.httpReplies| > 0 && w.httpReplies[0].Fail?
    ensures TryDirect(w, sc, page)
      == (None, w.(httpReplies := w.httpReplies[1..], calls := w.calls + [GetCall(page)]))
  {
  }

  /** Direct scraping tries the `/p/` page, then the `/reel/` page, then
      the link it was given; when all three fetches fail it gives up with
      'All direct scraping methods failed …'. */
  lemma DirectTriesThreePages(w: World, url: string)
    requires FirstPostId(url).Some?
    requires |w.httpReplies| >= 3 && w.httpReplies[0].Fail? && w.httpReplies[1].Fail? && w.httpReplies[2].Fail?
    ensures var sc := FirstPostId(url).value;
      Direct(w, url) ==
        (Failed(DIRECT_EXHAUSTED),
         w.(httpReplies := w.httpReplies[3..],
            calls := w.calls + [GetCall(PostLink(sc)), GetCall(ReelLink(sc)), GetCall(url)]))
  {
    var sc := FirstPostId(url).value;
    var pages := Approaches(sc, url);
    DirectFromAllFail(w, sc, pages);
    assert PageFetches(pages[1..][1..]) == [GetCall(url)] by {
      assert pages[1..][1..][1..] == [];
    }
    assert PageFetches(pages[1..]) == [GetCall(ReelLink(sc)), GetCall(url)];
    assert PageFetches(pages) == [GetCall(PostLink(sc)), GetCall(ReelLink(sc)), GetCall(url)];
  }

  /** After a `401` the chain first asks the resolver for the canonical
      reel link; whatever step ends it, a success is titled after the
      shortcode, and the global `axios` is left either as it was or, when
      there was none, as the local-header client. */
  lemma AuthChainEffects(cfg: Config, w: World, url: string, sc: string)
    requires FirstPostId(url) == Some(sc)
    ensures var (r, w2) := AuthChain(cfg, w, url, sc);
      && Grows(w, w2) && Titled(r, sc)
      && (w2.axios == w.axios || (w.axios.None? && w2.axios == Some(LocalHeadersClient)))
      && |w2.calls| > |w.calls| && w2.calls[|w.calls|] == ResolverCall(ReelLink(sc), w.userAgent, w.axios)
  {
    var (reply, w1) := Resolve(w, ReelLink(sc));
    if reply.Ok? {
      UseResultEffects(cfg, w1, sc, reply.value);
    } else {
      var (local, w2) := LocalHeaders(cfg, w1, url);
      LocalHeadersEffects(cfg, w1, url);
      if !local.Downloaded? {
        var (graph, w3) := GraphQL(cfg, w2, url);
        GraphQLEffects(cfg, w2, url);
        GrowsTransitive(w1, w2, w3);
        if !graph.Downloaded? {
          DirectEffects(w3, url);
          GrowsTransitive(w1, w3, Direct(w3, url).1);
        }
      }
    }
  }

  // ---------------------------------------------------------------------
  // downloadReels

  /** What `downloadReels` does to the world, whatever the answers:
      it never waits; an invalid link is refused without any call; a valid
      one is first resolved with the desktop browser identity in
      `HTTP_USER_AGENT`, which is restored only when that first resolver
      call succeeds and otherwise stays behind; a success is titled after
      the link's shortcode; and the global `axios` is left as it was or, if
      there was none and the chain reached the local-header strategy, as
      the local-header client. */
  lemma DownloadEffects(cfg: Config, w: World, url: string)
    ensures var (r, w2) := DownloadReels(cfg, w, url);
      && |w.calls| <= |w2.calls| && (forall i :: 0 <= i < |w.calls| ==> w2.calls[i] == w.calls[i])
      && w2.waits == w.waits
      && (!IsPostLink(url) ==> r == Failed(INVALID_URL) && w2 == w)
      && (IsPostLink(url) ==>
            && FirstPostId(url).Some?
            && Titled(r, FirstPostId(url).value)
            && |w2.calls| > |w.calls|
            && w2.calls[|w.calls|] == ResolverCall(url, Some(CHROME_UA), w.axios)
            && w2.userAgent ==
                 (if |w.resolverReplies| > 0 && w.resolverReplies[0].Ok? then RestoredAgent(w.userAgent)
                  else Some(CHROME_UA))
            && (w2.axios == w.axios || (w.axios.None? && w2.axios == Some(LocalHeadersClient))))
  {
    if IsPostLink(url) {
      ValidLinkHasPostId(url);
      var sc := FirstPostId(url).value;
      var (reply, w1) := Resolve(w.(userAgent := Some(CHROME_UA)), url);
      if reply.Ok? {
        UseResultEffects(cfg, w1.(userAgent := RestoredAgent(w.userAgent)), sc, reply.value);
      } else if reply.thrown.Error? && Contains(reply.thrown.message, "401") {
        AuthChainEffects(cfg, w1, url, sc);
      }
    }
  }

  /** A resolver failure that is not a `401` goes straight to the
      classifier after that single call, and the browser identity stays in
      `HTTP_USER_AGENT`. */
  lemma NonAuthFailureClassified(cfg: Config, w: World, url: string, e: Thrown)
    requires IsPostLink(url)
    requires |w.resolverReplies| > 0 && w.resolverReplies[0] == Fail(e)
    requires !(e.Error? && Contains(e.message, "401"))
    ensures var (r, w2) := DownloadReels(cfg, w, url);
      && r == Failed(Classify(cfg, e))
      && w2.calls == w.calls + [ResolverCall(url, Some(CHROME_UA), w.axios)]
      && w2.userAgent == Some(CHROME_UA)
  {
    ValidLinkHasPostId(url);
  }

  /** A resolver answer is used as it is: no `url_list` entry means the
      'Could not extract video URL …' failure after the one resolver call;
      otherwise exactly `url_list[0]` is downloaded, and a download that
      arrives yields the `post_info` metadata. */
  lemma ResolverAnswerUsed(cfg: Config, w: World, url: string, result: InstagramResult)
    requires IsPostLink(url)
    requires |w.resolverReplies| > 0 && w.resolverReplies[0] == Ok(result)
    ensures var (r, w2) := DownloadReels(cfg, w, url);
      var first := ResolverCall(url, Some(CHROME_UA), w.axios);
      && FirstPostId(url).Some?
      && w2.userAgent == RestoredAgent(w.userAgent)
      && (result.urlList.None? || |result.urlList.value| == 0 ==>
            r == Failed(NO_VIDEO_URL) && w2.calls == w.calls + [first])
      && (result.urlList.Some? && |result.urlList.value| > 0 ==>
            && w2.calls == w.calls + [first, GetCall(result.urlList.value[0])]
            && (|w.httpReplies| > 0 && w.httpReplies[0].Ok? ==>
                  r == Downloaded(w.httpReplies[0].value.byteLength,
                                  InfoMetadata(FirstPostId(url).value, result.postInfo))))
  {
    ValidLinkHasPostId(url);
    var sc := FirstPostId(url).value;
    var (reply, w1) := Resolve(w.(userAgent := Some(CHROME_UA)), url);
    UseResultEffects(cfg, w1.(userAgent := RestoredAgent(w.userAgent)), sc, result);
  }

  /** Inside the chain: when the canonical link fails, the local-header
      strategy resolves the link next, and when that fails too, GraphQL
      starts with its home-page fetch. */
  lemma AuthChainSteps(cfg: Config, w: World, url: string, sc: string)
    requires FirstPostId(url) == Some(sc)
    requires |w.resolverReplies| > 0 && w.resolverReplies[0].Fail?
    ensures var (r, w2) := AuthChain(cfg, w, url, sc);
      && |w2.calls| >= |w.calls| + 2
      && w2.calls[|w.calls| + 1] == ResolverCall(url, w.userAgent, Some(LocalHeadersClient))
      && (|w.resolverReplies| > 1 && w.resolverReplies[1].Fail? ==>
            |w2.calls| >= |w.calls| + 3 && w2.calls[|w.calls| + 2] == GetCall(INSTAGRAM_HOME))
  {
    var (clean, v1) := Resolve(w, ReelLink(sc));
    var (local, v2) := LocalHeaders(cfg, v1, url);
    LocalHeadersEffects(cfg, v1, url);
    if !local.Downloaded? {
      var (graph, v3) := GraphQL(cfg, v2, url);
      GraphQLEffects(cfg, v2, url);
      if !graph.Downloaded? {
        DirectEffects(v3, url);
      }
      if |w.resolverReplies| > 1 && w.resolverReplies[1].Fail? {
        assert v1.resolverReplies[0] == w.resolverReplies[1];
        assert |v2.calls| == |w.calls| + 2;
      }
    } else {
      assert !(|w.resolverReplies| > 1 && w.resolverReplies[1].Fail?) by {
        assert |w.resolverReplies| > 1 ==> v1.resolverReplies[0] == w.resolverReplies[1];
      }
    }
  }

  /** A `401` from the first resolver call leads into the chain, with the
      first call logged and its reply consumed. */
  lemma AuthChainEntered(cfg: Config, w: World, url: string, m: string)
    requires IsPostLink(url)
    requires |w.resolverReplies| > 0 && w.resolverReplies[0] == Fail(Error(m)) && Contains(m, "401")
    ensures FirstPostId(url).Some?
    ensures var w1 := Resolve(w.(userAgent := Some(CHROME_UA)), url).1;
      && DownloadReels(cfg, w, url) == AuthChain(cfg, w1, url, FirstPostId(url).value)
      && w1.calls == w.calls + [ResolverCall(url, Some(CHROME_UA), w.axios)]
      && w1.resolverReplies == w.resolverReplies[1..]
  {
    ValidLinkHasPostId(url);
  }

  /** The order of the chain run after a `401`: the canonical reel link is
      resolved next; if that fails too, the link is resolved once more with
      the local-header client in place; and if that fails, GraphQL starts
      with its home-page fetch. */
  lemma AuthChainOrder(cfg: Config, w: World, url: string, m: string)
    requires IsPostLink(url)
    requires |w.resolverReplies| > 0 && w.resolverReplies[0] == Fail(Error(m)) && Contains(m, "401")
    ensures var w2 := DownloadReels(cfg, w, url).1;
      && FirstPostId(url).Some?
      && |w2.calls| >= |w.calls| + 2
      && w2.calls[|w.calls|] == ResolverCall(url, Some(CHROME_UA), w.axios)
      && w2.calls[|w.calls| + 1] == ResolverCall(ReelLink(FirstPostId(url).value), Some(CHROME_UA), w.axios)
      && (|w.resolverReplies| > 1 && w.resolverReplies[1].Fail? ==>
            && |w2.calls| >= |w.calls| + 3
            && w2.calls[|w.calls| + 2] == ResolverCall(url, Some(CHROME_UA), Some(LocalHeadersClient))
            && (|w.resolverReplies| > 2 && w.resolverReplies[2].Fail? ==>
                  |w2.calls| >= |w.calls| + 4 && w2.calls[|w.calls| + 3] == GetCall(INSTAGRAM_HOME)))
  {
    ValidLinkHasPostId(url);
    var sc := FirstPostId(url).value;
    var w1 := Resolve(w.(userAgent := Some(CHROME_UA)), url).1;
    AuthChainEntered(cfg, w, url, m);
    assert DownloadReels(cfg, w, url).1 == AuthChain(cfg, w1, url, sc).1;
    AuthChainEffects(cfg, w1, url, sc);
    if |w.resolverReplies| > 1 && w.resolverReplies[1].Fail? {
      assert w1.resolverReplies[0] == w.resolverReplies[1];
      assert |w.resolverReplies| > 2 ==> w1.resolverReplies[1] == w.resolverReplies[2];
      AuthChainSteps(cfg, w1, url, sc);
    }
  }

  // ---------------------------------------------------------------------
  // Error classification

  /** The classifier's if-chain is the table of rules read top to bottom:
      the message of the first row one of whose keywords occurs in the
      error message, and the generic text when no row applies or the
      thrown value is not an `Error`. */
  lemma ClassifyIsFirstRule(cfg: Config, e: Thrown)
    ensures Classify(cfg, e) ==
      if e.Error? && FirstRule(ClassifierRules(cfg), e.message).Some?
      then FirstRule(ClassifierRules(cfg), e.message).value
      else GENERIC_MSG
  {
    if e.Error? {
      var m := e.message;
      var rules := ClassifierRules(cfg);
      MentionsFew(m, "timeout", "");
      MentionsFew(m, "maxContentLength", "");
      MentionsFew(m, "Network Error", "ENOTFOUND");
      MentionsFew(m, "Request failed with status code 404", "");
      MentionsFew(m, "Request failed with status code 403", "");
      MentionsFew(m, "private", "Private");
      MentionsFew(m, "Post not found", "not found");
      var r1 := rules[1..];
      var r2 := r1[1..];
      var r3 := r2[1..];
      var r4 := r3[1..];
      var r5 := r4[1..];
      var r6 := r5[1..];
      FirstRuleCons(rules, m);
      FirstRuleCons(r1, m);
      FirstRuleCons(r2, m);
      FirstRuleCons(r3, m);
      FirstRuleCons(r4, m);
      FirstRuleCons(r5, m);
      FirstRuleCons(r6, m);
      assert r6[1..] == [];
    }
  }

  // ---------------------------------------------------------------------
  // GraphQL request

  /** Everything before the first `c` of `p + [c] + q` is `p`. */
  lemma {:induction false} BeforeFirstOf(p: string, c: char, q: string)
    requires c !in p
    ensures BeforeFirst(p + [c] + q, c) == p
    decreases |p|
  {
    if |p| == 0 {
      assert (p + [c] + q)[0] == c;
    } else {
      assert (p + [c] + q)[1..] == p[1..] + [c] + q;
      BeforeFirstOf(p[1..], c, q);
      assert p == [p[0]] + p[1..];
    }
  }

  /** The CSRF token sent with the GraphQL query is the value of a
      `csrftoken=<value>; …` cookie. */
  lemma CsrfTokenOfCookie(value: string, attributes: string)
    requires ';' !in value
    ensures CsrfToken("csrftoken=" + value + ";" + attributes) == value
  {
    var name := "csrftoken=";
    var p := name + value;
    assert ';' !in name;
    assert name + value + ";" + attributes == p + [';'] + attributes;
    BeforeFirstOf(p, ';', attributes);
    assert p[..|name|] == name && p[|name|..] == value;
  }

  /** The GraphQL query is posted for the link's shortcode with the token
      and the cookie taken from the first `set-cookie` header of the home
      page. */
  lemma GraphQLRequest(cfg: Config, w: World, url: string, home: HttpResponse)
    requires FirstPostId(url).Some?
    requires |w.httpReplies| > 0 && w.httpReplies[0] == Ok(home)
    requires home.setCookie.Some? && |home.setCookie.value| > 0
    ensures var (r, w2) := GraphQL(cfg, w, url);
      var cookie := home.setCookie.value[0];
      && |w2.calls| >= |w.calls| + 2
      && w2.calls[|w.calls| + 1] == PostCall(GRAPHQL_URL, FirstPostId(url).value, CsrfToken(cookie), cookie)
  {
  }

  // ---------------------------------------------------------------------
  // Links built by the engine

  /** `https://www.instagram.com/` is a complete scheme-and-host part. */
  lemma CanonicalHost(t: string)
    ensures HostEnd(HTTPS + WWW + HOST + t) == Some(26)
    ensures (HTTPS + WWW + HOST + t)[26..] == t
  {
    var t2 := HOST + t;
    var t1 := WWW + t2;
    var s := HTTPS + t1;
    assert HTTPS + WWW + HOST + t == s;
    StartsWithAppend(HTTPS, t1);
    StartsWithAppend(WWW, t2);
    StartsWithAppend(HOST, t);
    assert SchemeEnd(s) == Some(8);
    assert s[12..] == t1[4..];
    assert s[26..] == t2[14..];
  }

  /** The canonical prefix followed by `reel/` or `p/` ends where the
      identifier starts. */
  lemma CanonicalPrefix(marker: string, rest: string)
    requires marker == REEL || marker == POST
    ensures IdStart(HTTPS + WWW + HOST + marker + rest) == Some(26 + |marker|)
    ensures (HTTPS + WWW + HOST + marker + rest)[26 + |marker|..] == rest
  {
    var t := marker + rest;
    CanonicalHost(t);
    var s := HTTPS + WWW + HOST + t;
    assert HTTPS + WWW + HOST + marker + rest == s;
    if marker == POST {
      assert t[0] == 'p' && REEL[0] == 'r';
      assert t[..2] == POST;
    } else {
      assert t[..5] == REEL;
    }
    assert s[26 + |marker|..] == t[|marker|..];
  }

  /** A link built from the canonical prefix and a non-empty identifier is
      accepted by the validator, and the identifier is what the extractor
      reads back from it. */
  lemma CanonicalLink(marker: string, sc: string)
    requires marker == REEL || marker == POST
    requires |sc| > 0 && forall i :: 0 <= i < |sc| ==> IsIdChar(sc[i])
    ensures IsPostLink(HTTPS + WWW + HOST + marker + sc + "/")
    ensures FirstPostId(HTTPS + WWW + HOST + marker + sc + "/") == Some(sc)
  {
    var s := HTTPS + WWW + HOST + marker + sc + "/";
    CanonicalPrefix(marker, sc + "/");
    assert s == HTTPS + WWW + HOST + marker + (sc + "/");
    var k := 26 + |marker|;
    assert s[k..] == sc + "/";
    assert s[k] == sc[0];
    ValidLinkHasPostId(s);
    PrefixRunUnique(sc + "/", IsIdChar, |sc|);
  }

  /** The `/p/` and `/reel/` links the engine builds from a shortcode are
      valid links of that same shortcode. */
  lemma CanonicalLinks(sc: string)
    requires |sc| > 0 && forall i :: 0 <= i < |sc| ==> IsIdChar(sc[i])
    ensures IsPostLink(PostLink(sc)) && FirstPostId(PostLink(sc)) == Some(sc)
    ensures IsPostLink(ReelLink(sc)) && FirstPostId(ReelLink(sc)) == Some(sc)
  {
    CanonicalLink(POST, sc);
    CanonicalLink(REEL, sc);
  }

  // ---------------------------------------------------------------------
  // Retry and fallback

  /** The delays `1000 * from`, `1000 * (from + 1)`, … of `count` waits. */
  function Delays(from: nat, count: nat): seq<nat>
    decreases count
  {
    if count == 0 then [] else [1000 * from] + Delays(from + 1, count - 1)
  }

  /** The attempts left from attempt `attempt` on. */
  function Budget(attempt: int, maxRetries: int): nat {
    if maxRetries >= attempt then maxRetries - attempt + 1 else 0
  }

  /** An attempt that only makes outside calls: it never waits and only
      appends to the call log. */
  ghost predicate CallsOnly(tryOnce: World -> (DownloadResult, World)) {
    forall v: World ::
      && tryOnce(v).1.waits == v.waits
      && |v.calls| <= |tryOnce(v).1.calls|
      && forall i :: 0 <= i < |v.calls| ==> tryOnce(v).1.calls[i] == v.calls[i]
  }

  lemma AttemptCallsOnly(cfg: Config, url: string)
    ensures CallsOnly(Attempt(cfg, url))
  {
    forall v: World
      ensures Attempt(cfg, url)(v).1.waits == v.waits
      ensures |v.calls| <= |Attempt(cfg, url)(v).1.calls|
      ensures forall i :: 0 <= i < |v.calls| ==> Attempt(cfg, url)(v).1.calls[i] == v.calls[i]
    {
      DownloadEffects(cfg, v, url);
    }
  }

  /** The retry loop from attempt `attempt` on makes at most the attempts
      left, waits `1000 * k` milliseconds after each attempt `k` but the
      last, only appends to the call log, and ends with a success, with an
      error not worth retrying, or after using every attempt with
      'Failed after <maxRetries> attempts. Last error: …'. */
  lemma {:induction false} RetryShape(tryOnce: World -> (DownloadResult, World), stop: string -> bool, w: World, attempt: nat, maxRetries: int, lastError: string)
    requires attempt >= 1 && CallsOnly(tryOnce)
    ensures var run := RetryFrom(tryOnce, stop, w, attempt, maxRetries, lastError);
      && run.attempts <= Budget(attempt, maxRetries)
      && (maxRetries >= attempt ==> run.attempts >= 1)
      && run.world.waits == w.waits + Delays(attempt, if run.attempts == 0 then 0 else run.attempts - 1)
      && |w.calls| <= |run.world.calls|
      && (forall i :: 0 <= i < |w.calls| ==> run.world.calls[i] == w.calls[i])
      && (run.result.Failed? && !stop(run.result.error) ==>
            && run.attempts == Budget(attempt, maxRetries)
            && exists last :: run.result.error == FailedAfter(maxRetries, last))
    decreases maxRetries - attempt + 1
  {
    var run := RetryFrom(tryOnce, stop, w, attempt, maxRetries, lastError);
    if attempt > maxRetries {
      assert w.waits + [] == w.waits;
      assert run.result.error == FailedAfter(maxRetries, lastError);
    } else {
      var (r, w1) := tryOnce(w);
      if r.Downloaded? || stop(r.error) {
        assert w1.waits + [] == w1.waits;
      } else {
        var last := LastError(r);
        var w2 := if attempt < maxRetries then Wait(w1, 1000 * attempt) else w1;
        RetryShape(tryOnce, stop, w2, attempt + 1, maxRetries, last);
        var rest := RetryFrom(tryOnce, stop, w2, attempt + 1, maxRetries, last);
        assert run == rest.(attempts := rest.attempts + 1);
        if attempt < maxRetries {
          assert Delays(attempt, rest.attempts) == [1000 * attempt] + Delays(attempt + 1, rest.attempts - 1);
        } else {
          assert w1.waits + [] == w1.waits;
        }
      }
    }
  }

  /** `downloadReelsWithRetry` makes at most `maxRetries` attempts (none
      when it is below 1), waits 1, 2, … seconds between consecutive
      attempts and never after the last, and returns a success, an error
      containing 'private', 'not found' or 'Invalid URL' at once, or the
      'Failed after …' summary once every attempt was used. */
  lemma RetrySchedule(cfg: Config, w: World, url: string, maxRetries: int)
    ensures var run := Retry(cfg, w, url, maxRetries);
      && run.attempts <= Budget(1, maxRetries)
      && run.world.waits == w.waits + Delays(1, if run.attempts == 0 then 0 else run.attempts - 1)
      && (run.result.Failed? && !NotRetried(run.result.error) ==>
            && run.attempts == Budget(1, maxRetries)
            && exists last :: run.result.error == FailedAfter(maxRetries, last))
  {
    AttemptCallsOnly(cfg, url);
    RetryShape(Attempt(cfg, url), NotRetried, w, 1, maxRetries, "");
  }

  /** An attempt that always fails with the same error worth retrying,
      without a call, is retried to the end: the loop waits between the
      attempts and its summary names that error. */
  lemma {:induction false} RetryConstantFailure(tryOnce: World -> (DownloadResult, World), stop: string -> bool, w: World, e: string, attempt: nat, maxRetries: int, lastError: string)
    requires attempt >= 1 && |e| > 0 && !stop(e)
    requires forall v: World :: tryOnce(v) == (Failed(e), v)
    ensures RetryFrom(tryOnce, stop, w, attempt, maxRetries, lastError) ==
      RetryRun(
        Failed(FailedAfter(maxRetries, if maxRetries >= attempt then e else lastError)),
        w.(waits := w.waits + Delays(attempt, if maxRetries >= attempt then maxRetries - attempt else 0)),
        Budget(attempt, maxRetries))
    decreases maxRetries - attempt + 1
  {
    if attempt > maxRetries {
      assert w.waits + [] == w.waits;
    } else {
      var w2 := if attempt < maxRetries then Wait(w, 1000 * attempt) else w;
      var rest := RetryFrom(tryOnce, stop, w2, attempt + 1, maxRetries, e);
      assert tryOnce(w) == (Failed(e), w);
      assert RetryFrom(tryOnce, stop, w, attempt, maxRetries, lastError)
        == AfterAttempt(tryOnce, stop, w, attempt, maxRetries, Failed(e))
        == rest.(attempts := rest.attempts + 1);
      RetryConstantFailure(tryOnce, stop, w2, e, attempt + 1, maxRetries, e);
      if attempt < maxRetries {
        assert Delays(attempt, maxRetries - attempt)
          == [1000 * attempt] + Delays(attempt + 1, maxRetries - attempt - 1);
        assert w.waits + Delays(attempt, maxRetries - attempt)
          == w2.waits + Delays(attempt + 1, maxRetries - attempt - 1);
      } else {
        assert w.waits + [] == w.waits;
      }
    }
  }

  /** The whole loop over an attempt that always fails with the same
      error worth retrying: `maxRetries` attempts, waits of 1, 2, …,
      `maxRetries - 1` seconds, and the summary naming that error. */
  lemma RetryAlwaysFailing(tryOnce: World -> (DownloadResult, World), stop: string -> bool, w: World, maxRetries: int, e: string)
    requires maxRetries >= 1 && |e| > 0 && !stop(e)
    requires forall v: World :: tryOnce(v) == (Failed(e), v)
    ensures RetryFrom(tryOnce, stop, w, 1, maxRetries, "") ==
      RetryRun(Failed(FailedAfter(maxRetries, e)), w.(waits := w.waits + Delays(1, maxRetries - 1)), maxRetries)
  {
    RetryConstantFailure(tryOnce, stop, w, e, 1, maxRetries, "");
  }

  /** A failure the loop retries under the test `stop`. */
  predicate Retryable(stop: string -> bool, r: DownloadResult) {
    r.Failed? && !stop(r.error)
  }

  /** The world in which attempt `attempt + i` starts when the `i`
      attempts before it were all retried, each followed by its wait. */
  function Before(tryOnce: World -> (DownloadResult, World), w: World, attempt: nat, i: nat): World
    decreases i
  {
    if i == 0 then w
    else Before(tryOnce, Wait(tryOnce(w).1, 1000 * attempt), attempt + 1, i - 1)
  }

  /** Those worlds carry the waits `1000 * attempt`, … in order. */
  lemma {:induction false} BeforeWaits(tryOnce: World -> (DownloadResult, World), w: World, attempt: nat, i: nat)
    requires CallsOnly(tryOnce)
    ensures Before(tryOnce, w, attempt, i).waits == w.waits + Delays(attempt, i)
    decreases i
  {
    if i == 0 {
      assert w.waits + [] == w.waits;
    } else {
      var w2 := Wait(tryOnce(w).1, 1000 * attempt);
      BeforeWaits(tryOnce, w2, attempt + 1, i - 1);
      assert w2.waits == w.waits + [1000 * attempt];
      assert Delays(attempt, i) == [1000 * attempt] + Delays(attempt + 1, i - 1);
    }
  }

  lemma BeforeStep(tryOnce: World -> (DownloadResult, World), w: World, attempt: nat, i: nat)
    ensures Before(tryOnce, w, attempt, i + 1)
      == Before(tryOnce, Wait(tryOnce(w).1, 1000 * attempt), attempt + 1, i)
  {
  }

  /** Retried attempts from `attempt` on, seen from the attempt after,
      which starts in `w2` once the first attempt has failed and waited. */
  lemma RetryableShift(tryOnce: World -> (DownloadResult, World), stop: string -> bool, w: World, attempt: nat, k: nat, w2: World, next: nat)
    requires k >= 1 && w2 == Wait(tryOnce(w).1, 1000 * attempt) && next == attempt + 1
    requires forall i :: 0 <= i < k ==> Retryable(stop, tryOnce(Before(tryOnce, w, attempt, i)).0)
    ensures forall i :: 0 <= i < k - 1 ==> Retryable(stop, tryOnce(Before(tryOnce, w2, next, i)).0)
  {
    forall i | 0 <= i < k - 1
      ensures Retryable(stop, tryOnce(Before(tryOnce, w2, next, i)).0)
    {
      BeforeStep(tryOnce, w, attempt, i);
    }
  }

  /** The first attempt the loop does not retry decides the run: when
      attempts `attempt` to `attempt + k - 1` are retried and attempt
      `attempt + k`, still within the budget, succeeds or fails with an
      error `stop` accepts, its answer and world are returned unchanged
      after `k + 1` attempts. */
  lemma {:induction false} RetryDecidedAt(tryOnce: World -> (DownloadResult, World), stop: string -> bool, w: World, attempt: nat, maxRetries: int, lastError: string, k: nat)
    requires attempt >= 1 && attempt + k <= maxRetries
    requires forall i :: 0 <= i < k ==> Retryable(stop, tryOnce(Before(tryOnce, w, attempt, i)).0)
    requires !Retryable(stop, tryOnce(Before(tryOnce, w, attempt, k)).0)
    ensures RetryFrom(tryOnce, stop, w, attempt, maxRetries, lastError)
      == RetryRun(tryOnce(Before(tryOnce, w, attempt, k)).0, tryOnce(Before(tryOnce, w, attempt, k)).1, k + 1)
    decreases k
  {
    var r := tryOnce(w).0;
    if k == 0 {
      assert Before(tryOnce, w, attempt, 0) == w;
    } else {
      assert Before(tryOnce, w, attempt, 0) == w;
      assert Retryable(stop, r);
      var last := LastError(r);
      var w2 := Wait(tryOnce(w).1, 1000 * attempt);
      RetryableShift(tryOnce, stop, w, attempt, k, w2, attempt + 1);
      BeforeStep(tryOnce, w, attempt, k - 1);
      RetryDecidedAt(tryOnce, stop, w2, attempt + 1, maxRetries, last, k - 1);
      var rest := RetryFrom(tryOnce, stop, w2, attempt + 1, maxRetries, last);
      assert RetryFrom(tryOnce, stop, w, attempt, maxRetries, lastError)
        == AfterAttempt(tryOnce, stop, tryOnce(w).1, attempt, maxRetries, r)
        == rest.(attempts := rest.attempts + 1);
    }
  }

  /** When attempts `attempt` to `maxRetries` (`k` of them) are all
      retried, the run ends in the world of the last attempt, without a
      wait after it, with 'Failed after <maxRetries> attempts. Last error:'
      and that attempt's error ('Unknown error' for an empty one). */
  lemma {:induction false} RetryExhaustedAt(tryOnce: World -> (DownloadResult, World), stop: string -> bool, w: World, attempt: nat, maxRetries: int, lastError: string, k: nat)
    requires attempt >= 1 && k >= 1 && attempt + k - 1 == maxRetries
    requires forall i :: 0 <= i < k ==> Retryable(stop, tryOnce(Before(tryOnce, w, attempt, i)).0)
    ensures RetryFrom(tryOnce, stop, w, attempt, maxRetries, lastError)
      == RetryRun(Failed(FailedAfter(maxRetries, LastError(tryOnce(Before(tryOnce, w, attempt, k - 1)).0))),
                  tryOnce(Before(tryOnce, w, attempt, k - 1)).1, k)
    decreases k
  {
    var r := tryOnce(w).0;
    assert Before(tryOnce, w, attempt, 0) == w;
    assert Retryable(stop, r);
    var last := LastError(r);
    if k == 1 {
      var rest := RetryFrom(tryOnce, stop, tryOnce(w).1, attempt + 1, maxRetries, last);
      assert RetryFrom(tryOnce, stop, w, attempt, maxRetries, lastError)
        == AfterAttempt(tryOnce, stop, tryOnce(w).1, attempt, maxRetries, r)
        == rest.(attempts := rest.attempts + 1);
    } else {
      var w2 := Wait(tryOnce(w).1, 1000 * attempt);
      RetryableShift(tryOnce, stop, w, attempt, k, w2, attempt + 1);
      BeforeStep(tryOnce, w, attempt, k - 2);
      RetryExhaustedAt(tryOnce, stop, w2, attempt + 1, maxRetries, last, k - 1);
      var rest := RetryFrom(tryOnce, stop, w2, attempt + 1, maxRetries, last);
      assert RetryFrom(tryOnce, stop, w, attempt, maxRetries, lastError)
        == AfterAttempt(tryOnce, stop, tryOnce(w).1, attempt, maxRetries, r)
        == rest.(attempts := rest.attempts + 1);
    }
  }

  /** `downloadReelsWithRetry` passes the first decisive answer through:
      when the first `k` downloads fail in a retryable way and download
      `k + 1` (within `maxRetries`) succeeds or fails with 'private', 'not
      found' or 'Invalid URL', that answer is the result, after `k + 1`
      attempts and waits of 1, …, `k` seconds. */
  lemma RetryPassesDecisive(cfg: Config, w: World, url: string, maxRetries: int, k: nat)
    requires 1 + k <= maxRetries
    requires forall i :: 0 <= i < k ==>
      Retryable(NotRetried, Attempt(cfg, url)(Before(Attempt(cfg, url), w, 1, i)).0)
    requires !Retryable(NotRetried, Attempt(cfg, url)(Before(Attempt(cfg, url), w, 1, k)).0)
    ensures var last := Attempt(cfg, url)(Before(Attempt(cfg, url), w, 1, k));
      && Retry(cfg, w, url, maxRetries) == RetryRun(last.0, last.1, k + 1)
      && last.1.waits == w.waits + Delays(1, k)
  {
    RetryDecidedAt(Attempt(cfg, url), NotRetried, w, 1, maxRetries, "", k);
    AttemptWaits(cfg, w, url, k);
  }

  /** When all `maxRetries` downloads fail in a retryable way, the result
      is 'Failed after <maxRetries> attempts. Last error: ' and the last
      download's error, or 'Unknown error' for an empty one, after waits of
      1, …, `maxRetries - 1` seconds. */
  lemma RetryExhausted(cfg: Config, w: World, url: string, maxRetries: int)
    requires maxRetries >= 1
    requires forall i :: 0 <= i < maxRetries ==>
      Retryable(NotRetried, Attempt(cfg, url)(Before(Attempt(cfg, url), w, 1, i)).0)
    ensures var last := Attempt(cfg, url)(Before(Attempt(cfg, url), w, 1, maxRetries - 1));
      && Retry(cfg, w, url, maxRetries)
        == RetryRun(Failed(FailedAfter(maxRetries, LastError(last.0))), last.1, maxRetries)
      && last.1.waits == w.waits + Delays(1, maxRetries - 1)
  {
    RetryExhaustedAt(Attempt(cfg, url), NotRetried, w, 1, maxRetries, "", maxRetries);
    AttemptWaits(cfg, w, url, maxRetries - 1);
  }

  /** The download after `n` retried ones sees the waits of 1, …, `n`
      seconds and adds none. */
  lemma AttemptWaits(cfg: Config, w: World, url: string, n: nat)
    ensures Attempt(cfg, url)(Before(Attempt(cfg, url), w, 1, n)).1.waits == w.waits + Delays(1, n)
  {
    AttemptCallsOnly(cfg, url);
    BeforeWaits(Attempt(cfg, url), w, 1, n);
  }

  /** `downloadReelsWithFallback` returns a success of the retry loop
      unchanged; otherwise it makes exactly one more download, of the `/p/`
      link of the identifier found in the text, or, when there is none,
      answers 'Could not extract shortcode from URL' without a call. */
  lemma FallbackCases(cfg: Config, w: World, url: string)
    ensures var run := Retry(cfg, w, url, DEFAULT_RETRIES);
      && (run.result.Downloaded? ==> Fallback(cfg, w, url) == (run.result, run.world))
      && (run.result.Failed? && FirstPostId(url).None? ==>
            Fallback(cfg, w, url) == (Failed(NO_SHORTCODE_IN_URL), run.world))
      && (run.result.Failed? && FirstPostId(url).Some? ==>
            Fallback(cfg, w, url) == DownloadReels(cfg, run.world, PostLink(FirstPostId(url).value)))
  {
  }

  /** 'Invalid Instagram URL' is not among the errors the loop gives up on
      at once: it contains neither 'private' nor 'not found', and its only
      `U` is too far right for an occurrence of 'Invalid URL'. */
  lemma InvalidUrlRetryable()
    ensures !NotRetried(INVALID_URL)
  {
    InvalidUrlLacksPrivate();
    InvalidUrlLacksNotFound();
    InvalidUrlLacksMarker();
  }

  lemma InvalidUrlLacksPrivate()
    ensures !Contains(INVALID_URL, "private")
  {
    var s := INVALID_URL;
    assert forall j :: 0 <= j < |s| ==> s[j] != 'p';
    NoMatchAt(s, "private", 0);
  }

  lemma InvalidUrlLacksNotFound()
    ensures !Contains(INVALID_URL, "not found")
  {
    var s := INVALID_URL;
    assert forall j :: 0 <= j < |s| ==> s[j] != 'o';
    NoMatchAt(s, "not found", 1);
  }

  /** The only `U` of 'Invalid Instagram URL' is at position 18, so
      'Invalid URL' could only start at 10, where the text has an `s`. */
  lemma InvalidUrlLacksMarker()
    ensures !Contains(INVALID_URL, "Invalid URL")
  {
    NoMarkerStart(INVALID_URL, "Invalid URL");
    ContainsIff(INVALID_URL, "Invalid URL");
  }

  lemma NoMarkerStart(s: string, pat: string)
    requires s == "Invalid Instagram URL" && pat == "Invalid URL"
    ensures forall i :: 0 <= i <= |s| ==> !StartsWith(s[i..], pat)
  {
    assert forall j :: 0 <= j < |s| && j != 18 ==> s[j] != 'U';
    forall i | 0 <= i <= |s|
      ensures !StartsWith(s[i..], pat)
    {
      if i + |pat| <= |s| {
        if i == 10 {
          MismatchAt(s, pat, 10, 0);
        } else {
          MismatchAt(s, pat, i, 8);
        }
      }
    }
  }

  /** A differing character at offset `j` rules out a match at `i`. */
  lemma MismatchAt(s: string, pat: string, i: nat, j: nat)
    requires j < |pat| && i + |pat| <= |s| && s[i + j] != pat[j]
    ensures !StartsWith(s[i..], pat)
  {
    assert s[i..][..|pat|][j] == s[i + j];
  }

  /** An invalid link is retried to the end, as the loop's test looks for
      'Invalid URL', which 'Invalid Instagram URL' does not contain: every
      attempt fails without a call, the loop waits 1, 2, … seconds between
      them, and the summary is 'Failed after <maxRetries> attempts. Last
      error: Invalid Instagram URL'. */
  lemma InvalidLinkRetried(cfg: Config, w: World, url: string, maxRetries: int)
    requires !IsPostLink(url) && maxRetries >= 1
    ensures Retry(cfg, w, url, maxRetries) ==
      RetryRun(Failed(FailedAfter(maxRetries, INVALID_URL)),
               w.(waits := w.waits + Delays(1, maxRetries - 1)), maxRetries)
  {
    InvalidUrlRetryable();
    InvalidLinkAttempt(cfg, url);
    assert |INVALID_URL| > 0;
    RetryAlwaysFailing(Attempt(cfg, url), NotRetried, w, maxRetries, INVALID_URL);
  }

  /** With the test the loop evidently intends, an invalid link fails
      after a single attempt, without a wait and without a call. */
  lemma InvalidLinkFailsFastIntended(cfg: Config, w: World, url: string, maxRetries: int)
    requires !IsPostLink(url) && maxRetries >= 1
    ensures RetryIntended(cfg, w, url, maxRetries) == RetryRun(Failed(INVALID_URL), w, 1)
  {
    InvalidLinkAttempt(cfg, url);
    assert INVALID_URL[..|INVALID_URL|] == INVALID_URL;
    assert NotRetriedIntended(INVALID_URL);
    assert RetryIntended(cfg, w, url, maxRetries)
      == AfterAttempt(Attempt(cfg, url), NotRetriedIntended, w, 1, maxRetries, Failed(INVALID_URL));
  }

  /** Every attempt on an invalid link fails at once, without a call. */
  lemma InvalidLinkAttempt(cfg: Config, url: string)
    requires !IsPostLink(url)
    ensures forall v: World :: Attempt(cfg, url)(v) == (Failed(INVALID_URL), v)
  {
  }

  /** `downloadReelsWithFallback` on a link the validator refuses: the two
      attempts fail after one second of waiting, and if the extractor still
      finds an identifier after a `/p/` or `/reel/` anywhere in the text,
      the canonical `/p/` link built from it, which the validator accepts,
      is downloaded; otherwise 'Could not extract shortcode from URL'. */
  lemma FallbackOnRefusedLink(cfg: Config, w: World, url: string)
    requires !IsPostLink(url)
    ensures var waited := w.(waits := w.waits + [1000]);
      && (FirstPostId(url).None? ==> Fallback(cfg, w, url) == (Failed(NO_SHORTCODE_IN_URL), waited))
      && (FirstPostId(url).Some? ==>
            && IsPostLink(PostLink(FirstPostId(url).value))
            && Fallback(cfg, w, url) == DownloadReels(cfg, waited, PostLink(FirstPostId(url).value)))
  {
    InvalidLinkRetried(cfg, w, url, DEFAULT_RETRIES);
    assert Delays(1, 1) == [1000];
    if FirstPostId(url).Some? {
      CanonicalLinks(FirstPostId(url).value);
    }
  }
}
