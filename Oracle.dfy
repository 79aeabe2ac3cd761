/** The outside world as the download engine sees it.

    Every call to the `instagram-url-direct` resolver and every HTTP
    request made through axios is answered from a script, consumed in
    order, and recorded in a call log; every `setTimeout` delay is recorded
    instead of waited. The world also holds the two pieces of global state
    the engine changes: `process.env.HTTP_USER_AGENT` and the global
    `axios` object. */
module Oracle {
  import opened Text

  /** What a `catch` clause receives: an `Error` with its message, or any
      other thrown value. */
  datatype Thrown = Error(message: string) | NonError

  /** One scripted answer: a payload, or something thrown. */
  datatype Reply<T> = Ok(value: T) | Fail(thrown: Thrown)

  /** The `post_info` object of a resolver result. */
  datatype PostInfo = PostInfo(
    ownerUsername: string,
    ownerFullname: string,
    likes: int,
    isVerified: bool)

  /** A resolver result: `url_list` and `post_info`, each possibly absent. */
  datatype InstagramResult = InstagramResult(
    urlList: Option<seq<string>>,
    postInfo: Option<PostInfo>)

  /** A child of a carousel post (`edge_sidecar_to_children.edges[i].node`);
      an absent `video_url` is the empty string. */
  datatype SidecarNode = SidecarNode(isVideo: bool, videoUrl: string)

  datatype Owner = Owner(username: string, fullName: string, isVerified: bool)

  /** `data.xdt_shortcode_media` of a GraphQL answer. */
  datatype ShortcodeMedia = ShortcodeMedia(
    typename: string,
    isVideo: bool,
    videoUrl: string,
    children: Option<seq<SidecarNode>>,
    owner: Option<Owner>,
    likeCount: Option<int>)

  /** An HTTP response: the `set-cookie` header, the body as text, the
      parsed media of a GraphQL answer, and the number of bytes received. */
  datatype HttpResponse = HttpResponse(
    setCookie: Option<seq<string>>,
    html: string,
    media: Option<ShortcodeMedia>,
    byteLength: nat)

  /** The value of the global `axios`: the local-header instance the engine
      installs, or whatever was there before. */
  datatype Client = LocalHeadersClient | PriorClient(id: nat)

  /** One outside call, with what it could observe of the global state. */
  datatype Call =
    | ResolverCall(url: string, userAgent: Option<string>, axios: Option<Client>)
    | GetCall(url: string)
    | PostCall(url: string, shortcode: string, csrfToken: string, cookie: string)

  datatype World = World(
    resolverReplies: seq<Reply<InstagramResult>>,
    httpReplies: seq<Reply<HttpResponse>>,
    calls: seq<Call>,
    waits: seq<nat>,
    userAgent: Option<string>,
    axios: Option<Client>)

  /** What an exhausted script answers. */
  const NO_REPLY: Thrown := Error("no scripted reply")

  /** `await instagramGetUrl(url)`. */
  function Resolve(w: World, url: string): (r: (Reply<InstagramResult>, World))
    ensures r.1.calls == w.calls + [ResolverCall(url, w.userAgent, w.axios)]
    ensures r.1.waits == w.waits && r.1.userAgent == w.userAgent && r.1.axios == w.axios
    ensures r.1.httpReplies == w.httpReplies
    ensures |w.resolverReplies| > 0 ==> r.0 == w.resolverReplies[0] && r.1.resolverReplies == w.resolverReplies[1..]
    ensures |w.resolverReplies| == 0 ==> r.0 == Fail(NO_REPLY) && r.1.resolverReplies == []
  {
    var call := ResolverCall(url, w.userAgent, w.axios);
    if |w.resolverReplies| == 0 then (Fail(NO_REPLY), w.(calls := w.calls + [call]))
    else (w.resolverReplies[0], w.(resolverReplies := w.resolverReplies[1..], calls := w.calls + [call]))
  }

  /** The next scripted HTTP answer, with `call` logged. */
  function Http(w: World, call: Call): (r: (Reply<HttpResponse>, World))
    ensures r.1.calls == w.calls + [call]
    ensures r.1.waits == w.waits && r.1.userAgent == w.userAgent && r.1.axios == w.axios
    ensures r.1.resolverReplies == w.resolverReplies
    ensures |w.httpReplies| > 0 ==> r.0 == w.httpReplies[0] && r.1.httpReplies == w.httpReplies[1..]
    ensures |w.httpReplies| == 0 ==> r.0 == Fail(NO_REPLY) && r.1.httpReplies == []
  {
    if |w.httpReplies| == 0 then (Fail(NO_REPLY), w.(calls := w.calls + [call]))
    else (w.httpReplies[0], w.(httpReplies := w.httpReplies[1..], calls := w.calls + [call]))
  }

  /** `await new Promise(resolve => setTimeout(resolve, ms))`. */
  function Wait(w: World, ms: nat): (r: World)
    ensures r.waits == w.waits + [ms]
    ensures r.calls == w.calls
  {
    w.(waits := w.waits + [ms])
  }
}
