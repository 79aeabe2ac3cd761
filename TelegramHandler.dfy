/** The webhook of `src/handlers/telegramHandler.ts`: the configuration and
    secret checks, the short-circuit for updates without a message, the
    first-match routing of the message text, and what the download and
    caption handlers send back.

    Calls of the Telegram bot API are appended to an action log; the
    identifier Telegram gives a message the bot sends is taken from a
    counter. The fixed welcome, help and unknown-command texts are named,
    not spelled out. Downloads run on the engine `ReelsRuntime.Runtime`;
    captions are asked of the Gemini oracle of `CaptionGenerator`. */
module TelegramHandler {
  import opened Text
  import opened InstagramUrl
  import opened Environment
  import opened Oracle
  import opened ReelsDownloader
  import opened ReelsRuntime
  import opened CaptionGenerator

  // ---------------------------------------------------------------------
  // Requests and bot actions

  /** `update.message`: the chat, the message's own id and its text. */
  datatype Message = Message(chatId: int, messageId: int, text: Option<string>)

  /** A webhook request: the `x-telegram-bot-api-secret-token` header and
      the `message` of the update in the body. */
  datatype Update = Update(secretHeader: Option<string>, message: Option<Message>)

  datatype Content =
    | Welcome       // the `/start` text
    | HelpText      // the `/help` text, sent as Markdown
    | UnknownText   // the unknown-command text
    | Literal(text: string)

  datatype BotAction =
    | SendMessage(chatId: int, content: Content, replyTo: Option<int>, markdown: bool)
    | DeleteMessage(chatId: int, messageId: int)
    | SendVideo(chatId: int, byteLength: nat, caption: string, replyTo: Option<int>)
    | EditMessage(chatId: int, messageId: int, text: string)

  const DOWNLOADING := "\U{1F4E5} Downloading your reel... Please wait!"
  const DOWNLOADED_PREFIX := "\U{2705} Downloaded successfully!\n\n\U{1F517} Original: "
  const DOWNLOAD_FAILED_PREFIX := "\U{274C} Failed to download reel: "
  const CAPTION_USAGE :=
    "\U{274C} Please provide text after /caption command.\nExample: /caption Amazing sunset at the beach"
  const GENERATING := "\U{2728} Generating optimized caption... Please wait!"
  const CAPTION_PREFIX := "\U{2728} **Optimized Caption:**\n\n"
  const CAPTION_FAILED_PREFIX := "\U{274C} Failed to generate caption: "
  const UNKNOWN_ERROR := "Unknown error"

  const START := "/start"
  const HELP := "/help"
  const CAPTION := "/caption "

  const UNAUTHORIZED := "Unauthorized"
  const OK := "OK"
  const INTERNAL_ERROR := "Internal Server Error"

  /** `error || 'Unknown error'`. */
  function OrUnknown(error: string): (r: string)
    ensures r != ""
    ensures error != "" ==> r == error
  {
    if error == "" then UNKNOWN_ERROR else error
  }

  // ---------------------------------------------------------------------
  // Routing

  datatype Route =
    | StartRoute
    | HelpRoute
    | DownloadRoute
    | CaptionRoute(captionText: string)
    | UnknownRoute

  /** The `if`/`else if` chain over the message text. */
  function RouteOf(text: string): (r: Route)
    ensures r.CaptionRoute? ==> StartsWith(text, CAPTION) && r.captionText == text[|CAPTION|..]
  {
    if StartsWith(text, START) then StartRoute
    else if StartsWith(text, HELP) then HelpRoute
    else if MentionsPostLink(text) then DownloadRoute
    else if StartsWith(text, CAPTION) then CaptionRoute(text[|CAPTION|..])
    else UnknownRoute
  }

  /** Each route is taken exactly when its own test holds and every test
      before it fails. */
  lemma RouteIsFirstMatch(text: string)
    ensures RouteOf(text) == StartRoute <==> StartsWith(text, START)
    ensures RouteOf(text) == HelpRoute <==> !StartsWith(text, START) && StartsWith(text, HELP)
    ensures RouteOf(text) == DownloadRoute <==>
      !StartsWith(text, START) && !StartsWith(text, HELP) && MentionsPostLink(text)
    ensures RouteOf(text).CaptionRoute? <==>
      !StartsWith(text, START) && !StartsWith(text, HELP) && !MentionsPostLink(text)
      && StartsWith(text, CAPTION)
  {
  }

  /** Every link the downloader accepts is routed to the download handler:
      it starts with `http`, so no command prefix matches, and the
      unanchored detector finds it. */
  lemma AcceptedLinksAreDownloaded(text: string)
    requires IsPostLink(text)
    ensures RouteOf(text) == DownloadRoute
  {
    PostLinkIsMentioned(text);
    assert SchemeEnd(text).Some?;
    assert text[0] == 'h';
  }

  /** The detector is checked before the `/caption ` prefix, so a caption
      request whose text mentions a post is taken for a download. */
  lemma CaptionWithLinkIsDownloaded(s: string)
    requires s == "/caption instagram.com/p/X"
    ensures RouteOf(s) == DownloadRoute
  {
    assert s[9..] == "instagram.com/p/X";
    ShortPostLink(s[9..]);
    MentionsAt(s, 9);
    assert s[1] == 'c';
    assert !StartsWith(s, START) && !StartsWith(s, HELP);
  }

  lemma ShortPostLink(t: string)
    requires t == "instagram.com/p/X"
    ensures PostLinkAt(t)
  {
    assert t[..14] == HOST;
    assert t[14..] == "p/X";
    assert t[14..][..2] == POST;
  }

  // ---------------------------------------------------------------------
  // What the handlers send

  /** `handleReelsDownload` once `downloadReels` has returned `r`, the
      processing message having got the id `processingId`. */
  function DownloadActions(chatId: int, url: string, messageId: int, processingId: int, r: DownloadResult)
    : (acts: seq<BotAction>)
    ensures |acts| >= 2
    ensures acts[0] == SendMessage(chatId, Literal(DOWNLOADING), Some(messageId), false)
  {
    [SendMessage(chatId, Literal(DOWNLOADING), Some(messageId), false)]
    + DownloadOutcome(chatId, url, messageId, processingId, r)
  }

  /** What follows the processing message: on success the processing
      message is deleted and the video sent, on failure it is edited. */
  function DownloadOutcome(chatId: int, url: string, messageId: int, processingId: int, r: DownloadResult)
    : (acts: seq<BotAction>)
    ensures |acts| >= 1
  {
    match r
    case Downloaded(n, _) =>
      [DeleteMessage(chatId, processingId), SendVideo(chatId, n, DOWNLOADED_PREFIX + url, Some(messageId))]
    case Failed(error) =>
      [EditMessage(chatId, processingId, DOWNLOAD_FAILED_PREFIX + OrUnknown(error))]
  }

  /** Sending the processing message, then the outcome, adds the actions
      of `DownloadActions`. */
  lemma AppendDownloadActions(before: seq<BotAction>, chatId: int, url: string, messageId: int, processingId: int,
                              r: DownloadResult)
    ensures before + [SendMessage(chatId, Literal(DOWNLOADING), Some(messageId), false)]
        + DownloadOutcome(chatId, url, messageId, processingId, r)
      == before + DownloadActions(chatId, url, messageId, processingId, r)
  {
  }

  predicate SendsVideo(acts: seq<BotAction>) {
    exists i :: 0 <= i < |acts| && acts[i].SendVideo?
  }

  /** A video goes out exactly when the download succeeded, as a reply to
      the user's message, with the bytes downloaded; otherwise the
      processing message is edited to the failure text, `Unknown error`
      standing in for an empty error. */
  lemma VideoOnlyOnSuccess(chatId: int, url: string, messageId: int, processingId: int, r: DownloadResult)
    ensures SendsVideo(DownloadActions(chatId, url, messageId, processingId, r)) <==> r.Downloaded?
    ensures r.Downloaded? ==>
      DownloadActions(chatId, url, messageId, processingId, r)[2]
        == SendVideo(chatId, r.byteLength, DOWNLOADED_PREFIX + url, Some(messageId))
    ensures r.Failed? ==>
      DownloadActions(chatId, url, messageId, processingId, r)
        == [SendMessage(chatId, Literal(DOWNLOADING), Some(messageId), false),
            EditMessage(chatId, processingId, DOWNLOAD_FAILED_PREFIX + OrUnknown(r.error))]
  {
    var acts := DownloadActions(chatId, url, messageId, processingId, r);
    if r.Downloaded? {
      assert acts[2].SendVideo?;
    }
  }

  /** The `error` field a caption result carries: none on success. */
  function CaptionError(result: CaptionResult): string {
    if result.CaptionFailed? then result.error else ""
  }

  /** What `handleCaptionGeneration` does once `generateCaption` has
      returned `result`, the processing message having got the id
      `processingId`; `result.success && result.caption` fails on an
      empty caption. */
  function CaptionOutcome(chatId: int, messageId: int, processingId: int, result: CaptionResult)
    : (acts: seq<BotAction>)
    ensures |acts| >= 1
  {
    if result.Captioned? && result.caption != "" then
      [DeleteMessage(chatId, processingId),
       SendMessage(chatId, Literal(CAPTION_PREFIX + result.caption), Some(messageId), true)]
    else
      [EditMessage(chatId, processingId, CAPTION_FAILED_PREFIX + OrUnknown(CaptionError(result)))]
  }

  /** The processing message, then the outcome. */
  function CaptionActions(chatId: int, messageId: int, processingId: int, result: CaptionResult)
    : (acts: seq<BotAction>)
    ensures |acts| >= 2
    ensures acts[0] == SendMessage(chatId, Literal(GENERATING), Some(messageId), false)
  {
    [SendMessage(chatId, Literal(GENERATING), Some(messageId), false)]
    + CaptionOutcome(chatId, messageId, processingId, result)
  }

  /** Sending the processing message, then the outcome, adds the
      actions of `CaptionActions`. */
  lemma AppendCaptionActions(before: seq<BotAction>, chatId: int, messageId: int, processingId: int, result: CaptionResult)
    ensures before + [SendMessage(chatId, Literal(GENERATING), Some(messageId), false)]
        + CaptionOutcome(chatId, messageId, processingId, result)
      == before + CaptionActions(chatId, messageId, processingId, result)
  {
  }

  /** A model answer of nothing but whitespace passes `generateCaption`
      as a success with an empty caption, which the handler's test turns
      into a failure reported as `Unknown error`. */
  lemma BlankAnswerUnknownError(chatId: int, messageId: int, processingId: int, t: string)
    requires t != "" && AllSpace(t)
    ensures Completed(t).Captioned?
    ensures CaptionActions(chatId, messageId, processingId, Completed(t))[1]
      == EditMessage(chatId, processingId, CAPTION_FAILED_PREFIX + UNKNOWN_ERROR)
  {
  }

  /** `handleCaptionGeneration` with the processing message getting the
      id `processingId`: the actions it makes and the Gemini oracle after. */
  function CaptionReply(chatId: int, text: string, messageId: int, processingId: int, g: Gemini)
    : (r: (seq<BotAction>, Gemini))
  {
    if Trim(text) == "" then ([SendMessage(chatId, Literal(CAPTION_USAGE), Some(messageId), false)], g)
    else
      var generated := GenerateCaption(text, g);
      (CaptionActions(chatId, messageId, processingId, generated.0), generated.1)
  }

  /** Blank caption text gets the usage reply and Gemini is not asked. */
  lemma BlankCaptionText(chatId: int, text: string, messageId: int, processingId: int, g: Gemini)
    requires AllSpace(text)
    ensures CaptionReply(chatId, text, messageId, processingId, g)
      == ([SendMessage(chatId, Literal(CAPTION_USAGE), Some(messageId), false)], g)
  {
  }

  /** Any other text is passed to `generateCaption` as it is, untrimmed,
      whose own emptiness check then never fires; Gemini is asked unless
      the text is over the length limit. */
  lemma CaptionTextPassedOn(chatId: int, text: string, messageId: int, processingId: int, g: Gemini)
    requires !AllSpace(text)
    ensures CaptionReply(chatId, text, messageId, processingId, g)
      == (CaptionActions(chatId, messageId, processingId, GenerateCaption(text, g).0), GenerateCaption(text, g).1)
    ensures GenerateCaption(text, g).1.requests
      == (if |text| <= MAX_TEXT then g.requests + [Plain(text)] else g.requests)
    ensures GenerateCaption(text, g).0 != CaptionFailed(EMPTY_TEXT_MSG)
  {
  }

  // ---------------------------------------------------------------------
  // The webhook

  /** The secret check: with a secret configured, the header must be
      present and equal to it; with none, the header is ignored. */
  predicate Authorized(secret: string, header: Option<string>) {
    secret == "" || header == Some(secret)
  }

  class Webhook {
    /** The `config` object read at start-up. */
    const cfg: Config
    /** The download engine. */
    const engine: Runtime
    /** The Gemini oracle. */
    var gemini: Gemini
    /** Every bot API call made so far. */
    var actions: seq<BotAction>
    /** The id Telegram gives the next message the bot sends. */
    var nextMessageId: int
    /** The response: status code and body; 0 and "" until sent. */
    var status: int
    var body: string

    constructor(cfg: Config, engine: Runtime, gemini: Gemini, firstMessageId: int)
      requires engine.cfg == cfg
      ensures this.cfg == cfg && this.engine == engine && this.gemini == gemini
      ensures actions == [] && nextMessageId == firstMessageId && status == 0 && body == ""
    {
      this.cfg := cfg;
      this.engine := engine;
      this.gemini := gemini;
      actions := [];
      nextMessageId := firstMessageId;
      status := 0;
      body := "";
    }

    /** `bot.sendMessage`, answering the new message's id. */
    method Send(chatId: int, content: Content, replyTo: Option<int>, markdown: bool) returns (id: int)
      modifies this
      ensures id == old(nextMessageId) && nextMessageId == id + 1
      ensures actions == old(actions) + [SendMessage(chatId, content, replyTo, markdown)]
      ensures gemini == old(gemini) && status == old(status) && body == old(body)
    {
      id := nextMessageId;
      actions := actions + [SendMessage(chatId, content, replyTo, markdown)];
      nextMessageId := nextMessageId + 1;
    }

    /** `handleReelsDownload`: it calls `downloadReels` itself, not the
        retry or fallback wrappers. */
    method HandleReelsDownload(chatId: int, url: string, messageId: int)
      requires engine.cfg == cfg
      modifies this, engine
      ensures actions == old(actions) + DownloadActions(chatId, url, messageId, old(nextMessageId),
        ReelsDownloader.DownloadReels(cfg, old(engine.State()), url).0)
      ensures engine.State() == ReelsDownloader.DownloadReels(cfg, old(engine.State()), url).1
      ensures nextMessageId == old(nextMessageId) + 1
      ensures gemini == old(gemini) && status == old(status) && body == old(body)
    {
      var processingId := Send(chatId, Literal(DOWNLOADING), Some(messageId), false);
      var result := engine.DownloadReels(url);
      ReportDownload(chatId, url, messageId, processingId, result);
      AppendDownloadActions(old(actions), chatId, url, messageId, processingId, result);
    }

    /** The outcome of `handleReelsDownload`: the video, or the edited
        processing message. */
    method ReportDownload(chatId: int, url: string, messageId: int, processingId: int, result: DownloadResult)
      modifies this
      ensures actions == old(actions) + DownloadOutcome(chatId, url, messageId, processingId, result)
      ensures gemini == old(gemini) && nextMessageId == old(nextMessageId)
      ensures status == old(status) && body == old(body)
    {
      if result.Downloaded? {
        actions := actions + [DeleteMessage(chatId, processingId)];
        actions := actions + [SendVideo(chatId, result.byteLength, DOWNLOADED_PREFIX + url, Some(messageId))];
      } else {
        actions := actions + [EditMessage(chatId, processingId, DOWNLOAD_FAILED_PREFIX + OrUnknown(result.error))];
      }
    }

    /** `handleCaptionGeneration`. */
    method HandleCaptionGeneration(chatId: int, text: string, messageId: int)
      modifies this
      ensures actions == old(actions) + CaptionReply(chatId, text, messageId, old(nextMessageId), old(gemini)).0
      ensures gemini == CaptionReply(chatId, text, messageId, old(nextMessageId), old(gemini)).1
      ensures nextMessageId == old(nextMessageId) + 1
      ensures status == old(status) && body == old(body)
    {
      if Trim(text) == "" {
        var _ := Send(chatId, Literal(CAPTION_USAGE), Some(messageId), false);
        BlankCaptionText(chatId, text, messageId, old(nextMessageId), old(gemini));
        return;
      }
      CaptionTextPassedOn(chatId, text, messageId, old(nextMessageId), old(gemini));
      GenerateAndReport(chatId, text, messageId);
    }

    /** The part of `handleCaptionGeneration` after the usage check: the
        processing message, `generateCaption` on the untrimmed text, and
        the outcome. */
    method GenerateAndReport(chatId: int, text: string, messageId: int)
      modifies this
      ensures actions == old(actions)
        + CaptionActions(chatId, messageId, old(nextMessageId), GenerateCaption(text, old(gemini)).0)
      ensures gemini == GenerateCaption(text, old(gemini)).1
      ensures nextMessageId == old(nextMessageId) + 1
      ensures status == old(status) && body == old(body)
    {
      var processingId := Send(chatId, Literal(GENERATING), Some(messageId), false);
      var generated := GenerateCaption(text, gemini);
      gemini := generated.1;
      var result := generated.0;
      ReportCaption(chatId, messageId, processingId, result);
      AppendCaptionActions(old(actions), chatId, messageId, processingId, result);
    }

    /** The `if (result.success && result.caption)` of
        `handleCaptionGeneration`. */
    method ReportCaption(chatId: int, messageId: int, processingId: int, result: CaptionResult)
      modifies this
      ensures actions == old(actions) + CaptionOutcome(chatId, messageId, processingId, result)
      ensures gemini == old(gemini) && nextMessageId == old(nextMessageId)
      ensures status == old(status) && body == old(body)
    {
      if result.Captioned? && result.caption != "" {
        actions := actions + [DeleteMessage(chatId, processingId)];
        actions := actions + [SendMessage(chatId, Literal(CAPTION_PREFIX + result.caption), Some(messageId), true)];
      } else {
        actions := actions + [EditMessage(chatId, processingId, CAPTION_FAILED_PREFIX + OrUnknown(CaptionError(result)))];
      }
    }

    /** `telegramWebhook`. */
    method TelegramWebhook(req: Update)
      requires engine.cfg == cfg
      modifies this, engine
      ensures ValidateConfig(cfg).Throw? ==>
        && status == 500 && body == INTERNAL_ERROR
        && actions == old(actions) && gemini == old(gemini) && engine.State() == old(engine.State())
      ensures ValidateConfig(cfg).Pass? && !Authorized(cfg.telegramWebhookSecret, req.secretHeader) ==>
        && status == 401 && body == UNAUTHORIZED
        && actions == old(actions) && gemini == old(gemini) && engine.State() == old(engine.State())
      ensures (ValidateConfig(cfg).Pass? && Authorized(cfg.telegramWebhookSecret, req.secretHeader)
        && req.message.None?) ==>
        && status == 200 && body == OK
        && actions == old(actions) && gemini == old(gemini) && engine.State() == old(engine.State())
      ensures (ValidateConfig(cfg).Pass? && Authorized(cfg.telegramWebhookSecret, req.secretHeader)
        && req.message.Some?) ==>
        var m := req.message.value;
        var text := if m.text.Some? then m.text.value else "";
        && status == 200 && body == OK
        && match RouteOf(text)
          case StartRoute =>
            actions == old(actions) + [SendMessage(m.chatId, Welcome, None, false)]
            && gemini == old(gemini) && engine.State() == old(engine.State())
          case HelpRoute =>
            actions == old(actions) + [SendMessage(m.chatId, HelpText, None, true)]
            && gemini == old(gemini) && engine.State() == old(engine.State())
          case UnknownRoute =>
            actions == old(actions) + [SendMessage(m.chatId, UnknownText, None, false)]
            && gemini == old(gemini) && engine.State() == old(engine.State())
          case DownloadRoute =>
            actions == old(actions) + DownloadActions(m.chatId, text, m.messageId, old(nextMessageId),
              ReelsDownloader.DownloadReels(cfg, old(engine.State()), text).0)
            && gemini == old(gemini)
            && engine.State() == ReelsDownloader.DownloadReels(cfg, old(engine.State()), text).1
          case CaptionRoute(c) =>
            actions == old(actions) + CaptionReply(m.chatId, c, m.messageId, old(nextMessageId), old(gemini)).0
            && gemini == CaptionReply(m.chatId, c, m.messageId, old(nextMessageId), old(gemini)).1
            && engine.State() == old(engine.State())
      ensures nextMessageId ==
        if ValidateConfig(cfg).Pass? && Authorized(cfg.telegramWebhookSecret, req.secretHeader)
          && req.message.Some?
        then old(nextMessageId) + 1 else old(nextMessageId)
    {
      if ValidateConfig(cfg).Throw? {
        status, body := 500, INTERNAL_ERROR;
        return;
      }
      if cfg.telegramWebhookSecret != "" {
        if req.secretHeader != Some(cfg.telegramWebhookSecret) {
          status, body := 401, UNAUTHORIZED;
          return;
        }
      }
      if req.message.None? {
        status, body := 200, OK;
        return;
      }
      var message := req.message.value;
      var chatId := message.chatId;
      var text := if message.text.Some? then message.text.value else "";
      match RouteOf(text) {
        case StartRoute =>
          var _ := Send(chatId, Welcome, None, false);
        case HelpRoute =>
          var _ := Send(chatId, HelpText, None, true);
        case DownloadRoute =>
          HandleReelsDownload(chatId, text, message.messageId);
        case CaptionRoute(captionText) =>
          HandleCaptionGeneration(chatId, captionText, message.messageId);
        case UnknownRoute =>
          var _ := Send(chatId, UnknownText, None, false);
      }
      status, body := 200, OK;
    }
  }
}
