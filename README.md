# Reels Downloader Bot — a verified Dafny model

This project models the core of a Telegram bot that runs as a Firebase
HTTPS function. The bot does two things:

- It downloads Instagram reels. It takes a link, resolves it to a video
  address by a chain of strategies, downloads the video and sends it back.
- It writes captions with Google Gemini. It takes `/caption <text>` and
  sends back an "optimized caption".

The project covers five source files:

- `src/config/environment.ts` loads and checks the settings.
- `src/utils/validators.ts` holds the input validators and sanitizers.
- `src/services/reelsDownloader.ts` holds the download strategies:
  - the `instagram-url-direct` resolver with a browser user agent;
  - on a 401, the canonical reel link, then "local headers", then GraphQL,
    then HTML scraping;
  - error classification, retry and fallback.
- `src/services/captionGenerator.ts` covers the Gemini call, hashtag
  extraction, word count, keyword sentiment, styled captions and
  variations.
- `src/handlers/telegramHandler.ts` is the webhook: configuration and secret
  checks, first-match routing of the message text, and the download and
  caption replies.

Layout:

| file | contents |
|---|---|
| `Text.dfy` | JavaScript string operations the core relies on: `trim` (the ECMAScript whitespace set), `includes`, `startsWith`, `toLowerCase`, first-occurrence `replace`, `split(';')[0]`, integer rendering. It also has the hashtag matcher `/#[a-zA-Z0-9_]+/g` and a first-matching-rule lookup that the error classifiers are built on. |
| `InstagramUrl.dfy` | The three Instagram link regular expressions, written as matchers: the anchored validator, the unanchored `/(reel\|p)/(id)` extractor and the handler's scheme-optional detector. Lemmas relate the three. |
| `Environment.dfy` | The `config` object read from a map of environment variables, base-10 `parseInt`, and `validateConfig`. |
| `Validators.dfy` | The static methods of `Validators`. |
| `Oracle.dfy` | The outside world that the downloader sees, as a value: scripted replies of the resolver and of HTTP, a log of every call, the delays waited, `process.env.HTTP_USER_AGENT` and the global `axios` slot. |
| `Scraping.dfy` | The four HTML patterns of direct scraping and the acceptance test. |
| `ReelsDownloader.dfy` | Every download strategy as a function from the world to a result and a new world. |
| `ReelsRuntime.dfy` | Class `Runtime`. Its methods follow the source step by step, with loops over the sidecar children, the scraping pages and the retry attempts. Each method is proved equal to its function. |
| `ReelsProperties.dfy` | What those functions promise: call order, fallbacks, classification, the retry schedule, canonical links. |
| `CaptionGenerator.dfy` | Caption generation over a Gemini oracle value, with hashtags, word count and sentiment. |
| `TelegramHandler.dfy` | Routing, the reply functions, and class `Webhook`. The webhook holds the bot's action log, the response status and body, the Gemini oracle, and the download engine it calls. |

Where the code and its evident intent disagree, the model follows the
code and states the intended behaviour beside it:

- `downloadReelsWithRetry` stops early only when the error mentions
  `private`, `not found` or `Invalid URL`
  (src/services/reelsDownloader.ts:274-277). The `Invalid URL` test is
  evidently meant for the downloader's own refusal of a link, whose message
  is `Invalid Instagram URL` (src/services/reelsDownloader.ts:29). That
  message mentions none of the three, so a refused link is retried to the
  full budget, with the waits between attempts. `InvalidLinkRetried` proves
  this for the code as written. `RetryIntended` is the same loop with the
  evidently intended test `NotRetriedIntended`, and
  `InvalidLinkFailsFastIntended` proves that it fails a refused link after
  one attempt, without waiting. The rest of the model, `Fallback` included,
  uses the loop as written.

Other behaviours that the code has and the model keeps:

- A `/caption` whose text contains an Instagram link is routed to the
  download.
- A Gemini error that mentions `generateContent` contains `rate`, so it
  is reported as a rate limit, unless it also names `API_KEY` or a quota.
- The word count is taken on the untrimmed answer.
- An answer made only of whitespace is reported to the user as
  `Unknown error`.
- A negative variation count drops styles from the back, as
  `slice(0, -k)` does.

## Model

| member | source | states |
|---|---|---|
| Text.Trim | src/utils/validators.ts:26-27 | `trim()` never lengthens. Its result starts and ends with a non-whitespace character, and it is empty exactly when the input is all whitespace. |
| Text.TrimSplit | src/utils/validators.ts:26 | Every string is leading whitespace, then its trim, then trailing whitespace. So `trim` removes only surrounding whitespace. |
| Text.TrimSurrounded | src/utils/validators.ts:10 | Adding whitespace around a string does not change its trim. |
| Text.ContainsIff | src/services/reelsDownloader.ts:144-157 | `includes(sub)` holds exactly when `sub` occurs at some index. |
| Text.ContainsTransitive | src/services/captionGenerator.ts:152-153 | A text that contains a piece contains everything that piece contains. |
| Text.ReplaceFirst | src/services/reelsDownloader.ts:343 | A string `replace` with a string pattern replaces a leading occurrence and leaves a string without the pattern unchanged. Every character of the result comes from the input or the replacement. |
| Text.ReplaceFirstAt | src/services/reelsDownloader.ts:343 | Wherever the first occurrence of the pattern is, `replace` swaps exactly that occurrence for the replacement and keeps the text before and after it. |
| Text.BeforeFirst | src/services/reelsDownloader.ts:343 | `split(';')[0]` is the prefix before the first `;`. It holds no `;`, and it is the whole string when there is none. |
| Text.DeleteChars | src/utils/validators.ts:38 | `replace(/[<>]/g, '')` keeps exactly the characters outside the class and never lengthens. |
| Text.ToLower | src/services/captionGenerator.ts:134 | `toLowerCase` keeps the length and lowers each character on its own. |
| Text.ToLowerIdempotent | src/services/captionGenerator.ts:150 | Lowering twice is lowering once. |
| Text.NatToStringValue | src/services/reelsDownloader.ts:147 | The decimal rendering used in `${config.MAX_FILE_SIZE_MB}MB` reads back as the number rendered. |
| Text.HashtagMatches | src/services/captionGenerator.ts:132-133 | Every match of `/#[a-zA-Z0-9_]+/g` is `#` followed by one or more word characters. |
| Text.HashtagMatchesEmpty | src/services/captionGenerator.ts:133-134 | The hashtag regex finds nothing exactly when no `#` is directly followed by a word character. |
| Text.FirstRule | src/services/reelsDownloader.ts:143-158 | An `if / else if` chain of `includes` tests picks a message exactly when some rule's keyword occurs in the error message. |
| InstagramUrl.FirstPostId | src/services/reelsDownloader.ts:308-311 | A shortcode taken by `/\/(?:reel\|p)\/([A-Za-z0-9_-]+)/` is non-empty and made only of id characters. |
| InstagramUrl.IdRun | src/services/reelsDownloader.ts:309 | The greedy id run is the longest prefix of id characters. |
| InstagramUrl.SkipMarkerFree | src/services/reelsDownloader.ts:309 | A prefix holding no `/reel/` or `/p/` cannot change the shortcode the unanchored match finds. |
| InstagramUrl.ValidLinkHasPostId | src/services/reelsDownloader.ts:303-311 | Every link the anchored validator accepts has a shortcode: the id run right after its `reel/` or `p/`. |
| InstagramUrl.PostLinkIsMentioned | src/handlers/telegramHandler.ts:188-191 | Every link the downloader's validator accepts is also detected by the handler's scheme-optional regex. |
| InstagramUrl.MentionedNotPostLink | src/handlers/telegramHandler.ts:189 | The converse fails: a link without a scheme is detected by the handler and refused by the downloader. |
| Environment.ParseIntToString | src/config/environment.ts:6-7 | `parseInt` reads back every rendered integer, negative ones included. |
| Environment.EnvOr | src/config/environment.ts:2-7 | `process.env.X \|\| fallback` gives the variable when it is set and non-empty, and the fallback otherwise. |
| Environment.LoadConfigDefaults | src/config/environment.ts:6-7 | Unset or empty size and timeout variables give 50 MB and 30000 ms. |
| Environment.CredentialsAreTrimmed | src/config/environment.ts:2-4 | An unset token, secret or key is the empty string; a set one is stored trimmed. |
| Environment.Missing | src/config/environment.ts:12-13 | The list of missing settings names the bot token exactly when it is empty, and the Gemini key exactly when it is empty. |
| Environment.ValidateConfig | src/config/environment.ts:11-17 | Validation passes exactly when both token and key are non-empty; otherwise it throws the fixed prefix followed by the missing names. |
| Environment.ValidateConfigMessages | src/config/environment.ts:15-16 | The three throw messages are spelled out, names in source order separated by `, `. The webhook secret never affects validation. |
| Validators.ExtractPostIdOfValid | src/utils/validators.ts:67-72 | For an accepted link, `extractInstagramPostId` never returns null. It returns the id run after the marker of the trimmed link. |
| Validators.PostIdBeforeSpace | src/utils/validators.ts:70 | Trailing whitespace after an accepted link leaves the extracted id unchanged. |
| Validators.ExtractPostIdOfInvalid | src/utils/validators.ts:67-68 | A refused link yields null, and the empty string is refused. |
| Validators.ValidUrlIgnoresSpace | src/utils/validators.ts:6-11 | Whitespace around an accepted link does not change the verdict, because the link is trimmed before the test. |
| Validators.TelegramUserIdCases | src/utils/validators.ts:16-18 | Among the numbers modelled (integers and NaN), exactly the positive ones are valid user ids. NaN, 0 and a numeric string are refused. |
| Validators.FileSizeBounds | src/utils/validators.ts:47-50 | The limit is inclusive at exactly `maxSizeMB * 1024 * 1024` bytes and excludes one byte more. A larger limit accepts more. A NaN limit refuses every size, and a size of 0 bytes is refused. |
| Validators.WebhookSecretCases | src/utils/validators.ts:77-80 | An empty expected secret admits everything; otherwise only an equal secret is admitted. |
| Validators.CaptionTextCases | src/utils/validators.ts:23-28 | All-whitespace text is refused. Otherwise the text is accepted exactly when its trim fits the limit. |
| Validators.RemoveProtocol | src/utils/validators.ts:39 | Removing `javascript:` case-insensitively never lengthens and adds no character. |
| Validators.HandlerMatch | src/utils/validators.ts:40 | A match of `/on\w+=/i` is at least four characters long and ends in `=`. |
| Validators.Prefix | src/utils/validators.ts:41 | `substring(0, n)` is a prefix of at most `n` characters, and the whole string when it is short. |
| Validators.SanitizeText | src/utils/validators.ts:33-42 | A sanitized text holds no `<` or `>`, is at most 1000 characters, uses only characters of the input, and is empty for empty input. |
| Validators.BadPositiveIsNegative | src/utils/validators.ts:96 | `x && (isNaN(x) \|\| x <= 0)` flags exactly the negative numbers: 0 and NaN are falsy and skip the test. |
| Validators.ValidateEnvironmentConfig | src/utils/validators.ts:85-108 | `valid` holds exactly when there are no errors. Each message is present exactly when its check fails: token empty, key empty, size negative, timeout negative. The list is in push order. |
| Validators.EnvironmentErrorsAgree | src/utils/validators.ts:88-102 | Agrees with `validateConfig` on the two credentials. A zero or NaN size or timeout raises no error. |
| Validators.DistinctMessages | src/utils/validators.ts:88-102 | The four messages differ, so each one identifies the failing check. |
| Validators.CaptionStyleIgnoresCase | src/utils/validators.ts:113-116 | A style is valid exactly when its lower-case form is, and then its lower-case form is one of the five styles. |
| Validators.FilterValid | src/utils/validators.ts:137-138 | Filtering keeps only valid hashtags and never adds any. |
| Validators.FilterValidKeeps | src/utils/validators.ts:137-138 | A tag is kept exactly when it is in the input and valid. |
| Validators.FilterValidAppend | src/utils/validators.ts:137-138 | Filtering works piece by piece, so the kept tags stay in input order. |
| Validators.LowerKeepsHashtag | src/utils/validators.ts:121-126 | Lower-casing a valid hashtag keeps it valid. |
| Validators.ExtractValidHashtags | src/utils/validators.ts:131-141 | At most 30 hashtags are returned. |
| Validators.ExtractValidHashtagsIs | src/utils/validators.ts:131-141 | The result is the valid regex matches of the text, in order and lowered, cut to the first 30. Empty text gives none. |
| Validators.ExtractedHashtagsValid | src/utils/validators.ts:131-141 | Every returned hashtag is valid and already lower case. Text without a hashtag yields none. |
| Oracle.Resolve | src/services/reelsDownloader.ts:49 | A resolver call is logged with the link, the user agent and the axios slot in force. It consumes exactly one scripted reply, or fails once the script is exhausted. |
| Oracle.Http | src/services/reelsDownloader.ts:107-121 | An HTTP call is logged and consumes exactly one scripted reply; nothing else in the world changes. |
| Oracle.Wait | src/services/reelsDownloader.ts:284 | A wait appends its delay and makes no call. |
| Scraping.MatchTokens | src/services/reelsDownloader.ts:482 | A `"([^"]+)"` capture is non-empty and holds no `"`. |
| Scraping.FirstMp4 | src/services/reelsDownloader.ts:508 | The first `https://…\.mp4…` match starts with `https://` and contains `.mp4`. |
| Scraping.Unescape | src/services/reelsDownloader.ts:484 | After `replace(/\\u0026/g, '&').replace(/\\/g, '')` no backslash is left. |
| Scraping.UnescapeIdempotent | src/services/reelsDownloader.ts:484 | Unescaping twice is unescaping once. |
| Scraping.Unescaped | src/services/reelsDownloader.ts:483-486 | A pattern that does not match leaves `videoUrl` as it was; one that matches leaves an unescaped address. |
| Scraping.FirstThreePatterns | src/services/reelsDownloader.ts:481-504 | A non-empty address from patterns 1 to 3 carries no backslash. |
| Scraping.Candidate | src/services/reelsDownloader.ts:515 | An address passed to the download starts with `http` and contains `.mp4`. |
| Scraping.PrecedenceSlipHarmless | src/services/reelsDownloader.ts:506-515 | Pattern 4's `a && b \|\| c` throws exactly when patterns 1 to 3 fail and no MP4 address exists. It then downloads the same address, or none, as the intended `a && (b \|\| c)`. |
| Scraping.FirstThreeWin | src/services/reelsDownloader.ts:488-507 | Once patterns 1 to 3 give a non-empty address, pattern 4 is not tried. |
| ReelsDownloader.FirstVideoIndex | src/services/reelsDownloader.ts:392-397 | The index is the first sidecar child that is a video with a non-empty address, or the end of the list when there is none. |
| ReelsDownloader.FirstVideoIndexUnique | src/services/reelsDownloader.ts:392-397 | That index is unique: any index with the same two properties is it. |
| ReelsDownloader.SelectVideoUrl | src/services/reelsDownloader.ts:387-400 | The media's own video address, or the sidecar's first video, is never empty when found. |
| ReelsRuntime.FirstSidecarVideo | src/services/reelsDownloader.ts:391-397 | The `for … break` loop returns the first video child's address. A returned address belongs to some child that is a video. |
| ReelsRuntime.Runtime.Resolve | src/services/reelsDownloader.ts:49 | Calling the resolver changes the runtime's world exactly as `Oracle.Resolve` says. |
| ReelsRuntime.Runtime.Http | src/services/reelsDownloader.ts:107-121 | An axios request changes the world exactly as `Oracle.Http` says. |
| ReelsRuntime.Runtime.Wait | src/services/reelsDownloader.ts:284 | A `setTimeout` wait changes the world exactly as `Oracle.Wait` says. |
| ReelsRuntime.Runtime.DownloadReels | src/services/reelsDownloader.ts:23-166 | `downloadReels`, step by step, gives the result and world of `ReelsDownloader.DownloadReels`. |
| ReelsRuntime.Runtime.UseResult | src/services/reelsDownloader.ts:90-138 | Using a resolver answer gives the result and world of `ReelsDownloader.UseResult`. |
| ReelsRuntime.Runtime.AuthChain | src/services/reelsDownloader.ts:61-84 | The 401 chain gives the result and world of `ReelsDownloader.AuthChain`. |
| ReelsRuntime.Runtime.LocalHeaders | src/services/reelsDownloader.ts:169-254 | `downloadReelsWithLocalHeaders`, including the swap of the global axios, agrees with `ReelsDownloader.LocalHeaders`. |
| ReelsRuntime.Runtime.GraphQL | src/services/reelsDownloader.ts:314-437 | `downloadReelsGraphQL` agrees with `ReelsDownloader.GraphQL`. |
| ReelsRuntime.Runtime.Direct | src/services/reelsDownloader.ts:440-551 | The loop over the three page addresses agrees with `ReelsDownloader.Direct`. |
| ReelsRuntime.Runtime.ScrapePage | src/services/reelsDownloader.ts:457-542 | One loop iteration (fetch, scrape, accept, download; any throw is caught) agrees with `ReelsDownloader.TryDirect`. |
| ReelsRuntime.Runtime.ScrapeHtml | src/services/reelsDownloader.ts:477-513 | The four patterns applied in place to `videoUrl` give `Scraping.ScrapeVideoUrl`, including the null dereference. |
| ReelsRuntime.Runtime.DownloadWithRetry | src/services/reelsDownloader.ts:257-301 | The attempt loop gives the result and world of `ReelsDownloader.Retry`. |
| ReelsRuntime.Runtime.DownloadWithFallback | src/services/reelsDownloader.ts:554-580 | Agrees with `ReelsDownloader.Fallback`. |
| ReelsProperties.UseResultEffects | src/services/reelsDownloader.ts:90-138 | An empty or missing `url_list` fails with the "could not extract" message and makes no call. Otherwise exactly one GET of the first address follows. A success is titled with the shortcode. |
| ReelsProperties.LocalHeadersEffects | src/services/reelsDownloader.ts:169-254 | Without a shortcode it fails at once. Otherwise the resolver runs with the local client installed. The global axios stays the local client when there was none to restore. |
| ReelsProperties.GraphQLEffects | src/services/reelsDownloader.ts:314-335 | Without a shortcode it fails at once. Otherwise the first call is the GET of the Instagram home page. The global axios is untouched. |
| ReelsProperties.GraphQLRequest | src/services/reelsDownloader.ts:337-376 | The POST carries the shortcode, the first `Set-Cookie` as cookie, and the token cut from that cookie. |
| ReelsProperties.CsrfTokenOfCookie | src/services/reelsDownloader.ts:342-343 | The token of `csrftoken=<v>; …` is `<v>`. |
| ReelsProperties.BeforeFirstOf | src/services/reelsDownloader.ts:343 | `split(';')[0]` of `p;q` is `p` when `p` has no `;`. |
| ReelsProperties.TryDirectEffects | src/services/reelsDownloader.ts:457-542 | Each attempt first fetches its page. Only a download ends the loop, titled with the shortcode. |
| ReelsProperties.TryDirectFails | src/services/reelsDownloader.ts:539-542 | A failed page fetch is caught, and the loop moves on after one logged call. |
| ReelsProperties.DirectFromEffects | src/services/reelsDownloader.ts:456-545 | The loop fetches the first page first. A failure after the loop is the "all direct scraping methods failed" message. |
| ReelsProperties.DirectFromAllFail | src/services/reelsDownloader.ts:456-545 | When every page fetch fails, the loop makes one GET per page, in order, and fails with the exhausted message. |
| ReelsProperties.DirectEffects | src/services/reelsDownloader.ts:440-551 | Without a shortcode it fails at once; otherwise any success is titled with the shortcode. |
| ReelsProperties.DirectTriesThreePages | src/services/reelsDownloader.ts:450-454 | The pages tried are, in order, the `/p/` link, the `/reel/` link and the original link. |
| ReelsProperties.CanonicalLinks | src/services/reelsDownloader.ts:450-453 | The canonical `/p/` and `/reel/` links built from a shortcode are accepted by the validator and give back that shortcode. |
| ReelsProperties.CanonicalLink | src/services/reelsDownloader.ts:66 | A `https://www.instagram.com/<marker><sc>/` link is accepted and its shortcode is `sc`. |
| ReelsProperties.AuthChainEffects | src/services/reelsDownloader.ts:61-84 | The 401 chain first resolves the canonical reel link, and the world only grows. |
| ReelsProperties.AuthChainSteps | src/services/reelsDownloader.ts:65-83 | When the clean link fails, local headers runs next; when that also fails, GraphQL starts with the home page. |
| ReelsProperties.AuthChainEntered | src/services/reelsDownloader.ts:58-67 | A resolver error mentioning `401` enters the chain after exactly one resolver call with the browser agent. |
| ReelsProperties.AuthChainOrder | src/services/reelsDownloader.ts:44-87 | Calls go in source order: original link, clean reel link, local-headers resolver, GraphQL home page. The user agent is left overridden, because the restore is skipped on a throw. |
| ReelsProperties.DownloadEffects | src/services/reelsDownloader.ts:23-166 | A refused link fails with `Invalid Instagram URL` and touches nothing. An accepted link is resolved first with the browser agent. The agent is restored only when the resolver answered. No wait happens. The log only grows. |
| ReelsProperties.NonAuthFailureClassified | src/services/reelsDownloader.ts:85-164 | Any other resolver failure is rethrown and classified, after exactly one call. |
| ReelsProperties.ResolverAnswerUsed | src/services/reelsDownloader.ts:44-138 | A resolver answer is used: either the "could not extract" failure, or a GET of the first address whose body becomes the video. |
| ReelsProperties.ClassifyIsFirstRule | src/services/reelsDownloader.ts:140-164 | The error classifier is the first matching rule among timeout, maxContentLength, network, 404, 403, private and not found, with the generic message otherwise. |
| ReelsProperties.AttemptCallsOnly | src/services/reelsDownloader.ts:264 | One attempt of `downloadReels` never waits and only appends to the call log. |
| ReelsProperties.RetryShape | src/services/reelsDownloader.ts:260-300 | The attempts stay within the budget, and there is at least one when the budget allows. The delays are 1000·k ms between attempts. A retryable failure uses the whole budget and ends with `Failed after N attempts`. |
| ReelsProperties.RetrySchedule | src/services/reelsDownloader.ts:257-301 | The same schedule for `downloadReelsWithRetry` as called. |
| ReelsProperties.RetryConstantFailure | src/services/reelsDownloader.ts:260-300 | An attempt that always fails the same retryable way gives the full budget of attempts, the full delay sequence and that error as the last error. |
| ReelsProperties.RetryAlwaysFailing | src/services/reelsDownloader.ts:297-300 | The same from the first attempt: `Failed after N attempts. Last error: e`, after N−1 waits. |
| ReelsProperties.BeforeWaits | src/services/reelsDownloader.ts:280-284 | After k retried attempts from attempt a, the waits so far are 1000·a, …, 1000·(a+k−1) ms, in order. |
| ReelsProperties.RetryDecidedAt | src/services/reelsDownloader.ts:259-278 | When attempts a to a+k−1 are retried and attempt a+k, within the budget, succeeds or fails with a stopping error, the run returns that attempt's answer and world unchanged, after k+1 attempts. |
| ReelsProperties.RetryExhaustedAt | src/services/reelsDownloader.ts:270-300 | When every attempt left is retried, the run ends in the last attempt's world with no wait after it, and the summary names that attempt's error, or `Unknown error` for an empty one. |
| ReelsProperties.RetryPassesDecisive | src/services/reelsDownloader.ts:257-301 | `downloadReelsWithRetry` returns the first decisive download (a success, or an error with `private`, `not found` or `Invalid URL`) unchanged, after k+1 attempts and waits of 1, …, k seconds. |
| ReelsProperties.RetryExhausted | src/services/reelsDownloader.ts:257-301 | When all N downloads fail in a retryable way: `Failed after N attempts. Last error:` with the last download's error, or `Unknown error`, after waits of 1, …, N−1 seconds. |
| ReelsProperties.AttemptWaits | src/services/reelsDownloader.ts:263 | The download after k retried ones sees waits of 1, …, k seconds and adds none. |
| ReelsProperties.FallbackCases | src/services/reelsDownloader.ts:554-574 | A success of the retry loop is returned unchanged. Otherwise exactly one more download runs, on the `/p/` link of the extracted identifier, or `Could not extract shortcode from URL` is returned without a call. |
| ReelsProperties.InvalidUrlRetryable | src/services/reelsDownloader.ts:275-277 | `Invalid Instagram URL` is not among the errors that stop the retries. |
| ReelsProperties.InvalidUrlLacksPrivate | src/services/reelsDownloader.ts:275 | `Invalid Instagram URL` does not mention `private`. |
| ReelsProperties.InvalidUrlLacksNotFound | src/services/reelsDownloader.ts:276 | `Invalid Instagram URL` does not mention `not found`. |
| ReelsProperties.InvalidUrlLacksMarker | src/services/reelsDownloader.ts:277 | `Invalid Instagram URL` does not contain `Invalid URL`. |
| ReelsProperties.InvalidLinkAttempt | src/services/reelsDownloader.ts:28-30 | For a refused link, every attempt fails with `Invalid Instagram URL` and leaves the world as it was. |
| ReelsProperties.InvalidLinkRetried | src/services/reelsDownloader.ts:257-301 | A refused link is retried to the full budget with the full delay schedule, not failed fast. |
| ReelsProperties.InvalidLinkFailsFastIntended | src/services/reelsDownloader.ts:274-277 | With the evidently intended stopping test, a refused link fails after one attempt, with no wait and no call. |
| ReelsProperties.FallbackOnRefusedLink | src/services/reelsDownloader.ts:554-574 | After the retries fail on a refused link, the fallback retries once with the canonical `/p/` link when a shortcode can be found, and fails otherwise. |
| CaptionGenerator.Generate | src/services/captionGenerator.ts:45-47 | A Gemini request is logged and consumes exactly one scripted reply. |
| CaptionGenerator.ExtractHashtags | src/services/captionGenerator.ts:131-135 | There is one result per regex match. |
| CaptionGenerator.HashtagsMatched | src/services/captionGenerator.ts:132-133 | Each match occurs in the text at its recorded start, as `#` and a maximal word run. |
| CaptionGenerator.HashtagsOrdered | src/services/captionGenerator.ts:132-133 | Matches are listed in text order and do not overlap. |
| CaptionGenerator.HashtagsComplete | src/services/captionGenerator.ts:132-133 | No match is missed: every `#` followed by a word character starts a match. |
| CaptionGenerator.ExtractedHashtags | src/services/captionGenerator.ts:131-135 | Each extracted tag is its match lowered: still hashtag-shaped and already lower case. Matches are in order, and there are none exactly when the text has no hashtag. |
| CaptionGenerator.LoweredHashtag | src/services/captionGenerator.ts:134 | Lowering keeps a tag hashtag-shaped and is stable. |
| CaptionGenerator.SplitOnSpaces | src/services/captionGenerator.ts:55 | `split(/\s+/)` always gives at least one piece. |
| CaptionGenerator.SplitPiecesHaveNoSpace | src/services/captionGenerator.ts:55 | No piece of the split contains whitespace. |
| CaptionGenerator.WordCountIsRuns | src/services/captionGenerator.ts:55 | The word count is one more than the number of whitespace runs. |
| CaptionGenerator.LeadingSpaceCounts | src/services/captionGenerator.ts:55 | Leading whitespace adds one to the count: an empty first piece. |
| CaptionGenerator.CountPresent | src/services/captionGenerator.ts:152-153 | The count is between 0 and the list length. It is 0 exactly when no keyword occurs, and the full length exactly when all occur. |
| CaptionGenerator.CountPresentMonotone | src/services/captionGenerator.ts:152-153 | A text containing another has at least as many keywords. |
| CaptionGenerator.SentimentTrichotomy | src/services/captionGenerator.ts:137-158 | Positive exactly when more positive than negative words occur, negative exactly when the reverse holds, and neutral exactly when the counts tie. |
| CaptionGenerator.NoKeywordsNeutral | src/services/captionGenerator.ts:155-157 | Text with no keyword is neutral. |
| CaptionGenerator.SentimentIgnoresCase | src/services/captionGenerator.ts:150 | Sentiment does not depend on case. |
| CaptionGenerator.Completed | src/services/captionGenerator.ts:49-69 | An empty answer is "No caption generated". Otherwise the caption is the trimmed answer, and the metadata carries the model name, the run-based word count of the untrimmed answer and one tag per match. |
| CaptionGenerator.CompletedAnswer | src/services/captionGenerator.ts:53-69 | A non-empty answer gives exactly the caption and metadata the source returns. |
| CaptionGenerator.MapGeminiErrorIsFirstRule | src/services/captionGenerator.ts:71-89 | Gemini errors map by the first matching rule (API_KEY, quota/QUOTA, rate/RATE_LIMIT, SAFETY), with the generic message otherwise. |
| CaptionGenerator.EndpointReadAsRateLimit | src/services/captionGenerator.ts:75-80 | Every error message that names the `generateContent` endpoint is reported as a rate limit, because `generateContent` contains `rate`, unless it also names `API_KEY` or a quota. |
| CaptionGenerator.EndpointKeywords | src/services/captionGenerator.ts:75-78 | The overloaded-model message `[503] generateContent` names neither the key nor a quota. |
| CaptionGenerator.OverloadedReadAsRateLimit | src/services/captionGenerator.ts:75-80 | So an overloaded model is reported to the user as a rate limit. |
| CaptionGenerator.EndpointWithKeyReadAsKey | src/services/captionGenerator.ts:75-76 | A message naming both the endpoint and `API_KEY` is reported as a key problem, because the key test comes first. |
| CaptionGenerator.GenerateCaption | src/services/captionGenerator.ts:20-91 | All-whitespace text and text over 1000 characters fail without asking Gemini. Any other text asks Gemini exactly once. |
| CaptionGenerator.CaptionFromReply | src/services/captionGenerator.ts:43-90 | Gemini's reply decides the result: a failure is mapped, and an answer is completed. |
| CaptionGenerator.StyledOutcome | src/services/captionGenerator.ts:212-238 | A styled request's failure is "Failed to generate styled caption"; an answer is completed as above. |
| CaptionGenerator.GenerateStyled | src/services/captionGenerator.ts:161-239 | One styled request is made, and a failure is one of the two styled messages. |
| CaptionGenerator.SelectedStyles | src/services/captionGenerator.ts:247-250 | The selected styles are a prefix of casual, funny, motivational, trendy, professional. |
| CaptionGenerator.SelectedStylesCount | src/services/captionGenerator.ts:244-250 | `slice(0, min(count, 5))` takes `count` styles, at most five. A negative count drops that many from the back. The default of 3 gives casual, funny, motivational. |
| CaptionGenerator.RunStyles | src/services/captionGenerator.ts:252-253 | There is one result per selected style. |
| CaptionGenerator.GenerateVariations | src/services/captionGenerator.ts:242-261 | There are at most five variations. |
| CaptionGenerator.StyledRequests | src/services/captionGenerator.ts:252 | The requests are the styled prompts, one per style, in order. |
| CaptionGenerator.VariationsRequests | src/services/captionGenerator.ts:252-253 | Variations send one styled request per selected style, in order. |
| CaptionGenerator.VariationsFollowReplies | src/services/captionGenerator.ts:252-255 | The i-th variation is the outcome of the i-th reply, and exactly those replies are consumed. |
| TelegramHandler.OrUnknown | src/handlers/telegramHandler.ts:119 | `error \|\| 'Unknown error'` is never empty and keeps a non-empty error. |
| TelegramHandler.RouteOf | src/handlers/telegramHandler.ts:46-48 | The caption route carries the text after `/caption `. |
| TelegramHandler.RouteIsFirstMatch | src/handlers/telegramHandler.ts:40-51 | Each route is taken exactly when its test holds and every earlier test fails: `/start`, `/help`, reels link, `/caption `, otherwise unknown. |
| TelegramHandler.AcceptedLinksAreDownloaded | src/handlers/telegramHandler.ts:44-45 | A message that the downloader's validator would accept is routed to the download. |
| TelegramHandler.CaptionWithLinkIsDownloaded | src/handlers/telegramHandler.ts:44-48 | A `/caption` text that contains a link is routed to the download, not to captioning. |
| TelegramHandler.DownloadActions | src/handlers/telegramHandler.ts:101-103 | A download reply always starts with the "Downloading" message, replying to the user's message. |
| TelegramHandler.DownloadOutcome | src/handlers/telegramHandler.ts:107-125 | Reporting a download sends at least one bot action. |
| TelegramHandler.VideoOnlyOnSuccess | src/handlers/telegramHandler.ts:107-125 | A video is sent exactly when the download succeeded, after the processing message is deleted, with the success caption. A failure edits the processing message with the error, or `Unknown error`. |
| TelegramHandler.CaptionOutcome | src/handlers/telegramHandler.ts:150-168 | Reporting a caption sends at least one bot action. |
| TelegramHandler.CaptionActions | src/handlers/telegramHandler.ts:144-146 | A caption reply starts with the "Generating" message, replying to the user's message. |
| TelegramHandler.BlankAnswerUnknownError | src/handlers/telegramHandler.ts:150-162 | A whitespace-only answer is a success with an empty caption, and the user sees `Unknown error`. |
| TelegramHandler.BlankCaptionText | src/handlers/telegramHandler.ts:136-141 | Blank caption text gets only the usage message, and Gemini is not asked. |
| TelegramHandler.CaptionTextPassedOn | src/handlers/telegramHandler.ts:134-148 | Other text is passed to `generateCaption`, which asks Gemini only when the text fits. The handler's blank check makes the "Empty text" failure unreachable. |
| TelegramHandler.Webhook.Send | src/handlers/telegramHandler.ts:101-103 | Sending appends one message, and its id is the next message id. |
| TelegramHandler.Webhook.HandleReelsDownload | src/handlers/telegramHandler.ts:98-132 | The handler appends exactly the download reply of the engine's result and leaves the engine in the state `downloadReels` leaves. |
| TelegramHandler.Webhook.ReportDownload | src/handlers/telegramHandler.ts:107-125 | The outcome actions are appended; nothing else changes. |
| TelegramHandler.Webhook.HandleCaptionGeneration | src/handlers/telegramHandler.ts:134-175 | The handler appends exactly the caption reply and consumes exactly the Gemini replies it uses. |
| TelegramHandler.Webhook.GenerateAndReport | src/handlers/telegramHandler.ts:143-168 | The processing message, then the caption outcome of `generateCaption`. |
| TelegramHandler.Webhook.ReportCaption | src/handlers/telegramHandler.ts:150-168 | The caption outcome actions are appended; nothing else changes. |
| TelegramHandler.Webhook.TelegramWebhook | src/handlers/telegramHandler.ts:11-58 | Four outcomes: 500 on a configuration error, 401 on a wrong secret, 200 with no action for an update without a message. Otherwise 200, with exactly the actions and engine state of the routed handler; routes that do not download leave the engine alone. Every routed message sends exactly one first message, so the message-id counter advances by one; the other outcomes leave it alone. |

## Left out

- Outside services (the `instagram-url-direct` resolver, axios, Gemini, the Telegram bot API) are replaced by scripted replies and logged calls. An exhausted script answers with a thrown error.
- The bot API never fails in this model. So the handlers' `catch` branches (`src/handlers/telegramHandler.ts:126-131`, `:169-174`) and the webhook's 500 for anything but a configuration error are not modelled. Message ids come from a counter.
- Downloaded bytes are not modelled, only their length. The axios request options (timeout, `maxContentLength`, headers) appear only as the error messages that the scripted failures carry.
- The texts of the welcome, help and unknown-command messages, and the Gemini prompts, are named rather than spelled out. The generation settings (temperature, topP, topK, token limit) are left out.
- The `Promise.all` in `generateCaptionVariations` is modelled as sequential requests, and its unreachable `catch` is left out.
- Real waiting is not modelled: the delays are recorded instead. Logging is left out, along with `src/utils/logger.ts`, `src/index.ts`, the type declarations and concurrent use of `process.env` and the global axios.
- `isValidUrl` (src/utils/validators.ts:55-62) is not modelled: it depends on the WHATWG URL parser.
- Values that are not strings are not modelled. The `typeof … !== 'string'` guards reduce to the empty-string case, and the webhook header is taken as a single optional string, not an array.
- Text.ToLower: lowers ASCII letters only. Every word the source compares after lowering is ASCII, so the comparisons are unaffected.
- Text.Trim: strings are sequences of code points. Lengths (the 1000-character limits) count code points, while JavaScript counts UTF-16 code units.
- Environment.ParseInt: reads base 10 only, into an unbounded integer. It ignores the `0x` prefix that `parseInt` reads as hexadecimal and the distinction between `-0` and `0`. A digit string too long for a double (which JavaScript reads as `Infinity`) and the rounding of values above 2^53 are not modelled.
- Validators.TelegramUserIdCases: numbers are integers or NaN. The source also accepts fractional and infinite ids such as 0.5 and `Infinity`, which the model cannot express.
- ReelsProperties.RetryShape: `maxRetries` is an integer. With a fractional budget such as 2.5 the source makes 2 attempts but reports `Failed after 2.5 attempts`; NaN and infinite budgets are not modelled either.
- CaptionGenerator.SelectedStyles: the count is an integer. `slice` truncates a fractional count and reads NaN as 0, which the model does not express.
- Validators.FileSizeBounds: sizes are integers; fractional byte counts and megabyte limits are not modelled.
- Validators.SanitizeText: states the `<`/`>` removal and the bounds, not the absence of `javascript:` or handlers. Deleting one occurrence can join its neighbours into a new one, in the source as in the model.
