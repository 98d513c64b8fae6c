# jimeng-ai-mcp in Dafny

A model of the Jimeng (Volcengine visual API) client and its command-line examples. It covers:

- `JimengClient`: its construction, the Volcengine V4 request signer, `formatQuery`, `getSignatureKey`, and `verifyKeys`.
- The retry loops of `generateImage`, `submitVideoTask`, `getVideoTaskResult` and `submitI2VTask`.
- The polling loops of `generateVideo` and `generateI2VVideo`.
- The silent `.env` loader `config`.
- The argument handling of three example scripts:
  - the video generator: `parseArgs`, the check-task key, and the image-to-video demo poll;
  - the image-to-image script: the flag loop and the split into remote and local references;
  - the image generator: the `--model` loop, the positional defaults, the model fallback and `logo_info`.

How the world is represented:

- Every HTTP call is a signed POST. Its reply comes from an oracle `reply: nat -> Reply`, indexed by how many POSTs came before it.
- Every `setTimeout` is a recorded `Wait(ms)`.
- Each client operation is an imperative method that returns its response plus the trace of events it produced. Its loop runs through one of two generic imperative drivers, `Retry.Loop` and `Polling.Loop`. Each driver is proved equal to a specification function:
  - `Retry.RunFrom`, for "try, catch, count, wait, retry";
  - `Polling.PollFrom`, for "query, decide, wait".
- The loops of `generateImage`, `submitVideoTask` and `getVideoTaskResult` have the shape of `Retry.Loop`, statement by statement. `submitI2VTask` writes its loop as `if (retryCount < retries) { wait; retryCount++ } else break`. The model runs it through the same driver with one retry, which gives the same attempts, waits and POSTs.
- The drivers carry the general facts: the number of attempts, the waits between them, the POST bounds, and that a result always comes from a decision on some query.
- Each operation then gets lemmas for the cases the source code distinguishes.

Modules:

| module | file | models |
|---|---|---|
| `Wrappers` | wrappers.dfy | `Option`, `Result`, JavaScript truthiness of optional strings |
| `Strings` | strings.dfy | `trim`, `split`, `join`, `indexOf`, `substring`, `startsWith`, `includes`, code-unit order and `Object.keys(...).sort()` |
| `Assoc` | assoc.dfy | writing key/value pairs into an object in order, with later writes winning |
| `Signer` | signer.dfy | `formatQuery`, `getSignatureKey`, `signV4Request` |
| `Wire` | wire.dfy | the JSON bodies, the replies, the POST and wait events, and the world oracle |
| `Client` | client.dfy | the constructor, the action query, the signed POST, `verifyKeys` |
| `Retry` | retry.dfy | the retry loop shared by the four retrying operations |
| `Polling` | polling.dfy | the polling loop shared by the two one-step video operations and the demo |
| `ImageGeneration` | image.dfy | `generateImage` |
| `VideoTasks` | video.dfy | `submitVideoTask`, `getVideoTaskResult`, `generateVideo` |
| `ImageToVideo` | i2v.dfy | `submitI2VTask`, `generateI2VVideo` |
| `DotEnv` | dotenv.dfy | `config` of src/dotenv-silent.ts |
| `VideoCli` | video_cli.dfy | examples/jimeng-video-generator.ts |
| `ImageToImageCli` | image_to_image_cli.dfy | examples/jimeng-image-to-image.ts |
| `ImageGeneratorCli` | image_generator_cli.dfy | examples/jimeng-image-generator.ts |

Behaviour of the code worth knowing:

- A missing prompt in `generateImage` or `submitVideoTask` is thrown inside the `try`. It is therefore retried like any other error: every attempt runs, with the backoff waits between them, and no POST is made. The same holds for a missing image in `submitI2VTask`.
- `getVideoTaskResult` signs with the region `reqKey.split('_')[2]`. For the default keys that is `"t2v"` or `"i2v"`, not the client's region.
- `getVideoTaskResult` appends `video_url` to the `resp_data` URLs without removing duplicates.
- `retries: 0` is falsy, so the client gets the default of three retries.

## Model

| member | source | states |
|---|---|---|
| `Strings.Trim` | src/dotenv-silent.ts:30 | `trim()`: the text is a white-space prefix, the result, and a white-space suffix; the result has no JavaScript white space at either end; it is empty exactly when the text is all white space; text already trimmed is unchanged |
| `Strings.SplitOn` | src/dotenv-silent.ts:36 | `split(c)`: at least one piece; no piece contains `c`; two or more pieces exactly when `c` occurs |
| `Strings.JoinSplit` | src/dotenv-silent.ts:39 | joining the pieces of a split with the same separator gives back the original text |
| `Strings.SplitJoin` | src/index.ts:178 | splitting a join of pieces that do not contain the separator gives back the pieces |
| `Strings.SplitPrefix` | src/index.ts:551 | splitting text whose first separator follows a prefix gives that prefix as the first piece, then the pieces of the rest |
| `Strings.IndexOf` | src/dotenv-silent.ts:36-39 | the position of the first occurrence; the length of the text when there is none |
| `Strings.SplitAtFirst` | src/dotenv-silent.ts:36-39 | `parts[0]` is the text before the first `=`, and `parts.slice(1).join('=')` is everything after it |
| `Strings.JsSubstring` | src/index.ts:191 | `substring(a, b)`: within the text, the slice between the two bounds, in either order |
| `Strings.ContainsAt` | src/index.ts:489 | `includes`: a text that holds the pattern at some position contains it |
| `Strings.ContainsConcat` | src/index.ts:448 | a pattern inside a part is inside the whole |
| `Strings.LexTotal` | src/index.ts:177 | the default sort order is total |
| `Strings.LexAntisymmetric` | src/index.ts:177 | the default sort order is antisymmetric |
| `Strings.LexTransitive` | src/index.ts:177 | the default sort order is transitive |
| `Strings.SortedKeys` | src/index.ts:177 | `Object.keys(m).sort()`: every key exactly once, strictly ascending |
| `Strings.LowerAscii` | examples/jimeng-image-to-image.ts:110 | the case folding of a regular expression with the `i` flag: the result is never `A`-`Z`, it is `a`-`z` exactly when the character is an ASCII letter of either case, and every other character is unchanged |
| `Assoc.MergeKeys` | src/dotenv-silent.ts:49-50 | a key is in the result exactly when some entry writes it |
| `Assoc.MergeLast` | src/dotenv-silent.ts:49-50 | the last write of a key decides its value |
| `Assoc.MergeValue` | src/dotenv-silent.ts:49-50 | every value in the result was written by some entry |
| `Assoc.MergeStep` | src/dotenv-silent.ts:28-52 | writing one more entry updates exactly that key |
| `Signer.DateStamp` | src/index.ts:191 | the date stamp is the first eight characters of the compact timestamp |
| `Signer.IsoCompactForm` | src/index.ts:190-191 | for a `toISOString` instant, the compact form is `YYYYMMDDTHHMMSSZ` and the date stamp is `YYYYMMDD` |
| `Signer.QueryPairs` | src/index.ts:177-178 | one `key=value` piece per parameter, in ascending key order |
| `Signer.FormatQuery` | src/index.ts:176-179 | the query is empty exactly when there are no parameters |
| `Signer.FormatQueryPieces` | src/index.ts:176-179 | when no key or value contains `&`, splitting the query on `&` gives back exactly the sorted pieces |
| `Signer.FormatPair` | src/index.ts:176-179 | a two-parameter query lists the parameters in key order, joined by one `&` |
| `Signer.ActionVersionQuery` | src/index.ts:271-275 | `{Action, Version}` formats as `Action=<a>&Version=<v>` |
| `Signer.GetSignatureKey` | src/index.ts:165-171 | the key is rooted at the secret and chained over date, region, service and `"request"`, in that order |
| `Signer.SignV4` | src/index.ts:184-254 | the URL is endpoint `?` query. `X-Date` is the compact timestamp and `X-Content-Sha256` is the body hash. The Authorization header is the HMAC, under the key for the date, region and service, of the string to sign over those same values |
| `Signer.CanonicalRequestLines` | src/index.ts:201-215 | the canonical request has exactly ten lines: method, path, query, four header lines, the empty line, the signed headers, the payload hash |
| `Signer.StringToSignLines` | src/index.ts:223-228 | the string to sign has exactly four lines: algorithm, timestamp, scope, request hash |
| `Signer.CredentialScopeParts` | src/index.ts:222 | the scope is date, region, service and `request`, separated by `/` |
| `Client.Resolve` | src/index.ts:137-138 | the configured key, else the environment's, else empty; empty exactly when both are missing or empty |
| `Client.NewClient` | src/index.ts:136-160 | construction succeeds exactly when both keys resolve to non-empty text; otherwise it fails with the configuration message. On success every field is the configured value or its default |
| `Client.ZeroRetriesBecomeThree` | src/index.ts:145 | asking for 0 retries gives 3 |
| `Client.ActionQuery` | src/index.ts:271-275 | the query of every action is `Action=<action>&Version=2022-08-31` |
| `Client.ApiPostSigned` | src/index.ts:294-317 | the request an API call's POST stands for has the URL `endpoint?` plus the action's query, the `X-Date` of the clock's reading, and the `X-Content-Sha256` of the JSON text of the body |
| `Client.SignedPost` | src/index.ts:301-305 | the request a POST stands for has the action's URL and the date and hash headers of its call and body |
| `Client.VerifyKeys` | src/index.ts:943-945 | a key is reported exactly when it is required and not given, as often as `required` lists it; nothing is reported exactly when all required keys are given |
| `Client.VerifyKeysKeepsOrder` | src/index.ts:944 | the reported keys keep their order in `required` |
| `Retry.RunFrom` | src/index.ts:263-380 | never more attempts than the budget `retries - retryCount + 1` of `Budget`; at least one exactly when budget is left; a give-up with an error used the whole budget |
| `Retry.Delays` | src/index.ts:372 | the waits `delay(from)`, … in order |
| `Retry.Loop` | src/index.ts:259-387 | the while loop (try, return, catch, count, give up, wait) ends with the specification's end and trace |
| `Retry.RunWaits` | src/index.ts:372-378 | when attempts do not wait themselves, the waits are exactly the delays `1 … attempts-1` |
| `Retry.RunPosts` | src/index.ts:313 | at most `b` POSTs per attempt gives at most `b` times the attempts |
| `Retry.RunPostsExact` | src/index.ts:313 | one POST per attempt gives as many POSTs as attempts |
| `Retry.RunAllThrow` | src/index.ts:357-369 | when every attempt throws, all of them run, and the error reported is the message one of them threw |
| `Retry.RunReturnsAttemptValue` | src/index.ts:338-349 | a returned value is the value of some attempt |
| `Retry.ThrowThenThrow` | src/index.ts:473-500 | two attempts that both throw: both run, one wait apart, and the second error is kept |
| `Polling.PollFrom` | src/index.ts:704-738 | at most `max` queries; all `max` when nothing stops it; at least one exactly when `max > 0` |
| `Polling.ContinuePass` | src/index.ts:729-737 | an undecided query is followed by the interval wait and the rest of the polling |
| `Polling.Loop` | src/index.ts:704-745 | the `for` loop ends with the specification's result and trace |
| `Polling.PollNeverStops` | src/index.ts:740-745 | when no query decides, all `max` queries run and nothing is decided |
| `Polling.PollPosts` | src/index.ts:708 | at most `b` POSTs per query gives at most `b` times the queries |
| `Polling.PollStopsByDecision` | src/index.ts:710-726 | an outcome is the decision on some query's result |
| `ImageGeneration.Defined` | src/index.ts:288-292 | removing undefined members keeps at most the members there were, each with a value its name had |
| `ImageGeneration.DefinedKeepsDefinedNames` | src/index.ts:288-292 | every member with a defined value is kept |
| `ImageGeneration.DefinedAppend` | src/index.ts:288-292 | the filter works member by member, in order |
| `ImageGeneration.DeleteUndefined` | src/index.ts:288-292 | the `forEach` that deletes undefined members leaves exactly the defined ones |
| `ImageGeneration.Backoff` | src/index.ts:372 | the wait is between 1 and 10 seconds: `1000·2^(k-1)` up to the fourth retry, 10000 from the fifth |
| `ImageGeneration.Pow2Monotone` | src/index.ts:372 | `2^n` passes the 10-second cap from n = 4 |
| `ImageGeneration.Attempt` | src/index.ts:264-349 | no prompt throws before any POST; otherwise exactly one POST; success only on a 200 reply with a non-empty image list |
| `ImageGeneration.GenerateImage` | src/index.ts:259-387 | the whole operation equals its retry specification |
| `ImageGeneration.BackoffSchedule` | src/index.ts:357-378 | for any replies, the waits are the backoff delays `Backoff(1)`, … in order, one between each two attempts |
| `ImageGeneration.MissingPromptIsRetried` | src/index.ts:266-268 | with no prompt, all `retries + 1` attempts run with no POST, separated by the backoff waits, and the prompt error is reported |
| `ImageGeneration.MissingPromptLastError` | src/index.ts:266-268 | with no prompt, the last error is the prompt error, which `Final` reports |
| `ImageGeneration.PostsBounded` | src/index.ts:263 | at most `retries + 1` POSTs |
| `ImageGeneration.EmptyImageListIsNotRetried` | src/index.ts:336-348 | a 200 reply without `data`, without `image_urls`, or with an empty list returns its failure at once, after one POST and no wait |
| `VideoTasks.SubmitAttempt` | src/index.ts:398-472 | no prompt throws before any POST; otherwise exactly one POST; success always carries a task id |
| `VideoTasks.SubmitVideoTask` | src/index.ts:392-517 | the whole operation equals its retry specification |
| `VideoTasks.RateLimitErrorIsRecognised` | src/index.ts:447-448 | the 429 error mentions `并发限制` |
| `VideoTasks.SubmitRateLimited` | src/index.ts:445-449 | a 429 reply throws the rate-limit error |
| `VideoTasks.RateLimitedTwice` | src/index.ts:445-500 | two 429 replies give two POSTs, one 60-second wait, and the friendly rate-limit message |
| `VideoTasks.SubmitAcceptedAtOnce` | src/index.ts:460-465 | a 200 reply with a task id succeeds on the first POST |
| `VideoTasks.SubmitWaits` | src/index.ts:394-503 | for any replies, at most two attempts, and the only wait is one of 60 seconds, exactly when there are two |
| `VideoTasks.SubmitPostBound` | src/index.ts:394-397 | at most two POSTs |
| `VideoTasks.QueryRegion` | src/index.ts:551 | the signing region is the third `_`-piece of the key, with no `_` in it, and absent when there are fewer than three pieces |
| `VideoTasks.QueryRegionIsThirdPiece` | src/index.ts:551 | for a key `a_b_r…` the region is `r` |
| `VideoTasks.DefaultKeyRegion` | src/index.ts:522-551 | the default text-to-video key signs for region `t2v` |
| `VideoTasks.NormalizeStatus` | src/index.ts:597-612 | the four vendor statuses are renamed; any other status is upper-cased |
| `VideoTasks.ExtractVideoUrls` | src/index.ts:615-632 | the `resp_data` URLs first, then `video_url` when it is a non-empty string |
| `VideoTasks.VideoUrlNotDeduplicated` | src/index.ts:630-632 | a `video_url` already among the `resp_data` URLs appears twice |
| `VideoTasks.ReadResult` | src/index.ts:570-640 | code 50411 returns the content-safety failure, any other code besides 10000 throws, and success carries the normalised status and the URLs |
| `VideoTasks.QueryAttempt` | src/index.ts:528-643 | exactly one POST; a returned result needs a 200 reply |
| `VideoTasks.QueryFinal` | src/index.ts:654-663 | a give-up is a failure with no status whose error is the last error's message, else `未知错误`; a returned result is kept |
| `VideoTasks.GetVideoTaskResult` | src/index.ts:522-679 | the whole operation equals its retry specification |
| `VideoTasks.ResultQueryBounds` | src/index.ts:524-666 | one POST and no wait, or two POSTs and one 5-second wait |
| `VideoTasks.ContentSafetyNotRetried` | src/index.ts:576-583 | code 50411 fails after one POST |
| `VideoTasks.DecideCases` | src/index.ts:710-732 | polling stops with success on a succeeded status with URLs, and with failure on `FAILED`. A failed query never stops it |
| `VideoTasks.PollSubmitted` | src/index.ts:689-745 | after the submission, the polling loop equals its specification |
| `VideoTasks.GenerateVideo` | src/index.ts:685-746 | the whole operation equals its specification |
| `VideoTasks.FailedSubmitStops` | src/index.ts:690-694 | a failed submission ends the operation with no polling |
| `VideoTasks.NeverFinishingTimesOut` | src/index.ts:704-745 | when no result decides, all 30 queries run and the timeout is reported with the task id |
| `VideoTasks.GenerateSpecSuccess` | src/index.ts:712-719 | success carries a non-empty URL list and the submitted task id |
| `VideoTasks.GenerateSpecPostBound` | src/index.ts:704-708 | the POSTs are the submission's plus at most two per poll |
| `VideoTasks.GenerateVideoPostBound` | src/index.ts:685-746 | at most 2 + 2·30 POSTs |
| `ImageToVideo.ImagesOf` | src/index.ts:759-768 | `image_urls` when non-empty, else `[image_url]` when set, else none |
| `ImageToVideo.ReadSubmit` | src/index.ts:816-834 | success exactly on 200 with status or code 10000 and a task id |
| `ImageToVideo.TryAttempt` | src/index.ts:758-834 | no image throws before any POST; otherwise exactly one POST |
| `ImageToVideo.Attempt` | src/index.ts:835-848 | an image-format error returns the friendly failure instead of being retried; other errors stay thrown |
| `ImageToVideo.SubmitI2VTask` | src/index.ts:751-873 | the whole operation equals its retry specification |
| `ImageToVideo.SubmitSuccessHasTaskId` | src/index.ts:819-827 | success always carries a task id |
| `ImageToVideo.MissingImageIsRetried` | src/index.ts:766-864 | with no image, both attempts run with no POST and one 60-second wait, and the image error is reported |
| `ImageToVideo.ImageErrorNotRetried` | src/index.ts:840-848 | an image-format error ends the operation after its own attempt |
| `ImageToVideo.MissingTaskIdIsError` | src/index.ts:820-822 | an accepted reply without a task id throws, and that error is retried |
| `ImageToVideo.OtherErrorRetried` | src/index.ts:850-861 | any other error makes two attempts, two POSTs and one 60-second wait |
| `ImageToVideo.NotImageErrorWithoutM` | src/index.ts:840-842 | a message without `m` is no image-format error |
| `ImageToVideo.NotImageError` | src/index.ts:840-842 | a message without `I`, without `f`, and with every `e` followed by `_` is no image-format error |
| `ImageToVideo.MissingImageIsNotImageError` | src/index.ts:767-842 | the missing-image message is no image-format error |
| `ImageToVideo.DefaultKeyRegion` | src/index.ts:901 | the default image-to-video key signs for region `i2v` |
| `ImageToVideo.GenerateI2VVideo` | src/index.ts:878-939 | the whole operation equals its specification |
| `ImageToVideo.GenerateI2VSuccess` | src/index.ts:905-912 | success carries a non-empty URL list and the submitted task id |
| `ImageToVideo.SubmitI2VWaits` | src/index.ts:752-865 | for any replies, at most two attempts, and the only wait is one of 60 seconds, exactly when there are two |
| `ImageToVideo.SubmitI2VPostBound` | src/index.ts:753-756 | at most two POSTs |
| `ImageToVideo.GenerateI2VPostBound` | src/index.ts:878-939 | at most 2 + 2·30 POSTs |
| `DotEnv.StripQuotes` | src/dotenv-silent.ts:41-46 | one pair of matching outer quotes is removed; anything else is kept |
| `DotEnv.QuotesRemoved` | src/dotenv-silent.ts:42-46 | a double- or single-quoted value loses exactly its quotes |
| `DotEnv.TrimmedEntry` | src/dotenv-silent.ts:31-47 | a definition exactly for a non-empty, non-comment line with `=`; the key is the trimmed text before the first `=`, and the value is the trimmed, unquoted rest |
| `DotEnv.ValueKeepsLaterEquals` | src/dotenv-silent.ts:36-39 | only the first `=` separates; the value keeps every later one |
| `DotEnv.Config` | src/dotenv-silent.ts:13-58 | a missing file gives `parsed: null` and an unchanged environment; otherwise the entries of the lines, and the environment updated with them |
| `DotEnv.ApplyLines` | src/dotenv-silent.ts:28-52 | the `forEach` writes exactly the merged definitions into both the result and the environment |
| `DotEnv.EntriesKeys` | src/dotenv-silent.ts:49-50 | a key is defined exactly when some line defines it |
| `DotEnv.LastDefinitionWins` | src/dotenv-silent.ts:49-50 | the last line that defines a key gives its value |
| `VideoCli.ParseArgs` | examples/jimeng-video-generator.ts:53-70 | the loop equals the flag-by-flag specification |
| `VideoCli.ParamsKeys` | examples/jimeng-video-generator.ts:57-58 | a key is set exactly when some `--key` token names it |
| `VideoCli.ParamsValues` | examples/jimeng-video-generator.ts:60-65 | each value belongs to some flag: the next token when it is no flag, else `"true"` |
| `VideoCli.LastFlagWins` | examples/jimeng-video-generator.ts:61-64 | the last occurrence of a flag decides it |
| `VideoCli.CheckTaskReqKey` | examples/jimeng-video-generator.ts:219 | the image-to-video key exactly for type `i2v`, else the text-to-video key |
| `VideoCli.ModelsDiffer` | examples/jimeng-video-generator.ts:219 | the two default keys differ |
| `VideoCli.MainResolvedKey` | examples/jimeng-video-generator.ts:308-310 | the text-to-video key exactly for type `t2v`, else the image-to-video key |
| `VideoCli.CheckTaskAlwaysTextToVideo` | examples/jimeng-video-generator.ts:219-312 | as written, the result is always queried with the text-to-video key |
| `VideoCli.CheckTaskI2VQueriedAsT2V` | examples/jimeng-video-generator.ts:307-312 | as written, `--type i2v` is queried with the text-to-video key |
| `VideoCli.CheckTaskKeyFollowsType` | examples/jimeng-video-generator.ts:219 | corrected: the image-to-video key exactly for type `i2v` |
| `VideoCli.CheckTask` | examples/jimeng-video-generator.ts:306-314 | without `--check-task` nothing is sent; with it, one result query for that id under the corrected key |
| `VideoCli.DemoParams` | examples/jimeng-video-generator.ts:131-141 | one image, the image-to-video key, `16:9`, the default region, and a prompt only when given |
| `VideoCli.DemoDecideCases` | examples/jimeng-video-generator.ts:167-188 | `SUCCEEDED` stops with the URLs, a failed query stops, `FAILED` stops with the reason or `未知错误`; anything else waits |
| `VideoCli.DemoImageToVideo` | examples/jimeng-video-generator.ts:124-206 | the demo equals its specification |
| `VideoCli.DemoPoll` | examples/jimeng-video-generator.ts:148-198 | the polling part equals its specification |
| `VideoCli.DemoEndsByDecision` | examples/jimeng-video-generator.ts:160-194 | the demo ends by a decision on some query, or times out |
| `VideoCli.DemoTimesOut` | examples/jimeng-video-generator.ts:160-194 | when nothing decides, the demo times out with the task id |
| `VideoCli.DemoFromPostBound` | examples/jimeng-video-generator.ts:160-192 | the POSTs are the submission's plus at most two per poll |
| `VideoCli.DemoPostBound` | examples/jimeng-video-generator.ts:124-206 | at most 2 + 2·30 POSTs |
| `ImageToImageCli.ReadAt` | examples/jimeng-image-to-image.ts:32-86 | every token moves the loop forward by one or by two, never past the end |
| `ImageToImageCli.ScanArgs` | examples/jimeng-image-to-image.ts:32-86 | the loop equals the token-by-token specification |
| `ImageToImageCli.ReadToken` | examples/jimeng-image-to-image.ts:33-85 | one pass of the loop body applies the read at `i` and moves to where it ends |
| `ImageToImageCli.SpacedForm` | examples/jimeng-image-to-image.ts:35-74 | `--name value` sets the option to the next token and skips it |
| `ImageToImageCli.InlineForm` | examples/jimeng-image-to-image.ts:39-78 | `--name=value` sets the option to the text after the `=` |
| `ImageToImageCli.TrailingFlagIsPositional` | examples/jimeng-image-to-image.ts:32-86 | a flag with nothing after it is kept as a positional argument |
| `ImageToImageCli.SettleText` | examples/jimeng-image-to-image.ts:36-77 | the model and region are the last values given, each with its default |
| `ImageToImageCli.SettleNumbers` | examples/jimeng-image-to-image.ts:45-68 | width, height and size are `parseInt` of the last values given |
| `ImageToImageCli.SettleReturnUrl` | examples/jimeng-image-to-image.ts:80-83 | `returnUrl` stays true exactly when no `--no-return-url` is read |
| `ImageToImageCli.SettlePositionals` | examples/jimeng-image-to-image.ts:85 | the positional arguments are appended in order |
| `ImageToImageCli.ScanEffect` | examples/jimeng-image-to-image.ts:24-86 | the options after the loop: the last model, the last region or `cn-north-1`, `returnUrl` unless `--no-return-url`, and every other token in order |
| `ImageToImageCli.LastValueIsRead` | examples/jimeng-image-to-image.ts:32-86 | the value an option ends with is one that was read, with no later read of that option |
| `ImageToImageCli.NotOptionIsPositional` | examples/jimeng-image-to-image.ts:85 | a token not starting with `--` is positional |
| `ImageToImageCli.PlainTokensArePositional` | examples/jimeng-image-to-image.ts:85 | without `--` tokens, every argument is positional, in order |
| `ImageToImageCli.SplitReferences` | examples/jimeng-image-to-image.ts:106-120 | the loop equals the split: it stops at the first missing local file, otherwise giving the locals and remotes |
| `ImageToImageCli.MissingStaysFirst` | examples/jimeng-image-to-image.ts:114-117 | the first missing file of a prefix is the first missing file of the whole list |
| `ImageToImageCli.SplitAppend` | examples/jimeng-image-to-image.ts:109-120 | both lists keep the input order |
| `ImageToImageCli.SplitPartitions` | examples/jimeng-image-to-image.ts:109-119 | every reference goes to exactly one side: remote ones as given, local ones resolved |
| `ImageToImageCli.SplitSucceeds` | examples/jimeng-image-to-image.ts:114-117 | no file is missing exactly when every resolved local reference exists |
| `ImageToImageCli.MissingIsFirst` | examples/jimeng-image-to-image.ts:114-117 | the reported path is the first local reference that does not exist |
| `ImageToImageCli.RemoteSchemes` | examples/jimeng-image-to-image.ts:110 | `http://` and `https://` in any case are remote; `/` paths and `ftp://` are not |
| `ImageToImageCli.RunScript` | examples/jimeng-image-to-image.ts:23-162 | the script equals its specification |
| `ImageToImageCli.InvocationCases` | examples/jimeng-image-to-image.ts:88-162 | a request is made exactly when there are a prompt, a reference, both keys, and all local files. It carries the prompt and the non-empty remote and local lists. The prompt error is reported exactly when the prompt is missing |
| `ImageToImageCli.MessagesDiffer` | examples/jimeng-image-to-image.ts:92-115 | the four abort messages are distinct |
| `ImageToImageCli.ReferencesNotSent` | src/index.ts:278-285 | the client's body has no `image_urls`, `image_paths`, `size` or `force_single` |
| `ImageGeneratorCli.ReadAt` | examples/jimeng-image-generator.ts:25-40 | every token moves the loop forward by one or by two, never past the end |
| `ImageGeneratorCli.ScanArgs` | examples/jimeng-image-generator.ts:25-40 | the loop equals the token-by-token specification |
| `ImageGeneratorCli.ReadToken` | examples/jimeng-image-generator.ts:26-39 | one pass of the loop body applies the read at `i` and moves to where it ends |
| `ImageGeneratorCli.SettleEffect` | examples/jimeng-image-generator.ts:25-40 | the model is the last one given, else the old one; the positional arguments are appended in order |
| `ImageGeneratorCli.ModelForms` | examples/jimeng-image-generator.ts:28-37 | `--model value` takes the next token and skips it; `--model=value` takes the suffix |
| `ImageGeneratorCli.TrailingModelIsPositional` | examples/jimeng-image-generator.ts:28-39 | a final `--model` is positional |
| `ImageGeneratorCli.ScanEffect` | examples/jimeng-image-generator.ts:22-40 | after the loop: the last model read, and every other token in order |
| `ImageGeneratorCli.PlainTokensArePositional` | examples/jimeng-image-generator.ts:39 | without `--model` tokens, every argument is positional, in order, and no model is set |
| `ImageGeneratorCli.PromptDefault` | examples/jimeng-image-generator.ts:42 | the first positional when non-empty, else the panda prompt; never empty |
| `ImageGeneratorCli.SideDefaults` | examples/jimeng-image-generator.ts:43-44 | width and height are `parseInt` of the second and third positionals, or 2048 when those are missing or empty |
| `ImageGeneratorCli.ModelFallback` | examples/jimeng-image-generator.ts:47-49 | a non-empty `--model` wins; otherwise the fifth positional when there is one; otherwise whatever `--model` gave |
| `ImageGeneratorCli.EmptyInlineModelFallsBack` | examples/jimeng-image-generator.ts:34-49 | `--model=` with five positionals uses the fifth |
| `ImageGeneratorCli.LogoOnlyWithWatermark` | examples/jimeng-image-generator.ts:91-99 | `logo_info` is present exactly for a non-empty fourth positional, as `add_logo` true, position 0, language 0, opacity 1 and that text |
| `ImageGeneratorCli.AbortsOnlyWithoutKeys` | examples/jimeng-image-generator.ts:52-88 | the script aborts exactly when a key is missing; otherwise it asks for one image in `cn-north-1` |
| `ImageGeneratorCli.RunScript` | examples/jimeng-image-generator.ts:21-100 | the script equals its specification |
| `ImageGeneratorCli.LogoNotSent` | src/index.ts:278-285 | the client gets a prompt and sends neither `logo_info` nor `force_single` |

## Left out

- Network I/O, axios and its timeout: a reply is an oracle indexed by the number of POSTs before it. A rejection without a response is `NoResponse`.
- SHA-256 and HMAC-SHA256: their hex digests are uninterpreted functions, and the intermediate HMAC keys are symbolic terms.
- `Signer.GetSignatureKey`: the model states which inputs the key is derived from, in which order. It does not claim that different inputs give different keys, since HMAC-SHA256 pads and hashes its key and is not injective on it.
- `JSON.stringify`, `JSON.parse(resp_data).urls` and `toUpperCase` are uninterpreted functions of the platform.
- Only the reply members the client reads are modelled.
- `VideoTasks.ReadResult` and the other reply readers: reply members are optional values of one type. A member that is `null` or has another type counts as absent. So the model's error texts are those of `undefined`: for `data: null` the source throws "Cannot read properties of null (reading 'status')", and for a numeric `status` it throws "…toUpperCase is not a function", while the model uses the `undefined` text.
- `new Date().toISOString()` is a clock indexed by the number of POSTs. `toLocaleTimeString` and `Date.now` appear only in log lines.
- All `console.log` and `console.error` output, the `debug` switch that only logs, and the console-only branches of the examples are left out. This includes the result printing in `checkTaskResult` and `demoTextToVideo`.
- `process.exit` becomes an `Abort` outcome, and `process.env` is a map.
- `parseInt(s, 10)` is an abstract function from text to integer. `NaN` is not an integer; since `\|\|` treats `NaN` like 0, only the value the client reads matters.
- `ImageToImageCli.Resolved`: `path.isAbsolute` and `path.resolve` are simplified to the POSIX rule "starts with `/`", and no normalisation of `.` or `..` is modelled. `fs.existsSync` is an oracle.
- `DotEnv.Config`: the file system is an oracle, and a read that throws is the `Unreadable` file state, not an exception. The other write of the file's values, to the real process environment, is the returned environment map.
- The code-unit order of `sort()` is the order of `char`. Strings are sequences of `char`, with no UTF-16 surrogate handling.
- `DotEnv.Config`, `DotEnv.ApplyLines`: the result object and the environment are maps, so a line `__proto__=x` is recorded as the key `__proto__`. In JavaScript, writing a string to `__proto__` of a plain object does nothing, so the real `parsed` lacks that key.
- `VideoCli.ParseArgs`, `VideoCli.ParamsKeys`: for the same reason, `--__proto__ x` sets no parameter in JavaScript, while the model records it like any other key.
- `Polling.PollFrom`: the poll bound is a parameter. The operations pass 30, and lemmas state the bound for that value.
- `Retry.RunFrom`: the `while` condition failing before any attempt is the `GaveUp(None)` end, which reaches the unreachable `未知错误` return only for a negative retry count.
- `Client.ApiPost`: the POST event holds the action, region, clock reading and body text. The signed request it stands for is `Client.SignedPost`, not copied into every event.
- The examples pass `size`, `image_urls`, `image_paths`, `force_single` and `logo_info` to `generateImage`. `ImageGeneration.BodyFields`, like src/index.ts:278-285, does not send them. `ReferencesNotSent` and `LogoNotSent` state this.
- `demoTextToVideo`, `demoAsyncVideoGeneration`, the MCP server (examples/mcp-server.ts) and the other package files are not part of this model.
- `JimengClient.generateImage`'s `raw_response` and every other `raw_response` are not modelled, since no modelled caller reads them.

## Findings

| source | as written | input that shows it | evidently intended | confidence | as-written member | corrected member |
|---|---|---|---|---|---|---|
| examples/jimeng-video-generator.ts:219-312 | `main` resolves `--type` to a model key and passes that key as `checkTaskResult`'s `type`. `checkTaskResult` compares it with `'i2v'`, so every task is queried with the text-to-video key. | `--check-task T --type i2v` | an image-to-video task is queried with `jimeng_vgfm_i2v_l20` | not executed | `VideoCli.CheckTaskI2VQueriedAsT2V` | `VideoCli.CheckTaskKeyFollowsType` |
