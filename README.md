# ShadowExtractorBot delivery core, in Dafny

ShadowExtractorBot is a Telegram bot (`bot.py`). A user sends it a link to a
TikTok, Instagram, X/Twitter or YouTube post, and it answers with the
media in the best quality Telegram accepts. This project models the core of
its message handler, `download_media`, and proves properties about it:

- **admission**: only the first URL of a message counts. As written, it must
  contain an allowed domain as a substring, compared case-insensitively. That
  test also admits hosts such as `netflix.com` (see Findings). The flow
  (`Delivery.Handle`, `Handler.DownloadMedia`) therefore admits by host
  name instead: the host must be an allowed domain or a subdomain of one.
- **the delivery cache**: a table keyed by URL that holds the Telegram file id
  of what was last sent, with an upsert that replaces the whole row.
- **the flow**, in order:
  1. resend a cached file id;
  2. for TikTok links, the tikwm API (album or video);
  3. the yt-dlp metadata probe, retried;
  4. a photo album built from the image URLs in the metadata;
  5. the download, retried;
  6. sending the file as it is when it is within the size limit;
  7. re-encoding with the CRF loop, then sending the result;
  8. sending the file as a document, the last resort.
- **the helpers**: `build_caption`, `transcode_high_quality`,
  `choose_best_format`, `extract_image_urls` and the retry loops.

Every call to the outside world is an outcome given in a `Delivery.World`:
Telegram sends, the tikwm request, yt-dlp attempts by attempt number, and
ffmpeg output size by CRF. A request is modelled by the trace of events it
produces: sends, cache writes, retry pauses, the downloaded file and the
re-encode result, plus how it ended.

The Python `x or d` defaults (`duration or 0`, `file_size or size`,
`hdplay or play`, `height or 0`) are the `Wrappers` helpers `IntOr`,
`IntOrElse` and `StrOr`, where None, 0 and the empty string are falsy.
`Text.Lower` is `str.lower()` on ASCII letters. `DeliveryCache.Row` is the
row `set_cache` writes, and `FormatSelection.ScoreOf` is the `score` key
of `choose_best_format`. These are definitions; what they mean for the
bot is stated by the members that use them (`Store.Set`, `IsFirstMax`,
`Admit`).

Modules, one per file:

| file | module | form |
|---|---|---|
| `wrappers.dfy` | `Wrappers` | `Option`, Python's `x or d` on ints and strings |
| `text.dfy` | `Text` | `str.lower()` (ASCII) and `in` on strings |
| `cache.dfy` | `DeliveryCache` | class `Store` over a `map`, with `Get`/`Set` |
| `caption.dfy` | `Caption` | `build_caption` and the decimal duration field |
| `transcode.dfy` | `FitEncoder` | the CRF loop as a method against `FitFrom` |
| `formats.dfy` | `FormatSelection` | `choose_best_format`, first maximum like `max` |
| `images.dfy` | `ImageExtraction` | `extract_image_urls` as a method against `ImageUrls` |
| `retry.dfy` | `Retry` | the retry loop as a method against `RetryFrom` |
| `admission.dfy` | `Admission` | the allow-list test and a host-based correction |
| `trace.dfy` | `DeliveryTrace` | events, outcomes, trace properties, replaying writes |
| `delivery.dfy` | `Delivery` | the flow, stage by stage, as functions, with its properties |
| `handler.dfy` | `Handler` | `download_media` as methods over `Store`, proved equal to `Delivery` |

## Model

| member | source | states |
|---|---|---|
| Text.Contains | bot.py:203 | `domain in s` holds exactly when `domain` occurs in `s` at some position |
| Admission.AnyDomainIn | bot.py:203 | `any(domain in lowered ...)` holds exactly when some listed domain occurs in the text |
| Admission.Admit | bot.py:197-204 | the handler goes on exactly when there is a URL and the lower-cased first one contains an allowed domain; it then serves that first URL |
| Admission.OnlyFirstUrlCounts | bot.py:202-204 | URLs after the first never change the decision |
| Admission.AdmissionIgnoresCase | bot.py:203 | URLs that lower-case alike are admitted alike |
| Admission.AllowedHostsAdmitted | bot.py:35-42 | a URL whose host is one of the six allowed domains is admitted by the corrected test |
| Admission.XComSuffixAdmitted | bot.py:203 | as written, `https://<p>x.com/` is admitted for every `p`, since `x.com` occurs in its text |
| Admission.XComSuffixRefusedByHost | bot.py:203 | the corrected test refuses `https://<p>x.com/` for every non-empty lower-case name `p` (box.com, dropbox.com, netflix.com) |
| Admission.AdmitByHost | bot.py:197-204 | corrected admission: the first URL, exactly when its lower-cased host is an allowed domain or a subdomain of one |
| Admission.AdmittedByHostIsStricter | bot.py:203 | every URL the corrected test admits, the written test admits too |
| DeliveryCache.Upsert | bot.py:93-102 | `INSERT ... ON CONFLICT(url) DO UPDATE`: the URL's row is replaced by the new one; other rows keep key and value |
| DeliveryCache.UpsertRowCount | bot.py:93-102 | the table grows by one row exactly when the URL was new |
| DeliveryCache.UpsertLastWins | bot.py:96-101 | two writes for one URL leave the second, with nothing merged from the first |
| DeliveryCache.Store.constructor | bot.py:69-82 | `init_db`: `CREATE TABLE IF NOT EXISTS` keeps the rows already in the database file, so the table starts as exactly those rows (none on a first run) |
| DeliveryCache.Store.Get | bot.py:84-89 | `get_cache`: the URL's row when there is one, None otherwise |
| DeliveryCache.Store.Set | bot.py:91-104 | `set_cache`: afterwards the URL maps to the new row; other URLs are unchanged; the count grows only for a new URL |
| Caption.DurationField | bot.py:110-117 | the `{duration}` field is `unknown` exactly when the duration is missing or 0, else its decimal form |
| Caption.BuildCaption | bot.py:109-117 | the caption is the template's head, the URL, the middle, the duration field and the tail, in that order |
| Caption.CaptionReadBack | bot.py:109-117 | the URL can be read back after the head, and the duration field reads back as the duration when it is known and non-zero, and is `unknown` otherwise |
| Caption.NatDecimal | bot.py:117 | the decimal form of a natural number is non-empty and made of digits |
| Caption.NatDecimalRoundTrip | bot.py:117 | reading the decimal digits back gives the number |
| Caption.DurationFieldRoundTrip | bot.py:113-117 | a non-zero duration is printed, not `unknown`, and reads back as itself |
| FitEncoder.Schedule | bot.py:129-149 | the CRFs up to `last`: 18, 20, ... `last`, one every 2 |
| FitEncoder.FitEndsOnSchedule | bot.py:129-149 | the loop stops on a CRF of the schedule; a fit carries the size ffmpeg reported there, a failure is an ffmpeg error there |
| FitEncoder.FitExitCondition | bot.py:147-148 | the loop returns only with an output within the limit or at CRF 28 |
| FitEncoder.FitIsFirstThatFits | bot.py:129-149 | every CRF tried before the returned one encoded and came out over the limit |
| FitEncoder.TriedIsSchedule | bot.py:129-149 | the CRFs tried are exactly the schedule up to the one returned |
| FitEncoder.EncodeCountBound | bot.py:129-149 | at most 6 encodes, at CRFs 18, 20, ... 28, the last being the one returned |
| FitEncoder.TranscodeHighQuality | bot.py:124-149 | `transcode_high_quality`: its result is the loop's, on the schedule, within the limit or at CRF 28 when it fits, and an ffmpeg error when it fails; the ffmpeg runs it makes are one to six, at CRFs 18, 20, ... in order, the last at the CRF returned |
| FormatSelection.FirstMaxIndex | bot.py:166 | `max(formats, key=score)`: no format scores higher, and every earlier format scores lower |
| FormatSelection.FirstMaxUnique | bot.py:166 | exactly one index has that property |
| FormatSelection.ChooseBestFormat | bot.py:151-167 | the info itself exactly when there are no formats, else the first format of maximal score |
| FormatSelection.ChoiceDominates | bot.py:161-166 | no format scores higher than the chosen one |
| ImageExtraction.EntryImagesMembers | bot.py:304-308 | an entry URL is collected exactly when some entry has it with an image extension |
| ImageExtraction.ThumbnailUrlsMembers | bot.py:313-316 | a thumbnail URL is collected exactly when some thumbnail has it |
| ImageExtraction.ImageUrlsTiers | bot.py:302-317 | entry images if any; else the info's own image URL; else the thumbnails; empty exactly when no tier has one; never an empty URL |
| ImageExtraction.ExtractImageUrls | bot.py:302-317 | the nested function's loops yield exactly `ImageUrls` |
| Retry.RetryFromShape | bot.py:281-292 | from any attempt on: one pause per failed attempt but the last, `1 + attempt * 2` seconds, and the first value returned |
| Retry.RetrySchedule | bot.py:280-292 | at most 3 attempts; failure exactly when all three raised, after pauses of exactly 1 s and 3 s; otherwise the first value returned |
| Retry.WithRetries | bot.py:280-292 | the `for attempt in range(...)` loop yields the result and pauses of `RetryFrom` |
| Delivery.DocumentFallbackResult | bot.py:435-448 | the document is the last send; the request ends with it |
| Delivery.FittedSendResult | bot.py:420-434 | the re-encoded file is sent right after a re-encode that fitted |
| Delivery.TranscodeResult | bot.py:403-448 | the re-encode comes first; too heavy ends on CRF 28 over the limit; the document fallback follows an ffmpeg error |
| Delivery.AfterSendResult | bot.py:321-338 | a `try:` block around a send, with its cache write, keeps every trace property of the stages after it |
| Delivery.SizeCheckResult | bot.py:381-401 | a file within the limit is sent as it is before anything else; a larger one goes straight to the re-encode |
| Delivery.FetchResult | bot.py:353-378 | the download stage keeps every trace property; when every attempt collapsed it ends with pauses of 1 s and 3 s |
| Delivery.PhotosResult | bot.py:319-338 | the album stage keeps every trace property |
| Delivery.ProbeResult | bot.py:280-296 | the probe stage keeps every trace property; when every attempt collapsed it ends with pauses of 1 s and 3 s |
| Delivery.FromApiResult | bot.py:229-268 | the tikwm stage keeps every trace property |
| Delivery.DeliverResult | bot.py:209-448 | for an admitted URL: cache writes only right after a successful send, of its own URL and kind; the original before any re-encode when within the limit; a re-encoded file only when it fits; each way of delivering at most once, in order; the trace ends as the outcome says |
| Delivery.HandleResult | bot.py:192-204 | the handler replies exactly when the first URL's host is allowed, and does nothing otherwise |
| Delivery.CacheHitShortCircuits | bot.py:210-224 | a cached row whose resend completes gives one send of the row's file id, by its kind, and leaves the table as it was |
| Delivery.RequestTouchesOnlyItsRow | bot.py:209-448 | a request changes no row but its own URL's |
| Delivery.NoWriteWithoutSend | bot.py:209-448 | without a send that succeeded, the table is left as it was |
| Delivery.FailuresComeFromYtDlp | bot.py:229-268 | a request that is not delivered ends as the yt-dlp part ends: the cache resend and tikwm only ever end it with a delivery |
| Delivery.ProbeCollapses | bot.py:280-292 | the request fails with a collapsed probe exactly when all three probe attempts raised |
| Delivery.DownloadCollapses | bot.py:356-368 | the request fails with a collapsed download exactly when all three download attempts raised |
| Delivery.TooHeavyTriedEveryCrf | bot.py:417-419 | "too heavy even after transcode" only after every CRF from 18 to 28 encoded over the limit |
| Delivery.TooHeavyWritesNothing | bot.py:417-419 | the too-heavy end of the re-encode stage sends nothing and writes no cache row |
| Handler.DownloadMedia | bot.py:192-448 | `download_media`: its outcome and events are `Handle`'s, and the table afterwards is the old one with its writes replayed |
| Handler.Serve | bot.py:208-227 | the cache check: result and writes are `Deliver`'s |
| Handler.ResendCached | bot.py:210-227 | the cache hit: result and writes are `FromCache`'s for the row found |
| Handler.RecordPhoto | bot.py:246-251 | `set_cache(url, fid, "photo", 0, duration)` exactly when the first album item came back with a photo |
| Handler.RecordVideo | bot.py:387-391 | `set_cache(url, v.file_id, "video", v.file_size or size, v.duration or duration)` exactly when the send came back as a video |
| Handler.TryApi | bot.py:229-268 | result and writes are `FromApi`'s |
| Handler.SendApiAlbum | bot.py:239-253 | result and writes are `ApiAlbum`'s |
| Handler.SendApiVideo | bot.py:255-265 | result and writes are `ApiVideoUrl`'s |
| Handler.ProbeMetadata | bot.py:270-296 | result and writes are `Probe`'s |
| Handler.SendAlbum | bot.py:319-338 | result and writes are `Photos`'s |
| Handler.DownloadFile | bot.py:353-377 | result and writes are `Fetch`'s |
| Handler.SendVideo | bot.py:381-401 | result and writes are `SizeCheck`'s |
| Handler.SendTranscoded | bot.py:403-419 | result and writes are `Transcode`'s |
| Handler.SendFitted | bot.py:420-434 | result and writes are `FittedSend`'s |
| Handler.SendDocument | bot.py:435-448 | result is `DocumentFallback`'s, with no write |

## Left out

- Telegram, tikwm, yt-dlp and ffmpeg are not modelled internally. Each call is an outcome in `Delivery.World`: a reply or an exception for a send, the JSON fields for tikwm, an attempt result per attempt number for yt-dlp, and an output size (or an error) per CRF for ffmpeg.
- `run_subprocess`, the ffmpeg command line, the scaling filter and the audio settings are not modelled; only the size each CRF produces is.
- SQLite, the `updated_at` column and the `/stats` count query are not modelled. The table is a `map` from URL to row.
- The commands `/start`, `/help`, `/ping` and `/stats`, the Flask keep-alive server, `main` and the logging are not modelled. They do not touch the flow.
- The asyncio scheduling and `run_in_executor` are not modelled. One request runs on its own, so concurrent requests writing the same row are not covered.
- URL_REGEX matching is not modelled. The matched URLs are an input, empty when the message has no text.
- `Text.Lower` lowers ASCII letters only. Python's `str.lower()` also maps non-ASCII characters, and a few of them to ASCII letters: U+212A KELVIN SIGN becomes `k`, and U+0130 becomes `i` followed by a combining dot. So a URL such as `https://ti\u212Atok.com/v` is admitted by the source (bot.py:203) and sent to tikwm (bot.py:230), but refused by the model.
- `Admission.Admit`, `Admission.AdmitByHost` and `Delivery.Handle` inherit that gap: they agree with the source only on URLs whose non-ASCII characters do not lower-case to ASCII.
- Status messages: `reply_text` and `edit_text` are taken to succeed. The exception is `status.delete()`: when it raises, the flow moves on to the next stage, and `Reply.statusDeleted` carries that. The same holds for the "Attempting to send as document" message at bot.py:440: its failure is folded into the document send's own reply.
- Temporary files are not modelled. The downloaded file is removed only on the two successful video sends (bot.py:394-397 and 430-433), and the re-encoded file goes with its `TemporaryDirectory` (bot.py:405). So the model does not capture that the download stays on disk after a failure or a document send.
- The "transcode produced no file" branch (bot.py:411-414) is not modelled. In the model the re-encode either raises or reports the size of the file it wrote.
- Durations are whole seconds (`Option<int>`); yt-dlp's fractional durations are not modelled. An int duration of 0 counts as missing, as Python's `or` treats it.
- The tikwm answer without a `data` key, or with a malformed body, is folded into `ApiRaised`, like any other exception in that `try:` block.
- `choose_best_format` is modelled on its own (`FormatSelection`); `download_media` never calls it.
- `CAPTION_TEMPLATE` is modelled with its default value only; a template from the environment is not.
- The `extractor` value (bot.py:298-299) is only logged, and is not modelled.
- The source has no special handling for login-required or private content: every exception is retried, and the model follows that. It has no HEAD probe or direct-delivery planner, no batching of albums over ten photos and no audio-codec substitution, so none of these is modelled.

## Findings

| source | as written | input that shows it | evidently intended | confidence | as-written member | corrected member |
|---|---|---|---|---|---|---|
| bot.py:203 | admission tests whether an allowed domain occurs anywhere in the lower-cased URL, so `x.com` matches any host ending in `x.com` | `https://netflix.com/`, `https://dropbox.com/`, `https://box.com/` are all admitted | admit only URLs whose host is an allowed domain or one of its subdomains | high, not executed | Admission.XComSuffixAdmitted | Admission.XComSuffixRefusedByHost |
