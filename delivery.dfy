/** The decision flow of the download handler `download_media`, stage by
    stage: resend a cached file, the tikwm API for TikTok links, the
    metadata probe, the photo album, the download, the size check, the
    re-encode and the document fallback. Every Telegram call, network call,
    yt-dlp run and ffmpeg run is an outcome given in a `World`; each stage
    either ends the request or hands it to the next one. */
module Delivery {
  import opened Wrappers
  import opened DeliveryTrace
  import DeliveryCache
  import Retry
  import ImageExtraction
  import FitEncoder
  import Caption
  import Text
  import Admission

  /** The file Telegram reports back for a sent video or photo
      (`sent.video` / `sent[0].photo[-1]`). */
  datatype FileRef = FileRef(fileId: string, fileSize: Option<int>, duration: Option<int>)

  /** What one `try:` block around a send comes to: the send raised, or it
      returned (with the file Telegram reports, if any) and the status
      message was or was not deleted after it. */
  datatype Reply = Raised | Answered(file: Option<FileRef>, statusDeleted: bool)

  /** The tikwm API answer: raised (network error, HTTP error, no `data`),
      or its `code` and the `images`, `hdplay` and `play` fields of `data`. */
  datatype ApiResult =
    | ApiRaised
    | ApiJson(code: Option<int>, images: seq<string>, hdplay: Option<string>, play: Option<string>)

  /** The parts of yt-dlp's info dict the handler reads. */
  datatype Metadata = Metadata(media: ImageExtraction.Info, duration: Option<int>)

  /** A completed download: the size of the file, None when no file was
      left on disk, and the `duration` of its info dict. */
  datatype Download = Download(size: Option<nat>, duration: Option<int>)

  /** Everything outside the handler, for one request. */
  datatype World = World(
    limit: int,                                              // TELEGRAM_LIMIT_BYTES
    resend: Reply,                                           // resending the cached file id
    api: ApiResult,                                          // the tikwm request
    apiPhotos: Reply,                                        // sending the tikwm album
    apiVideo: Reply,                                         // sending the tikwm video URL
    probe: nat -> Retry.Attempt<Option<Metadata>>,           // metadata probe, by attempt
    photoGroup: Reply,                                       // sending the probed images
    download: nat -> Retry.Attempt<Download>,                // download, by attempt
    sendOriginal: Reply,                                     // sending the downloaded file
    encode: int -> Option<nat>,                              // ffmpeg at a CRF: output size
    sendTranscoded: Reply,                                   // sending the re-encoded file
    sendDocument: Reply)                                     // the document fallback

  /** How a request ended, and what it did on the way. */
  datatype Delivery = Delivery(outcome: Outcome, events: seq<Event>)

  /** The `try:` block ran to its `return`: sent, then status deleted. */
  predicate Completes(r: Reply)
  {
    r.Answered? && r.statusDeleted
  }

  function Then(block: seq<Event>, d: Delivery): Delivery
  {
    Delivery(d.outcome, block + d.events)
  }

  function Sleeps(delays: seq<nat>): (ev: seq<Event>)
    ensures |ev| == |delays|
    ensures forall i :: 0 <= i < |delays| ==> ev[i] == Slept(delays[i])
  {
    seq(|delays|, i requires 0 <= i < |delays| => Slept(delays[i]))
  }

  /** `set_cache(url, fid, "photo", 0, duration)` once an album was sent and
      its first item came back with a photo. */
  function PhotoWritten(url: string, r: Reply, duration: Option<int>): seq<Event>
  {
    if r.Answered? && r.file.Some? then
      [Stored(url, DeliveryCache.Row(r.file.value.fileId, "photo", 0, duration))]
    else []
  }

  /** `set_cache(url, v.file_id, "video", v.file_size or size, v.duration or duration)`
      once a video was sent and came back as one. */
  function VideoWritten(url: string, r: Reply, size: int, duration: Option<int>): seq<Event>
  {
    if r.Answered? && r.file.Some? then
      var f := r.file.value;
      [Stored(url, DeliveryCache.Row(f.fileId, "video", IntOr(f.fileSize, size), IntOrElse(f.duration, duration)))]
    else []
  }

  /** The properties every stage's result keeps, `k` being its first stage. */
  predicate StageResult(url: string, limit: int, k: nat, d: Delivery)
  {
    Good(url, limit, d.events) && SendsFrom(d.events, k) && Ends(d.outcome, limit, d.events) && !d.outcome.Ignored?
  }

  /** One `try:` block around a send: the send, the cache write that
      follows it, and then the request ends when the block completed, or
      goes on with `next` when it raised or the status was not deleted. */
  function AfterSend(r: Reply, sent: Event, written: seq<Event>, next: Delivery): Delivery
  {
    if Completes(r) then Delivery(Delivered, [sent] + written) else Then([sent] + written, next)
  }

  // ---- The stages ----

  /** 1) A cached row is resent by its kind; only a resend that completes
      ends the request. */
  function FromCache(cached: Option<DeliveryCache.Entry>, url: string, w: World): Delivery
  {
    match cached
    case None => FromApi(url, w)
    case Some(e) =>
      var sent := Sent(CachedFile(SendViaFor(e.kind), e.fileId), Caption.BuildCaption(url, Some(e.duration)), w.resend.Answered?);
      AfterSend(w.resend, sent, [], FromApi(url, w))
  }

  /** 2) TikTok links go through the tikwm API first; anything else, and
      any failure there, falls through to yt-dlp. */
  function FromApi(url: string, w: World): Delivery
  {
    if Text.Contains(Text.Lower(url), "tiktok.com") && w.api.ApiJson? && w.api.code == Some(0) then
      FromApiData(url, w.api.images, StrOr(w.api.hdplay, w.api.play), w)
    else Probe(url, w)
  }

  /** The tikwm answer with `code == 0`: its album, else its `hdplay or
      play` video; without either the request goes on to yt-dlp. */
  function FromApiData(url: string, images: seq<string>, videoUrl: Option<string>, w: World): Delivery
  {
    if images != [] then ApiAlbum(url, images, w)
    else if Truthy(videoUrl) then ApiVideoUrl(url, videoUrl.value, w)
    else Probe(url, w)
  }

  /** The tikwm album, recorded as a photo of size 0 without duration. */
  function ApiAlbum(url: string, images: seq<string>, w: World): Delivery
  {
    var sent := Sent(ApiPhotos(images), Caption.BuildCaption(url, None), w.apiPhotos.Answered?);
    AfterSend(w.apiPhotos, sent, PhotoWritten(url, w.apiPhotos, None), Probe(url, w))
  }

  /** The tikwm video URL, recorded with `file_size or 0` and `duration or 0`. */
  function ApiVideoUrl(url: string, videoUrl: string, w: World): Delivery
  {
    var sent := Sent(ApiVideo(videoUrl), Caption.BuildCaption(url, None), w.apiVideo.Answered?);
    AfterSend(w.apiVideo, sent, VideoWritten(url, w.apiVideo, 0, Some(0)), Probe(url, w))
  }

  /** 3) The metadata probe, retried; without metadata the request fails. */
  function Probe(url: string, w: World): Delivery
  {
    var o := Retry.RetryFrom(w.probe, 0);
    var slept := Sleeps(o.delays);
    match o.result
    case None => Delivery(Failed(MetadataCollapsed), slept)
    case Some(info) =>
      if info.None? then Delivery(Failed(NoMetadata), slept)
      else Then(slept, Photos(url, info.value, w))
  }

  /** 4) A post with image URLs is sent as an album. */
  function Photos(url: string, m: Metadata, w: World): Delivery
  {
    var images := ImageExtraction.ImageUrls(m.media);
    if images == [] then Fetch(url, w)
    else
      var sent := Sent(PhotoGroup(images), Caption.BuildCaption(url, m.duration), w.photoGroup.Answered?);
      AfterSend(w.photoGroup, sent, PhotoWritten(url, w.photoGroup, m.duration), Fetch(url, w))
  }

  /** 5) The download, retried; it must leave a file behind. */
  function Fetch(url: string, w: World): Delivery
  {
    var o := Retry.RetryFrom(w.download, 0);
    var slept := Sleeps(o.delays);
    match o.result
    case None => Delivery(Failed(DownloadCollapsed), slept)
    case Some(dl) =>
      if dl.size.None? then Delivery(Failed(ArtifactMissing), slept)
      else
        var caption := Caption.BuildCaption(url, dl.duration);
        Then(slept, Then([Fetched(dl.size.value, dl.duration)], SizeCheck(url, dl.size.value, dl.duration, caption, w)))
  }

  /** 6) A file within the limit is sent as it is; a larger one, or one
      whose send did not complete, is re-encoded. */
  function SizeCheck(url: string, size: nat, duration: Option<int>, caption: string, w: World): Delivery
  {
    if size <= w.limit then
      var sent := Sent(Original, caption, w.sendOriginal.Answered?);
      AfterSend(w.sendOriginal, sent, VideoWritten(url, w.sendOriginal, size, duration), Transcode(url, duration, caption, w))
    else Transcode(url, duration, caption, w)
  }

  /** 7) The CRF loop; an output still over the limit fails the request,
      one within it is sent, and an ffmpeg failure goes to the document
      fallback. */
  function Transcode(url: string, duration: Option<int>, caption: string, w: World): Delivery
  {
    var fit := FitEncoder.FitFrom(w.encode, w.limit, FitEncoder.InitialCrf);
    match fit
    case EncodeFailed(_) => Then([Encoded(fit)], DocumentFallback(url, caption, w))
    case Fitted(_, outSize) =>
      if outSize > w.limit then Delivery(Failed(TooHeavy), [Encoded(fit)])
      else FittedSend(url, duration, caption, w, fit)
  }

  /** The re-encoded file within the limit is sent as a video; a send that
      does not complete goes to the document fallback. */
  function FittedSend(url: string, duration: Option<int>, caption: string, w: World, fit: FitEncoder.Fit): Delivery
    requires fit.Fitted?
  {
    var sent := Sent(Transcoded(fit.crf), caption, w.sendTranscoded.Answered?);
    Then([Encoded(fit)], AfterSend(w.sendTranscoded, sent, VideoWritten(url, w.sendTranscoded, fit.size, duration), DocumentFallback(url, caption, w)))
  }

  /** 8) The downloaded file as a document, the last resort. */
  function DocumentFallback(url: string, caption: string, w: World): Delivery
  {
    var sent := Sent(AsFile, caption, w.sendDocument.Answered?);
    Delivery(if Completes(w.sendDocument) then Delivered else Failed(FinalAttemptFailed), [sent])
  }

  /** A request for an admitted URL, against the cache table `rows`. */
  function Deliver(rows: map<string, DeliveryCache.Entry>, url: string, w: World): Delivery
  {
    FromCache(if url in rows then Some(rows[url]) else None, url, w)
  }

  /** `download_media` on a message whose text holds the URLs `urls`,
      admitting by host name (`Admission.AdmitByHost`) rather than by the
      substring test of bot.py:203, which admits hosts such as netflix.com. */
  function Handle(rows: map<string, DeliveryCache.Entry>, urls: seq<string>, w: World): Delivery
  {
    match Admission.AdmitByHost(urls)
    case None => Delivery(Ignored, [])
    case Some(url) => Deliver(rows, url, w)
  }

  // ---- Unfolding the retried stages ----

  /** Probe as the retry loop's result and pauses decide it. */
  lemma ProbeSteps(url: string, w: World, info: Option<Option<Metadata>>, delays: seq<nat>)
    requires Retry.Outcome(info, delays) == Retry.RetryFrom(w.probe, 0)
    ensures info.None? ==> Probe(url, w) == Delivery(Failed(MetadataCollapsed), Sleeps(delays))
    ensures info.Some? && info.value.None? ==> Probe(url, w) == Delivery(Failed(NoMetadata), Sleeps(delays))
    ensures info.Some? && info.value.Some? ==> Probe(url, w) == Then(Sleeps(delays), Photos(url, info.value.value, w))
  {
  }

  /** Fetch as the retry loop's result and pauses decide it. */
  lemma FetchSteps(url: string, w: World, dl: Option<Download>, delays: seq<nat>)
    requires Retry.Outcome(dl, delays) == Retry.RetryFrom(w.download, 0)
    ensures dl.None? ==> Fetch(url, w) == Delivery(Failed(DownloadCollapsed), Sleeps(delays))
    ensures dl.Some? && dl.value.size.None? ==> Fetch(url, w) == Delivery(Failed(ArtifactMissing), Sleeps(delays))
    ensures dl.Some? && dl.value.size.Some? ==>
      var size := dl.value.size.value;
      var caption := Caption.BuildCaption(url, dl.value.duration);
      Fetch(url, w) == Then(Sleeps(delays) + [Fetched(size, dl.value.duration)], SizeCheck(url, size, dl.value.duration, caption, w))
  {
    if dl.Some? && dl.value.size.Some? {
      var size := dl.value.size.value;
      var caption := Caption.BuildCaption(url, dl.value.duration);
      var rest := SizeCheck(url, size, dl.value.duration, caption, w);
      assert Sleeps(delays) + ([Fetched(size, dl.value.duration)] + rest.events)
          == (Sleeps(delays) + [Fetched(size, dl.value.duration)]) + rest.events;
    }
  }

  /** Transcode as the outcome of the CRF loop decides it. */
  lemma TranscodeSteps(url: string, duration: Option<int>, caption: string, w: World, fit: FitEncoder.Fit)
    requires fit == FitEncoder.FitFrom(w.encode, w.limit, FitEncoder.InitialCrf)
    ensures fit.EncodeFailed? ==> Transcode(url, duration, caption, w) == Then([Encoded(fit)], DocumentFallback(url, caption, w))
    ensures fit.Fitted? && fit.size > w.limit ==> Transcode(url, duration, caption, w) == Delivery(Failed(TooHeavy), [Encoded(fit)])
    ensures fit.Fitted? && fit.size <= w.limit ==> Transcode(url, duration, caption, w) == FittedSend(url, duration, caption, w, fit)
  {
  }

  // ---- What every stage keeps ----

  /** The document fallback: one send, and the request ends with it. */
  lemma DocumentFallbackResult(url: string, caption: string, w: World)
    ensures StageResult(url, w.limit, 5, DocumentFallback(url, caption, w))
  {
    var sent := Sent(AsFile, caption, w.sendDocument.Answered?);
    SendBlockGood(url, w.limit, sent, []);
    assert [sent] + [] == [sent];
  }

  /** The re-encoded file is sent right after the re-encode that fitted. */
  lemma FittedSendResult(url: string, duration: Option<int>, caption: string, w: World, fit: FitEncoder.Fit)
    requires fit.Fitted? && fit.size <= w.limit
    ensures StageResult(url, w.limit, 4, FittedSend(url, duration, caption, w, fit))
    ensures FittedSend(url, duration, caption, w, fit).events[0] == Encoded(fit)
  {
    var next := DocumentFallback(url, caption, w);
    DocumentFallbackResult(url, caption, w);
    var sent := Sent(Transcoded(fit.crf), caption, w.sendTranscoded.Answered?);
    var written := VideoWritten(url, w.sendTranscoded, fit.size, duration);
    TranscodeBlockGood(url, w.limit, fit, sent, written);
    var block := [Encoded(fit), sent] + written;
    assert [Encoded(fit)] + ([sent] + written) == block;
    if Completes(w.sendTranscoded) {
      assert block[|block| - 1] == (if written == [] then sent else written[0]);
    } else {
      ThenKeeps(url, w.limit, 4, 5, block, next);
      assert [Encoded(fit)] + ([sent] + written + next.events) == block + next.events;
    }
  }

  /** The CRF loop's result: the re-encode event comes first, a request
      that fails as too heavy ends on the last CRF over the limit. */
  lemma TranscodeResult(url: string, duration: Option<int>, caption: string, w: World)
    ensures StageResult(url, w.limit, 4, Transcode(url, duration, caption, w))
    ensures |Transcode(url, duration, caption, w).events| > 0 && Transcode(url, duration, caption, w).events[0].Encoded?
    ensures var d := Transcode(url, duration, caption, w);
      d.events[0].fit.EncodeFailed? ==>
        && |d.events| == 2 && d.events[1].Sent? && d.events[1].media == AsFile
        && (d.outcome == Delivered <==> Completes(w.sendDocument))
  {
    var fit := FitEncoder.FitFrom(w.encode, w.limit, FitEncoder.InitialCrf);
    FitEncoder.FitExitCondition(w.encode, w.limit, FitEncoder.InitialCrf);
    if fit.EncodeFailed? {
      DocumentFallbackResult(url, caption, w);
      ThenKeeps(url, w.limit, 4, 5, [Encoded(fit)], DocumentFallback(url, caption, w));
    } else if fit.size <= w.limit {
      FittedSendResult(url, duration, caption, w, fit);
    }
  }

  /** One send and its cache write, then the next stage: the trace
      properties carry over from `next` to the whole. */
  lemma AfterSendResult(url: string, limit: int, j: nat, k: nat, r: Reply, sent: Event, written: seq<Event>, next: Delivery)
    requires sent.Sent? && sent.ok == r.Answered? && !sent.media.Transcoded?
    requires Stage(sent.media) == j < k && WriteAfter(url, sent, written)
    requires StageResult(url, limit, k, next)
    ensures StageResult(url, limit, j, AfterSend(r, sent, written, next))
    ensures AfterSend(r, sent, written, next).events[0] == sent
  {
    SendBlockGood(url, limit, sent, written);
    var block := [sent] + written;
    if Completes(r) {
      assert block[|block| - 1] == (if written == [] then sent else written[0]);
    } else {
      ThenKeeps(url, limit, j, k, block, next);
    }
  }

  /** The size check: a file within the limit is sent as it is before
      anything else; a larger one goes straight to the re-encode. */
  lemma SizeCheckResult(url: string, size: nat, duration: Option<int>, caption: string, w: World)
    ensures var d := SizeCheck(url, size, duration, caption, w);
      && StageResult(url, w.limit, 3, d) && |d.events| > 0
      && (size <= w.limit ==> d.events[0].Sent? && d.events[0].media == Original)
      && (size > w.limit ==> d.events[0].Encoded?)
  {
    TranscodeResult(url, duration, caption, w);
    if size <= w.limit {
      var sent := Sent(Original, caption, w.sendOriginal.Answered?);
      AfterSendResult(url, w.limit, 3, 4, w.sendOriginal, sent, VideoWritten(url, w.sendOriginal, size, duration),
        Transcode(url, duration, caption, w));
    }
  }

  /** The download stage. */
  lemma FetchResult(url: string, w: World)
    ensures StageResult(url, w.limit, 3, Fetch(url, w))
  {
    var o := Retry.RetryFrom(w.download, 0);
    Retry.RetrySchedule(w.download);
    var slept := Sleeps(o.delays);
    if o.result.Some? && o.result.value.size.Some? {
      var dl := o.result.value;
      var caption := Caption.BuildCaption(url, dl.duration);
      var rest := SizeCheck(url, dl.size.value, dl.duration, caption, w);
      SizeCheckResult(url, dl.size.value, dl.duration, caption, w);
      FetchedGood(url, w.limit, dl.size.value, dl.duration, rest);
      ThenKeeps(url, w.limit, 3, 3, slept, Then([Fetched(dl.size.value, dl.duration)], rest));
    } else if o.result.None? {
      assert slept[0] == Slept(1) && slept[1] == Slept(3);
    }
  }

  /** The album stage. */
  lemma PhotosResult(url: string, m: Metadata, w: World)
    ensures StageResult(url, w.limit, 2, Photos(url, m, w))
  {
    FetchResult(url, w);
    var images := ImageExtraction.ImageUrls(m.media);
    if images != [] {
      var sent := Sent(PhotoGroup(images), Caption.BuildCaption(url, m.duration), w.photoGroup.Answered?);
      AfterSendResult(url, w.limit, 2, 3, w.photoGroup, sent, PhotoWritten(url, w.photoGroup, m.duration), Fetch(url, w));
    }
  }

  /** The probe stage. */
  lemma ProbeResult(url: string, w: World)
    ensures StageResult(url, w.limit, 2, Probe(url, w))
  {
    var o := Retry.RetryFrom(w.probe, 0);
    Retry.RetrySchedule(w.probe);
    var slept := Sleeps(o.delays);
    if o.result.Some? && o.result.value.Some? {
      PhotosResult(url, o.result.value.value, w);
      ThenKeeps(url, w.limit, 2, 2, slept, Photos(url, o.result.value.value, w));
    } else if o.result.None? {
      assert slept[0] == Slept(1) && slept[1] == Slept(3);
    }
  }

  /** The tikwm stage. */
  lemma FromApiResult(url: string, w: World)
    ensures StageResult(url, w.limit, 1, FromApi(url, w))
  {
    ProbeResult(url, w);
    if Text.Contains(Text.Lower(url), "tiktok.com") && w.api.ApiJson? && w.api.code == Some(0) {
      var videoUrl := StrOr(w.api.hdplay, w.api.play);
      if w.api.images != [] {
        var sent := Sent(ApiPhotos(w.api.images), Caption.BuildCaption(url, None), w.apiPhotos.Answered?);
        AfterSendResult(url, w.limit, 1, 2, w.apiPhotos, sent, PhotoWritten(url, w.apiPhotos, None), Probe(url, w));
      } else if Truthy(videoUrl) {
        var sent := Sent(ApiVideo(videoUrl.value), Caption.BuildCaption(url, None), w.apiVideo.Answered?);
        AfterSendResult(url, w.limit, 1, 2, w.apiVideo, sent, VideoWritten(url, w.apiVideo, 0, Some(0)), Probe(url, w));
      }
    }
  }

  /** A request for an admitted URL keeps every trace property: writes
      follow successful sends, the original is tried first, re-encoded
      files fit, each way of delivering is tried at most once and in
      order, and the trace ends as its outcome says. */
  lemma DeliverResult(rows: map<string, DeliveryCache.Entry>, url: string, w: World)
    ensures StageResult(url, w.limit, 0, Deliver(rows, url, w))
  {
    FromApiResult(url, w);
    if url in rows {
      var e := rows[url];
      var sent := Sent(CachedFile(SendViaFor(e.kind), e.fileId), Caption.BuildCaption(url, Some(e.duration)), w.resend.Answered?);
      AfterSendResult(url, w.limit, 0, 1, w.resend, sent, [], FromApi(url, w));
    }
  }

  /** `download_media` replies exactly when the host of the first URL is
      allowed, and does nothing otherwise. */
  lemma HandleResult(rows: map<string, DeliveryCache.Entry>, urls: seq<string>, w: World)
    ensures Handle(rows, urls, w).outcome.Ignored? <==> Admission.AdmitByHost(urls).None?
    ensures Handle(rows, urls, w).outcome.Ignored? ==> Handle(rows, urls, w).events == []
    ensures Admission.AdmitByHost(urls).Some? ==> StageResult(urls[0], w.limit, 0, Handle(rows, urls, w))
  {
    if Admission.AdmitByHost(urls).Some? {
      DeliverResult(rows, urls[0], w);
    }
  }

  // ---- Properties of the flow ----

  /** A cached row whose resend completes answers the request on the spot:
      one send, by the row's kind, and the cache is left as it was. */
  lemma CacheHitShortCircuits(rows: map<string, DeliveryCache.Entry>, url: string, w: World)
    requires url in rows && Completes(w.resend)
    ensures var d := Deliver(rows, url, w);
      && d.outcome == Delivered && |d.events| == 1
      && d.events[0] == Sent(CachedFile(SendViaFor(rows[url].kind), rows[url].fileId),
                             Caption.BuildCaption(url, Some(rows[url].duration)), true)
      && Apply(rows, d.events) == rows
  {
    var d := Deliver(rows, url, w);
    ApplyWithoutWrites(rows, d.events);
  }

  /** A request only ever writes the row of its own URL. */
  lemma RequestTouchesOnlyItsRow(rows: map<string, DeliveryCache.Entry>, url: string, w: World, v: string)
    requires v != url
    ensures v in Apply(rows, Deliver(rows, url, w).events) <==> v in rows
    ensures v in rows ==> Apply(rows, Deliver(rows, url, w).events)[v] == rows[v]
  {
    var ev := Deliver(rows, url, w).events;
    DeliverResult(rows, url, w);
    assert forall i :: 0 <= i < |ev| && ev[i].Stored? ==> ev[i].url == url;
    ApplyKeepsOthers(rows, url, ev, v);
  }

  /** Without a send that succeeded the cache is not written at all. */
  lemma NoWriteWithoutSend(rows: map<string, DeliveryCache.Entry>, url: string, w: World)
    requires forall i :: 0 <= i < |Deliver(rows, url, w).events| ==> !SentOk(Deliver(rows, url, w).events[i])
    ensures Apply(rows, Deliver(rows, url, w).events) == rows
  {
    var ev := Deliver(rows, url, w).events;
    DeliverResult(rows, url, w);
    assert forall i :: 0 <= i < |ev| ==> !ev[i].Stored?;
    ApplyWithoutWrites(rows, ev);
  }

  /** A request that is not delivered ends the way the yt-dlp part ends:
      the cache resend and the tikwm API only ever end it with a delivery. */
  lemma FailuresComeFromYtDlp(rows: map<string, DeliveryCache.Entry>, url: string, w: World)
    requires !Deliver(rows, url, w).outcome.Delivered?
    ensures Deliver(rows, url, w).outcome == Probe(url, w).outcome
  {
    var api := FromApi(url, w);
    if Text.Contains(Text.Lower(url), "tiktok.com") && w.api.ApiJson? && w.api.code == Some(0) {
      var videoUrl := StrOr(w.api.hdplay, w.api.play);
      assert api == FromApiData(url, w.api.images, videoUrl, w);
      if w.api.images != [] {
        assert api == ApiAlbum(url, w.api.images, w);
      } else if Truthy(videoUrl) {
        assert api == ApiVideoUrl(url, videoUrl.value, w);
      }
    }
  }

  /** The metadata probe fails the request as collapsed exactly when all
      three attempts raised. */
  lemma ProbeCollapses(url: string, w: World)
    ensures Probe(url, w).outcome == Failed(MetadataCollapsed) <==>
      forall k :: 0 <= k <= Retry.MaxDownloadRetries ==> w.probe(k).Raised?
  {
    Retry.RetrySchedule(w.probe);
    var o := Retry.RetryFrom(w.probe, 0);
    if o.result.Some? && o.result.value.Some? {
      var m := o.result.value.value;
      assert Probe(url, w) == Then(Sleeps(o.delays), Photos(url, m, w));
      assert Photos(url, m, w).outcome != Failed(MetadataCollapsed) by {
        var images := ImageExtraction.ImageUrls(m.media);
        if images == [] {
          assert Photos(url, m, w) == Fetch(url, w);
          FetchNeverCollapsesMetadata(url, w);
        } else if !Completes(w.photoGroup) {
          FetchNeverCollapsesMetadata(url, w);
        }
      }
    }
  }

  lemma FetchNeverCollapsesMetadata(url: string, w: World)
    ensures Fetch(url, w).outcome != Failed(MetadataCollapsed)
  {
    var o := Retry.RetryFrom(w.download, 0);
    if o.result.Some? && o.result.value.size.Some? {
      var dl := o.result.value;
      var caption := Caption.BuildCaption(url, dl.duration);
      var t := Transcode(url, dl.duration, caption, w);
      assert t.outcome != Failed(MetadataCollapsed) by {
        var fit := FitEncoder.FitFrom(w.encode, w.limit, FitEncoder.InitialCrf);
        assert DocumentFallback(url, caption, w).outcome != Failed(MetadataCollapsed);
      }
    }
  }

  /** The download fails the request as collapsed exactly when all three
      attempts raised. */
  lemma DownloadCollapses(url: string, w: World)
    ensures Fetch(url, w).outcome == Failed(DownloadCollapsed) <==>
      forall k :: 0 <= k <= Retry.MaxDownloadRetries ==> w.download(k).Raised?
  {
    Retry.RetrySchedule(w.download);
    var o := Retry.RetryFrom(w.download, 0);
    if o.result.Some? && o.result.value.size.Some? {
      var dl := o.result.value;
      var caption := Caption.BuildCaption(url, dl.duration);
      assert DocumentFallback(url, caption, w).outcome != Failed(DownloadCollapsed);
    }
  }

  /** "Too heavy even after transcode" is reported only after every CRF of
      the schedule, 18 up to 28, was encoded and came out over the limit. */
  lemma TooHeavyTriedEveryCrf(url: string, duration: Option<int>, caption: string, w: World)
    requires Transcode(url, duration, caption, w).outcome == Failed(TooHeavy)
    ensures forall c :: FitEncoder.OnSchedule(c) ==> w.encode(c).Some? && w.encode(c).value > w.limit
  {
    var fit := FitEncoder.FitFrom(w.encode, w.limit, FitEncoder.InitialCrf);
    FitEncoder.FitEndsOnSchedule(w.encode, w.limit, FitEncoder.InitialCrf);
    FitEncoder.FitExitCondition(w.encode, w.limit, FitEncoder.InitialCrf);
    assert fit.Fitted? && fit.size > w.limit;
    forall c | FitEncoder.OnSchedule(c)
      ensures w.encode(c).Some? && w.encode(c).value > w.limit
    {
      if c < fit.crf {
        FitEncoder.FitIsFirstThatFits(w.encode, w.limit, FitEncoder.InitialCrf, c);
      }
    }
  }

  /** "Too heavy even after transcode" writes nothing to the cache: the
      re-encode stage ends on the oversized output without a send. */
  lemma TooHeavyWritesNothing(rows: map<string, DeliveryCache.Entry>, url: string, duration: Option<int>, caption: string, w: World)
    requires Transcode(url, duration, caption, w).outcome == Failed(TooHeavy)
    ensures Apply(rows, Transcode(url, duration, caption, w).events) == rows
    ensures forall i :: 0 <= i < |Transcode(url, duration, caption, w).events| ==> !Transcode(url, duration, caption, w).events[i].Sent?
  {
    var fit := FitEncoder.FitFrom(w.encode, w.limit, FitEncoder.InitialCrf);
    if fit.EncodeFailed? || fit.size <= w.limit {
      assert false;
    }
    ApplySkip(rows, Encoded(fit), []);
  }

  // ---- Gluing stages together ----

  predicate WriteAfter(url: string, e: Event, written: seq<Event>)
  {
    || written == []
    || (&& |written| == 1 && written[0].Stored? && written[0].url == url
        && SentOk(e) && WritesCache(e.media) && written[0].row.kind == KindOf(e.media))
  }

  lemma SendBlockGood(url: string, limit: int, e: Event, written: seq<Event>)
    requires e.Sent? && !e.media.Transcoded? && WriteAfter(url, e, written)
    ensures Good(url, limit, [e] + written)
    ensures SendsFrom([e] + written, Stage(e.media)) && SendsBefore([e] + written, Stage(e.media) + 1)
  {
    var b := [e] + written;
    assert b[0] == e;
    assert |b| == 2 ==> b[1] == written[0];
  }

  lemma TranscodeBlockGood(url: string, limit: int, fit: FitEncoder.Fit, e: Event, written: seq<Event>)
    requires fit.Fitted? && fit.size <= limit
    requires e.Sent? && e.media == Transcoded(fit.crf) && WriteAfter(url, e, written)
    ensures Good(url, limit, [Encoded(fit), e] + written)
    ensures SendsFrom([Encoded(fit), e] + written, 4) && SendsBefore([Encoded(fit), e] + written, 5)
  {
    var b := [Encoded(fit), e] + written;
    assert b[0] == Encoded(fit) && b[1] == e;
    assert |b| == 3 ==> b[2] == written[0];
  }

  lemma FetchedGood(url: string, limit: int, size: nat, duration: Option<int>, rest: Delivery)
    requires StageResult(url, limit, 3, rest) && |rest.events| > 0
    requires size <= limit ==> rest.events[0].Sent? && rest.events[0].media == Original
    requires size > limit ==> rest.events[0].Encoded?
    ensures StageResult(url, limit, 3, Then([Fetched(size, duration)], rest))
  {
    var f := [Fetched(size, duration)];
    WritesConcat(url, f, rest.events);
    TranscodedConcat(limit, f, rest.events);
    OrderConcat(3, f, rest.events);
    FetchedFirst(limit, f[0], rest.events);
    ThenSendsFrom(3, f, rest.events);
    EndsAfter(rest.outcome, limit, f, rest.events);
  }

  lemma FetchedFirst(limit: int, f: Event, ev: seq<Event>)
    requires f.Fetched? && OriginalTriedFirst(limit, ev) && |ev| > 0
    requires f.size <= limit ==> ev[0].Sent? && ev[0].media == Original
    requires f.size > limit ==> ev[0].Encoded?
    ensures OriginalTriedFirst(limit, [f] + ev)
  {
    var fe := [f] + ev;
    forall i | 1 <= i < |fe| && fe[i].Fetched?
      ensures i + 1 < |fe|
      ensures fe[i].size <= limit ==> fe[i + 1].Sent? && fe[i + 1].media == Original
      ensures fe[i].size > limit ==> fe[i + 1].Encoded?
    {
      assert fe[i] == ev[i - 1] && fe[i + 1] == ev[i];
    }
    assert fe[0] == f && fe[1] == ev[0];
  }

  lemma ThenSendsFrom(k: nat, block: seq<Event>, ev: seq<Event>)
    requires SendsFrom(block, k) && SendsFrom(ev, k)
    ensures SendsFrom(block + ev, k)
  {
    var all := block + ev;
    forall i | 0 <= i < |all| && all[i].Sent?
      ensures k <= Stage(all[i].media)
    {
      if i >= |block| {
        assert all[i] == ev[i - |block|];
      } else {
        assert all[i] == block[i];
      }
    }
  }

  lemma ThenKeeps(url: string, limit: int, j: nat, k: nat, block: seq<Event>, d: Delivery)
    requires Good(url, limit, block) && SendsFrom(block, j) && SendsBefore(block, k) && j <= k
    requires StageResult(url, limit, k, d)
    ensures StageResult(url, limit, j, Then(block, d))
  {
    GoodConcat(url, limit, k, block, d.events);
    EndsAfter(d.outcome, limit, block, d.events);
    ThenSendsFrom(j, block, d.events);
  }
}
