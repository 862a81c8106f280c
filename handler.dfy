/** `download_media` as the handler runs it: one step after another against
    the cache table, with early returns, calling the retry loop, the image
    extraction and the re-encode loop. Each step is a method whose result
    and whose writes to the table are those of the matching stage of
    `Delivery`. */
module Handler {
  import opened Wrappers
  import opened DeliveryTrace
  import opened Delivery
  import DeliveryCache
  import Retry
  import ImageExtraction
  import FitEncoder
  import Caption
  import Text
  import Admission

  /** Handles one message whose text holds the URLs `urls`, returning how
      the request ended and what it did, in order. */
  method DownloadMedia(store: DeliveryCache.Store, urls: seq<string>, w: World) returns (outcome: Outcome, events: seq<Event>)
    modifies store
    ensures Delivery(outcome, events) == Handle(old(store.rows), urls, w)
    ensures store.rows == Apply(old(store.rows), events)
  {
    var admitted := Admission.AdmitByHost(urls);
    if admitted.None? {
      return Ignored, [];
    }
    outcome, events := Serve(store, admitted.value, w);
  }

  /** Step 1 for an admitted URL: a cached file id is resent first. */
  method Serve(store: DeliveryCache.Store, url: string, w: World) returns (outcome: Outcome, events: seq<Event>)
    modifies store
    ensures Delivery(outcome, events) == Deliver(old(store.rows), url, w)
    ensures store.rows == Apply(old(store.rows), events)
  {
    var cached := store.Get(url);
    if cached.Some? {
      outcome, events := ResendCached(store, url, cached.value, w);
    } else {
      outcome, events := TryApi(store, url, w);
    }
  }

  /** The cache hit: resend the row's file id by its kind; when that does
      not complete, go on to tikwm. */
  method ResendCached(store: DeliveryCache.Store, url: string, e: DeliveryCache.Entry, w: World)
    returns (outcome: Outcome, events: seq<Event>)
    modifies store
    ensures Delivery(outcome, events) == FromCache(Some(e), url, w)
    ensures store.rows == Apply(old(store.rows), events)
  {
    ghost var rows0 := store.rows;
    var r := w.resend;
    var sent := Sent(CachedFile(SendViaFor(e.kind), e.fileId), Caption.BuildCaption(url, Some(e.duration)), r.Answered?);
    if Completes(r) {
      ApplySkip(rows0, sent, []);
      return Delivered, [sent] + [];
    }
    var rest;
    outcome, rest := TryApi(store, url, w);
    ApplySkip(rows0, sent, rest);
    events := [sent] + rest;
  }

  /** `set_cache(url, fid, "photo", 0, duration)` when the first item of a
      sent album came back with a photo. */
  method RecordPhoto(store: DeliveryCache.Store, url: string, r: Reply, duration: Option<int>) returns (written: seq<Event>)
    modifies store
    ensures written == PhotoWritten(url, r, duration)
    ensures store.rows == Apply(old(store.rows), written)
  {
    written := [];
    if r.Answered? && r.file.Some? {
      var row := DeliveryCache.Row(r.file.value.fileId, "photo", 0, duration);
      ApplyPush(store.rows, [], Stored(url, row));
      store.Set(url, r.file.value.fileId, "photo", 0, duration);
      written := [Stored(url, row)];
    }
  }

  /** `set_cache(url, v.file_id, "video", v.file_size or size, v.duration or duration)`
      when a sent video came back as one. */
  method RecordVideo(store: DeliveryCache.Store, url: string, r: Reply, size: int, duration: Option<int>) returns (written: seq<Event>)
    modifies store
    ensures written == VideoWritten(url, r, size, duration)
    ensures store.rows == Apply(old(store.rows), written)
  {
    written := [];
    if r.Answered? && r.file.Some? {
      var f := r.file.value;
      var row := DeliveryCache.Row(f.fileId, "video", IntOr(f.fileSize, size), IntOrElse(f.duration, duration));
      ApplyPush(store.rows, [], Stored(url, row));
      store.Set(url, f.fileId, "video", IntOr(f.fileSize, size), IntOrElse(f.duration, duration));
      written := [Stored(url, row)];
    }
  }

  /** Step 2: the tikwm API for TikTok links, then the yt-dlp part. */
  method TryApi(store: DeliveryCache.Store, url: string, w: World) returns (outcome: Outcome, events: seq<Event>)
    modifies store
    ensures Delivery(outcome, events) == FromApi(url, w)
    ensures store.rows == Apply(old(store.rows), events)
  {
    if Text.Contains(Text.Lower(url), "tiktok.com") && w.api.ApiJson? && w.api.code == Some(0) {
      var videoUrl := StrOr(w.api.hdplay, w.api.play);
      if w.api.images != [] {
        outcome, events := SendApiAlbum(store, url, w.api.images, w);
      } else if Truthy(videoUrl) {
        outcome, events := SendApiVideo(store, url, videoUrl.value, w);
      } else {
        outcome, events := ProbeMetadata(store, url, w);
      }
    } else {
      outcome, events := ProbeMetadata(store, url, w);
    }
  }

  /** The tikwm album. */
  method SendApiAlbum(store: DeliveryCache.Store, url: string, images: seq<string>, w: World) returns (outcome: Outcome, events: seq<Event>)
    modifies store
    ensures Delivery(outcome, events) == ApiAlbum(url, images, w)
    ensures store.rows == Apply(old(store.rows), events)
  {
    ghost var rows0 := store.rows;
    var r := w.apiPhotos;
    var sent := Sent(ApiPhotos(images), Caption.BuildCaption(url, None), r.Answered?);
    var written := RecordPhoto(store, url, r, None);
    ApplySkip(rows0, sent, written);
    events := [sent] + written;
    if Completes(r) {
      return Delivered, events;
    }
    var rest;
    outcome, rest := ProbeMetadata(store, url, w);
    ApplyAppend(rows0, events, rest);
    events := events + rest;
  }

  /** The tikwm video. */
  method SendApiVideo(store: DeliveryCache.Store, url: string, videoUrl: string, w: World) returns (outcome: Outcome, events: seq<Event>)
    modifies store
    ensures Delivery(outcome, events) == ApiVideoUrl(url, videoUrl, w)
    ensures store.rows == Apply(old(store.rows), events)
  {
    ghost var rows0 := store.rows;
    var r := w.apiVideo;
    var sent := Sent(ApiVideo(videoUrl), Caption.BuildCaption(url, None), r.Answered?);
    var written := RecordVideo(store, url, r, 0, Some(0));
    ApplySkip(rows0, sent, written);
    events := [sent] + written;
    if Completes(r) {
      return Delivered, events;
    }
    var rest;
    outcome, rest := ProbeMetadata(store, url, w);
    ApplyAppend(rows0, events, rest);
    events := events + rest;
  }

  /** Step 3: the metadata probe, with retries. */
  method ProbeMetadata(store: DeliveryCache.Store, url: string, w: World) returns (outcome: Outcome, events: seq<Event>)
    modifies store
    ensures Delivery(outcome, events) == Probe(url, w)
    ensures store.rows == Apply(old(store.rows), events)
  {
    ghost var rows0 := store.rows;
    var info, delays := Retry.WithRetries(w.probe);
    ProbeSteps(url, w, info, delays);
    events := Sleeps(delays);
    ApplyWithoutWrites(rows0, events);
    if info.None? {
      return Failed(MetadataCollapsed), events;
    }
    if info.value.None? {
      return Failed(NoMetadata), events;
    }
    var rest;
    outcome, rest := SendAlbum(store, url, info.value.value, w);
    ApplyAppend(rows0, events, rest);
    events := events + rest;
  }

  /** Step 4: image URLs in the metadata go out as an album. */
  method SendAlbum(store: DeliveryCache.Store, url: string, m: Metadata, w: World) returns (outcome: Outcome, events: seq<Event>)
    modifies store
    ensures Delivery(outcome, events) == Photos(url, m, w)
    ensures store.rows == Apply(old(store.rows), events)
  {
    var images := ImageExtraction.ExtractImageUrls(m.media);
    if images == [] {
      outcome, events := DownloadFile(store, url, w);
      return;
    }
    ghost var rows0 := store.rows;
    var r := w.photoGroup;
    var sent := Sent(PhotoGroup(images), Caption.BuildCaption(url, m.duration), r.Answered?);
    var written := RecordPhoto(store, url, r, m.duration);
    ApplySkip(rows0, sent, written);
    events := [sent] + written;
    if Completes(r) {
      return Delivered, events;
    }
    var rest;
    outcome, rest := DownloadFile(store, url, w);
    ApplyAppend(rows0, events, rest);
    events := events + rest;
  }

  /** Step 5: the download, with retries. */
  method DownloadFile(store: DeliveryCache.Store, url: string, w: World) returns (outcome: Outcome, events: seq<Event>)
    modifies store
    ensures Delivery(outcome, events) == Fetch(url, w)
    ensures store.rows == Apply(old(store.rows), events)
  {
    ghost var rows0 := store.rows;
    var download, delays := Retry.WithRetries(w.download);
    FetchSteps(url, w, download, delays);
    events := Sleeps(delays);
    ApplyWithoutWrites(rows0, events);
    if download.None? {
      return Failed(DownloadCollapsed), events;
    }
    if download.value.size.None? {
      return Failed(ArtifactMissing), events;
    }
    var size := download.value.size.value;
    var duration := download.value.duration;
    var caption := Caption.BuildCaption(url, duration);
    ApplyPush(rows0, events, Fetched(size, duration));
    events := events + [Fetched(size, duration)];
    var rest;
    outcome, rest := SendVideo(store, url, size, duration, caption, w);
    ApplyAppend(rows0, events, rest);
    events := events + rest;
  }

  /** Step 6: a file within the limit goes out as it is. */
  method SendVideo(store: DeliveryCache.Store, url: string, size: nat, duration: Option<int>, caption: string, w: World)
    returns (outcome: Outcome, events: seq<Event>)
    modifies store
    ensures Delivery(outcome, events) == SizeCheck(url, size, duration, caption, w)
    ensures store.rows == Apply(old(store.rows), events)
  {
    if size > w.limit {
      outcome, events := SendTranscoded(store, url, duration, caption, w);
      return;
    }
    ghost var rows0 := store.rows;
    var r := w.sendOriginal;
    var sent := Sent(Original, caption, r.Answered?);
    var written := RecordVideo(store, url, r, size, duration);
    ApplySkip(rows0, sent, written);
    events := [sent] + written;
    if Completes(r) {
      return Delivered, events;
    }
    var rest;
    outcome, rest := SendTranscoded(store, url, duration, caption, w);
    ApplyAppend(rows0, events, rest);
    events := events + rest;
  }

  /** Step 7: re-encode to fit; an output still over the limit fails the
      request, an ffmpeg failure goes to the document fallback. */
  method SendTranscoded(store: DeliveryCache.Store, url: string, duration: Option<int>, caption: string, w: World)
    returns (outcome: Outcome, events: seq<Event>)
    modifies store
    ensures Delivery(outcome, events) == Transcode(url, duration, caption, w)
    ensures store.rows == Apply(old(store.rows), events)
  {
    ghost var rows0 := store.rows;
    var fit, _ := FitEncoder.TranscodeHighQuality(w.encode, w.limit);
    TranscodeSteps(url, duration, caption, w, fit);
    if fit.Fitted? && fit.size > w.limit {
      ApplySkip(rows0, Encoded(fit), []);
      return Failed(TooHeavy), [Encoded(fit)] + [];
    }
    var rest;
    if fit.Fitted? {
      outcome, rest := SendFitted(store, url, duration, caption, w, fit);
    } else {
      outcome, rest := SendDocument(store, url, caption, w);
    }
    ApplySkip(rows0, Encoded(fit), rest);
    events := [Encoded(fit)] + rest;
  }

  /** The re-encoded file within the limit is sent as a video. */
  method SendFitted(store: DeliveryCache.Store, url: string, duration: Option<int>, caption: string, w: World, fit: FitEncoder.Fit)
    returns (outcome: Outcome, events: seq<Event>)
    requires fit.Fitted? && fit.size <= w.limit
    modifies store
    ensures Then([Encoded(fit)], Delivery(outcome, events)) == FittedSend(url, duration, caption, w, fit)
    ensures store.rows == Apply(old(store.rows), events)
  {
    ghost var rows0 := store.rows;
    var r := w.sendTranscoded;
    var sent := Sent(Transcoded(fit.crf), caption, r.Answered?);
    var written := RecordVideo(store, url, r, fit.size, duration);
    ApplySkip(rows0, sent, written);
    events := [sent] + written;
    if Completes(r) {
      return Delivered, events;
    }
    var rest;
    outcome, rest := SendDocument(store, url, caption, w);
    ApplyAppend(rows0, events, rest);
    events := events + rest;
  }

  /** Step 8: the downloaded file as a document, the last resort. */
  method SendDocument(store: DeliveryCache.Store, url: string, caption: string, w: World)
    returns (outcome: Outcome, events: seq<Event>)
    ensures Delivery(outcome, events) == DocumentFallback(url, caption, w)
    ensures Apply(store.rows, events) == store.rows
  {
    var r := w.sendDocument;
    var sent := Sent(AsFile, caption, r.Answered?);
    events := [sent];
    ApplySkip(store.rows, sent, []);
    assert [sent] + [] == events;
    if Completes(r) {
      return Delivered, events;
    }
    return Failed(FinalAttemptFailed), events;
  }
}
