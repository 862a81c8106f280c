/** What one request to the download handler does that can be observed from
    outside: the sends it attempts, the cache rows it writes, the pauses
    between retries, the file it downloads and the re-encode it settles on,
    in order, and how it ends. The properties the handler keeps are stated
    here as predicates on such traces. */
module DeliveryTrace {
  import opened Wrappers
  import DeliveryCache
  import FitEncoder

  /** How a cached file id is resent, chosen by the row's `kind`. */
  datatype SendVia = AsVideo | AsPhoto | AsDocument

  function SendViaFor(kind: string): SendVia
  {
    if kind == "video" then AsVideo else if kind == "photo" then AsPhoto else AsDocument
  }

  /** What a send carries. */
  datatype Media =
    | CachedFile(via: SendVia, fileId: string)  // a file id from the cache
    | ApiPhotos(urls: seq<string>)              // the tikwm photo album
    | ApiVideo(url: string)                     // the tikwm `hdplay or play` URL
    | PhotoGroup(urls: seq<string>)             // the image URLs found by yt-dlp's probe
    | Original                                  // the downloaded file, untouched
    | Transcoded(crf: int)                      // the re-encoded file
    | AsFile                                    // the downloaded file as a document

  /** The order in which the handler tries its ways of delivering. */
  function Stage(m: Media): nat
  {
    match m
    case CachedFile(_, _) => 0
    case ApiPhotos(_) => 1
    case ApiVideo(_) => 1
    case PhotoGroup(_) => 2
    case Original => 3
    case Transcoded(_) => 4
    case AsFile => 5
  }

  /** The sends after which the handler records the file id Telegram gave back. */
  predicate WritesCache(m: Media)
  {
    m.ApiPhotos? || m.ApiVideo? || m.PhotoGroup? || m.Original? || m.Transcoded?
  }

  /** The `kind` recorded for a send. */
  function KindOf(m: Media): string
  {
    if m.ApiPhotos? || m.PhotoGroup? then "photo" else "video"
  }

  datatype Event =
    | Sent(media: Media, caption: string, ok: bool)  // ok: the Telegram call returned
    | Stored(url: string, row: DeliveryCache.Entry)  // a `set_cache` call
    | Slept(seconds: nat)                            // a pause between two attempts
    | Fetched(size: nat, duration: Option<int>)      // the downloaded file
    | Encoded(fit: FitEncoder.Fit)                   // how the re-encode loop ended

  datatype Failure =
    | MetadataCollapsed   // every metadata probe raised
    | NoMetadata          // the probe returned no info
    | DownloadCollapsed   // every download raised
    | ArtifactMissing     // the download left no file
    | TooHeavy            // still over the limit at the last CRF
    | FinalAttemptFailed  // the document fallback raised

  /** `Ignored`: the handler returned before replying at all. `Delivered`:
      it deleted its status message after a send, its only successful end. */
  datatype Outcome = Ignored | Delivered | Failed(reason: Failure)

  predicate SentOk(e: Event)
  {
    e.Sent? && e.ok
  }

  /** The cache is written only right after a send that succeeded, for the
      request's own URL, with the kind of what was sent; a resent cached
      file and the document fallback are never recorded. */
  predicate WritesFollowSends(url: string, ev: seq<Event>)
  {
    forall i {:trigger ev[i].Stored?} :: 0 <= i < |ev| && ev[i].Stored? ==>
      && 0 < i && SentOk(ev[i - 1]) && WritesCache(ev[i - 1].media)
      && ev[i].url == url && ev[i].row.kind == KindOf(ev[i - 1].media)
  }

  /** A downloaded file within the limit is sent as it is before anything
      else is tried; a larger one goes straight to the re-encode. */
  predicate OriginalTriedFirst(limit: int, ev: seq<Event>)
  {
    forall i {:trigger ev[i].Fetched?} :: 0 <= i < |ev| && ev[i].Fetched? ==>
      && i + 1 < |ev|
      && (ev[i].size <= limit ==> ev[i + 1].Sent? && ev[i + 1].media == Original)
      && (ev[i].size > limit ==> ev[i + 1].Encoded?)
  }

  /** A re-encoded file is sent only when the re-encode came out within the limit. */
  predicate TranscodedFits(limit: int, ev: seq<Event>)
  {
    forall i {:trigger ev[i].media.Transcoded?} :: 0 <= i < |ev| && ev[i].Sent? && ev[i].media.Transcoded? ==>
      && 0 < i && ev[i - 1].Encoded? && ev[i - 1].fit.Fitted?
      && ev[i - 1].fit.crf == ev[i].media.crf && ev[i - 1].fit.size <= limit
  }

  /** Each way of delivering is tried at most once, in the handler's order. */
  predicate SendsInOrder(ev: seq<Event>)
  {
    forall i, j {:trigger ev[i].Sent?, ev[j].Sent?} :: 0 <= i < j < |ev| && ev[i].Sent? && ev[j].Sent? ==> Stage(ev[i].media) < Stage(ev[j].media)
  }

  /** Every send belongs to stage `k` or a later one. */
  predicate SendsFrom(ev: seq<Event>, k: nat)
  {
    forall i {:trigger ev[i].Sent?} :: 0 <= i < |ev| && ev[i].Sent? ==> k <= Stage(ev[i].media)
  }

  /** Every send belongs to a stage before `k`. */
  predicate SendsBefore(ev: seq<Event>, k: nat)
  {
    forall i {:trigger ev[i].Sent?} :: 0 <= i < |ev| && ev[i].Sent? ==> Stage(ev[i].media) < k
  }

  predicate Good(url: string, limit: int, ev: seq<Event>)
  {
    WritesFollowSends(url, ev) && OriginalTriedFirst(limit, ev) && TranscodedFits(limit, ev) && SendsInOrder(ev)
  }

  /** How each outcome shows at the end of the trace. */
  predicate Ends(o: Outcome, limit: int, ev: seq<Event>)
  {
    && (o.Ignored? ==> ev == [])
    && (o.Delivered? ==> |ev| > 0 && (SentOk(ev[|ev| - 1]) || (|ev| > 1 && ev[|ev| - 1].Stored? && SentOk(ev[|ev| - 2]))))
    && (o == Failed(TooHeavy) ==>
          && |ev| > 0 && ev[|ev| - 1].Encoded? && ev[|ev| - 1].fit.Fitted?
          && ev[|ev| - 1].fit.crf == FitEncoder.CrfFloor && ev[|ev| - 1].fit.size > limit)
    && (o == Failed(MetadataCollapsed) || o == Failed(DownloadCollapsed) ==>
          |ev| >= 2 && ev[|ev| - 2] == Slept(1) && ev[|ev| - 1] == Slept(3))
    && (o == Failed(FinalAttemptFailed) ==> |ev| > 0 && ev[|ev| - 1].Sent? && ev[|ev| - 1].media == AsFile)
  }

  /** A block of events followed by the rest of a request keeps the trace
      properties, when the block's sends all come from earlier stages. */
  lemma GoodConcat(url: string, limit: int, k: nat, a: seq<Event>, b: seq<Event>)
    requires Good(url, limit, a) && Good(url, limit, b)
    requires SendsBefore(a, k) && SendsFrom(b, k)
    ensures Good(url, limit, a + b)
  {
    WritesConcat(url, a, b);
    OriginalConcat(limit, a, b);
    TranscodedConcat(limit, a, b);
    OrderConcat(k, a, b);
  }

  lemma WritesConcat(url: string, a: seq<Event>, b: seq<Event>)
    requires WritesFollowSends(url, a) && WritesFollowSends(url, b)
    ensures WritesFollowSends(url, a + b)
  {
    var ab := a + b;
    forall i | |a| <= i < |ab| && ab[i].Stored?
      ensures 0 < i && SentOk(ab[i - 1]) && WritesCache(ab[i - 1].media)
      ensures ab[i].url == url && ab[i].row.kind == KindOf(ab[i - 1].media)
    {
      assert ab[i] == b[i - |a|];
      assert 0 < i - |a|;
      assert ab[i - 1] == b[i - |a| - 1];
    }
    assert forall i :: 0 <= i < |a| ==> ab[i] == a[i];
  }

  lemma OriginalConcat(limit: int, a: seq<Event>, b: seq<Event>)
    requires OriginalTriedFirst(limit, a) && OriginalTriedFirst(limit, b)
    ensures OriginalTriedFirst(limit, a + b)
  {
    var ab := a + b;
    forall i | |a| <= i < |ab| && ab[i].Fetched?
      ensures i + 1 < |ab|
      ensures ab[i].size <= limit ==> ab[i + 1].Sent? && ab[i + 1].media == Original
      ensures ab[i].size > limit ==> ab[i + 1].Encoded?
    {
      assert ab[i] == b[i - |a|];
      assert ab[i + 1] == b[i - |a| + 1];
    }
    assert forall i :: 0 <= i < |a| ==> ab[i] == a[i];
  }

  lemma TranscodedConcat(limit: int, a: seq<Event>, b: seq<Event>)
    requires TranscodedFits(limit, a) && TranscodedFits(limit, b)
    ensures TranscodedFits(limit, a + b)
  {
    var ab := a + b;
    forall i | |a| <= i < |ab| && ab[i].Sent? && ab[i].media.Transcoded?
      ensures 0 < i && ab[i - 1].Encoded? && ab[i - 1].fit.Fitted?
      ensures ab[i - 1].fit.crf == ab[i].media.crf && ab[i - 1].fit.size <= limit
    {
      assert ab[i] == b[i - |a|];
      assert 0 < i - |a|;
      assert ab[i - 1] == b[i - |a| - 1];
    }
    assert forall i :: 0 <= i < |a| ==> ab[i] == a[i];
  }

  lemma OrderConcat(k: nat, a: seq<Event>, b: seq<Event>)
    requires SendsInOrder(a) && SendsInOrder(b)
    requires SendsBefore(a, k) && SendsFrom(b, k)
    ensures SendsInOrder(a + b)
  {
    var ab := a + b;
    forall i, j | 0 <= i < j < |ab| && ab[i].Sent? && ab[j].Sent?
      ensures Stage(ab[i].media) < Stage(ab[j].media)
    {
      if j < |a| {
        assert ab[i] == a[i] && ab[j] == a[j];
      } else if i < |a| {
        assert ab[i] == a[i] && ab[j] == b[j - |a|];
      } else {
        assert ab[i] == b[i - |a|] && ab[j] == b[j - |a|];
      }
    }
  }

  /** Whatever came before, a request still ends the way its last stage says. */
  lemma EndsAfter(o: Outcome, limit: int, a: seq<Event>, b: seq<Event>)
    requires Ends(o, limit, b) && !o.Ignored?
    ensures Ends(o, limit, a + b)
  {
    var ab := a + b;
    if |b| > 0 {
      assert ab[|ab| - 1] == b[|b| - 1];
    }
    if |b| > 1 {
      assert ab[|ab| - 2] == b[|b| - 2];
    }
  }

  /** The cache table after the request: its writes replayed in order. */
  function Apply(rows: map<string, DeliveryCache.Entry>, ev: seq<Event>): map<string, DeliveryCache.Entry>
  {
    if ev == [] then rows
    else
      var before := Apply(rows, ev[..|ev| - 1]);
      match ev[|ev| - 1]
      case Stored(u, e) => DeliveryCache.Upsert(before, u, e)
      case _ => before
  }

  /** Replaying two blocks of events is replaying one after the other. */
  lemma {:induction false} ApplyAppend(rows: map<string, DeliveryCache.Entry>, a: seq<Event>, b: seq<Event>)
    ensures Apply(rows, a + b) == Apply(Apply(rows, a), b)
    decreases |b|
  {
    if b == [] {
      assert a + b == a;
    } else {
      assert (a + b)[..|a + b| - 1] == a + b[..|b| - 1];
      ApplyAppend(rows, a, b[..|b| - 1]);
    }
  }

  /** Replaying one more event. */
  lemma ApplyPush(rows: map<string, DeliveryCache.Entry>, ev: seq<Event>, x: Event)
    ensures x.Stored? ==> Apply(rows, ev + [x]) == DeliveryCache.Upsert(Apply(rows, ev), x.url, x.row)
    ensures !x.Stored? ==> Apply(rows, ev + [x]) == Apply(rows, ev)
  {
    assert (ev + [x])[..|ev|] == ev;
  }

  /** An event that is not a write, ahead of a block, changes nothing. */
  lemma ApplySkip(rows: map<string, DeliveryCache.Entry>, x: Event, ev: seq<Event>)
    requires !x.Stored?
    ensures Apply(rows, [x] + ev) == Apply(rows, ev)
  {
    ApplyPush(rows, [], x);
    assert [] + [x] == [x];
    ApplyAppend(rows, [x], ev);
  }

  /** The rows of other URLs are untouched by a request that writes only its own. */
  lemma {:induction false} ApplyKeepsOthers(rows: map<string, DeliveryCache.Entry>, url: string, ev: seq<Event>, v: string)
    requires forall i :: 0 <= i < |ev| && ev[i].Stored? ==> ev[i].url == url
    requires v != url
    ensures v in Apply(rows, ev) <==> v in rows
    ensures v in rows ==> Apply(rows, ev)[v] == rows[v]
  {
    if ev != [] {
      var init := ev[..|ev| - 1];
      assert forall i :: 0 <= i < |init| ==> init[i] == ev[i];
      ApplyKeepsOthers(rows, url, init, v);
    }
  }

  /** A trace without writes leaves the cache as it was. */
  lemma {:induction false} ApplyWithoutWrites(rows: map<string, DeliveryCache.Entry>, ev: seq<Event>)
    requires forall i :: 0 <= i < |ev| ==> !ev[i].Stored?
    ensures Apply(rows, ev) == rows
  {
    if ev != [] {
      var init := ev[..|ev| - 1];
      assert forall i :: 0 <= i < |init| ==> init[i] == ev[i];
      ApplyWithoutWrites(rows, init);
    }
  }
}
