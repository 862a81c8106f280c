/** `extract_image_urls`: the photo URLs of a post, taken from the first of
    three sources that yields any: the entries with an image extension, the
    top-level URL when it has an image extension, the thumbnails. */
module ImageExtraction {
  import opened Wrappers
  import Text

  /** An entry of the info dict: its `url` and `ext` fields. */
  datatype Item = Item(url: Option<string>, ext: Option<string>)

  /** A thumbnail of the info dict: its `url` field. */
  datatype Thumbnail = Thumbnail(url: Option<string>)

  /** The fields of the info dict that are looked at; a missing or None
      `entries` or `thumbnails` is the empty sequence. */
  datatype Info = Info(entries: seq<Item>, url: Option<string>, ext: Option<string>, thumbnails: seq<Thumbnail>)

  const ImageExtensions: seq<string> := ["jpg", "jpeg", "png", "webp"]

  /** `(ext or "").lower() in ("jpg", "jpeg", "png", "webp")`. */
  predicate IsImageExt(ext: Option<string>)
  {
    ext.Some? && Text.Lower(ext.value) in ImageExtensions
  }

  /** A URL that is present and non-empty, next to an image extension. */
  predicate IsImage(url: Option<string>, ext: Option<string>)
  {
    Truthy(url) && IsImageExt(ext)
  }

  /** Tier 1: the URLs of the image entries, in entry order. */
  function EntryImages(es: seq<Item>): seq<string>
  {
    if es == [] then []
    else
      var last := es[|es| - 1];
      EntryImages(es[..|es| - 1]) + (if IsImage(last.url, last.ext) then [last.url.value] else [])
  }

  /** Tier 3: the URLs of the thumbnails that have one, in order. */
  function ThumbnailUrls(ts: seq<Thumbnail>): seq<string>
  {
    if ts == [] then []
    else
      var last := ts[|ts| - 1];
      ThumbnailUrls(ts[..|ts| - 1]) + (if Truthy(last.url) then [last.url.value] else [])
  }

  /** The list `extract_image_urls(info)` returns. */
  function ImageUrls(info: Info): seq<string>
  {
    var tier1 := EntryImages(info.entries);
    if tier1 != [] then tier1
    else if IsImage(info.url, info.ext) then [info.url.value]
    else ThumbnailUrls(info.thumbnails)
  }

  /** Tier 1 holds exactly the URLs of image entries. */
  lemma {:induction false} EntryImagesMembers(es: seq<Item>, x: string)
    ensures x in EntryImages(es) <==>
      exists i :: 0 <= i < |es| && IsImage(es[i].url, es[i].ext) && es[i].url.value == x
  {
    if es != [] {
      var init := es[..|es| - 1];
      EntryImagesMembers(init, x);
      if x in EntryImages(es) && x !in EntryImages(init) {
        assert IsImage(es[|es| - 1].url, es[|es| - 1].ext) && es[|es| - 1].url.value == x;
      }
      if exists i :: 0 <= i < |es| && IsImage(es[i].url, es[i].ext) && es[i].url.value == x {
        var i :| 0 <= i < |es| && IsImage(es[i].url, es[i].ext) && es[i].url.value == x;
        if i < |es| - 1 {
          assert init[i] == es[i];
        }
      }
    }
  }

  /** Tier 3 holds exactly the URLs of the thumbnails that have one. */
  lemma {:induction false} ThumbnailUrlsMembers(ts: seq<Thumbnail>, x: string)
    ensures x in ThumbnailUrls(ts) <==>
      exists i :: 0 <= i < |ts| && Truthy(ts[i].url) && ts[i].url.value == x
  {
    if ts != [] {
      var init := ts[..|ts| - 1];
      ThumbnailUrlsMembers(init, x);
      if x in ThumbnailUrls(ts) && x !in ThumbnailUrls(init) {
        assert Truthy(ts[|ts| - 1].url) && ts[|ts| - 1].url.value == x;
      }
      if exists i :: 0 <= i < |ts| && Truthy(ts[i].url) && ts[i].url.value == x {
        var i :| 0 <= i < |ts| && Truthy(ts[i].url) && ts[i].url.value == x;
        if i < |ts| - 1 {
          assert init[i] == ts[i];
        }
      }
    }
  }

  /** The three-tier priority, and the photo path's guard `if image_urls:`:
      the list is empty only when no source yields a URL, and never holds
      an empty string. */
  lemma ImageUrlsTiers(info: Info)
    ensures var r := ImageUrls(info);
      && (EntryImages(info.entries) != [] ==> r == EntryImages(info.entries))
      && (EntryImages(info.entries) == [] && IsImage(info.url, info.ext) ==> r == [info.url.value])
      && (EntryImages(info.entries) == [] && !IsImage(info.url, info.ext) ==> r == ThumbnailUrls(info.thumbnails))
      && (r == [] <==> (forall i :: 0 <= i < |info.entries| ==> !IsImage(info.entries[i].url, info.entries[i].ext))
                       && !IsImage(info.url, info.ext)
                       && (forall i :: 0 <= i < |info.thumbnails| ==> !Truthy(info.thumbnails[i].url)))
      && (forall x :: x in r ==> x != "")
  {
    var r := ImageUrls(info);
    var es, ts := info.entries, info.thumbnails;
    forall x | x in r
      ensures x != ""
    {
      if EntryImages(es) != [] {
        EntryImagesMembers(es, x);
      } else if !IsImage(info.url, info.ext) {
        ThumbnailUrlsMembers(ts, x);
      }
    }
    if EntryImages(es) == [] {
      forall i | 0 <= i < |es|
        ensures !IsImage(es[i].url, es[i].ext)
      {
        EntryImagesMembers(es, if es[i].url.Some? then es[i].url.value else "");
      }
    } else {
      var x := EntryImages(es)[0];
      EntryImagesMembers(es, x);
    }
    if ThumbnailUrls(ts) == [] {
      forall i | 0 <= i < |ts|
        ensures !Truthy(ts[i].url)
      {
        ThumbnailUrlsMembers(ts, if ts[i].url.Some? then ts[i].url.value else "");
      }
    } else {
      var x := ThumbnailUrls(ts)[0];
      ThumbnailUrlsMembers(ts, x);
    }
  }

  /** `extract_image_urls(info_obj)`, appending as it scans. */
  method ExtractImageUrls(info: Info) returns (images: seq<string>)
    ensures images == ImageUrls(info)
  {
    images := [];
    var entries := info.entries;
    for i := 0 to |entries|
      invariant images == EntryImages(entries[..i])
    {
      assert entries[..i + 1][..i] == entries[..i];
      var e := entries[i];
      if Truthy(e.url) && IsImageExt(e.ext) {
        images := images + [e.url.value];
      }
    }
    assert entries[..|entries|] == entries;
    // Tier 2: the info dict itself is one image.
    if images == [] && Truthy(info.url) && IsImageExt(info.ext) {
      images := images + [info.url.value];
    }
    // Tier 3: every thumbnail URL, when no tier above yielded one.
    if images == [] && info.thumbnails != [] {
      var thumbnails := info.thumbnails;
      for i := 0 to |thumbnails|
        invariant images == ThumbnailUrls(thumbnails[..i])
      {
        assert thumbnails[..i + 1][..i] == thumbnails[..i];
        if Truthy(thumbnails[i].url) {
          images := images + [thumbnails[i].url.value];
        }
      }
      assert thumbnails[..|thumbnails|] == thumbnails;
    }
  }
}
