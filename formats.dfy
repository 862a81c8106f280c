/** `choose_best_format`: among the formats yt-dlp reports, the one with the
    greatest (height, size) pair, compared lexicographically. */
module FormatSelection {
  import opened Wrappers

  /** The fields of one yt-dlp format dict that the choice looks at. */
  datatype Format = Format(height: Option<int>, filesize: Option<int>, filesizeApprox: Option<int>)

  /** The fields of the info dict that the choice looks at; `formats` is
      None when the key is missing or holds None. */
  datatype Info = Info(formats: Option<seq<Format>>)

  /** `info` itself, or one of its formats. */
  datatype Choice = InfoItself | BestFormat(f: Format)

  datatype Score = Score(height: int, size: int)

  /** `score(f)`: `(height or 0, filesize or filesize_approx or 0)`. */
  function ScoreOf(f: Format): (s: Score)
    ensures s.height == IntOr(f.height, 0)
    ensures f.filesize.Some? && f.filesize.value != 0 ==> s.size == f.filesize.value
    ensures (f.filesize.None? || f.filesize.value == 0) ==> s.size == IntOr(f.filesizeApprox, 0)
  {
    Score(IntOr(f.height, 0), IntOr(f.filesize, IntOr(f.filesizeApprox, 0)))
  }

  /** Python's `<` on the pair: height first, size breaks ties. */
  predicate Below(a: Score, b: Score)
  {
    a.height < b.height || (a.height == b.height && a.size < b.size)
  }

  /** `k` is where `max(formats, key=score)` stops: no format scores above
      it, and every format before it scores strictly below it. */
  predicate IsFirstMax(fs: seq<Format>, k: int)
  {
    && 0 <= k < |fs|
    && (forall j :: 0 <= j < |fs| ==> !Below(ScoreOf(fs[k]), ScoreOf(fs[j])))
    && (forall j :: 0 <= j < k ==> Below(ScoreOf(fs[j]), ScoreOf(fs[k])))
  }

  /** The index `max` settles on, scanning left to right and replacing the
      current best only on a strictly greater score. */
  function FirstMaxIndex(fs: seq<Format>): (k: nat)
    requires |fs| > 0
    ensures IsFirstMax(fs, k)
  {
    if |fs| == 1 then 0
    else
      var k := FirstMaxIndex(fs[..|fs| - 1]);
      if Below(ScoreOf(fs[k]), ScoreOf(fs[|fs| - 1])) then |fs| - 1 else k
  }

  /** Only one index satisfies IsFirstMax, so the choice is determined. */
  lemma FirstMaxUnique(fs: seq<Format>, k1: int, k2: int)
    requires IsFirstMax(fs, k1) && 0 <= k2 < |fs| && k2 != k1
    ensures !IsFirstMax(fs, k2)
  {
    if k1 < k2 {
      assert !Below(ScoreOf(fs[k1]), ScoreOf(fs[k2]));
    } else {
      assert Below(ScoreOf(fs[k2]), ScoreOf(fs[k1]));
    }
  }

  /** `choose_best_format(info)`. */
  function ChooseBestFormat(info: Info): (r: Choice)
    ensures (info.formats.None? || info.formats.value == []) <==> r == InfoItself
    ensures r.BestFormat? ==> exists k :: IsFirstMax(info.formats.value, k) && info.formats.value[k] == r.f
  {
    if info.formats.None? || info.formats.value == [] then InfoItself
    else
      var k := FirstMaxIndex(info.formats.value);
      BestFormat(info.formats.value[k])
  }

  /** The chosen format scores at least as high as every format offered. */
  lemma ChoiceDominates(info: Info, g: Format)
    requires ChooseBestFormat(info).BestFormat? && g in info.formats.value
    ensures !Below(ScoreOf(ChooseBestFormat(info).f), ScoreOf(g))
  {
    var fs := info.formats.value;
    var j :| 0 <= j < |fs| && fs[j] == g;
    assert IsFirstMax(fs, FirstMaxIndex(fs));
  }
}
