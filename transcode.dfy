/** The size-fitting re-encode of `transcode_high_quality`: encode at CRF 18,
    and while the output is over the byte ceiling raise the CRF by 2, giving
    up on quality at CRF 28. Each ffmpeg run followed by `os.path.getsize`
    is an oracle `encode(crf)`: the size of the output file, or None when
    ffmpeg fails (`check=True` raises) or leaves no file to measure. */
module FitEncoder {
  import opened Wrappers

  const InitialCrf: int := 18
  const CrfStep: int := 2
  const CrfFloor: int := 28

  /** The CRF values the loop can reach: 18, 20, ..., 28. */
  predicate OnSchedule(crf: int)
  {
    InitialCrf <= crf <= CrfFloor && (crf - InitialCrf) % CrfStep == 0
  }

  /** How the loop ends: with the last output and its CRF, or with the
      ffmpeg failure that escapes it as an exception. */
  datatype Fit = Fitted(crf: int, size: nat) | EncodeFailed(crf: int)

  /** The outcome of the loop once it has reached `crf`. */
  function FitFrom(encode: int -> Option<nat>, maxBytes: int, crf: int): Fit
    decreases CrfFloor - crf
  {
    match encode(crf)
    case None => EncodeFailed(crf)
    case Some(size) =>
      if size <= maxBytes || crf >= CrfFloor then Fitted(crf, size)
      else FitFrom(encode, maxBytes, crf + CrfStep)
  }

  /** The CRF values encoded, in order, once the loop has reached `crf`. */
  function Tried(encode: int -> Option<nat>, maxBytes: int, crf: int): seq<int>
    decreases CrfFloor - crf
  {
    match encode(crf)
    case None => [crf]
    case Some(size) =>
      if size <= maxBytes || crf >= CrfFloor then [crf]
      else [crf] + Tried(encode, maxBytes, crf + CrfStep)
  }

  /** The schedule 18, 20, ... up to and including `last`. */
  function Schedule(last: int): (s: seq<int>)
    requires OnSchedule(last)
    ensures |s| == (last - InitialCrf) / CrfStep + 1
    ensures forall i :: 0 <= i < |s| ==> s[i] == InitialCrf + CrfStep * i
    decreases last
  {
    if last == InitialCrf then [InitialCrf] else Schedule(last - CrfStep) + [last]
  }

  /** The loop ends on the schedule, at or after where it stands, and its
      result is the oracle's answer for that CRF. */
  lemma {:induction false} FitEndsOnSchedule(encode: int -> Option<nat>, maxBytes: int, crf: int)
    requires OnSchedule(crf)
    ensures var r := FitFrom(encode, maxBytes, crf);
      && OnSchedule(r.crf) && crf <= r.crf
      && (r.Fitted? ==> encode(r.crf) == Some(r.size))
      && (r.EncodeFailed? ==> encode(r.crf) == None)
    decreases CrfFloor - crf
  {
    match encode(crf)
    case None =>
    case Some(size) =>
      if !(size <= maxBytes || crf >= CrfFloor) {
        FitEndsOnSchedule(encode, maxBytes, crf + CrfStep);
      }
  }

  /** The loop stops only when the output fits or the CRF floor is reached:
      an output still over the ceiling was encoded at CRF 28. */
  lemma {:induction false} FitExitCondition(encode: int -> Option<nat>, maxBytes: int, crf: int)
    requires OnSchedule(crf)
    ensures var r := FitFrom(encode, maxBytes, crf);
      r.Fitted? ==> r.size <= maxBytes || r.crf == CrfFloor
    decreases CrfFloor - crf
  {
    match encode(crf)
    case None =>
    case Some(size) =>
      if !(size <= maxBytes || crf >= CrfFloor) {
        FitExitCondition(encode, maxBytes, crf + CrfStep);
      }
  }

  /** Best quality first: every CRF below the one returned was encoded
      successfully and came out over the ceiling. */
  lemma {:induction false} FitIsFirstThatFits(encode: int -> Option<nat>, maxBytes: int, crf: int, c: int)
    requires OnSchedule(crf)
    requires crf <= c < FitFrom(encode, maxBytes, crf).crf && (c - crf) % CrfStep == 0
    ensures encode(c).Some? && encode(c).value > maxBytes
    decreases CrfFloor - crf
  {
    match encode(crf)
    case None =>
    case Some(size) =>
      if !(size <= maxBytes || crf >= CrfFloor) && c != crf {
        FitIsFirstThatFits(encode, maxBytes, crf + CrfStep, c);
      }
  }

  /** The encodes run from CRF 18 are exactly 18, 20, ... up to the CRF
      returned: increasing, never above 28, and at most six of them. */
  lemma {:induction false} TriedIsSchedule(encode: int -> Option<nat>, maxBytes: int, crf: int)
    requires OnSchedule(crf)
    ensures OnSchedule(FitFrom(encode, maxBytes, crf).crf)
    ensures Schedule(crf) + Tried(encode, maxBytes, crf)[1..] == Schedule(FitFrom(encode, maxBytes, crf).crf)
    decreases CrfFloor - crf
  {
    FitEndsOnSchedule(encode, maxBytes, crf);
    match encode(crf)
    case None =>
    case Some(size) =>
      if !(size <= maxBytes || crf >= CrfFloor) {
        var next := crf + CrfStep;
        TriedIsSchedule(encode, maxBytes, next);
        assert Schedule(next) == Schedule(crf) + [next];
        assert Tried(encode, maxBytes, crf)[1..] == Tried(encode, maxBytes, next);
        assert Tried(encode, maxBytes, next) == [next] + Tried(encode, maxBytes, next)[1..];
      }
  }

  /** At most (28 - 18) / 2 + 1 = 6 encodes, with CRFs 18, 20, ... in order. */
  lemma EncodeCountBound(encode: int -> Option<nat>, maxBytes: int)
    ensures var t := Tried(encode, maxBytes, InitialCrf);
      && 1 <= |t| <= 6
      && (forall i :: 0 <= i < |t| ==> t[i] == InitialCrf + CrfStep * i && t[i] <= CrfFloor)
      && t[|t| - 1] == FitFrom(encode, maxBytes, InitialCrf).crf
  {
    TriedIsSchedule(encode, maxBytes, InitialCrf);
    var t := Tried(encode, maxBytes, InitialCrf);
    assert t == [InitialCrf] + t[1..];
  }

  /** `transcode_high_quality(input, output, max_bytes)`. `tried` records
      the CRF of every ffmpeg run, in order. */
  method TranscodeHighQuality(encode: int -> Option<nat>, maxBytes: int) returns (r: Fit, ghost tried: seq<int>)
    ensures r == FitFrom(encode, maxBytes, InitialCrf)
    ensures OnSchedule(r.crf)
    ensures r.Fitted? ==> encode(r.crf) == Some(r.size) && (r.size <= maxBytes || r.crf == CrfFloor)
    ensures r.EncodeFailed? ==> encode(r.crf) == None
    ensures tried == Tried(encode, maxBytes, InitialCrf)
    ensures 1 <= |tried| <= 6 && tried[|tried| - 1] == r.crf
    ensures forall i :: 0 <= i < |tried| ==> tried[i] == InitialCrf + CrfStep * i
  {
    var crf := InitialCrf;
    tried := [];
    while true
      invariant OnSchedule(crf)
      invariant FitFrom(encode, maxBytes, crf) == FitFrom(encode, maxBytes, InitialCrf)
      invariant tried + Tried(encode, maxBytes, crf) == Tried(encode, maxBytes, InitialCrf)
      decreases CrfFloor - crf
    {
      var out := encode(crf);
      tried := tried + [crf];
      if out.None? {
        r := EncodeFailed(crf);
        break;
      }
      var size := out.value;
      if size <= maxBytes || crf >= CrfFloor {
        r := Fitted(crf, size);
        break;
      }
      assert Tried(encode, maxBytes, crf) == [crf] + Tried(encode, maxBytes, crf + CrfStep);
      crf := crf + CrfStep;
    }
    EncodeCountBound(encode, maxBytes);
  }
}
