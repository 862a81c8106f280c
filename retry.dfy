/** The retry loops around yt-dlp's metadata probe and download: up to
    MAX_DOWNLOAD_RETRIES + 1 attempts, a pause of `1 + attempt * 2` seconds
    after every failed attempt but the last, and no pause after the last.
    An attempt is an oracle `op(attempt)` that either raises or returns. */
module Retry {
  import opened Wrappers

  const MaxDownloadRetries: nat := 2

  datatype Attempt<+T> = Raised | Returned(value: T)

  /** `asyncio.sleep(1 + attempt * 2)`, in seconds. */
  function Backoff(attempt: nat): nat
  {
    1 + attempt * 2
  }

  /** What the loop yields (None: every attempt raised) and the pauses it
      took, in order. */
  datatype Outcome<+T> = Outcome(result: Option<T>, delays: seq<nat>)

  /** The loop from attempt number `attempt` on. */
  function RetryFrom<T>(op: nat -> Attempt<T>, attempt: nat): Outcome<T>
    requires attempt <= MaxDownloadRetries
    decreases MaxDownloadRetries - attempt
  {
    match op(attempt)
    case Returned(v) => Outcome(Some(v), [])
    case Raised =>
      if attempt < MaxDownloadRetries then
        var rest := RetryFrom(op, attempt + 1);
        Outcome(rest.result, [Backoff(attempt)] + rest.delays)
      else Outcome(None, [])
  }

  /** From attempt `a` on: the pauses are Backoff(a), Backoff(a + 1), ...;
      one pause per failed attempt that is not the last; a result is the
      value of the first attempt that returned, and none means that every
      remaining attempt raised. */
  lemma {:induction false} RetryFromShape<T>(op: nat -> Attempt<T>, a: nat)
    requires a <= MaxDownloadRetries
    ensures var o := RetryFrom(op, a);
      && a + |o.delays| <= MaxDownloadRetries
      && (forall i :: 0 <= i < |o.delays| ==> o.delays[i] == Backoff(a + i))
      && (forall k :: a <= k < a + |o.delays| ==> op(k).Raised?)
      && (o.result.Some? ==> op(a + |o.delays|) == Returned(o.result.value))
      && (o.result.None? ==> a + |o.delays| == MaxDownloadRetries && op(MaxDownloadRetries).Raised?)
    decreases MaxDownloadRetries - a
  {
    if op(a).Raised? && a < MaxDownloadRetries {
      RetryFromShape(op, a + 1);
    }
  }

  /** The loop as the handler runs it: at most three attempts; it fails only
      when all three raised, and then it paused exactly 1 and 3 seconds and
      not after the last failure; otherwise it yields the first value
      returned, after one pause per failed attempt. */
  lemma RetrySchedule<T>(op: nat -> Attempt<T>)
    ensures var o := RetryFrom(op, 0);
      && |o.delays| + 1 <= MaxDownloadRetries + 1
      && (o.result.None? <==> (forall k :: 0 <= k <= MaxDownloadRetries ==> op(k).Raised?))
      && (o.result.None? ==> o.delays == [1, 3])
      && (o.result.Some? ==> op(|o.delays|) == Returned(o.result.value)
                             && (forall k :: 0 <= k < |o.delays| ==> op(k).Raised?)
                             && (forall i :: 0 <= i < |o.delays| ==> o.delays[i] == Backoff(i)))
  {
    RetryFromShape(op, 0);
    var o := RetryFrom(op, 0);
    if o.result.None? {
      assert o.delays == [Backoff(0), Backoff(1)];
    } else {
      assert op(|o.delays|).Returned?;
    }
  }

  /** `for attempt in range(MAX_DOWNLOAD_RETRIES + 1): try ... break except ...`. */
  method WithRetries<T>(op: nat -> Attempt<T>) returns (result: Option<T>, delays: seq<nat>)
    ensures Outcome(result, delays) == RetryFrom(op, 0)
  {
    result := None;
    delays := [];
    for attempt := 0 to MaxDownloadRetries + 1
      invariant attempt <= MaxDownloadRetries
      invariant RetryFrom(op, 0) == Outcome(RetryFrom(op, attempt).result, delays + RetryFrom(op, attempt).delays)
    {
      var outcome := op(attempt);
      if outcome.Returned? {
        result := Some(outcome.value);
        break;
      }
      if attempt < MaxDownloadRetries {
        delays := delays + [Backoff(attempt)];
      } else {
        return;
      }
    }
  }
}
