/** `build_caption`: the caption attached to every media send, rendered from
    the default CAPTION_TEMPLATE with the URL and the duration in seconds,
    or the word `unknown` when no usable duration is known. */
module Caption {
  import opened Wrappers

  const Unknown: string := "unknown"

  /** The default template, split around its `{url}` and `{duration}` fields. */
  const Head: string := "\U{1F5E1}\U{FE0F} gate="
  const Middle: string := "\nlvl="
  const Tail: string := "s\nsource=shadow-extractor"

  function DigitChar(d: int): (c: char)
    requires 0 <= d < 10
    ensures '0' <= c <= '9'
  {
    ('0' as int + d) as char
  }

  /** Python's `str(n)` for a natural number. */
  function NatDecimal(n: nat): (s: string)
    ensures |s| > 0
    ensures forall i :: 0 <= i < |s| ==> '0' <= s[i] <= '9'
  {
    if n < 10 then [DigitChar(n)] else NatDecimal(n / 10) + [DigitChar(n % 10)]
  }

  /** Python's `str(n)` for an integer: a minus sign for negative values. */
  function Decimal(n: int): (s: string)
    ensures |s| > 0
    ensures forall i :: 0 < i < |s| ==> '0' <= s[i] <= '9'
    ensures s[0] == '-' || '0' <= s[0] <= '9'
  {
    if n < 0 then "-" + NatDecimal(-n) else NatDecimal(n)
  }

  /** The `{duration}` field: `int(duration) if duration else None`, then
      `duration or "unknown"`. `duration` is the info dict's `duration`,
      None when there is no info dict or it has no duration. */
  function DurationField(duration: Option<int>): (s: string)
    ensures (duration.None? || duration.value == 0) <==> s == Unknown
    ensures duration.Some? && duration.value != 0 ==> s == Decimal(duration.value)
  {
    if duration.Some? && duration.value != 0 then
      var s := Decimal(duration.value);
      assert s[0] != Unknown[0];
      s
    else Unknown
  }

  /** `build_caption(url, info)` with the default template. */
  function BuildCaption(url: string, duration: Option<int>): (c: string)
    ensures |c| == |Head| + |url| + |Middle| + |DurationField(duration)| + |Tail|
    ensures c[..|Head|] == Head && c[|Head|..|Head| + |url|] == url
    ensures c[|Head| + |url|..|Head| + |url| + |Middle|] == Middle
    ensures c[|Head| + |url| + |Middle|..|c| - |Tail|] == DurationField(duration)
    ensures c[|c| - |Tail|..] == Tail
  {
    Head + url + Middle + DurationField(duration) + Tail
  }

  /** Reads a decimal numeral back (`int(s)` on digits). */
  function ParseNat(s: string): nat
  {
    if s == [] then 0
    else
      var d := s[|s| - 1] as int - '0' as int;
      ParseNat(s[..|s| - 1]) * 10 + (if 0 <= d < 10 then d else 0)
  }

  /** Reads an optionally signed decimal numeral back. */
  function ParseInt(s: string): int
  {
    if |s| > 0 && s[0] == '-' then 0 - ParseNat(s[1..]) else ParseNat(s)
  }

  lemma {:induction false} NatDecimalRoundTrip(n: nat)
    ensures ParseNat(NatDecimal(n)) == n
  {
    if n >= 10 {
      NatDecimalRoundTrip(n / 10);
      var s := NatDecimal(n);
      assert s[..|s| - 1] == NatDecimal(n / 10);
    }
  }

  /** A known duration survives rendering: the caption's duration field
      reads back as the number of seconds, and never as `unknown`. */
  lemma DurationFieldRoundTrip(d: int)
    requires d != 0
    ensures DurationField(Some(d)) != Unknown
    ensures ParseInt(DurationField(Some(d))) == d
  {
    var s := DurationField(Some(d));
    assert s == Decimal(d);
    if d < 0 {
      var t := NatDecimal(-d);
      NatDecimalRoundTrip(-d);
      assert s == "-" + t;
      assert s[1..] == t;
    } else {
      NatDecimalRoundTrip(d);
      assert s == NatDecimal(d);
    }
  }

  /** What a reader of the caption recovers: the URL sits right after the
      head, and the field between the middle and the tail reads back as the
      duration in seconds when one is known, and is `unknown` otherwise. */
  lemma CaptionReadBack(url: string, duration: Option<int>)
    ensures var c := BuildCaption(url, duration);
      var field := c[|Head| + |url| + |Middle|..|c| - |Tail|];
      && c[|Head|..|Head| + |url|] == url
      && (duration.Some? && duration.value != 0 ==> field != Unknown && ParseInt(field) == duration.value)
      && (duration.None? || duration.value == 0 ==> field == Unknown)
  {
    if duration.Some? && duration.value != 0 {
      DurationFieldRoundTrip(duration.value);
    }
  }
}
