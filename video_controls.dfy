/** The pure helpers of the player's control bar (frontend/src/components/VideoPlayer/VideoControls.jsx):
    the clock text shown for the current time and the duration, the buffered ranges drawn
    on the progress bar, and the choice of volume icon and slider value. */
module VideoControls {
  import opened Wrappers
  import opened Text
  import Playback

  // ---------------------------------------------------------------------------
  // Clock text

  /** Truncation toward zero, the quotient JavaScript's `%` uses. */
  function Trunc(x: real): int {
    if x >= 0.0 then x.Floor else -((-x).Floor)
  }

  /** JavaScript's `a % b` on numbers: the remainder has the sign of `a`. */
  function JsRemainder(a: real, b: real): real
    requires b != 0.0
  {
    a - b * (Trunc(a / b) as real)
  }

  /** `formatTime`: hours, minutes and seconds taken with `Math.floor`; the hours are
      shown only when positive, and minutes (after hours) and seconds are padded to two
      digits. */
  function FormatTime(seconds: real): string {
    var hrs := (seconds / 3600.0).Floor;
    var mins := (JsRemainder(seconds, 3600.0) / 60.0).Floor;
    var secs := JsRemainder(seconds, 60.0).Floor;
    if hrs > 0 then
      IntToString(hrs) + ":" + PadStart2(IntToString(mins)) + ":" + PadStart2(IntToString(secs))
    else
      IntToString(mins) + ":" + PadStart2(IntToString(secs))
  }

  /** Two decimal digits denoting a value below 60. */
  predicate IsSexagesimal(s: string) {
    |s| == 2 && AllDigits(s) && ParseNat(s) < 60
  }

  /** Reads a clock text back into whole seconds. Accepted are `m:ss` with `m < 60`
      and `h:mm:ss` with `h >= 1`, where `ss` and `mm` are two digits below 60. */
  function ParseClock(text: string): Option<nat> {
    ClockFields(Split(text, ":"))
  }

  /** The seconds denoted by the colon-separated fields of a clock text. */
  function ClockFields(parts: seq<string>): Option<nat> {
    if |parts| == 2 && IsNumeral(parts[0]) && ParseNat(parts[0]) < 60 && IsSexagesimal(parts[1]) then
      Some(ParseNat(parts[0]) * 60 + ParseNat(parts[1]))
    else if |parts| == 3 && IsNumeral(parts[0]) && ParseNat(parts[0]) >= 1
         && IsSexagesimal(parts[1]) && IsSexagesimal(parts[2]) then
      Some(ParseNat(parts[0]) * 3600 + ParseNat(parts[1]) * 60 + ParseNat(parts[2]))
    else None
  }

  /** For a non-negative time the clock text is well formed (`m:ss` below an hour,
      `h:mm:ss` from an hour on) and reads back as the whole number of seconds. */
  lemma FormatTimeRoundTrip(seconds: real)
    requires seconds >= 0.0
    ensures ParseClock(FormatTime(seconds)) == Some(seconds.Floor as nat)
    ensures |Split(FormatTime(seconds), ":")| == (if seconds < 3600.0 then 2 else 3)
  {
    var n: nat := seconds.Floor;
    WholeSecondParts(seconds);
    assert FormatTime(seconds) == ClockOf(n);
    if n < 3600 {
      ClockBelowHour(n);
    } else {
      ClockFromHour(n);
    }
  }

  /** The clock text of a whole number of seconds. */
  function ClockOf(n: nat): string {
    var h, m, s := n / 3600, (n % 3600) / 60, n % 60;
    if h > 0 then
      IntToString(h) + ":" + PadStart2(IntToString(m)) + ":" + PadStart2(IntToString(s))
    else
      IntToString(m) + ":" + PadStart2(IntToString(s))
  }

  lemma ClockBelowHour(n: nat)
    requires n < 3600
    ensures Split(ClockOf(n), ":") == [NatToString(n / 60), PadStart2(NatToString(n % 60))]
    ensures ParseClock(ClockOf(n)) == Some(n)
  {
    ClockBelowHourSplit(n);
    ParseTwoFields(ClockOf(n), n / 60, n % 60, n);
  }

  /** `m:ss` with both fields below 60 reads back as `n == m * 60 + s`. */
  lemma ParseTwoFields(text: string, m: nat, s: nat, n: nat)
    requires m < 60 && s < 60 && n == m * 60 + s
    requires Split(text, ":") == [NatToString(m), PadStart2(NatToString(s))]
    ensures ParseClock(text) == Some(n)
  {
    PaddedPair(s);
    ParseNatToString(m);
    ReadTwo(text, NatToString(m), PadStart2(NatToString(s)), n);
  }

  lemma ReadTwo(text: string, a: string, b: string, n: nat)
    requires Split(text, ":") == [a, b]
    requires IsNumeral(a) && ParseNat(a) < 60 && IsSexagesimal(b)
    requires n == ParseNat(a) * 60 + ParseNat(b)
    ensures ParseClock(text) == Some(n)
  {
  }

  /** `h:mm:ss` with `h >= 1` and the other fields below 60 reads back as
      `n == h * 3600 + m * 60 + s`. */
  lemma ParseThreeFields(text: string, h: nat, m: nat, s: nat, n: nat)
    requires h >= 1 && m < 60 && s < 60 && n == h * 3600 + m * 60 + s
    requires Split(text, ":") == [NatToString(h), PadStart2(NatToString(m)), PadStart2(NatToString(s))]
    ensures ParseClock(text) == Some(n)
  {
    PaddedPair(m);
    PaddedPair(s);
    ParseNatToString(h);
    ReadThree(text, NatToString(h), PadStart2(NatToString(m)), PadStart2(NatToString(s)), n);
  }

  lemma ReadThree(text: string, a: string, b: string, c: string, n: nat)
    requires Split(text, ":") == [a, b, c]
    requires IsNumeral(a) && ParseNat(a) >= 1 && IsSexagesimal(b) && IsSexagesimal(c)
    requires n == ParseNat(a) * 3600 + ParseNat(b) * 60 + ParseNat(c)
    ensures ParseClock(text) == Some(n)
  {
    ThreeFields([a, b, c], n);
  }

  lemma ThreeFields(parts: seq<string>, n: nat)
    requires |parts| == 3 && IsNumeral(parts[0]) && ParseNat(parts[0]) >= 1
    requires IsSexagesimal(parts[1]) && IsSexagesimal(parts[2])
    requires n == ParseNat(parts[0]) * 3600 + ParseNat(parts[1]) * 60 + ParseNat(parts[2])
    ensures ClockFields(parts) == Some(n)
  {
  }

  lemma ClockBelowHourSplit(n: nat)
    requires n < 3600
    ensures Split(ClockOf(n), ":") == [NatToString(n / 60), PadStart2(NatToString(n % 60))]
  {
    var m, s := n / 60, n % 60;
    assert n % 3600 == n;
    var tm, ts := NatToString(m), PadStart2(NatToString(s));
    PaddedPair(s);
    SplitTwo(tm, ts);
    assert ClockOf(n) == tm + ":" + ts;
  }

  lemma ClockFromHour(n: nat)
    requires n >= 3600
    ensures |Split(ClockOf(n), ":")| == 3
    ensures ParseClock(ClockOf(n)) == Some(n)
  {
    ClockFromHourSplit(n);
    HourArithmetic(n);
    ParseThreeFields(ClockOf(n), n / 3600, (n % 3600) / 60, n % 60, n);
  }

  lemma HourArithmetic(n: nat)
    requires n >= 3600
    ensures n / 3600 >= 1 && (n % 3600) / 60 < 60 && n % 60 < 60
    ensures n == (n / 3600) * 3600 + ((n % 3600) / 60) * 60 + n % 60
  {
    ModOfHourRemainder(n);
  }

  lemma ClockFromHourSplit(n: nat)
    requires n >= 3600
    ensures Split(ClockOf(n), ":") ==
              [NatToString(n / 3600), PadStart2(NatToString((n % 3600) / 60)), PadStart2(NatToString(n % 60))]
  {
    var h, m, s := n / 3600, (n % 3600) / 60, n % 60;
    var th, tm, ts := NatToString(h), PadStart2(NatToString(m)), PadStart2(NatToString(s));
    PaddedPair(m);
    PaddedPair(s);
    assert ClockOf(n) == th + ":" + tm + ":" + ts;
    SplitThree(th, tm, ts);
  }

  /** Three numerals joined by colons split back into the three. */
  lemma SplitThree(a: string, b: string, c: string)
    requires AllDigits(a) && AllDigits(b) && AllDigits(c)
    ensures Split(a + ":" + b + ":" + c, ":") == [a, b, c]
  {
    SplitTwo(b, c);
    NoColonInDigits(a);
    SplitAfter(a, ':', b + ":" + c);
    RegroupColons(a, b, c);
  }

  lemma RegroupColons(a: string, b: string, c: string)
    ensures a + ":" + b + ":" + c == a + [':'] + (b + ":" + c)
  {
  }

  /** Two numerals joined by a colon split back into the two. */
  lemma SplitTwo(a: string, b: string)
    requires AllDigits(a) && AllDigits(b)
    ensures Split(a + ":" + b, ":") == [a, b]
  {
    NoColonInDigits(a);
    NoColonInDigits(b);
    SplitAbsent(b, ':');
    SplitAfter(a, ':', b);
  }

  lemma NoColonInDigits(s: string)
    requires AllDigits(s)
    ensures ':' !in s
  {
    forall i | 0 <= i < |s|
      ensures s[i] != ':'
    {
      assert IsDigit(s[i]);
    }
  }

  /** A value below 60, printed and padded, is two digits reading back as the value. */
  lemma PaddedPair(x: nat)
    requires x < 60
    ensures IsSexagesimal(PadStart2(NatToString(x))) && ParseNat(PadStart2(NatToString(x))) == x
  {
    var t := PadStart2(NatToString(x));
    ParseNatToString(x);
    if x < 10 {
      assert t == ['0', DigitChar(x)];
      assert t[..1] == ['0'] && ['0'][..0] == [];
    }
  }

  lemma FloorUnique(y: real, q: int)
    requires q as real <= y < q as real + 1.0
    ensures y.Floor == q
  {
  }

  /** Dividing a non-negative time by a whole number of seconds and flooring only
      depends on the whole seconds. */
  lemma FloorOfQuotient(x: real, d: int)
    requires x >= 0.0 && (d == 60 || d == 3600)
    ensures (x / d as real).Floor == x.Floor / d
  {
    var n := x.Floor;
    var q, r := n / d, n % d;
    assert n == q * d + r && 0 <= r < d;
    if d == 60 {
      assert q as real * 60.0 <= x < (q + 1) as real * 60.0;
      FloorUnique(x / 60.0, q);
    } else {
      assert q as real * 3600.0 <= x < (q + 1) as real * 3600.0;
      FloorUnique(x / 3600.0, q);
    }
  }

  /** On a non-negative time the three components of `formatTime` are those of its
      whole seconds. */
  lemma WholeSecondParts(seconds: real)
    requires seconds >= 0.0
    ensures (seconds / 3600.0).Floor == seconds.Floor / 3600
    ensures (JsRemainder(seconds, 3600.0) / 60.0).Floor == (seconds.Floor % 3600) / 60
    ensures JsRemainder(seconds, 60.0).Floor == seconds.Floor % 60
  {
    FloorOfQuotient(seconds, 3600);
    RemainderFloor(seconds, 3600);
    FloorOfQuotient(JsRemainder(seconds, 3600.0), 60);
    RemainderFloor(seconds, 60);
  }

  /** On a non-negative time, JavaScript's remainder by a whole number of seconds keeps
      the fraction and floors to the remainder of the whole seconds. */
  lemma RemainderFloor(x: real, d: int)
    requires x >= 0.0 && (d == 60 || d == 3600)
    ensures JsRemainder(x, d as real) >= 0.0
    ensures JsRemainder(x, d as real).Floor == x.Floor % d
  {
    var n := x.Floor;
    FloorOfQuotient(x, d);
    var rest := JsRemainder(x, d as real);
    assert rest == x - (d as real) * ((n / d) as real);
    FloorUnique(rest, n % d);
  }

  lemma ModOfHourRemainder(n: nat)
    ensures (n % 3600) / 60 * 60 + n % 60 == n % 3600
  {
    var r := n % 3600;
    assert n == 3600 * (n / 3600) + r;
    assert n == 60 * (60 * (n / 3600) + r / 60) + r % 60;
  }

  // ---------------------------------------------------------------------------
  // Buffered ranges

  /** `getBufferedRanges`: a missing or empty range list gives no ranges; otherwise
      exactly `length` pairs, in index order. */
  function GetBufferedRanges(buffered: Option<seq<Playback.TimeRange>>): (ranges: seq<Playback.TimeRange>)
    ensures buffered.None? ==> ranges == []
    ensures buffered.Some? ==> |ranges| == |buffered.value|
    ensures buffered.Some? ==> forall i :: 0 <= i < |ranges| ==>
              ranges[i].start == buffered.value[i].start && ranges[i].end == buffered.value[i].end
  {
    if buffered.None? || |buffered.value| == 0 then []
    else
      var b := buffered.value;
      seq(|b|, i requires 0 <= i < |b| => Playback.TimeRange(b[i].start, b[i].end))
  }

  // ---------------------------------------------------------------------------
  // Volume button and slider, playback-rate badge

  datatype VolumeIcon = MutedIcon | LowIcon | HighIcon

  /** How loud the icon looks: 0 for muted, 1 for low, 2 for high. */
  function Loudness(icon: VolumeIcon): nat {
    match icon
    case MutedIcon => 0
    case LowIcon => 1
    case HighIcon => 2
  }

  /** The icon on the mute button. */
  function ChooseVolumeIcon(isMuted: bool, volume: real): VolumeIcon {
    if isMuted || volume == 0.0 then MutedIcon
    else if volume < 0.5 then LowIcon
    else HighIcon
  }

  /** The value the volume slider shows. */
  function SliderValue(isMuted: bool, volume: real): real {
    if isMuted then 0.0 else volume
  }

  /** Whether the playback-rate badge is drawn. */
  predicate ShowsRateBadge(playbackRate: real) {
    playbackRate != 1.0
  }

  /** Muting always shows the muted icon; unmuted, the icon never looks quieter
      as the volume rises, and it is the muted one exactly at volume 0. */
  lemma VolumeIconMonotone(isMuted: bool, v1: real, v2: real)
    requires 0.0 <= v1 <= v2
    ensures isMuted ==> ChooseVolumeIcon(isMuted, v1) == MutedIcon
    ensures Loudness(ChooseVolumeIcon(false, v1)) <= Loudness(ChooseVolumeIcon(false, v2))
    ensures ChooseVolumeIcon(false, v1) == MutedIcon <==> v1 == 0.0
  {
  }

  /** The slider rests at 0 exactly when the button shows the muted icon. */
  lemma SliderZeroIffMutedIcon(isMuted: bool, volume: real)
    ensures SliderValue(isMuted, volume) == 0.0 <==> ChooseVolumeIcon(isMuted, volume) == MutedIcon
  {
  }
}
