/**
  What `TimerWidgetView` computes from an entry: the "MM:SS" text, the end
  point of the progress ring, and the status icon.
 */
module TimerWidgetView {
  import opened TimerEntries
  import opened DecimalText
  import opened Options

  const SecondsPerMinute: int := 60

  /** The divisor of the ring's trim: a full ring stands for 60 seconds. */
  const RingSeconds: real := 60.0

  /** `Int(time)`: drops the fractional part, rounding toward zero. */
  function WholeSeconds(time: real): (n: int)
    ensures time >= 0.0 ==> n >= 0 && n as real <= time < n as real + 1.0
    ensures time < 0.0 ==> n <= 0 && n as real - 1.0 < time <= n as real
  {
    if time >= 0.0 then time.Floor else -((-time).Floor)
  }

  /**
    Swift's `Int / 60` and `Int % 60`, both truncating toward zero: the
    seconds field carries the sign of the whole count and stays below a
    minute in size.
   */
  function MinutesAndSeconds(whole: int): (r: (int, int))
    ensures r.0 * SecondsPerMinute + r.1 == whole
    ensures -SecondsPerMinute < r.1 < SecondsPerMinute
    ensures whole >= 0 ==> r.0 >= 0 && r.1 >= 0
    ensures whole <= 0 ==> r.0 <= 0 && r.1 <= 0
  {
    if whole >= 0 then (whole / SecondsPerMinute, whole % SecondsPerMinute)
    else (-((-whole) / SecondsPerMinute), -((-whole) % SecondsPerMinute))
  }

  /**
    `timeString(time:)`: minutes and seconds as `"%02d:%02d"`. Each `%d`
    reads only the low 32 bits of its `Int` argument.
   */
  function TimeString(time: real): (text: string)
    ensures ':' in text
    ensures 0.0 <= time < 6000.0 ==>
      |text| == 5 && text[2] == ':' && IsDecimal(text[..2]) && IsDecimal(text[3..])
  {
    var ms := MinutesAndSeconds(WholeSeconds(time));
    Pad2(LowInt32(ms.0)) + ":" + Pad2(LowInt32(ms.1))
  }

  /** Position of the first ':' in `s`, or `|s|` when there is none. */
  function ColonIndex(s: string): (k: nat)
    ensures k <= |s|
    ensures k < |s| ==> s[k] == ':'
    ensures forall i :: 0 <= i < k ==> s[i] != ':'
  {
    if s == [] || s[0] == ':' then 0 else 1 + ColonIndex(s[1..])
  }

  /** Reads a "minutes:seconds" text back into its two fields. */
  function ParseTimeString(text: string): Option<(int, int)>
  {
    var k := ColonIndex(text);
    if k == |text| then None
    else match (ParseField(text[..k]), ParseField(text[k + 1..]))
      case (Some(m), Some(s)) => Some((m, s))
      case _ => None
  }

  lemma {:induction false} ColonIndexAfter(a: string, b: string)
    requires forall i :: 0 <= i < |a| ==> a[i] != ':'
    ensures ColonIndex(a + ":" + b) == |a|
    decreases |a|
  {
    if a != [] {
      assert (a + ":" + b)[1..] == a[1..] + ":" + b;
      ColonIndexAfter(a[1..], b);
    }
  }

  /**
    The text of any time reads back as the truncated minutes and seconds, as
    `%d` reads them. While the minutes fit in 32 bits, that is exactly the
    minutes and seconds, which together make up the whole seconds of the time.
   */
  lemma TimeStringRoundTrip(time: real)
    ensures var ms := MinutesAndSeconds(WholeSeconds(time));
      ParseTimeString(TimeString(time)) == Some((LowInt32(ms.0), LowInt32(ms.1)))
    ensures var ms := MinutesAndSeconds(WholeSeconds(time));
      -0x8000_0000 <= ms.0 < 0x8000_0000 ==>
        ParseTimeString(TimeString(time)) == Some(ms) &&
        ms.0 * SecondsPerMinute + ms.1 == WholeSeconds(time)
  {
    var ms := MinutesAndSeconds(WholeSeconds(time));
    var a, b := Pad2(LowInt32(ms.0)), Pad2(LowInt32(ms.1));
    var text := a + ":" + b;
    ColonIndexAfter(a, b);
    assert text[..|a|] == a;
    assert text[|a| + 1..] == b;
    Pad2RoundTrip(LowInt32(ms.0));
    Pad2RoundTrip(LowInt32(ms.1));
  }

  lemma TimeStringExamples()
    ensures TimeString(60.0) == "01:00"
    ensures TimeString(5.0) == "00:05"
    ensures TimeString(1.0) == "00:01"
  {
  }

  /** 2^31 minutes exceed what `%d` reads: the minutes field shows -2^31. */
  lemma TimeStringMinutesWrap()
    ensures ParseTimeString(TimeString(0x8000_0000 as real * 60.0)) == Some((-0x8000_0000, 0))
  {
    TimeStringRoundTrip(0x8000_0000 as real * 60.0);
  }

  /** The ring's `trim(from: 0, to: timeRemaining / 60)` end point. */
  function RingFraction(entry: TimerEntry): (f: real)
    ensures f * RingSeconds == entry.timeRemaining
    ensures 0.0 < entry.timeRemaining <= RingSeconds ==> 0.0 < f <= 1.0
  {
    entry.timeRemaining / RingSeconds
  }

  /** The icon in the ring's centre: play while paused, pause otherwise. */
  function StatusIcon(entry: TimerEntry): (name: string)
    ensures (name == "play.fill") == entry.isPaused
    ensures name == "play.fill" || name == "pause.fill"
  {
    if entry.isPaused then "play.fill" else "pause.fill"
  }
}
