/**
  `TimerProvider`: the entries the widget host asks for. The host's clock
  reading ("now") is a parameter; the completion callbacks become return
  values.
 */
module TimerProvider {
  import opened TimerEntries
  import opened TimerWidgetView
  import opened Options

  /** The timeline covers offsets `0..<60`, one entry per second. */
  const TimelineLength: nat := 60

  /** The demo countdown every entry is taken from: 60 seconds. */
  const CountdownSeconds: real := 60.0

  function Max(a: real, b: real): (m: real)
    ensures m >= a && m >= b && (m == a || m == b)
  {
    if a >= b then a else b
  }

  /** `placeholder(in:)`: a full, running minute. */
  function Placeholder(now: real): (entry: TimerEntry)
    ensures entry.date == now && !entry.isPaused
    ensures RingFraction(entry) == 1.0
    ensures TimeString(entry.timeRemaining) == "01:00"
    ensures StatusIcon(entry) == "pause.fill"
  {
    TimeStringExamples();
    TimerEntry(now, CountdownSeconds, false)
  }

  /** `getSnapshot(in:completion:)`: the entry handed to the host is the placeholder's. */
  function GetSnapshot(now: real): (entry: TimerEntry)
    ensures entry == Placeholder(now)
  {
    TimerEntry(now, CountdownSeconds, false)
  }

  /** The entry `getTimeline` builds at `secondOffset` seconds after `now`. */
  function EntryAt(now: real, secondOffset: nat): TimerEntry
  {
    TimerEntry(now + secondOffset as real, Max(0.0, CountdownSeconds - secondOffset as real), false)
  }

  /** `entries` is the timeline built from `now`: offsets `0..<60`, in order. */
  predicate IsTimeline(now: real, entries: seq<TimerEntry>)
  {
    |entries| == TimelineLength &&
    forall i :: 0 <= i < |entries| ==> entries[i] == EntryAt(now, i)
  }

  /** `getTimeline(in:completion:)`: appends one entry per second offset. */
  method GetTimeline(now: real) returns (entries: seq<TimerEntry>)
    ensures IsTimeline(now, entries)
  {
    entries := [];
    for secondOffset := 0 to TimelineLength
      invariant |entries| == secondOffset
      invariant forall i :: 0 <= i < secondOffset ==> entries[i] == EntryAt(now, i)
    {
      var entryDate := now + secondOffset as real;
      var timeRemaining := Max(0.0, CountdownSeconds - secondOffset as real);
      var entry := TimerEntry(entryDate, timeRemaining, false);
      entries := entries + [entry];
    }
  }

  /** The dates start at `now` and step by exactly one second. */
  lemma TimelineDates(now: real, entries: seq<TimerEntry>)
    requires IsTimeline(now, entries)
    ensures entries[0].date == now
    ensures forall i :: 0 < i < |entries| ==> entries[i].date == entries[i - 1].date + 1.0
    ensures forall i, j :: 0 <= i < j < |entries| ==> entries[i].date < entries[j].date
  {
  }

  /**
    The countdown runs from 60 down to 1, one second less per entry, and
    every entry points at the same end time, `now + 60`.
   */
  lemma TimelineRemaining(now: real, entries: seq<TimerEntry>)
    requires IsTimeline(now, entries)
    ensures entries[0].timeRemaining == CountdownSeconds
    ensures entries[|entries| - 1].timeRemaining == 1.0
    ensures forall i :: 0 <= i < |entries| ==> 1.0 <= entries[i].timeRemaining <= CountdownSeconds
    ensures forall i :: 0 < i < |entries| ==>
      entries[i].timeRemaining == entries[i - 1].timeRemaining - 1.0
    ensures forall i :: 0 <= i < |entries| ==>
      entries[i].date + entries[i].timeRemaining == now + CountdownSeconds
  {
  }

  /** No entry shows as paused: the widget never consults a live timer. */
  lemma TimelineNeverPaused(now: real, entries: seq<TimerEntry>)
    requires IsTimeline(now, entries)
    ensures forall i :: 0 <= i < |entries| ==> !entries[i].isPaused
    ensures forall i :: 0 <= i < |entries| ==> StatusIcon(entries[i]) == "pause.fill"
  {
  }

  /** The ring is full at the first entry and never empty or over-full. */
  lemma TimelineRing(now: real, entries: seq<TimerEntry>)
    requires IsTimeline(now, entries)
    ensures RingFraction(entries[0]) == 1.0
    ensures forall i :: 0 <= i < |entries| ==> 0.0 < RingFraction(entries[i]) <= 1.0
  {
  }

  /**
    Every entry's text is five characters and reads back as the seconds
    left: "01:00" for the first entry, "00:SS" with SS = 60 - i after it.
   */
  lemma TimelineText(now: real, entries: seq<TimerEntry>)
    requires IsTimeline(now, entries)
    ensures TimeString(entries[0].timeRemaining) == "01:00"
    ensures forall i :: 0 <= i < |entries| ==> |TimeString(entries[i].timeRemaining)| == 5
    ensures forall i :: 0 < i < |entries| ==>
      ParseTimeString(TimeString(entries[i].timeRemaining)) == Some((0, 60 - i))
  {
    TimelineRemaining(now, entries);
    TimeStringExamples();
    forall i | 0 < i < |entries|
      ensures ParseTimeString(TimeString(entries[i].timeRemaining)) == Some((0, 60 - i))
    {
      TimeStringRoundTrip(entries[i].timeRemaining);
      assert WholeSeconds(entries[i].timeRemaining) == 60 - i;
    }
  }
}
