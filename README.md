# BlankTimer widget: timeline and time text

A model of the home-screen widget of the BlankTimer watch app
(`BlankTimerWidget/BlankTimerWidget.swift`). The widget does not read the
app's live timer. Its timeline provider makes up a running 60-second
countdown that starts at the moment the host asks:

- `placeholder` and `getSnapshot` return one entry: 60 seconds left, not paused.
- `getTimeline` appends 60 entries in a loop, one per second offset 0..59.
  Entry `i` is dated `now + i` and shows `max(0, 60 - i)` seconds, not paused.
- The view renders an entry's `timeRemaining` as `"%02d:%02d"` of the
  truncated minutes and seconds. It draws a ring trimmed to
  `timeRemaining / 60` and shows a play or pause icon.

Modules:

- `TimerEntries` (`timer_entry.dfy`): the `TimerEntry` value. Dates and
  time intervals are exact `real` seconds.
- `TimerProvider` (`timer_provider.dfy`): `Placeholder`, `GetSnapshot`, and
  `GetTimeline`, a method with the source's loop. It is proved against
  `EntryAt` and the `IsTimeline` predicate. Lemmas state what every timeline
  satisfies: its dates, countdown, pause flags, ring and text.
- `TimerWidgetView` (`timer_widget_view.dfy`): `TimeString` with Swift's
  truncating `Int(_:)`, `/` and `%`, the ring fraction, and the icon. A
  reader, `ParseTimeString`, is the inverse of `TimeString`: every text reads
  back as the minutes and seconds it was made from.
- `DecimalText` (`decimal_text.dfy`): one `%02d` field, `Pad2`, and its
  reader, with round-trip lemmas; `LowInt32`, the 32-bit C `int` that `%d`
  reads from a 64-bit `Int` argument.
- `Options` (`options.dfy`): the optional value the readers return.

The host's clock (`Date()`) is the parameter `now`. The completion callbacks
become return values.

## Model

| member | source | states |
|---|---|---|
| `TimerProvider.Placeholder` | BlankTimerWidget/BlankTimerWidget.swift:25-27 | the placeholder entry is dated now and not paused; its ring is full, its text is "01:00" and its icon is the pause icon |
| `TimerProvider.GetSnapshot` | BlankTimerWidget/BlankTimerWidget.swift:29-32 | the snapshot handed to the host is the same entry as the placeholder |
| `TimerProvider.GetTimeline` | BlankTimerWidget/BlankTimerWidget.swift:34-47 | the loop yields exactly 60 entries; entry i is dated now + i, shows max(0, 60 - i) seconds and is not paused |
| `TimerProvider.TimelineDates` | BlankTimerWidget/BlankTimerWidget.swift:36-39 | a timeline's dates start at now, step by exactly one second and strictly increase |
| `TimerProvider.TimelineRemaining` | BlankTimerWidget/BlankTimerWidget.swift:38-40 | the countdown starts at 60, ends at 1, stays within 1..60 and drops by exactly one per entry; date + remaining is now + 60 for every entry |
| `TimerProvider.TimelineNeverPaused` | BlankTimerWidget/BlankTimerWidget.swift:41 | no timeline entry is paused, so every entry shows the pause icon |
| `TimerProvider.TimelineRing` | BlankTimerWidget/BlankTimerWidget.swift:70-71 | the ring of the first entry is full, and every entry's ring fraction lies in (0, 1] |
| `TimerProvider.TimelineText` | BlankTimerWidget/BlankTimerWidget.swift:61 | every entry's text is 5 characters; the first reads "01:00" and entry i > 0 reads back as 0 minutes and 60 - i seconds |
| `TimerWidgetView.WholeSeconds` | BlankTimerWidget/BlankTimerWidget.swift:85-86 | `Int(time)` is the integer next to time toward zero, less than one second away |
| `TimerWidgetView.MinutesAndSeconds` | BlankTimerWidget/BlankTimerWidget.swift:85-86 | minutes * 60 + seconds is the whole count; seconds is less than 60 in size and carries the count's sign (truncating / and %) |
| `TimerWidgetView.TimeString` | BlankTimerWidget/BlankTimerWidget.swift:84-88 | the text always holds a ':'; for 0 <= time < 6000 it is exactly 5 characters, two digits, ':' at index 2, two digits |
| `TimerWidgetView.TimeStringRoundTrip` | BlankTimerWidget/BlankTimerWidget.swift:84-88 | the text of any time reads back as its truncated minutes and seconds as `%d` reads them (low 32 bits); while the minutes fit in 32 bits, exactly those, which make up its whole seconds |
| `TimerWidgetView.TimeStringMinutesWrap` | BlankTimerWidget/BlankTimerWidget.swift:87 | at 2^31 minutes the minutes field reads back as -2^31 and the seconds as 0 |
| `TimerWidgetView.TimeStringExamples` | BlankTimerWidget/BlankTimerWidget.swift:84-88 | 60 s reads "01:00", 5 s reads "00:05", 1 s reads "00:01" |
| `TimerWidgetView.RingFraction` | BlankTimerWidget/BlankTimerWidget.swift:71 | the trim end times 60 is the remaining time; for 0 < remaining <= 60 it lies in (0, 1] |
| `TimerWidgetView.StatusIcon` | BlankTimerWidget/BlankTimerWidget.swift:75 | the icon is "play.fill" exactly when the entry is paused, otherwise "pause.fill" |
| `DecimalText.Decimal` | BlankTimerWidget/BlankTimerWidget.swift:87 | the decimal spelling of a natural is a non-empty run of digits with no leading zero; it has one digit exactly below 10 and at most two below 100 |
| `DecimalText.DecimalRoundTrip` | BlankTimerWidget/BlankTimerWidget.swift:87 | the digits of n denote n |
| `DecimalText.LowInt32` | BlankTimerWidget/BlankTimerWidget.swift:87 | the value `%d` reads is a signed 32-bit integer congruent to the argument modulo 2^32, and equal to it when the argument fits in 32 bits |
| `DecimalText.Pad2` | BlankTimerWidget/BlankTimerWidget.swift:87 | a `%02d` field is at least two characters wide and holds no ':'; it is all digits when n >= 0, exactly two when 0 <= n < 100, and starts with '-' when n < 0; no padding zero beyond the width: it starts with a non-zero digit when n >= 10 and with '-' then a non-zero digit when n < 0 |
| `DecimalText.Pad2RoundTrip` | BlankTimerWidget/BlankTimerWidget.swift:87 | every `%02d` field reads back as the integer it was written from |

## Left out

- `TimerWidget.body`, `TimerWidgetBundle`, the view's layout and styling, and `AppIntent.swift` are declarations for the UI framework. They hold no computation beyond what is modelled.
- `Timeline(entries:policy: .atEnd)`: the timeline is its sequence of entries. The reload policy is the host's business.
- `Date()` and the completion callbacks: the clock reading is the parameter `now`, and what the callbacks receive is the return value.
- Floating point: dates and `TimeInterval` values are exact reals. Rounding, NaN, infinities and the trap of `Int(_:)` on values out of range are not modelled, and Swift's 64-bit `Int` arithmetic is unbounded here. The 32-bit read of each `%d` argument is modelled by `LowInt32`.
- `Calendar.current.date(byAdding: .second, ...)` is plain addition of seconds. Its optional result, force-unwrapped in the source, never fails here.
- SwiftUI clamps a trim end outside [0, 1]. `RingFraction` is the value passed to `trim`, before any clamping.
- The watch app's own countdown (`BlankTimer Watch App/TimerView.swift`) is not part of this model.
