/** The value the widget's timeline is made of (`TimerEntry`). */
module TimerEntries {

  /**
    One timeline entry. `date` is the moment the entry becomes current and
    `timeRemaining` the countdown it shows, both in seconds (the host's clock
    reading and a `TimeInterval`); `isPaused` chooses the play or pause icon.
   */
  datatype TimerEntry = TimerEntry(date: real, timeRemaining: real, isPaused: bool)
}
