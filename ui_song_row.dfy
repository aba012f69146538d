/**
 * `SwSongRow` (`src/ui/song_row.rs`): the list row of a recorded song. It
 * shows the title and the length, and its save button asks the application
 * to save the song, then turns into an open button on a dimmed row.
 */
module UiSongRow {
  import opened Wrappers
  import opened Decimal
  import opened Chrono
  import opened Song

  /** The separator between minutes and seconds, U+2236 RATIO. */
  const Ratio: string := "\U{2236}"

  /** Integers the `u64` argument can hold. */
  const U64Limit: nat := 0x1_0000_0000_0000_0000

  /**
   * `SwSongRow::format_duration`. The count is cast to `u32` first; a cast
   * value of a whole day or more makes chrono panic, which is `None`.
   */
  function FormatDuration(seconds: nat): (r: Option<string>)
    requires seconds < U64Limit
    ensures r.None? <==> seconds % 0x1_0000_0000 >= SecondsPerDay
  {
    var time := FromNumSecondsFromMidnight(seconds % 0x1_0000_0000);
    if time.None? then None
    else if seconds >= 3600 then Some(Format(time.value, TimeFormat))
    else Some(Format(time.value, ShortClock(Ratio)))
  }

  /**
   * Below a day the text is `MM∶SS` under an hour and `HH:MM:SS` from an hour
   * on, 5 and 8 characters long, and its fields read back to the input.
   */
  lemma FormatDurationRoundTrip(seconds: nat)
    requires seconds < SecondsPerDay
    ensures var r := FormatDuration(seconds);
      && r.Some?
      && (seconds < 3600 ==> r.value == TwoDigits(seconds / 60) + Ratio + TwoDigits(seconds % 60) && |r.value| == 5)
      && (seconds >= 3600 ==> r.value == TwoDigits(seconds / 3600) + ":" + TwoDigits(seconds / 60 % 60) + ":" + TwoDigits(seconds % 60)
                              && |r.value| == 8)
      && ReadClock(r.value, Ratio) == Some(seconds)
  {
    var t := NaiveTime(seconds);
    assert seconds % 0x1_0000_0000 == seconds;
    assert FromNumSecondsFromMidnight(seconds) == Some(t);
    if seconds < 3600 {
      var s := Format(t, ShortClock(Ratio));
      assert FormatDuration(seconds) == Some(s);
      assert t.Minute() == seconds / 60;
      FormatShortClock(t, Ratio);
      ShortClockRoundTrip(t, Ratio);
    } else {
      var s := Format(t, TimeFormat);
      assert FormatDuration(seconds) == Some(s);
      FormatTime(t);
      TimeRoundTrip(t, Ratio);
    }
  }

  /**
   * The `u32` cast wraps: 2^32 + 100 seconds print as one minute forty, in the
   * hour format because the uncast count is over an hour.
   */
  lemma FormatDurationWraps()
    ensures FormatDuration(0x1_0000_0000 + 100) == Some(TwoDigits(0) + ":" + TwoDigits(1) + ":" + TwoDigits(40))
  {
    var t := NaiveTime(100);
    assert (0x1_0000_0000 + 100) % 0x1_0000_0000 == 100;
    assert FromNumSecondsFromMidnight(100) == Some(t);
    assert t.Hour() == 0 && t.Minute() == 1 && t.Second() == 40;
    FormatTime(t);
  }

  /** The application actions the row sends. */
  datatype Action = PlaybackSaveSong(song: Song)

  /** The widgets a row can make activatable. */
  datatype Button = OpenButton

  class SwSongRow {
    var title: Option<string>
    var tooltip: Option<string>
    var subtitle: Option<string>
    const song: Song
    /** Every action sent to the application, in order. */
    var sent: seq<Action>
    /** The child `button_stack` shows; `None` until the row names one, when the template's first child shows. */
    var visibleChild: Option<string>
    var activatable: Option<Button>
    /** Whether the row has the `dim-label` style class. */
    var dimmed: bool

    /** `SwSongRow::new`: the title is the row title and tooltip, the formatted length the subtitle. */
    constructor (song: Song)
      requires song.duration < U64Limit && FormatDuration(song.duration).Some?
      ensures title == Some(song.title) && tooltip == Some(song.title)
      ensures subtitle == FormatDuration(song.duration)
      ensures song.duration < SecondsPerDay ==> ReadClock(subtitle.value, Ratio) == Some(song.duration)
      ensures this.song == song && sent == [] && visibleChild == None && activatable == None && !dimmed
    {
      if song.duration < SecondsPerDay {
        FormatDurationRoundTrip(song.duration);
      }
      this.song := song;
      title, tooltip := Some(song.title), Some(song.title);
      subtitle := FormatDuration(song.duration);
      sent, visibleChild, activatable, dimmed := [], None, None, false;
    }

    /** The save button's click handler: ask for the song to be saved, show the open button, dim the row. */
    method SaveClicked()
      modifies this
      ensures sent == old(sent) + [PlaybackSaveSong(song)]
      ensures visibleChild == Some("open") && activatable == Some(OpenButton) && dimmed
      ensures title == old(title) && tooltip == old(tooltip) && subtitle == old(subtitle)
    {
      sent := sent + [PlaybackSaveSong(song)];
      visibleChild := Some("open");
      activatable := Some(OpenButton);
      dimmed := true;
    }
  }
}
