/**
 * `SongRow` (`src/widgets/song_row.rs`): the older song row. It shows the
 * title and the length in labels, and its save button saves the recording
 * and reports the outcome in the length label.
 */
module WidgetsSongRow {
  import opened Wrappers
  import opened Decimal
  import opened Chrono
  import opened Song

  /**
   * The separator as the file spells it: the three characters U+00E2, U+02C6
   * and U+00B6, which is U+2236 RATIO mis-decoded.
   */
  const Separator: string := "\U{00E2}\U{02C6}\U{00B6}"

  const U64Limit: nat := 0x1_0000_0000_0000_0000

  /** `SongRow::format_duration`: the same as the newer row's, with the mis-decoded separator. */
  function FormatDuration(seconds: nat): (r: Option<string>)
    requires seconds < U64Limit
    ensures r.None? <==> seconds % 0x1_0000_0000 >= SecondsPerDay
  {
    var time := FromNumSecondsFromMidnight(seconds % 0x1_0000_0000);
    if time.None? then None
    else if seconds >= 3600 then Some(Format(time.value, TimeFormat))
    else Some(Format(time.value, ShortClock(Separator)))
  }

  /**
   * Below a day the text is minutes, the three-character separator and
   * seconds (7 characters) under an hour, `HH:MM:SS` from an hour on, and its
   * fields read back to the input.
   */
  lemma FormatDurationRoundTrip(seconds: nat)
    requires seconds < SecondsPerDay
    ensures var r := FormatDuration(seconds);
      && r.Some?
      && (seconds < 3600 ==> r.value == TwoDigits(seconds / 60) + Separator + TwoDigits(seconds % 60) && |r.value| == 7)
      && (seconds >= 3600 ==> r.value == TwoDigits(seconds / 3600) + ":" + TwoDigits(seconds / 60 % 60) + ":" + TwoDigits(seconds % 60)
                              && |r.value| == 8)
      && ReadClock(r.value, Separator) == Some(seconds)
  {
    var t := NaiveTime(seconds);
    assert seconds % 0x1_0000_0000 == seconds;
    assert FromNumSecondsFromMidnight(seconds) == Some(t);
    if seconds < 3600 {
      var s := Format(t, ShortClock(Separator));
      assert FormatDuration(seconds) == Some(s);
      assert t.Minute() == seconds / 60;
      FormatShortClock(t, Separator);
      ShortClockRoundTrip(t, Separator);
    } else {
      var s := Format(t, TimeFormat);
      assert FormatDuration(seconds) == Some(s);
      FormatTime(t);
      TimeRoundTrip(t, Separator);
    }
  }

  /** What `Song::save_as` returned. */
  datatype SaveOutcome = Saved | Failed(message: string)

  class SongRow {
    var titleText: string
    var titleTooltip: Option<string>
    var durationText: string
    var durationTooltip: Option<string>
    const song: Song
    /** The child `button_stack` shows; `None` while the template's first child shows. */
    var visibleChild: Option<string>

    /** `SongRow::new`: the title label and its tooltip hold the title, the duration label and its tooltip the formatted length. */
    constructor (song: Song)
      requires song.duration < U64Limit && FormatDuration(song.duration).Some?
      ensures titleText == song.title && titleTooltip == Some(song.title)
      ensures durationText == FormatDuration(song.duration).value && durationTooltip == FormatDuration(song.duration)
      ensures song.duration < SecondsPerDay ==> ReadClock(durationText, Separator) == Some(song.duration)
      ensures this.song == song && visibleChild == None
    {
      if song.duration < SecondsPerDay {
        FormatDurationRoundTrip(song.duration);
      }
      this.song := song;
      titleText, titleTooltip := song.title, Some(song.title);
      durationText := FormatDuration(song.duration).value;
      durationTooltip := FormatDuration(song.duration);
      visibleChild := None;
    }

    /** The save button's click handler, given what saving the recording returned. */
    method SaveClicked(outcome: SaveOutcome)
      modifies this
      ensures outcome.Saved? ==> durationText == "Saved" && visibleChild == Some("open")
      ensures outcome.Failed? ==> durationText == outcome.message && visibleChild == old(visibleChild)
      ensures titleText == old(titleText) && titleTooltip == old(titleTooltip) && durationTooltip == old(durationTooltip)
    {
      match outcome {
        case Saved =>
          durationText := "Saved";
          visibleChild := Some("open");
        case Failed(message) =>
          durationText := message;
      }
    }
  }
}
