/**
 * `SongHistory` of the older player (`src/player.rs`): the song playing
 * now, the songs heard before it (newest first, at most `maxHistory`) and
 * the rows of the "last played" list box. Finishing and deleting a song's
 * recording are recorded in `finished` and `deleted` instead of performed.
 */
module SongHistory {
  import opened Wrappers

  /**
   * A song of `crate::song::Song`, which is not part of this model: its title
   * and the file it is recorded to, compared field by field.
   */
  datatype HistorySong = HistorySong(title: string, path: string)

  /** `PlaybackState` of this file. */
  datatype PlaybackState = Playing | Stopped | Loading

  /** The states a GStreamer element reports. */
  datatype GstState = VoidPending | Null | Ready | Paused | GstPlaying

  /** The state mapping of `parse_bus_message`: paused and ready count as loading, playing as playing, the rest as stopped. */
  function PlaybackStateOf(state: GstState): (r: PlaybackState)
    ensures r == Playing <==> state == GstPlaying
    ensures r == Loading <==> state == Paused || state == Ready
    ensures r == Stopped <==> state == Null || state == VoidPending
  {
    match state
    case GstPlaying => Playing
    case Paused => Loading
    case Ready => Loading
    case _ => Stopped
  }

  const MaxHistory: nat := 10

  /** The song of `current`, as a list of zero or one songs. */
  function AsList(current: Option<HistorySong>): (r: seq<HistorySong>)
    ensures |r| <= 1 && (r == [] <==> current.None?)
    ensures current.Some? ==> r == [current.value]
  {
    if current.None? then [] else [current.value]
  }

  class SongHistory {
    var currentSong: Option<HistorySong>
    var history: seq<HistorySong>
    const maxHistory: nat
    /** The song each row of the list box shows, top first. */
    var songRows: seq<HistorySong>
    var recordingBoxVisible: bool
    var finished: seq<HistorySong>
    var deleted: seq<HistorySong>

    /**
     * The history is bounded and is a prefix of the rows: both grow at the
     * front together. Rows past the history belong to songs that
     * `DeleteEverything` removed from the history but not from the list box.
     */
    ghost predicate Valid()
      reads this
    {
      && maxHistory == MaxHistory
      && |history| <= maxHistory
      && |history| <= |songRows| && songRows[..|history|] == history
    }

    /** `SongHistory::new`: no song, empty history, no rows, at most 10 songs kept. */
    constructor ()
      ensures Valid()
      ensures currentSong == None && history == [] && songRows == [] && maxHistory == 10
      ensures !recordingBoxVisible && finished == [] && deleted == []
    {
      currentSong, history, songRows := None, [], [];
      maxHistory := MaxHistory;
      recordingBoxVisible := false;
      finished, deleted := [], [];
    }

    /** `discard_current_song`: the current song is dropped and its recording deleted; the history stays. */
    method DiscardCurrentSong()
      modifies this
      ensures currentSong == None
      ensures deleted == old(deleted) + AsList(old(currentSong))
      ensures history == old(history) && songRows == old(songRows) && finished == old(finished)
      ensures recordingBoxVisible == old(recordingBoxVisible)
    {
      if currentSong.Some? {
        deleted := deleted + [currentSong.value];
      }
      currentSong := None;
    }

    /**
     * `set_new_song`. The same song again changes nothing and returns
     * false. A different song becomes current, the former current song (if
     * any) is finished and goes to the front of the history and of the rows,
     * and when the history then holds too many songs its oldest is deleted
     * and the bottom row removed.
     */
    method SetNewSong(song: HistorySong) returns (changed: bool)
      requires Valid()
      modifies this
      ensures Valid()
      ensures changed <==> old(currentSong) != Some(song)
      ensures !changed ==> currentSong == old(currentSong) && history == old(history) && songRows == old(songRows)
                           && finished == old(finished) && deleted == old(deleted)
      ensures changed ==>
        var grown := AsList(old(currentSong)) + old(history);
        var rows := AsList(old(currentSong)) + old(songRows);
        && currentSong == Some(song)
        && finished == old(finished) + AsList(old(currentSong))
        && (|grown| > maxHistory ==>
              history == grown[..|grown| - 1] && songRows == rows[..|rows| - 1] && deleted == old(deleted) + [grown[|grown| - 1]])
        && (|grown| <= maxHistory ==> history == grown && songRows == rows && deleted == old(deleted))
      ensures changed && old(currentSong).Some? ==> recordingBoxVisible
      ensures !(changed && old(currentSong).Some?) ==> recordingBoxVisible == old(recordingBoxVisible)
      ensures |songRows| - |history| == |old(songRows)| - |old(history)|
      ensures |old(songRows)| == |old(history)| ==> songRows == history
    {
      if currentSong != Some(song) {
        if currentSong.Some? {
          var s := currentSong.value;
          finished := finished + [s];
          songRows := [s] + songRows;
          history := [s] + history;
          recordingBoxVisible := true;
        }
        currentSong := Some(song);
        if |history| > maxHistory {
          var oldest := history[|history| - 1];
          history := history[..|history| - 1];
          deleted := deleted + [oldest];
          assert songRows != [];
          songRows := songRows[..|songRows| - 1];
        }
        return true;
      }
      return false;
    }

    /** `get_previous_song`: the newest song of the history. */
    function GetPreviousSong(): (r: Option<HistorySong>)
      reads this
      ensures r.None? <==> history == []
      ensures r.Some? ==> r.value == history[0]
    {
      if history == [] then None else Some(history[0])
    }

    /**
     * `delete_everything`: the current song and every song of the history are
     * deleted, in that order, and the history emptied; the rows stay.
     */
    method DeleteEverything()
      requires Valid()
      modifies this
      ensures Valid()
      ensures currentSong == None && history == []
      ensures deleted == old(deleted) + AsList(old(currentSong)) + old(history)
      ensures songRows == old(songRows) && finished == old(finished)
      ensures recordingBoxVisible == old(recordingBoxVisible)
    {
      DiscardCurrentSong();
      var i := 0;
      while i < |history|
        invariant i <= |history|
        invariant deleted == old(deleted) + AsList(old(currentSong)) + history[..i]
        invariant history == old(history) && songRows == old(songRows) && currentSong == None
        invariant finished == old(finished) && recordingBoxVisible == old(recordingBoxVisible)
      {
        deleted := deleted + [history[i]];
        assert history[..i + 1] == history[..i] + [history[i]];
        i := i + 1;
      }
      assert history[..i] == history;
      history := [];
    }
  }

  /**
   * Once `DeleteEverything` has emptied the history while its rows stay
   * (more rows than history entries), an overflow of `SetNewSong` deletes a
   * song that no longer appears in the history and yet keeps a row for it:
   * the row removed from the bottom is a stale one.
   */
  lemma {:induction false} EvictedRowStays(current: Option<HistorySong>, history: seq<HistorySong>, rows: seq<HistorySong>)
    requires |history| < |rows| && rows[..|history|] == history
    requires |AsList(current) + history| > MaxHistory
    requires forall i, j :: 0 <= i < j < |AsList(current) + history| ==> (AsList(current) + history)[i] != (AsList(current) + history)[j]
    ensures var grown := AsList(current) + history;
            var shown := AsList(current) + rows;
            && grown[|grown| - 1] !in grown[..|grown| - 1]
            && grown[|grown| - 1] in shown[..|shown| - 1]
  {
    var grown := AsList(current) + history;
    var shown := AsList(current) + rows;
    var last := |grown| - 1;
    assert shown[..|grown|] == grown;
    assert shown[..|shown| - 1][last] == grown[last];
  }

  /** A run of `SetNewSong` over distinct songs: the history is the songs heard before the last one, newest first, at most 10. */
  method PlaySequence(songs: seq<HistorySong>) returns (history: seq<HistorySong>, current: Option<HistorySong>)
    requires forall i, j :: 0 <= i < j < |songs| ==> songs[i] != songs[j]
    ensures |history| <= MaxHistory
    ensures songs == [] ==> current.None? && history == []
    ensures songs != [] ==> current == Some(songs[|songs| - 1])
    ensures |history| == if |songs| == 0 then 0 else if |songs| - 1 <= MaxHistory then |songs| - 1 else MaxHistory
    ensures forall k :: 0 <= k < |history| ==> history[k] == songs[|songs| - 2 - k]
  {
    var player := new SongHistory();
    var i := 0;
    while i < |songs|
      invariant i <= |songs| && player.Valid()
      invariant i == 0 ==> player.currentSong.None? && player.history == []
      invariant i > 0 ==> player.currentSong == Some(songs[i - 1])
      invariant |player.history| == if i == 0 then 0 else if i - 1 <= MaxHistory then i - 1 else MaxHistory
      invariant forall k :: 0 <= k < |player.history| ==> player.history[k] == songs[i - 2 - k]
    {
      var changed := player.SetNewSong(songs[i]);
      i := i + 1;
    }
    history, current := player.history, player.currentSong;
  }
}
