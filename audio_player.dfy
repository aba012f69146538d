/**
 * The recording policy of `src/audio/player.rs`. `SongTitle` remembers the
 * current and the previous stream title; `Player` reacts to playback
 * requests and to the pipeline's messages by starting, keeping or
 * discarding a recording of the current song.
 *
 * The GStreamer pipeline is reduced to what the player asks of it (the
 * `pipeline` log) and whether it records, and to where (`recording`).
 * Calls to the controllers and the notifications shown are logs as well.
 */
module AudioPlayer {
  import opened Wrappers
  import opened Paths
  import opened Song
  import opened SongStore
  import opened Station
  import Utils
  import SongBackend

  /** `PlaybackState` of this file: it has no `Loading` state. */
  datatype PlaybackState = Playing | Stopped | Failure(message: string)

  /** The GStreamer states the player requests. */
  datatype GstState = GstPlaying | GstNull

  /** What the player asks of the GStreamer backend. */
  datatype PipelineCall =
    | SetState(state: GstState)
    | NewSourceUri(uri: string)
    | StartRecording(path: Path)
    | StopRecording(discard: bool)

  /** What the player tells every controller; one entry stands for the whole loop over them. */
  datatype ControllerCall =
    | SetStation(uuid: string)
    | SetSongTitle(title: string)
    | SetPlaybackState(state: PlaybackState)

  /** The notifications the player shows. */
  datatype Notification = StationOffline | StationNotStreamable

  /**
   * Where the recording of a title goes: `<cache>/recording/<title>.ogg`, the
   * title simplified first; just the recording directory when nothing of the
   * title survives simplification.
   */
  function RecordingPath(cache: Path, title: string): Path {
    var dir := Push(cache, "recording");
    var name := Utils.SimplifyString(title);
    if name != "" then SetExtension(Push(dir, name), "ogg") else dir
  }

  /** A simplified title holds no separator and no dot, so it is one plain path component. */
  lemma SimplifiedTitleIsPlain(title: string)
    requires Utils.SimplifyString(title) != ""
    ensures IsComponent(Utils.SimplifyString(title)) && '.' !in Utils.SimplifyString(title)
  {
    var name := Utils.SimplifyString(title);
    Utils.SimplifyRemovesAll(title);
    assert forall k :: 0 <= k < |name| ==> name[k] != '/' && name[k] != '.' by {
      assert '/' in Utils.Removed && '.' in Utils.Removed;
    }
    assert name != "." by {
      assert name[0] != '.';
    }
  }

  /** Pushing a plain name and giving it the `ogg` extension adds `<name>.ogg`. */
  lemma PushWithExtension(dir: Path, name: string)
    requires IsComponent(name) && '.' !in name
    ensures SetExtension(Push(dir, name), "ogg") == Path(dir.absolute, dir.components + [name + ".ogg"])
  {
    PushComponent(dir, name);
    var file := Push(dir, name);
    assert FileName(file) == Some(name);
    SetExtensionOfPlainName(file, "ogg");
    assert file.components[..|file.components| - 1] == dir.components;
    assert "." + "ogg" == ".ogg";
    assert name + "." + "ogg" == name + ".ogg";
  }

  /** The recording path adds `recording` and, unless the simplified title is empty, `<title>.ogg` to the cache directory. */
  lemma RecordingPathShape(cache: Path, title: string)
    ensures var name := Utils.SimplifyString(title);
      RecordingPath(cache, title)
        == Path(cache.absolute, cache.components + ["recording"] + (if name == "" then [] else [name + ".ogg"]))
  {
    var name := Utils.SimplifyString(title);
    PushComponent(cache, "recording");
    if name != "" {
      SimplifiedTitleIsPlain(title);
      PushWithExtension(Push(cache, "recording"), name);
    } else {
      assert cache.components + ["recording"] + [] == cache.components + ["recording"];
    }
  }

  /** Different simplified titles are recorded to different files. */
  lemma RecordingPathsDiffer(cache: Path, a: string, b: string)
    requires Utils.SimplifyString(a) != "" && Utils.SimplifyString(b) != ""
    requires Utils.SimplifyString(a) != Utils.SimplifyString(b)
    ensures RecordingPath(cache, a) != RecordingPath(cache, b)
  {
    RecordingPathShape(cache, a);
    RecordingPathShape(cache, b);
    var na, nb := Utils.SimplifyString(a), Utils.SimplifyString(b);
    var pa, pb := RecordingPath(cache, a), RecordingPath(cache, b);
    assert pa.components[|pa.components| - 1] == na + ".ogg";
    assert pb.components[|pb.components| - 1] == nb + ".ogg";
    assert (na + ".ogg")[..|na|] == na && (nb + ".ogg")[..|nb|] == nb;
  }

  /** The title queue: the title playing now and the one before it. */
  class SongTitle {
    var current: Option<string>
    var previous: Option<string>

    /** A previous title only exists behind a current one. */
    ghost predicate Valid()
      reads this
    {
      previous.Some? ==> current.Some?
    }

    /** `SongTitle::new`: both slots empty. */
    constructor ()
      ensures Valid() && current == None && previous == None
    {
      current, previous := None, None;
    }

    /** `set_current_title`: the first title fills `current`; later ones push the current title to `previous`. */
    method SetCurrentTitle(title: string)
      requires Valid()
      modifies this
      ensures Valid() && current == Some(title)
      ensures old(current).None? ==> previous == old(previous)
      ensures old(current).Some? ==> previous == old(current)
    {
      if current.None? {
        current := Some(title);
      } else {
        previous := current;
        current := Some(title);
      }
    }

    /** `reset`: both slots empty. */
    method Reset()
      modifies this
      ensures Valid() && current == None && previous == None
    {
      current, previous := None, None;
    }

    /** `is_first_song`: no title came before the current one since the last reset. */
    function IsFirstSong(): (r: bool)
      reads this
      ensures r <==> previous.None?
    {
      previous.None?
    }

    /** `get_path`: the recording path of the current title, if there is one. */
    function GetPath(cache: Path): (r: Option<Path>)
      reads this
      ensures r.None? <==> current.None?
      ensures r.Some? ==> r.value == RecordingPath(cache, current.value)
    {
      match current
      case None => None
      case Some(title) => Some(RecordingPath(cache, title))
    }

    /** `create_song`: the current title, recorded to its recording path, lasting `duration` seconds. */
    function CreateSong(duration: nat, cache: Path): (r: Option<Song>)
      reads this
      ensures r.None? <==> current.None?
      ensures r.Some? ==> r.value.title == current.value && r.value.duration == duration
                          && r.value.path == RecordingPath(cache, current.value)
    {
      match current
      case None => None
      case Some(title) => Some(New(title, GetPath(cache).value, duration))
    }
  }

  /**
   * `is_first_song` over a run of the queue: true after a reset, still true
   * after the first title, false from the second title on.
   */
  method FirstSongSequence(first: string, second: string, third: string) returns (afterReset: bool, afterFirst: bool, afterSecond: bool, afterThird: bool)
    ensures afterReset && afterFirst && !afterSecond && !afterThird
  {
    var queue := new SongTitle();
    queue.Reset();
    afterReset := queue.IsFirstSong();
    queue.SetCurrentTitle(first);
    afterFirst := queue.IsFirstSong();
    queue.SetCurrentTitle(second);
    afterSecond := queue.IsFirstSong();
    queue.SetCurrentTitle(third);
    afterThird := queue.IsFirstSong();
  }

  /** What `toggle_playback` requests for the state the backend reports: the other one of playing and stopped. */
  function Toggled(state: PlaybackState): (r: Option<PlaybackState>)
    ensures state == Playing <==> r == Some(Stopped)
    ensures state == Stopped <==> r == Some(Playing)
    ensures state.Failure? <==> r.None?
  {
    match state
    case Playing => Some(Stopped)
    case Stopped => Some(Playing)
    case Failure(_) => None
  }

  /** Toggling twice gets back to the start. */
  lemma ToggleTwice(state: PlaybackState)
    requires !state.Failure?
    ensures Toggled(Toggled(state).value) == Some(state)
  {
  }

  class Player {
    const songTitle: SongTitle
    const store: SongBackend.SongBackend
    /** `path::CACHE`, the cache directory. */
    const cache: Path
    /** Where the backend records to, while it records. */
    var recording: Option<Path>
    var pipeline: seq<PipelineCall>
    var controllerCalls: seq<ControllerCall>
    var notifications: seq<Notification>

    /**
     * The queue and the store are consistent, and a recording only runs for
     * a title that is not the first since the reset, to that title's path.
     */
    ghost predicate Valid()
      reads this, songTitle, store
    {
      && songTitle.Valid()
      && store.Valid() && store.saveCount >= 1
      && (recording.Some? ==> !songTitle.IsFirstSong() && songTitle.GetPath(cache) == recording)
    }

    constructor (cache: Path, store: SongBackend.SongBackend)
      requires store.Valid() && store.saveCount >= 1
      ensures Valid() && fresh(songTitle)
      ensures this.cache == cache && this.store == store
      ensures songTitle.current == None && songTitle.previous == None
      ensures recording == None && pipeline == [] && controllerCalls == [] && notifications == []
    {
      this.cache := cache;
      this.store := store;
      songTitle := new SongTitle();
      recording, pipeline, controllerCalls, notifications := None, [], [], [];
    }

    /** `start_recording` of the backend: ignored while a recording runs. */
    method StartRecordingTo(path: Path)
      modifies this
      ensures pipeline == old(pipeline) + [StartRecording(path)]
      ensures recording == if old(recording).Some? then old(recording) else Some(path)
      ensures controllerCalls == old(controllerCalls) && notifications == old(notifications)
    {
      pipeline := pipeline + [StartRecording(path)];
      if recording.None? {
        recording := Some(path);
      }
    }

    /** `stop_recording` of the backend: the recording ends, its data kept or discarded. */
    method StopRecordingKeeping(discard: bool)
      modifies this
      ensures pipeline == old(pipeline) + [StopRecording(discard)]
      ensures recording == None
      ensures controllerCalls == old(controllerCalls) && notifications == old(notifications)
    {
      pipeline := pipeline + [StopRecording(discard)];
      recording := None;
    }

    /**
     * `set_playback`: playing starts the pipeline; stopped discards a running
     * recording, empties the title queue and stops the pipeline; a failure
     * state requests nothing.
     */
    method SetPlayback(playback: PlaybackState)
      requires Valid()
      modifies this, songTitle
      ensures Valid()
      ensures playback == Playing ==>
        && pipeline == old(pipeline) + [SetState(GstPlaying)]
        && recording == old(recording) && songTitle.current == old(songTitle.current) && songTitle.previous == old(songTitle.previous)
      ensures playback == Stopped ==>
        && pipeline == old(pipeline) + (if old(recording).Some? then [StopRecording(true)] else []) + [SetState(GstNull)]
        && recording == None && songTitle.current == None && songTitle.previous == None
      ensures playback.Failure? ==>
        && pipeline == old(pipeline)
        && recording == old(recording) && songTitle.current == old(songTitle.current) && songTitle.previous == old(songTitle.previous)
      ensures controllerCalls == old(controllerCalls) && notifications == old(notifications)
    {
      match playback {
        case Playing =>
          pipeline := pipeline + [SetState(GstPlaying)];
        case Stopped =>
          if recording.Some? {
            StopRecordingKeeping(true);
          }
          songTitle.Reset();
          pipeline := pipeline + [SetState(GstNull)];
        case Failure(_) =>
      }
    }

    /** `toggle_playback`, given the state the backend reports. */
    method TogglePlayback(reported: PlaybackState)
      requires Valid()
      modifies this, songTitle
      ensures Valid()
      ensures Toggled(reported) == Some(Stopped) ==>
        pipeline == old(pipeline) + (if old(recording).Some? then [StopRecording(true)] else []) + [SetState(GstNull)]
        && recording == None && songTitle.current == None && songTitle.previous == None
      ensures Toggled(reported) == Some(Playing) ==>
        pipeline == old(pipeline) + [SetState(GstPlaying)] && recording == old(recording)
        && songTitle.current == old(songTitle.current) && songTitle.previous == old(songTitle.previous)
      ensures Toggled(reported).None? ==>
        pipeline == old(pipeline) && recording == old(recording)
        && songTitle.current == old(songTitle.current) && songTitle.previous == old(songTitle.previous)
      ensures controllerCalls == old(controllerCalls) && notifications == old(notifications)
    {
      if reported == Playing {
        SetPlayback(Stopped);
      } else if reported == Stopped {
        SetPlayback(Playing);
      }
    }

    /**
     * `set_station`: always stops first. An offline station (`lastcheckok`
     * other than 1) only raises a notification. Otherwise the controllers
     * get the station, the title queue is emptied, and the resolved URL
     * becomes the pipeline's source, or a notification says it cannot be
     * streamed.
     */
    method SetStationTo(station: StationMetadata)
      requires Valid()
      modifies this, songTitle
      ensures Valid()
      ensures recording == None && songTitle.current == None && songTitle.previous == None
      ensures var stopped := old(pipeline) + (if old(recording).Some? then [StopRecording(true)] else []) + [SetState(GstNull)];
        if station.lastcheckok != 1 then
          && notifications == old(notifications) + [StationOffline]
          && controllerCalls == old(controllerCalls) && pipeline == stopped
        else
          && controllerCalls == old(controllerCalls) + [SetStation(station.stationuuid)]
          && (station.urlResolved.Some? ==> pipeline == stopped + [NewSourceUri(station.urlResolved.value)] && notifications == old(notifications))
          && (station.urlResolved.None? ==> pipeline == stopped && notifications == old(notifications) + [StationNotStreamable])
    {
      SetPlayback(Stopped);
      if station.lastcheckok != 1 {
        notifications := notifications + [StationOffline];
        return;
      }
      controllerCalls := controllerCalls + [SetStation(station.stationuuid)];
      songTitle.Reset();
      match station.urlResolved {
        case Some(url) =>
          pipeline := pipeline + [NewSourceUri(url)];
        case None =>
          notifications := notifications + [StationNotStreamable];
      }
    }

    /**
     * `process_gst_message` for a new stream title. A running recording is
     * kept as a song when it lasted longer than `threshold` seconds and
     * discarded otherwise; then the title moves into the queue, the
     * controllers learn it, and unless it is the first title since the
     * reset a recording of it starts. A negative `duration` above the
     * threshold fails the `u64` conversion after the recording stopped:
     * that run returns `panicked`.
     */
    method SongTitleChanged(title: string, threshold: int, duration: int) returns (panicked: bool)
      requires Valid()
      modifies this, songTitle, store
      ensures panicked <==> old(recording).Some? && threshold < duration < 0
      ensures !panicked ==> Valid()
      ensures !panicked && old(recording).Some? && duration > threshold ==>
        store.songs == SongStore.Added(old(store.songs), Song(old(songTitle.current).value, old(recording).value, duration), store.saveCount)
      ensures !panicked && !(old(recording).Some? && duration > threshold) ==> store.songs == old(store.songs)
      ensures !panicked ==>
        && songTitle.current == Some(title)
        && (old(songTitle.current).Some? ==> songTitle.previous == old(songTitle.current))
        && controllerCalls == old(controllerCalls) + [SetSongTitle(title)]
        && recording == (if old(songTitle.current).Some? then Some(RecordingPath(cache, title)) else None)
        && pipeline == old(pipeline)
             + (if old(recording).None? then [] else [StopRecording(duration <= threshold)])
             + (if old(songTitle.current).Some? then [StartRecording(RecordingPath(cache, title))] else [])
    {
      if recording.Some? {
        if duration > threshold {
          StopRecordingKeeping(false);
          if duration < 0 {
            return true;
          }
          var song := songTitle.CreateSong(duration, cache).value;
          store.AddSong(song);
        } else {
          StopRecordingKeeping(true);
        }
      }
      songTitle.SetCurrentTitle(title);
      controllerCalls := controllerCalls + [SetSongTitle(title)];
      if !songTitle.IsFirstSong() {
        StartRecordingTo(songTitle.GetPath(cache).value);
      }
      return false;
    }

    /**
     * `process_gst_message` for a new playback state: the controllers learn
     * it, and a failure discards a running recording.
     */
    method PlaybackStateChanged(state: PlaybackState)
      requires Valid()
      modifies this
      ensures Valid()
      ensures controllerCalls == old(controllerCalls) + [SetPlaybackState(state)]
      ensures state.Failure? && old(recording).Some? ==> recording == None && pipeline == old(pipeline) + [StopRecording(true)]
      ensures !(state.Failure? && old(recording).Some?) ==> recording == old(recording) && pipeline == old(pipeline)
      ensures notifications == old(notifications)
    {
      controllerCalls := controllerCalls + [SetPlaybackState(state)];
      if recording.Some? && state.Failure? {
        StopRecordingKeeping(true);
      }
    }
  }
}
