/**
 * `SongBackend` of `src/audio/backend/song_backend.rs`: the recorded songs,
 * at most `saveCount` of them, oldest first, and the list widget that shows
 * them newest first. Deleting a recording from disk is recorded in
 * `removedFiles` instead of being performed.
 */
module SongBackend {
  import opened Wrappers
  import opened Paths
  import opened Song
  import opened SongStore

  class SongBackend {
    var songs: seq<Entry>
    /** The rows of the song list box, top (newest) first. */
    var rows: seq<Song>
    /** Every file handed to `fs::remove_file`, in call order. */
    var removedFiles: seq<Path>
    const saveCount: nat

    ghost predicate Valid()
      reads this
    {
      && StoreInvariant(songs)
      && |songs| <= saveCount
      && rows == Reversed(Songs(songs))
    }

    constructor (saveCount: nat)
      ensures Valid()
      ensures this.saveCount == saveCount
      ensures songs == [] && rows == [] && removedFiles == []
    {
      this.saveCount := saveCount;
      songs, rows, removedFiles := [], [], [];
    }

    /**
     * `add_song`. A `saveCount` of 0 makes the eviction unwrap a missing
     * oldest song, so callers must configure at least one.
     */
    method AddSong(song: Song)
      requires Valid() && saveCount >= 1
      modifies this
      ensures Valid()
      ensures songs == Added(old(songs), song, saveCount)
      ensures song.title in Keys(old(songs)) ==>
        songs == old(songs) && rows == old(rows) && removedFiles == old(removedFiles)
      ensures song.title !in Keys(old(songs)) && |old(songs)| >= saveCount ==>
        && removedFiles == old(removedFiles) + [old(songs)[0].song.path]
        && rows == [song] + old(rows)[..|old(rows)| - 1]
      ensures song.title !in Keys(old(songs)) && |old(songs)| < saveCount ==>
        removedFiles == old(removedFiles) && rows == [song] + old(rows)
    {
      AddedShape(songs, song, saveCount);
      AddedInvariant(songs, song, saveCount);
      if Lookup(songs, song.title).None? {
        AddedRows(songs, song, saveCount);
        if |songs| >= saveCount {
          ShiftRemoveAt(songs, 0);
          RemoveSong(songs[0].song);
        }
        rows := [song] + rows;
        songs := Insert(songs, song.title, song);
      }
    }

    /**
     * `remove_song`: shift-remove the song's title, delete its file and drop
     * the bottom row of the list box (which panics on an empty list box).
     */
    method RemoveSong(song: Song)
      requires rows != []
      modifies this
      ensures songs == ShiftRemove(old(songs), song.title)
      ensures removedFiles == old(removedFiles) + [song.path]
      ensures rows == old(rows)[..|old(rows)| - 1]
    {
      songs := ShiftRemove(songs, song.title);
      removedFiles := removedFiles + [song.path];
      rows := rows[..|rows| - 1];
    }
  }

  /**
   * Where `save_song` copies a recording: the Music directory, then the
   * recording's file name, and when a custom save path is set, that path and
   * the file name once more. `None` is the panic of `file_name().unwrap()`.
   */
  function SaveDestination(music: Path, customPath: string, song: Song): Option<Path>
  {
    match FileName(song.path)
    case None => None
    case Some(name) =>
      var dest := Push(music, name);
      Some(if customPath != "" then Push(Push(dest, customPath), name) else dest)
  }

  lemma SaveDestinationShape(music: Path, customPath: string, song: Song)
    requires WellFormed(song.path)
    ensures FileName(song.path).None? <==> SaveDestination(music, customPath, song).None?
    ensures FileName(song.path).Some? ==>
      var name := FileName(song.path).value;
      SaveDestination(music, customPath, song) == Some(
        if customPath == "" then Path(music.absolute, music.components + [name])
        else if customPath[0] == '/' then Path(true, Components(customPath) + [name])
        else Path(music.absolute, music.components + [name] + Components(customPath) + [name]))
  {
    if FileName(song.path).Some? {
      var name := FileName(song.path).value;
      assert IsComponent(name);
      PushComponent(music, name);
      if customPath != "" {
        PushComponent(Push(Push(music, name), customPath), name);
      }
    }
  }
}
