/**
 * The older `SongBackend` of `src/audio/song_backend.rs`. Its store behaves
 * exactly like the newer one; only `save_song` differs: there is no custom
 * save path, and a missing Music directory is unwrapped.
 */
module LegacySongBackend {
  import opened Wrappers
  import opened Paths
  import opened Song
  import opened SongStore

  class SongBackend {
    var songs: seq<Entry>
    /** The rows of the song list box, top (newest) first. */
    var rows: seq<Song>
    /** Every file handed to `fs::remove_file`, in call order. */
    var removedFiles: seq<Path>
    const saveCount: nat

    ghost predicate Valid()
      reads this
    {
      && StoreInvariant(songs)
      && |songs| <= saveCount
      && rows == Reversed(Songs(songs))
    }

    constructor (saveCount: nat)
      ensures Valid()
      ensures this.saveCount == saveCount
      ensures songs == [] && rows == [] && removedFiles == []
    {
      this.saveCount := saveCount;
      songs, rows, removedFiles := [], [], [];
    }

    /** `add_song`; as in the newer backend, a `saveCount` of 0 would unwrap a missing oldest song. */
    method AddSong(song: Song)
      requires Valid() && saveCount >= 1
      modifies this
      ensures Valid()
      ensures songs == Added(old(songs), song, saveCount)
      ensures song.title in Keys(old(songs)) ==>
        songs == old(songs) && rows == old(rows) && removedFiles == old(removedFiles)
      ensures song.title !in Keys(old(songs)) && |old(songs)| >= saveCount ==>
        && removedFiles == old(removedFiles) + [old(songs)[0].song.path]
        && rows == [song] + old(rows)[..|old(rows)| - 1]
      ensures song.title !in Keys(old(songs)) && |old(songs)| < saveCount ==>
        removedFiles == old(removedFiles) && rows == [song] + old(rows)
    {
      AddedShape(songs, song, saveCount);
      AddedInvariant(songs, song, saveCount);
      if Lookup(songs, song.title).None? {
        AddedRows(songs, song, saveCount);
        if |songs| >= saveCount {
          ShiftRemoveAt(songs, 0);
          RemoveSong(songs[0].song);
        }
        rows := [song] + rows;
        songs := Insert(songs, song.title, song);
      }
    }

    /** `remove_song`: shift-remove the title, delete the file, drop the bottom row. */
    method RemoveSong(song: Song)
      requires rows != []
      modifies this
      ensures songs == ShiftRemove(old(songs), song.title)
      ensures removedFiles == old(removedFiles) + [song.path]
      ensures rows == old(rows)[..|old(rows)| - 1]
    {
      songs := ShiftRemove(songs, song.title);
      removedFiles := removedFiles + [song.path];
      rows := rows[..|rows| - 1];
    }
  }

  /**
   * Where `save_song` copies a recording: the Music directory joined with the
   * recording's file name. `None` is a panic: no Music directory, or a
   * recording path without a file name.
   */
  function SaveDestination(music: Option<Path>, song: Song): Option<Path>
  {
    match music
    case None => None
    case Some(dir) =>
      match FileName(song.path)
      case None => None
      case Some(name) => Some(Push(dir, name))
  }

  lemma SaveDestinationShape(music: Option<Path>, song: Song)
    requires WellFormed(song.path)
    ensures SaveDestination(music, song).Some? <==> music.Some? && FileName(song.path).Some?
    ensures SaveDestination(music, song).Some? ==>
      SaveDestination(music, song).value
        == Path(music.value.absolute, music.value.components + [FileName(song.path).value])
  {
    if music.Some? && FileName(song.path).Some? {
      PushComponent(music.value, FileName(song.path).value);
    }
  }
}
