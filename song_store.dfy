/**
 * The recorded-song store that both generations of `SongBackend` keep: an
 * `IndexMap<String, Song>` keyed by song title, in insertion order, oldest
 * first. Only what the two backends do with it is modelled: `get`,
 * `get_index(0)`, `insert` and `shift_remove`.
 */
module SongStore {
  import opened Wrappers
  import opened Song

  datatype Entry = Entry(key: string, song: Song)

  function Keys(entries: seq<Entry>): (r: seq<string>)
    ensures |r| == |entries|
    ensures forall k :: 0 <= k < |r| ==> r[k] == entries[k].key
  {
    if entries == [] then [] else [entries[0].key] + Keys(entries[1..])
  }

  function Songs(entries: seq<Entry>): (r: seq<Song>)
    ensures |r| == |entries|
    ensures forall k :: 0 <= k < |r| ==> r[k] == entries[k].song
  {
    if entries == [] then [] else [entries[0].song] + Songs(entries[1..])
  }

  /** No key twice, and every song is stored under its own title. */
  ghost predicate StoreInvariant(entries: seq<Entry>) {
    && (forall i, j :: 0 <= i < j < |entries| ==> entries[i].key != entries[j].key)
    && (forall i :: 0 <= i < |entries| ==> entries[i].key == entries[i].song.title)
  }

  /** `IndexMap::get`. */
  function Lookup(entries: seq<Entry>, key: string): (r: Option<Song>)
    ensures r.None? <==> key !in Keys(entries)
    ensures r.Some? ==> exists i :: 0 <= i < |entries| && entries[i] == Entry(key, r.value)
  {
    if entries == [] then None
    else if entries[0].key == key then Some(entries[0].song)
    else Lookup(entries[1..], key)
  }

  /** `IndexMap::shift_remove`: drop the entry with that key, keep the others in order. */
  function ShiftRemove(entries: seq<Entry>, key: string): (r: seq<Entry>)
  {
    if entries == [] then []
    else if entries[0].key == key then entries[1..]
    else [entries[0]] + ShiftRemove(entries[1..], key)
  }

  /** `IndexMap::insert`: a present key gets the new value in its place, a new key goes last. */
  function Insert(entries: seq<Entry>, key: string, song: Song): (r: seq<Entry>)
  {
    if entries == [] then [Entry(key, song)]
    else if entries[0].key == key then [Entry(key, song)] + entries[1..]
    else [entries[0]] + Insert(entries[1..], key, song)
  }

  /**
   * What `add_song` leaves in the store: a title already stored changes
   * nothing; otherwise, when the store is full, the oldest song is shift-removed
   * first, and the new song is inserted under its title.
   */
  function Added(entries: seq<Entry>, song: Song, saveCount: nat): seq<Entry>
    requires saveCount >= 1
  {
    if Lookup(entries, song.title).Some? then entries
    else
      var kept := if |entries| >= saveCount then ShiftRemove(entries, entries[0].key) else entries;
      Insert(kept, song.title, song)
  }

  /** Removing a key that sits at position i of a store without duplicate keys cuts out exactly position i. */
  lemma {:induction false} ShiftRemoveAt(entries: seq<Entry>, i: nat)
    requires StoreInvariant(entries) && i < |entries|
    ensures ShiftRemove(entries, entries[i].key) == entries[..i] + entries[i + 1..]
  {
    if i > 0 {
      ShiftRemoveAt(entries[1..], i - 1);
      assert entries[..i] == [entries[0]] + entries[1..][..i - 1];
    }
  }

  /** Removing a key that is not stored changes nothing. */
  lemma {:induction false} ShiftRemoveAbsent(entries: seq<Entry>, key: string)
    requires key !in Keys(entries)
    ensures ShiftRemove(entries, key) == entries
  {
    if entries != [] {
      assert key != Keys(entries)[0];
      assert Keys(entries[1..]) == Keys(entries)[1..];
      ShiftRemoveAbsent(entries[1..], key);
    }
  }

  /** A new key is appended after all the others. */
  lemma {:induction false} InsertNew(entries: seq<Entry>, key: string, song: Song)
    requires key !in Keys(entries)
    ensures Insert(entries, key, song) == entries + [Entry(key, song)]
  {
    if entries != [] {
      assert key != Keys(entries)[0];
      assert Keys(entries[1..]) == Keys(entries)[1..];
      InsertNew(entries[1..], key, song);
    }
  }

  /**
   * `add_song` spelled out: a stored title leaves the store alone; otherwise
   * a full store loses exactly its oldest song (position 0) and the new song
   * becomes the newest (last) one.
   */
  lemma AddedShape(entries: seq<Entry>, song: Song, saveCount: nat)
    requires StoreInvariant(entries) && saveCount >= 1
    ensures song.title in Keys(entries) ==> Added(entries, song, saveCount) == entries
    ensures song.title !in Keys(entries) ==>
      Added(entries, song, saveCount)
        == (if |entries| >= saveCount then entries[1..] else entries) + [Entry(song.title, song)]
  {
    if song.title !in Keys(entries) {
      var kept := if |entries| >= saveCount then entries[1..] else entries;
      if |entries| >= saveCount {
        ShiftRemoveAt(entries, 0);
      }
      assert Keys(kept) == if |entries| >= saveCount then Keys(entries)[1..] else Keys(entries);
      InsertNew(kept, song.title, song);
    }
  }

  lemma AppendKeepsInvariant(kept: seq<Entry>, e: Entry)
    requires StoreInvariant(kept) && e.key !in Keys(kept) && e.key == e.song.title
    ensures StoreInvariant(kept + [e])
  {
    var r := kept + [e];
    forall i, j | 0 <= i < j < |r| ensures r[i].key != r[j].key {
      if j == |kept| {
        assert r[i].key == Keys(kept)[i];
      }
    }
  }

  /** Adding keeps the keys unique and each song under its title, and never grows the store past saveCount. */
  lemma AddedInvariant(entries: seq<Entry>, song: Song, saveCount: nat)
    requires StoreInvariant(entries) && saveCount >= 1 && |entries| <= saveCount
    ensures StoreInvariant(Added(entries, song, saveCount))
    ensures |Added(entries, song, saveCount)| <= saveCount
  {
    AddedShape(entries, song, saveCount);
    if song.title !in Keys(entries) {
      var kept := if |entries| >= saveCount then entries[1..] else entries;
      assert Keys(kept) == if |entries| >= saveCount then Keys(entries)[1..] else Keys(entries);
      AppendKeepsInvariant(kept, Entry(song.title, song));
    }
  }

  /** A newly added song can be looked up under its title. */
  lemma AddedFindsNewSong(entries: seq<Entry>, song: Song, saveCount: nat)
    requires StoreInvariant(entries) && saveCount >= 1 && song.title !in Keys(entries)
    ensures Lookup(Added(entries, song, saveCount), song.title) == Some(song)
  {
    AddedShape(entries, song, saveCount);
    var kept := if |entries| >= saveCount then entries[1..] else entries;
    assert Keys(kept) == if |entries| >= saveCount then Keys(entries)[1..] else Keys(entries);
    LookupLast(kept, Entry(song.title, song));
  }

  lemma {:induction false} LookupLast(kept: seq<Entry>, e: Entry)
    requires e.key !in Keys(kept)
    ensures Lookup(kept + [e], e.key) == Some(e.song)
  {
    if kept != [] {
      assert Keys(kept)[0] == kept[0].key;
      assert Keys(kept[1..]) == Keys(kept)[1..];
      assert (kept + [e])[1..] == kept[1..] + [e];
      LookupLast(kept[1..], e);
    }
  }

  /** Stored titles identify songs under `Song::eq`: two entries hold equal songs only if they are one entry. */
  lemma TitleIsKey(entries: seq<Entry>, i: nat, j: nat)
    requires StoreInvariant(entries) && i < |entries| && j < |entries|
    ensures Same(entries[i].song, entries[j].song) <==> i == j
  {
  }

  /** The list widget's rows, newest first, for songs kept oldest first. */
  function Reversed(s: seq<Song>): (r: seq<Song>)
    ensures |r| == |s|
    ensures forall k :: 0 <= k < |s| ==> r[k] == s[|s| - 1 - k]
  {
    if s == [] then [] else Reversed(s[1..]) + [s[0]]
  }

  /** Appending a song puts its row on top; dropping the oldest song drops the bottom row. */
  lemma {:induction false} ReversedUpdates(s: seq<Song>, x: Song)
    ensures Reversed(s + [x]) == [x] + Reversed(s)
    ensures s != [] ==> Reversed(s[1..]) == Reversed(s)[..|s| - 1]
  {
    var a, b := Reversed(s + [x]), [x] + Reversed(s);
    assert |a| == |b|;
    forall k | 0 <= k < |a| ensures a[k] == b[k] {
      if k > 0 {
        assert a[k] == (s + [x])[|s| - k];
      }
    }
    if s != [] {
      var c, d := Reversed(s[1..]), Reversed(s)[..|s| - 1];
      assert |c| == |d|;
      forall k | 0 <= k < |c| ensures c[k] == d[k] {
        assert c[k] == s[1..][|s| - 2 - k];
      }
    }
  }

  /** The rows of the mirrored list after adding a new title: the new song on top, the bottom row gone when full. */
  lemma AddedRows(entries: seq<Entry>, song: Song, saveCount: nat)
    requires StoreInvariant(entries) && saveCount >= 1 && song.title !in Keys(entries)
    ensures Reversed(Songs(Added(entries, song, saveCount)))
         == [song] + (if |entries| >= saveCount then Reversed(Songs(entries))[..|entries| - 1]
                      else Reversed(Songs(entries)))
  {
    AddedShape(entries, song, saveCount);
    var kept := if |entries| >= saveCount then entries[1..] else entries;
    SongsSlices(kept, Entry(song.title, song));
    ReversedUpdates(Songs(kept), song);
    if |entries| >= saveCount {
      SongsSlices(entries, Entry(song.title, song));
      ReversedUpdates(Songs(entries), song);
    }
  }

  lemma SongsSlices(entries: seq<Entry>, e: Entry)
    ensures Songs(entries + [e]) == Songs(entries) + [e.song]
    ensures entries != [] ==> Songs(entries[1..]) == Songs(entries)[1..]
  {
    var a, b := Songs(entries + [e]), Songs(entries) + [e.song];
    assert |a| == |b| && forall k :: 0 <= k < |a| ==> a[k] == b[k];
    if entries != [] {
      var c, d := Songs(entries[1..]), Songs(entries)[1..];
      assert |c| == |d| && forall k :: 0 <= k < |c| ==> c[k] == d[k];
    }
  }
}
