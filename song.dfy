/** A recorded song (`src/audio/song.rs`): its title, the file it was recorded to and its length. */
module Song {
  import opened Paths

  /** `duration` is the `Duration` in whole seconds; the recorder only builds whole-second durations. */
  datatype Song = Song(title: string, path: Path, duration: nat)

  /** `Song::new` keeps what it is given. */
  function New(title: string, path: Path, duration: nat): (s: Song)
    ensures s.title == title && s.path == path && s.duration == duration
  {
    Song(title, path, duration)
  }

  /** `PartialEq for Song`: two songs are the same song when their titles agree. */
  predicate Same(a: Song, b: Song) {
    a.title == b.title
  }

  lemma SameIsEquivalence(a: Song, b: Song, c: Song)
    ensures Same(a, a)
    ensures Same(a, b) ==> Same(b, a)
    ensures Same(a, b) && Same(b, c) ==> Same(a, c)
  {
  }

  /** Path and duration play no part: a re-recording of a title is the same song. */
  lemma SameIgnoresPathAndDuration(title: string, p1: Path, d1: nat, p2: Path, d2: nat)
    ensures Same(New(title, p1, d1), New(title, p2, d2))
    ensures Same(New(title, p1, d1), New(title, p2, d2)) <==> New(title, p1, d1).title == New(title, p2, d2).title
  {
  }
}
