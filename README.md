# Shortwave core, modelled in Dafny

Shortwave is a GTK internet-radio player written in Rust. This project models the
small sequential components inside it whose behaviour can be stated exactly, and
proves properties about them. Each Rust file becomes one Dafny module, in the
source's own form: objects whose fields change become classes with `modifies`
frames, loops become methods with invariants, and pure code becomes functions
and lemmas.

- **Recorded-song store.** `SongBackend` appears in two generations:
  `song_backend.dfy` and `legacy_song_backend.dfy`. The shared map logic lives in
  `song_store.dfy`, and `song.dfy` holds the `Song` value with equality by title.
  The store is an insertion-ordered map keyed by title that holds at most
  `save_count` entries. It rejects titles already stored and evicts the oldest
  entry when full. Its list widget shows the songs newest-first. Deleted files and
  list rows are recorded as effect logs.
- **Song-title queue and recording policy** (`audio_player.dfy`). `SongTitle` is a
  two-slot state machine. It also builds the recording path, using a `PathBuf`
  model (`paths.dfy`). `Player` makes the decisions of `process_gst_message`,
  `set_station`, `set_playback` and `toggle_playback`, against logs of GStreamer
  calls, controller calls and notifications.
- **Older song history** (`song_history.dfy`). `SongHistory` keeps a history of at
  most 10 songs, newest first, and a list of rows. A song entering the history also
  gets a row at the top, and an overflow deletes the oldest history entry and removes
  the bottom row. `delete_everything`, called at shutdown, empties the history but
  keeps the rows. From then on the bottom row is a stale one, not the evicted song's
  (`EvictedRowStays`). The file also holds the mapping from pipeline state to
  playback state.
- **Station list model** (`station_model.dfy`). A vector with no two entries
  sharing a UUID, and the `items_changed` signals it emits.
- **Station ordering** (`station_sorter.dfy`, `utils.dfy`, `database_models.dfy`,
  `ordering.dfy`). The comparators, both sorter properties, and identifier
  equality. String comparison follows Rust's lexicographic `Ord`.
- **String helpers** (`utils.dfy`): `simplify_string` and `station_subtitle`.
- **Duration formatting** (`ui_song_row.dfy`, `widgets_song_row.dfy`, `chrono.dfy`,
  `decimal.dfy`). The chrono `NaiveTime` and `%M`, `%S` and `%T` formatting that
  both `format_duration`s use, including the `as u32` truncation.
- **Carousel page index** (`featured_carousel.dfy`).
- **Cast device registry** (`gcast_discoverer.dfy`). The per-response update of the
  known devices, lookup by IP, A/AAAA record mapping, and DNS-SD TXT parsing as
  the code does it: a value ends at the second `=`, which is unlike section 6.4 of
  RFC 6763.
- **Sleep-inhibit cookie** (`inhibit_controller.dfy`).

Panics are modelled explicitly where an input can reach them: an `unwrap` on a
missing TXT key, an entry without `=`, a negative recording duration, and
`from_num_seconds_from_midnight` on large values. They show up as outcome values
(`Panic`, `None`, `panicked`, `crashed`). Where the source's callers can never
reach a panic, it becomes a precondition instead (see "Left out").

## Model

| member | source | states |
|---|---|---|
| Song.New | src/audio/song.rs:28-36 | the song keeps the given title, path and duration unchanged |
| Song.SameIsEquivalence | src/audio/song.rs:39-43 | song equality is reflexive, symmetric and transitive |
| Song.SameIgnoresPathAndDuration | src/audio/song.rs:39-43 | two songs with the same title are equal whatever their paths and durations |
| SongStore.Lookup | src/audio/backend/song_backend.rs:53 | the lookup finds a song exactly when its title is among the keys |
| SongStore.ShiftRemoveAt | src/audio/backend/song_backend.rs:69-71 | `shift_remove` of a present key drops exactly that entry and keeps the others in order |
| SongStore.ShiftRemoveAbsent | src/audio/backend/song_backend.rs:69-71 | `shift_remove` of an absent key changes nothing |
| SongStore.InsertNew | src/audio/backend/song_backend.rs:63 | inserting a new key appends the entry at the end of the insertion order |
| SongStore.AddedShape | src/audio/backend/song_backend.rs:51-67 | a known title changes nothing; a full store loses exactly its oldest entry (index 0) before the new song is appended; otherwise the song is simply appended |
| SongStore.AppendKeepsInvariant | src/audio/backend/song_backend.rs:63 | appending an entry under a new key keeps keys unique and every song stored under its own title |
| SongStore.AddedInvariant | src/audio/backend/song_backend.rs:53-63 | with `save_count >= 1`, adding keeps keys unique, songs keyed by title, and the length at most `save_count` |
| SongStore.AddedFindsNewSong | src/audio/backend/song_backend.rs:53-63 | after adding, a lookup of the song's title finds a song equal to it |
| SongStore.LookupLast | src/audio/backend/song_backend.rs:63 | the entry appended last is what a lookup of its key returns |
| SongStore.TitleIsKey | src/audio/backend/song_backend.rs:53 | in a well-formed store, two positions holding equal songs are the same position |
| SongStore.ReversedUpdates | src/audio/backend/song_backend.rs:36-41 | reversing a sequence with an element appended equals that element followed by the reversed prefix |
| SongStore.AddedRows | src/audio/backend/song_backend.rs:62 | rows kept newest-first still mirror the store after an add: the new row goes on top and an evicted song's row leaves the bottom |
| SongBackend.SongBackend.constructor | src/audio/backend/song_backend.rs:44-49 | the store starts empty with the given `save_count` |
| SongBackend.SongBackend.AddSong | src/audio/backend/song_backend.rs:51-67 | the new store equals `Added(old, song)`; a known title changes nothing; when full exactly one song is evicted, its file deleted and the bottom row removed; the row list mirrors the store newest-first |
| SongBackend.SongBackend.RemoveSong | src/audio/backend/song_backend.rs:69-78 | `shift_remove` of the title, deletion of exactly that song's file, and removal of the last row |
| SongBackend.SaveDestinationShape | src/audio/backend/song_backend.rs:80-93 | with no custom path the destination is Music/<file name>; otherwise it is Music/<file name>/<custom>/<file name>, with push semantics; no file name gives no destination |
| LegacySongBackend.SongBackend.constructor | src/audio/song_backend.rs:29-35 | the store starts empty with the given `save_count` |
| LegacySongBackend.SongBackend.AddSong | src/audio/song_backend.rs:37-53 | same contract as the newer backend: duplicates ignored, one oldest eviction when full, rows mirror the store |
| LegacySongBackend.SongBackend.RemoveSong | src/audio/song_backend.rs:55-64 | order-keeping removal of the title, that song's file deleted, the last row removed |
| LegacySongBackend.SaveDestinationShape | src/audio/song_backend.rs:66-70 | the destination is Music/<file name of the song path>; with no Music directory or no file name the unwrap fails |
| Paths.Push | src/audio/backend/song_backend.rs:83-90 | `PathBuf::push` keeps a path well formed |
| Paths.PushExtends | src/audio/backend/song_backend.rs:83-90 | an absolute argument yields an absolute path; a relative one keeps the old path as a prefix and keeps its absoluteness |
| Paths.FileName | src/audio/backend/song_backend.rs:84 | the file name is the last component, and there is none for an empty path or one ending in `..` |
| Paths.SetExtension | src/audio/player.rs:346-347 | `set_extension` keeps the number of components and whether the path is absolute |
| Paths.PushComponent | src/audio/player.rs:339-346 | pushing a plain component appends exactly it |
| Paths.SetExtensionOfPlainName | src/audio/player.rs:347 | for a name without a dot, `set_extension("ogg")` appends `.ogg` |
| AudioPlayer.SimplifiedTitleIsPlain | src/audio/player.rs:337 | a non-empty simplified title is a single plain path component |
| AudioPlayer.PushWithExtension | src/audio/player.rs:346-347 | pushing a plain name and setting the extension gives the directory plus `<name>.ogg` |
| AudioPlayer.RecordingPathShape | src/audio/player.rs:335-352 | the recording path is CACHE/recording/<simplified title>.ogg, or CACHE/recording itself when the simplified title is empty |
| AudioPlayer.RecordingPathsDiffer | src/audio/player.rs:335-352 | titles whose simplified forms differ and are non-empty get different recording files |
| AudioPlayer.SongTitle.constructor | src/audio/player.rs:309-314 | both slots start empty |
| AudioPlayer.SongTitle.SetCurrentTitle | src/audio/player.rs:316-323 | from an empty current slot only `current` is set; otherwise the old current moves to `previous`; the invariant "previous only with current" is kept |
| AudioPlayer.SongTitle.Reset | src/audio/player.rs:358-362 | both slots become empty |
| AudioPlayer.SongTitle.IsFirstSong | src/audio/player.rs:354-356 | true exactly when `previous` is empty |
| AudioPlayer.SongTitle.GetPath | src/audio/player.rs:335-352 | `None` exactly when there is no current title; otherwise the recording path of the current title |
| AudioPlayer.SongTitle.CreateSong | src/audio/player.rs:326-332 | `None` exactly when there is no current title; otherwise a song with the current title and the given duration |
| AudioPlayer.FirstSongSequence | src/audio/player.rs:354-362 | `is_first_song` is true after reset and after the first title, and false after the second and third |
| AudioPlayer.Toggled | src/audio/player.rs:197-203 | Playing toggles to Stopped and Stopped to Playing, each in both directions; Failure does nothing |
| AudioPlayer.ToggleTwice | src/audio/player.rs:197-203 | toggling twice returns to the original state |
| AudioPlayer.Player.constructor | src/audio/player.rs:124-136 | an empty title queue, no recording, and empty effect logs |
| AudioPlayer.Player.StartRecordingTo | src/audio/player.rs:281-282 | a start-recording call is logged, and the recording path is set if none was running |
| AudioPlayer.Player.StopRecordingKeeping | src/audio/player.rs:259-270 | a stop-recording call with the discard flag is logged, and no recording remains |
| AudioPlayer.Player.SetPlayback | src/audio/player.rs:174-195 | Playing sets the pipeline to Playing; Stopped discards a running recording, resets the title queue and sets Null; Failure does nothing |
| AudioPlayer.Player.TogglePlayback | src/audio/player.rs:197-203 | a reported Playing leads to `set_playback(Stopped)`, which resets the title queue; Stopped leads to `set_playback(Playing)`, which keeps it; Failure changes nothing |
| AudioPlayer.Player.SetStationTo | src/audio/player.rs:145-172 | playback always stops first; an offline station only notifies; otherwise the controllers get the station, the queue resets, and the resolved URL becomes the source, or else a not-streamable notification |
| AudioPlayer.Player.SongTitleChanged | src/audio/player.rs:252-286 | a running recording is kept and added to the store iff its duration exceeds the threshold, otherwise discarded; the title enters the queue and reaches the controllers; a new recording starts iff the title is not the first; a negative duration above the threshold panics |
| AudioPlayer.Player.PlaybackStateChanged | src/audio/player.rs:287-297 | the controllers get the state, and a Failure discards a running recording |
| SongHistory.PlaybackStateOf | src/player.rs:267-272 | Playing maps to Playing, Paused and Ready to Loading, and everything else to Stopped, each stated both ways |
| SongHistory.SongHistory.constructor | src/player.rs:84-103 | no current song, empty history and rows, `max_history` = 10 |
| SongHistory.SongHistory.DiscardCurrentSong | src/player.rs:105-107 | the current song is deleted and cleared, and the history is unchanged |
| SongHistory.SongHistory.SetNewSong | src/player.rs:110-138 | returns false and changes nothing for the same song; otherwise the old current is finished and put at the front of history and rows, the new song becomes current, and the recording box is shown; on overflow the oldest history entry is deleted and the bottom row removed, which is that entry's row exactly when no stale rows are left over from `delete_everything` |
| SongHistory.EvictedRowStays | src/player.rs:129-134 | with stale rows left by `delete_everything`, an overflow deletes a song that is no longer in the history yet keeps a row for it |
| SongHistory.SongHistory.GetPreviousSong | src/player.rs:140-142 | `history[0]`, or `None` exactly when the history is empty |
| SongHistory.SongHistory.DeleteEverything | src/player.rs:144-151 | the current song and every history entry are deleted, the history becomes empty, and the rows and the recording box are left untouched |
| SongHistory.PlaySequence | src/player.rs:110-138 | after playing distinct songs, the last is current and the history holds the previous ones newest-first, at most 10 |
| StationModel.PositionOfIsFirst | src/model/station_model.rs:95-104 | the position found is the smallest with a matching UUID, and there is none iff no entry matches |
| StationModel.RemovalKeepsDistinct | src/model/station_model.rs:83-93 | removing one position keeps the UUIDs distinct |
| StationModel.AddedStationIsFound | src/model/station_model.rs:65-81 | a station appended with a new UUID is found at the last position |
| StationModel.SwStationModel.constructor | src/model/station_model.rs:61-63 | an empty model and no signals |
| StationModel.SwStationModel.GetNItems | src/model/station_model.rs:46-48 | the number of stations |
| StationModel.SwStationModel.GetItem | src/model/station_model.rs:49-51 | `None` exactly when the position is past the end; otherwise the station at that position |
| StationModel.SwStationModel.Find | src/model/station_model.rs:95-104 | the loop returns the first position with the station's UUID, or `None` iff there is none |
| StationModel.SwStationModel.AddStation | src/model/station_model.rs:65-81 | a known UUID changes nothing; otherwise the station is appended and `(len-1, 0, 1)` is signalled; UUIDs stay distinct |
| StationModel.SwStationModel.RemoveStation | src/model/station_model.rs:83-93 | an unknown station changes nothing; otherwise exactly the found position is removed, the rest keep their order, and `(pos, 1, 0)` is signalled |
| StationModel.SwStationModel.Clear | src/model/station_model.rs:106-111 | the vector empties and `(0, old_len, 0)` is signalled |
| Ordering.CompareInts | src/model/station_sorter.rs:125-126 | integer `cmp`: Less, Equal or Greater as the integers compare |
| Ordering.CompareStringsEqualIff | src/model/station_sorter.rs:121-124 | string comparison is Equal exactly for equal strings |
| Ordering.CompareStringsFlip | src/model/station_sorter.rs:121-124 | swapping the strings reverses the result |
| Ordering.CompareStringsTransitive | src/model/station_sorter.rs:121-124 | string `<=` is transitive |
| Ordering.CompareStringsLessIff | src/model/station_sorter.rs:121-124 | Less exactly when the first string is lexicographically smaller |
| StationSorter.SwStationSorter.constructor | src/model/station_sorter.rs:31-35 | starts with sorting Default and `descending` false |
| StationSorter.SwStationSorter.SetSorting | src/model/station_sorter.rs:64-78 | stores the key, leaves `descending`, and signals a change |
| StationSorter.SwStationSorter.SetDescending | src/model/station_sorter.rs:64-78 | stores the flag, leaves the key, and signals a change |
| StationSorter.SwStationSorter.Compare | src/model/station_sorter.rs:86-90 | uses the current key and direction: Default gives Equal, and the result equals the opposite direction with the two items swapped |
| StationSorter.SwStationSorter.Order | src/model/station_sorter.rs:82-84 | the sorter declares a Total order (as written) |
| StationSorter.SwStationSorter.CorrectedOrder | src/model/station_sorter.rs:82-84 | the sorter declares a Partial order (corrected) |
| StationSorter.TotalClaimFails | src/model/station_sorter.rs:82-90 | two different stations compare Equal while Total is declared, so the declaration is not honest |
| StationSorter.CorrectedOrderHolds | src/model/station_sorter.rs:82-90 | `compare` is antisymmetric and transitive for every key and direction, which is what a Partial declaration requires (the declaration itself allows Equal for distinct items) |
| StationSorter.DefaultIsEqual | src/model/station_sorter.rs:120 | Default compares every pair Equal in either direction |
| StationSorter.AscendingComparesField | src/model/station_sorter.rs:121-127 | ascending order compares the named field: strings for name, language, country, state and codec; integers for votes and bitrate |
| StationSorter.DescendingReversesAscending | src/model/station_sorter.rs:115-117 | descending equals ascending with the arguments swapped, which is the reversed result |
| StationSorter.StationCmpTotalPreorder | src/model/station_sorter.rs:111-129 | for every key and direction the comparator is antisymmetric and transitive |
| Utils.StationCmpCompares | src/utils.rs:41-59 | Default gives Equal in both orders; any other key compares that field |
| Utils.DescendingReversesAscending | src/utils.rs:45-47 | Descending equals Ascending with the arguments swapped, which is the reversed result |
| Utils.StationCmpTotalPreorder | src/utils.rs:41-59 | the comparator is antisymmetric and transitive for every key and order |
| Utils.SimplifyConcat | src/utils.rs:98-100 | simplification distributes over concatenation |
| Utils.SimplifyRemovesAll | src/utils.rs:98-100 | the result holds none of the eleven removed characters and is no longer than the input |
| Utils.SimplifyKeepsOthers | src/utils.rs:98-100 | every other character keeps its number of occurrences, and a removed one occurs zero times |
| Utils.SimplifyIdempotent | src/utils.rs:98-100 | a string without removed characters is unchanged, so simplifying twice equals simplifying once |
| Utils.LocationShape | src/utils.rs:103-107 | the location is the country, plus " "+state when the state is non-empty; an empty country with a state gives a leading space |
| Utils.StationSubtitleShape | src/utils.rs:102-116 | an empty location yields only the vote phrase; otherwise location, " · ", then the vote phrase |
| Utils.FillOne | src/utils.rs:110 | the one-argument translated format places the vote count before the word |
| Utils.FillTwo | src/utils.rs:112 | the two-argument format is location, " · ", count, then word |
| DatabaseModels.FromStation | src/database/models.rs:28-33 | copies the station's UUID and has no id |
| DatabaseModels.FromUuid | src/database/models.rs:34-36 | the given UUID and no id |
| DatabaseModels.SameIsEquivalence | src/database/models.rs:39-43 | identifier equality is an equivalence relation |
| DatabaseModels.SameIgnoresId | src/database/models.rs:39-43 | the database id never affects equality |
| DatabaseModels.FromUuidMatchesStation | src/database/models.rs:28-43 | `from_uuid(u) == from_station(s)` iff the station's UUID is `u` |
| Decimal.NatToStringRoundTrip | src/utils.rs:110-112 | reading back the decimal text of a number gives the number |
| Decimal.TwoDigitsRoundTrip | src/ui/song_row.rs:132-135 | two-digit zero padding is two digits whose value is the number below 100 |
| Chrono.FromNumSecondsFromMidnight | src/ui/song_row.rs:130 | `None` exactly for 86400 or more |
| Chrono.FieldsRecombine | src/ui/song_row.rs:128-137 | hour, minute and second recombine to the seconds since midnight and are in range |
| Chrono.FormatShortClock | src/ui/song_row.rs:134-135 | `%M<sep>%S` is two-digit minutes, the separator, then two-digit seconds |
| Chrono.FormatTime | src/ui/song_row.rs:132-133 | `%T` is `HH:MM:SS`, eight characters |
| Chrono.ShortClockRoundTrip | src/ui/song_row.rs:134-135 | below an hour, reading the short clock back gives the seconds |
| Chrono.TimeRoundTrip | src/ui/song_row.rs:132-133 | reading `%T` back gives the seconds since midnight |
| UiSongRow.FormatDuration | src/ui/song_row.rs:128-137 | `None` (the panic) exactly when the value truncated to 32 bits is 86400 or more |
| UiSongRow.FormatDurationRoundTrip | src/ui/song_row.rs:128-137 | below 86400: below an hour, 5 characters `MM∶SS` with U+2236; from an hour, 8 characters `HH:MM:SS`; reading it back gives the input |
| UiSongRow.FormatDurationWraps | src/ui/song_row.rs:130 | 2^32+100 seconds prints as `00:01:40` because of the `as u32` cast |
| UiSongRow.SwSongRow.constructor | src/ui/song_row.rs:81-96 | title and tooltip are the song title; the subtitle is the formatted duration, which reads back to the duration |
| UiSongRow.SwSongRow.SaveClicked | src/ui/song_row.rs:101-116 | sends the save action for this song, shows the open button, and dims the row |
| WidgetsSongRow.FormatDuration | src/widgets/song_row.rs:62-70 | `None` (the panic) exactly when the value truncated to 32 bits is 86400 or more |
| WidgetsSongRow.FormatDurationRoundTrip | src/widgets/song_row.rs:62-70 | below an hour, MM then the literal three-character separator then SS, 7 characters; from an hour, `HH:MM:SS`; both read back to the input |
| WidgetsSongRow.SongRow.constructor | src/widgets/song_row.rs:19-34 | the title label and its tooltip are the title; the duration label and its tooltip are the formatted duration |
| WidgetsSongRow.SongRow.SaveClicked | src/widgets/song_row.rs:41-51 | success shows "Saved" and switches to "open"; failure shows the error text |
| FeaturedCarousel.NextIndex | src/ui/featured_carousel.rs:109-115 | `visible+1`, or 0 from the last page; stays in range |
| FeaturedCarousel.PreviousIndex | src/ui/featured_carousel.rs:96-102 | `visible-1`, or `len-1` from page 0; stays in range |
| FeaturedCarousel.NextPreviousInverse | src/ui/featured_carousel.rs:94-117 | next undoes previous, and previous undoes next |
| FeaturedCarousel.AdvanceWithinRound | src/ui/featured_carousel.rs:107-117 | k nexts (k at most len) move forward k pages modulo len |
| FeaturedCarousel.FullCircle | src/ui/featured_carousel.rs:107-117 | len successive nexts return to the starting page |
| FeaturedCarousel.FeaturedCarousel.constructor | src/ui/featured_carousel.rs:37-55 | no pages and visible page 0 |
| FeaturedCarousel.FeaturedCarousel.AddPage | src/ui/featured_carousel.rs:57-90 | exactly one page appended, visible page unchanged |
| FeaturedCarousel.FeaturedCarousel.Previous | src/ui/featured_carousel.rs:94-104 | the visible page becomes the previous index and is scrolled to |
| FeaturedCarousel.FeaturedCarousel.Next | src/ui/featured_carousel.rs:107-117 | the visible page becomes the next index and is scrolled to |
| FeaturedCarousel.FeaturedCarousel.PageChanged | src/ui/featured_carousel.rs:119-121 | the visible page becomes the reported index |
| GCastDiscoverer.RecordToIpAddr | src/audio/gcast_discoverer.rs:127-133 | only A and AAAA records map to an address, V4 and V6 respectively |
| GCastDiscoverer.FirstAddress | src/audio/gcast_discoverer.rs:99-103 | `None` exactly when no record maps to an address; otherwise the address of one of the records |
| GCastDiscoverer.FirstTxtFrom | src/audio/gcast_discoverer.rs:106-116 | only the first TXT record is read |
| GCastDiscoverer.SplitSecondPiece | src/audio/gcast_discoverer.rs:110-112 | the value is the text between the first and the second `=` |
| GCastDiscoverer.TxtEntryStored | src/audio/gcast_discoverer.rs:110-113 | each entry's key maps to a value, and later duplicates overwrite earlier ones |
| GCastDiscoverer.TxtEntryWithoutSeparator | src/audio/gcast_discoverer.rs:110-112 | an entry without `=` makes parsing fail, as the index out of range does |
| GCastDiscoverer.DeviceOfShape | src/audio/gcast_discoverer.rs:96-125 | no address gives `None`; a device has the first address, the `id` value as id and the `fn` value as name; a missing key panics |
| GCastDiscoverer.FirstPanic | src/audio/gcast_discoverer.rs:66-80 | the position of the first `get_device` outcome that is a panic, or `None` iff there is none |
| GCastDiscoverer.OutcomeAt | src/audio/gcast_discoverer.rs:67-72 | the outcome recorded for each response of a run is `get_device` of that response |
| GCastDiscoverer.ScanInvariant | src/audio/gcast_discoverer.rs:59-80 | the known list has no duplicates, holds the found devices newest-first, and holds every parsed device |
| GCastDiscoverer.ScanStep | src/audio/gcast_discoverer.rs:66-80 | each response updates the known list by one step |
| GCastDiscoverer.GCastDiscoverer.constructor | src/audio/gcast_discoverer.rs:45-51 | no known devices and no messages |
| GCastDiscoverer.GCastDiscoverer.GetDevice | src/audio/gcast_discoverer.rs:96-125 | the search for the first TXT record and the lookups compute exactly `DeviceOf(response)` |
| GCastDiscoverer.GCastDiscoverer.ReadTxt | src/audio/gcast_discoverer.rs:110-113 | the entry loop computes `TxtValues`: each key and value inserted in order, `None` (the panic) for an entry without `=` |
| GCastDiscoverer.GCastDiscoverer.Discover | src/audio/gcast_discoverer.rs:53-85 | starts from an empty list; inserts at the front and reports each device not yet known, up to the first panic; reports the end only when nothing panicked |
| GCastDiscoverer.GCastDiscoverer.GetDeviceByIpAddr | src/audio/gcast_discoverer.rs:87-94 | the first known device with that IP, or `None` exactly when none has it; the list is not modified |
| InhibitController.InhibitController.constructor | src/audio/controller/inhibit_controller.rs:32-35 | cookie 0 and no calls |
| InhibitController.InhibitController.SetPlaybackState | src/audio/controller/inhibit_controller.rs:41-61 | Playing/Loading with no cookie installs one inhibitor and stores its cookie; with a cookie nothing happens; any other state releases a held cookie and resets it to 0; at most one inhibitor is ever outstanding |
| InhibitController.InhibitController.SetStation | src/audio/controller/inhibit_controller.rs:39 | nothing changes |
| InhibitController.InhibitController.SetVolume | src/audio/controller/inhibit_controller.rs:63 | nothing changes |
| InhibitController.InhibitController.SetSongTitle | src/audio/controller/inhibit_controller.rs:65 | nothing changes |

## Left out

- build-aux/meson/postinstall.py: it only looks up environment variables and runs three external commands, so there is no logic to verify.
- GStreamer, GTK, D-Bus, network and database code: only the decisions the core makes about them are modelled. Their calls are logged as effect sequences: pipeline calls, controller calls, notifications, deleted files, list rows and signals.
- Filesystem effects (`fs::remove_file`, `fs::copy`, `create_dir_all`): they appear only as logged effects or as the destination path. I/O errors and their `expect` panics are not modelled.
- Network failures behind `response.unwrap()` in `start_discover`, the mDNS browsing thread, and the thread's concurrency: `Discover` takes the responses as a sequence.
- The mDNS `records()` iterator is modelled as answers, then nameservers, then additional records. The mdns crate is not part of this model.
- `ni18n_f` translation: the English singular/plural patterns are used and the translation catalogue is left out. `station_subtitle` casts the vote count `as u32` before choosing the plural, and `AsU32` models that cast.
- `crate::song::Song` used by src/player.rs is not part of this model. It is modelled as `HistorySong` with structural equality, and `finish`/`delete` are recorded as logs.
- `Song::simplify_title` and `save_as`, called by src/widgets/song_row.rs, are not part of this model. The save outcome is a parameter of `SaveClicked`.
- `Duration` is modelled in whole seconds as a `nat`. `Duration::from_secs(duration.try_into())` is modelled by the negative-duration panic only.
- The settings values (song duration threshold, custom save path, `save_count`) are parameters.
- The GStreamer state reported to `toggle_playback` is a parameter of `TogglePlayback`. Actual pipeline state transitions are not modelled.
- `current_station` in `SongHistory` is never read by the modelled methods, so it is omitted.
- SongBackend.SongBackend.AddSong: requires `save_count >= 1`, because with 0 the source's `get_index(0).unwrap()` panics on an empty store.
- LegacySongBackend.SongBackend.AddSong: the same `save_count >= 1` precondition, for the same reason.
- AudioPlayer.Player.constructor: requires a store with `save_count >= 1`, for the same reason.
- FeaturedCarousel.FeaturedCarousel.Previous: requires a non-empty page list, because the source indexes out of range or underflows there.
- FeaturedCarousel.FeaturedCarousel.Next: requires a non-empty page list, for the same reason.
- UiSongRow.SwSongRow.constructor: requires the duration to be formattable, because otherwise `format_duration` panics while the row is built.
- WidgetsSongRow.SongRow.constructor: the same precondition, for the same reason.
- InhibitController.InhibitController.SetPlaybackState: the cookie granted by the session inhibit call is a parameter below 2^32, and the D-Bus call itself is left out.
- FeaturedCarousel.FeaturedCarousel.PageChanged: requires the reported index to name a page. The source stores any `u32` it receives, but the paginator only reports indices of its own pages.
- StationModel.SwStationModel.GetNItems: the `len() as u32` cast is not modelled. The count is an unbounded `nat`, so lists of 2^32 or more stations, where the cast would wrap, are not captured.
- StationModel.SwStationModel.AddStation: the `(len - 1) as u32` cast of the signalled position is not modelled, for the same reason.
- The `votes` and `bitrate` fields of `StationMetadata` are integers. `utils.rs` imports a `crate::api::Station` whose defining generation is not part of this model. src/api/station.rs declares these fields as `String`, but it belongs to an older generation: src/ui/station_row.rs:43 and src/ui/station_dialog.rs:108 pass `station.votes` to the `i32` parameter of `station_subtitle`. The comparator therefore compares numbers, not strings.
- Utils.StationSubtitleShape: `votes` is limited to the `i32` range of the source's parameter type.

## Findings

| source | as written | input that shows it | evidently intended | confidence | as-written member | corrected member |
|---|---|---|---|---|---|---|
| src/model/station_sorter.rs:82-84 | `order` declares `gtk::SorterOrder::Total`, but `compare` returns Equal for different stations: always under `Default`, and for equal field values under any other key | two stations that differ only in `stationuuid`, with sorting `Default` | `SorterOrder::Partial`, since GTK treats a Total order as one where only identical items compare equal | not executed | StationSorter.TotalClaimFails | StationSorter.CorrectedOrderHolds |
