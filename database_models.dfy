/**
 * `StationIdentifier` (`src/database/models.rs`): a library row that names a
 * station by UUID. The database id plays no part in identity.
 */
module DatabaseModels {
  import opened Wrappers
  import opened Station

  datatype StationIdentifier = StationIdentifier(id: Option<int>, stationuuid: string)

  /** `from_station`: the station's UUID, no database id yet. */
  function FromStation(station: StationMetadata): (r: StationIdentifier)
    ensures r.id == None && r.stationuuid == station.stationuuid
  {
    StationIdentifier(None, station.stationuuid)
  }

  /** `from_uuid`: the given UUID, no database id yet. */
  function FromUuid(uuid: string): (r: StationIdentifier)
    ensures r.id == None && r.stationuuid == uuid
  {
    StationIdentifier(None, uuid)
  }

  /** `PartialEq for StationIdentifier`: equal UUIDs. */
  predicate Same(a: StationIdentifier, b: StationIdentifier) {
    a.stationuuid == b.stationuuid
  }

  lemma SameIsEquivalence(a: StationIdentifier, b: StationIdentifier, c: StationIdentifier)
    ensures Same(a, a)
    ensures Same(a, b) ==> Same(b, a)
    ensures Same(a, b) && Same(b, c) ==> Same(a, c)
  {
  }

  /** The database id is ignored: rows that differ only in id are the same station. */
  lemma SameIgnoresId(a: StationIdentifier, id: Option<int>)
    ensures Same(a, a.(id := id))
  {
  }

  /** An identifier built from a UUID matches the identifier of a station exactly when the station has that UUID. */
  lemma FromUuidMatchesStation(uuid: string, station: StationMetadata)
    ensures Same(FromUuid(uuid), FromStation(station)) <==> station.stationuuid == uuid
  {
  }
}
