/**
 * The radio-browser station record, reduced to the fields the core reads:
 * the UUID that identifies it, the metadata the sorters compare and the
 * station dialog shows, and what `Player::set_station` checks.
 */
module Station {
  import opened Wrappers

  datatype StationMetadata = StationMetadata(
    stationuuid: string,
    name: string,
    language: string,
    country: string,
    state: string,
    codec: string,
    votes: int,
    bitrate: int,
    lastcheckok: int,
    urlResolved: Option<string>)
}
