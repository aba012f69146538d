/**
 * `SwStationModel` (`src/model/station_model.rs`): the list model behind the
 * station flowboxes, a vector of stations without two stations of the same
 * UUID. Every change is announced with an `items-changed(position, removed,
 * added)` signal, collected here in `signals`.
 */
module StationModel {
  import opened Wrappers
  import opened Station

  datatype ItemsChanged = ItemsChanged(position: nat, removed: nat, added: nat)

  ghost predicate DistinctUuids(stations: seq<StationMetadata>) {
    forall i, j :: 0 <= i < j < |stations| ==> stations[i].stationuuid != stations[j].stationuuid
  }

  /** The first position holding a station with that UUID. */
  function PositionOf(stations: seq<StationMetadata>, uuid: string): (r: Option<nat>)
  {
    if stations == [] then None
    else if stations[0].stationuuid == uuid then Some(0)
    else match PositionOf(stations[1..], uuid)
      case None => None
      case Some(p) => Some(p + 1)
  }

  /** `PositionOf` finds the smallest matching position, and nothing when no station matches. */
  lemma {:induction false} PositionOfIsFirst(stations: seq<StationMetadata>, uuid: string)
    ensures PositionOf(stations, uuid).None? <==> forall j :: 0 <= j < |stations| ==> stations[j].stationuuid != uuid
    ensures PositionOf(stations, uuid).Some? ==>
      var p := PositionOf(stations, uuid).value;
      && p < |stations| && stations[p].stationuuid == uuid
      && forall j :: 0 <= j < p ==> stations[j].stationuuid != uuid
  {
    if stations != [] && stations[0].stationuuid != uuid {
      PositionOfIsFirst(stations[1..], uuid);
      assert forall j :: 1 <= j < |stations| ==> stations[j] == stations[1..][j - 1];
    }
  }

  /** Cutting out one station keeps the UUIDs distinct. */
  lemma RemovalKeepsDistinct(stations: seq<StationMetadata>, p: nat)
    requires DistinctUuids(stations) && p < |stations|
    ensures DistinctUuids(stations[..p] + stations[p + 1..])
  {
    var r := stations[..p] + stations[p + 1..];
    forall i, j | 0 <= i < j < |r| ensures r[i].stationuuid != r[j].stationuuid {
      var i' := if i < p then i else i + 1;
      var j' := if j < p then j else j + 1;
      assert r[i] == stations[i'] && r[j] == stations[j'];
    }
  }

  class SwStationModel {
    var stations: seq<StationMetadata>
    /** Every `items-changed` emitted, in order. */
    var signals: seq<ItemsChanged>

    ghost predicate Valid()
      reads this
    {
      DistinctUuids(stations)
    }

    constructor ()
      ensures Valid() && stations == [] && signals == []
    {
      stations, signals := [], [];
    }

    /** `get_n_items`. */
    function GetNItems(): (n: nat)
      reads this
      ensures n == |stations|
    {
      |stations|
    }

    /** `get_item`: the station at that position, `None` past the end. */
    function GetItem(position: nat): (r: Option<StationMetadata>)
      reads this
      ensures r.None? <==> position >= |stations|
      ensures r.Some? ==> r.value == stations[position]
    {
      if position < |stations| then Some(stations[position]) else None
    }

    /** `find`: scan the positions in order, stop at the first station with the same UUID. */
    method Find(station: StationMetadata) returns (r: Option<nat>)
      ensures r == PositionOf(stations, station.stationuuid)
      ensures r.None? <==> forall j :: 0 <= j < |stations| ==> stations[j].stationuuid != station.stationuuid
      ensures r.Some? ==> r.value < |stations| && stations[r.value].stationuuid == station.stationuuid
      ensures r.Some? ==> forall j :: 0 <= j < r.value ==> stations[j].stationuuid != station.stationuuid
    {
      PositionOfIsFirst(stations, station.stationuuid);
      var pos := 0;
      while pos < GetNItems()
        invariant 0 <= pos <= |stations|
        invariant forall j :: 0 <= j < pos ==> stations[j].stationuuid != station.stationuuid
      {
        var item := GetItem(pos);
        if station.stationuuid == item.value.stationuuid {
          return Some(pos);
        }
        pos := pos + 1;
      }
      return None;
    }

    /** `add_station`: a UUID already present changes nothing; otherwise append and announce it. */
    method AddStation(station: StationMetadata)
      requires Valid()
      modifies this
      ensures Valid()
      ensures PositionOf(old(stations), station.stationuuid).Some? ==> stations == old(stations) && signals == old(signals)
      ensures PositionOf(old(stations), station.stationuuid).None? ==>
        && stations == old(stations) + [station]
        && signals == old(signals) + [ItemsChanged(|stations| - 1, 0, 1)]
    {
      var found := Find(station);
      if found.Some? {
        return;
      }
      stations := stations + [station];
      signals := signals + [ItemsChanged(|stations| - 1, 0, 1)];
    }

    /** `remove_station`: cut out the station found by UUID and announce it; an unknown station changes nothing. */
    method RemoveStation(station: StationMetadata)
      requires Valid()
      modifies this
      ensures Valid()
      ensures PositionOf(old(stations), station.stationuuid).None? ==> stations == old(stations) && signals == old(signals)
      ensures PositionOf(old(stations), station.stationuuid).Some? ==>
        var p := PositionOf(old(stations), station.stationuuid).value;
        && p < |old(stations)|
        && stations == old(stations)[..p] + old(stations)[p + 1..]
        && signals == old(signals) + [ItemsChanged(p, 1, 0)]
    {
      var found := Find(station);
      match found {
        case Some(pos) =>
          RemovalKeepsDistinct(stations, pos);
          stations := stations[..pos] + stations[pos + 1..];
          signals := signals + [ItemsChanged(pos, 1, 0)];
        case None =>
      }
    }

    /** `clear`: empty the model and announce that all old items went. */
    method Clear()
      modifies this
      ensures Valid()
      ensures stations == [] && signals == old(signals) + [ItemsChanged(0, |old(stations)|, 0)]
    {
      var len := GetNItems();
      stations := [];
      signals := signals + [ItemsChanged(0, len, 0)];
    }
  }

  /** A station whose UUID is present is found again, whichever object carries it. */
  lemma {:induction false} AddedStationIsFound(stations: seq<StationMetadata>, station: StationMetadata)
    requires PositionOf(stations, station.stationuuid).None?
    ensures PositionOf(stations + [station], station.stationuuid) == Some(|stations|)
  {
    var uuid := station.stationuuid;
    var all := stations + [station];
    PositionOfIsFirst(stations, uuid);
    PositionOfIsFirst(all, uuid);
    assert all[|stations|].stationuuid == uuid;
    assert forall j :: 0 <= j < |stations| ==> all[j] == stations[j];
  }
}
