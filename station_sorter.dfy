/**
 * `SwStationSorter` (`src/model/station_sorter.rs`): a GTK sorter whose two
 * properties, `sorting` and `descending`, choose how `compare` orders two
 * stations. Each property write emits `changed(Different)`, collected here
 * in `changes`.
 */
module StationSorter {
  import opened Ordering
  import opened Station

  datatype SwSorting = Default | Name | Language | Country | State | Codec | Votes | Bitrate

  /** `gtk::SorterChange` and `gtk::SorterOrder`, as far as the sorter uses them. */
  datatype SorterChange = Different
  datatype SorterOrder = None | Partial | Total

  /** `SwStationSorter::station_cmp`: swap the stations for descending order, then compare the chosen field. */
  function StationCmp(a: StationMetadata, b: StationMetadata, sorting: SwSorting, descending: bool): Ordering
  {
    var x := if descending then b else a;
    var y := if descending then a else b;
    match sorting
    case Default => Equal
    case Name => CompareStrings(x.name, y.name)
    case Language => CompareStrings(x.language, y.language)
    case Country => CompareStrings(x.country, y.country)
    case State => CompareStrings(x.state, y.state)
    case Codec => CompareStrings(x.codec, y.codec)
    case Votes => CompareInts(x.votes, y.votes)
    case Bitrate => CompareInts(x.bitrate, y.bitrate)
  }

  class SwStationSorter {
    var descending: bool
    var sorting: SwSorting
    /** Every `changed` signal emitted, in order. */
    var changes: seq<SorterChange>

    /** A new sorter: the `Default` sorting, ascending. */
    constructor ()
      ensures sorting == Default && !descending && changes == []
    {
      sorting, descending, changes := Default, false, [];
    }

    /** `set_sorting`, through `set_property("sorting")`. */
    method SetSorting(sorting: SwSorting)
      modifies this
      ensures this.sorting == sorting && descending == old(descending)
      ensures changes == old(changes) + [Different]
    {
      this.sorting := sorting;
      changes := changes + [Different];
    }

    /** `set_descending`, through `set_property("descending")`. */
    method SetDescending(descending: bool)
      modifies this
      ensures this.descending == descending && sorting == old(sorting)
      ensures changes == old(changes) + [Different]
    {
      this.descending := descending;
      changes := changes + [Different];
    }

    /** `compare`: the station comparison under the properties as they are now. */
    function Compare(a: StationMetadata, b: StationMetadata): (r: Ordering)
      reads this
      ensures sorting == Default ==> r == Equal
      ensures r == StationCmp(b, a, sorting, !descending)
    {
      StationCmp(a, b, sorting, descending)
    }

    /** `order`, as written: the sorter declares a total order. */
    function Order(): (r: SorterOrder)
      ensures r == Total
    {
      Total
    }

    /**
     * The order the sorter can truthfully declare. GTK's `Total` promises
     * that only an item compared with itself is `Equal`; this comparison
     * ranks distinct stations equal, so it is a `Partial` order.
     */
    function CorrectedOrder(): (r: SorterOrder)
      ensures r == Partial
    {
      Partial
    }
  }

  /**
   * Under GTK's meaning, a declared `Total` order is broken by any two
   * distinct stations that compare `Equal`.
   */
  ghost predicate OrderHonest(sorter: SwStationSorter, order: SorterOrder)
    reads sorter
  {
    order == Total ==> forall a, b :: sorter.Compare(a, b) == Equal ==> a == b
  }

  /**
   * The declared `Total` order does not hold: whatever the sorting and the
   * direction, a station and a copy of it under another UUID are distinct
   * yet compare `Equal`.
   */
  lemma TotalClaimFails(sorter: SwStationSorter, a: StationMetadata)
    ensures var b := a.(stationuuid := a.stationuuid + "-copy");
      a != b && sorter.Compare(a, b) == Equal && sorter.Order() == Total
    ensures !OrderHonest(sorter, sorter.Order())
  {
    var b := a.(stationuuid := a.stationuuid + "-copy");
    assert |b.stationuuid| != |a.stationuuid|;
    CompareStringsEqualIff(a.name, a.name);
    CompareStringsEqualIff(a.language, a.language);
    CompareStringsEqualIff(a.country, a.country);
    CompareStringsEqualIff(a.state, a.state);
    CompareStringsEqualIff(a.codec, a.codec);
    assert sorter.Compare(a, b) == Equal;
  }

  /**
   * The corrected declaration holds, and what a `Partial` sorter must still
   * provide does: for the current properties `compare` is antisymmetric and
   * transitive.
   */
  lemma CorrectedOrderHolds(sorter: SwStationSorter, a: StationMetadata, b: StationMetadata, c: StationMetadata)
    ensures OrderHonest(sorter, sorter.CorrectedOrder())
    ensures sorter.Compare(b, a) == sorter.Compare(a, b).Reverse()
    ensures sorter.Compare(a, b).IsLe() && sorter.Compare(b, c).IsLe() ==> sorter.Compare(a, c).IsLe()
  {
    StationCmpTotalPreorder(a, b, c, sorter.sorting, sorter.descending);
  }

  /** `Default` makes every pair equal, in either direction. */
  lemma DefaultIsEqual(a: StationMetadata, b: StationMetadata, descending: bool)
    ensures StationCmp(a, b, Default, descending) == Equal
  {
  }

  /** Ascending order compares the named field: text fields as strings, votes and bitrate as integers. */
  lemma AscendingComparesField(a: StationMetadata, b: StationMetadata, sorting: SwSorting)
    ensures var r := StationCmp(a, b, sorting, false);
      && (sorting == Name ==> r == CompareStrings(a.name, b.name))
      && (sorting == Language ==> r == CompareStrings(a.language, b.language))
      && (sorting == Country ==> r == CompareStrings(a.country, b.country))
      && (sorting == State ==> r == CompareStrings(a.state, b.state))
      && (sorting == Codec ==> r == CompareStrings(a.codec, b.codec))
      && (sorting == Votes ==> (r == Less <==> a.votes < b.votes) && (r == Equal <==> a.votes == b.votes))
      && (sorting == Bitrate ==> (r == Less <==> a.bitrate < b.bitrate) && (r == Equal <==> a.bitrate == b.bitrate))
  {
  }

  /** Descending order is ascending order with the arguments swapped, and so ascending order reversed. */
  lemma DescendingReversesAscending(a: StationMetadata, b: StationMetadata, sorting: SwSorting)
    ensures StationCmp(a, b, sorting, true) == StationCmp(b, a, sorting, false)
    ensures StationCmp(a, b, sorting, true) == StationCmp(a, b, sorting, false).Reverse()
  {
    CompareStringsFlip(a.name, b.name);
    CompareStringsFlip(a.language, b.language);
    CompareStringsFlip(a.country, b.country);
    CompareStringsFlip(a.state, b.state);
    CompareStringsFlip(a.codec, b.codec);
  }

  /** For every sorting and direction the comparison is a total preorder: antisymmetric and transitive. */
  lemma StationCmpTotalPreorder(a: StationMetadata, b: StationMetadata, c: StationMetadata, sorting: SwSorting, descending: bool)
    ensures StationCmp(b, a, sorting, descending) == StationCmp(a, b, sorting, descending).Reverse()
    ensures StationCmp(a, b, sorting, descending).IsLe() && StationCmp(b, c, sorting, descending).IsLe()
            ==> StationCmp(a, c, sorting, descending).IsLe()
  {
    DescendingReversesAscending(a, b, sorting);
    DescendingReversesAscending(b, a, sorting);
    var x, y, z := if descending then c else a, b, if descending then a else c;
    if StationCmp(a, b, sorting, descending).IsLe() && StationCmp(b, c, sorting, descending).IsLe() {
      match sorting {
        case Name => CompareStringsTransitive(x.name, y.name, z.name);
        case Language => CompareStringsTransitive(x.language, y.language, z.language);
        case Country => CompareStringsTransitive(x.country, y.country, z.country);
        case State => CompareStringsTransitive(x.state, y.state, z.state);
        case Codec => CompareStringsTransitive(x.codec, y.codec, z.codec);
        case _ =>
      }
    }
  }
}
