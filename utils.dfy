/**
 * The pure helpers of `src/utils.rs`: the station comparator behind the
 * library and search sorting, file-name simplification for recordings, and
 * the subtitle shown under a station.
 */
module Utils {
  import opened Ordering
  import opened Decimal
  import opened Station

  datatype Sorting = Default | Name | Language | Country | State | Codec | Votes | Bitrate

  datatype Order = Ascending | Descending

  /** `station_cmp`: descending order swaps the two stations, then the chosen field is compared. */
  function StationCmp(a: StationMetadata, b: StationMetadata, sorting: Sorting, order: Order): Ordering
  {
    var x := if order == Descending then b else a;
    var y := if order == Descending then a else b;
    match sorting
    case Default => Equal
    case Name => CompareStrings(x.name, y.name)
    case Language => CompareStrings(x.language, y.language)
    case Country => CompareStrings(x.country, y.country)
    case State => CompareStrings(x.state, y.state)
    case Codec => CompareStrings(x.codec, y.codec)
    case Votes => CompareInts(x.votes, y.votes)
    case Bitrate => CompareInts(x.bitrate, y.bitrate)
  }

  /** The sort key a station is compared on, for every key but `Default`. */
  datatype Key = Text(s: string) | Number(n: int)

  function KeyOf(a: StationMetadata, sorting: Sorting): Key
    requires sorting != Default
  {
    match sorting
    case Name => Text(a.name)
    case Language => Text(a.language)
    case Country => Text(a.country)
    case State => Text(a.state)
    case Codec => Text(a.codec)
    case Votes => Number(a.votes)
    case Bitrate => Number(a.bitrate)
  }

  /** `Default` keeps every pair equal, whatever the order; any other key compares that field. */
  lemma StationCmpCompares(a: StationMetadata, b: StationMetadata, sorting: Sorting)
    ensures sorting == Default ==> StationCmp(a, b, sorting, Ascending) == Equal && StationCmp(a, b, sorting, Descending) == Equal
    ensures sorting != Default ==>
      StationCmp(a, b, sorting, Ascending)
        == match (KeyOf(a, sorting), KeyOf(b, sorting))
           case (Text(x), Text(y)) => CompareStrings(x, y)
           case (Number(x), Number(y)) => CompareInts(x, y)
           case _ => Equal
  {
  }

  /** Descending order is ascending order with the stations swapped, that is, reversed. */
  lemma DescendingReversesAscending(a: StationMetadata, b: StationMetadata, sorting: Sorting)
    ensures StationCmp(a, b, sorting, Descending) == StationCmp(b, a, sorting, Ascending)
    ensures StationCmp(a, b, sorting, Descending) == StationCmp(a, b, sorting, Ascending).Reverse()
  {
    CompareStringsFlip(a.name, b.name);
    CompareStringsFlip(a.language, b.language);
    CompareStringsFlip(a.country, b.country);
    CompareStringsFlip(a.state, b.state);
    CompareStringsFlip(a.codec, b.codec);
  }

  /** For each key and order the comparator is a total preorder: antisymmetric and transitive. */
  lemma StationCmpTotalPreorder(a: StationMetadata, b: StationMetadata, c: StationMetadata, sorting: Sorting, order: Order)
    ensures StationCmp(b, a, sorting, order) == StationCmp(a, b, sorting, order).Reverse()
    ensures StationCmp(a, b, sorting, order).IsLe() && StationCmp(b, c, sorting, order).IsLe()
            ==> StationCmp(a, c, sorting, order).IsLe()
  {
    DescendingReversesAscending(a, b, sorting);
    DescendingReversesAscending(b, a, sorting);
    var x, y, z := if order == Descending then c else a, b, if order == Descending then a else c;
    if StationCmp(a, b, sorting, order).IsLe() && StationCmp(b, c, sorting, order).IsLe() {
      match sorting {
        case Name => CompareStringsTransitive(x.name, y.name, z.name);
        case Language => CompareStringsTransitive(x.language, y.language, z.language);
        case Country => CompareStringsTransitive(x.country, y.country, z.country);
        case State => CompareStringsTransitive(x.state, y.state, z.state);
        case Codec => CompareStringsTransitive(x.codec, y.codec, z.codec);
        case _ =>
      }
    }
  }

  /** The characters `simplify_string` deletes. */
  const Removed: set<char> := {'/', '\0', '\\', ':', '<', '>', '"', '|', '?', '*', '.'}

  /** `simplify_string`: one `replace` that deletes every character of `Removed`. */
  function SimplifyString(s: string): string
  {
    if s == [] then [] else (if s[0] in Removed then [] else [s[0]]) + SimplifyString(s[1..])
  }

  /** Simplifying distributes over concatenation, so it works character by character. */
  lemma {:induction false} SimplifyConcat(a: string, b: string)
    ensures SimplifyString(a + b) == SimplifyString(a) + SimplifyString(b)
  {
    if a == [] {
      assert a + b == b;
    } else {
      var head := if a[0] in Removed then [] else [a[0]];
      var ab := a + b;
      assert ab[0] == a[0] && ab[1..] == a[1..] + b;
      assert SimplifyString(ab) == head + SimplifyString(a[1..] + b);
      assert SimplifyString(a) == head + SimplifyString(a[1..]);
      SimplifyConcat(a[1..], b);
    }
  }

  /** None of the deleted characters survives, and the result is never longer. */
  lemma {:induction false} SimplifyRemovesAll(s: string)
    ensures forall k :: 0 <= k < |SimplifyString(s)| ==> SimplifyString(s)[k] !in Removed
    ensures |SimplifyString(s)| <= |s|
  {
    if s != [] {
      SimplifyRemovesAll(s[1..]);
    }
  }

  /** Every other character is kept, as often as it occurs: only the deleted characters go. */
  lemma {:induction false} SimplifyKeepsOthers(s: string, c: char)
    ensures multiset(SimplifyString(s))[c] == if c in Removed then 0 else multiset(s)[c]
  {
    if s != [] {
      SimplifyKeepsOthers(s[1..], c);
      assert s == [s[0]] + s[1..];
    }
  }

  /** A string without deleted characters is left as it is; hence simplifying twice changes nothing more. */
  lemma {:induction false} SimplifyIdempotent(s: string)
    ensures (forall k :: 0 <= k < |s| ==> s[k] !in Removed) ==> SimplifyString(s) == s
    ensures SimplifyString(SimplifyString(s)) == SimplifyString(s)
  {
    if s != [] {
      SimplifyIdempotent(s[1..]);
      if s[0] !in Removed {
        SimplifyConcat([s[0]], SimplifyString(s[1..]));
        assert [s[0]][1..] == [];
        assert SimplifyString([s[0]]) == [s[0]] + SimplifyString([]);
        assert SimplifyString(s) == [s[0]] + SimplifyString(s[1..]);
      } else {
        assert SimplifyString(s) == SimplifyString(s[1..]);
      }
    }
  }

  /** `votes as u32`: the two's-complement reinterpretation of an `i32`. */
  function AsU32(v: int): nat {
    v % 0x1_0000_0000
  }

  /**
   * `ni18n_f` with the messages left untranslated: the singular message for a
   * count of 1, the plural one otherwise (the English plural rule), with its
   * `{}` placeholders filled in order. A message is given as the pieces
   * between its placeholders.
   */
  function Ni18nF(singular: seq<string>, plural: seq<string>, n: nat, args: seq<string>): string
    requires |singular| == |plural| == |args| + 1
  {
    Fill(if n == 1 then singular else plural, args)
  }

  function Fill(pieces: seq<string>, args: seq<string>): string
    requires |pieces| == |args| + 1
  {
    if args == [] then pieces[0] else pieces[0] + args[0] + Fill(pieces[1..], args[1..])
  }

  /** The location part of `station_subtitle`: the country, then a space and the state when there is one. */
  function Location(country: string, state: string): string
  {
    var s := if country != "" then country else "";
    if state != "" then s + " " + state else s
  }

  /** `station_subtitle` for an `i32` vote count. */
  function StationSubtitle(country: string, state: string, votes: int): string
    requires -0x8000_0000 <= votes < 0x8000_0000
  {
    var location := Location(country, state);
    if location == "" then
      Ni18nF(["", " Vote"], ["", " Votes"], AsU32(votes), [IntToString(votes)])
    else
      Ni18nF(["", " · ", " Vote"], ["", " · ", " Votes"], AsU32(votes), [location, IntToString(votes)])
  }

  /** The vote phrase: the count, then "Vote" for exactly one vote and "Votes" for any other count. */
  function VotePhrase(votes: int): string {
    IntToString(votes) + (if votes == 1 then " Vote" else " Votes")
  }

  lemma StationSubtitleShape(country: string, state: string, votes: int)
    requires -0x8000_0000 <= votes < 0x8000_0000
    ensures Location(country, state) == "" <==> country == "" && state == ""
    ensures country == "" && state == "" ==> StationSubtitle(country, state, votes) == VotePhrase(votes)
    ensures country != "" || state != "" ==>
      StationSubtitle(country, state, votes) == Location(country, state) + " · " + VotePhrase(votes)
  {
    assert AsU32(votes) == 1 <==> votes == 1;
    var v := IntToString(votes);
    var w := if votes == 1 then " Vote" else " Votes";
    FillOne(w, v);
    FillTwo(w, Location(country, state), v);
  }

  lemma FillOne(w: string, v: string)
    ensures Fill(["", w], [v]) == v + w
  {
    assert ["", w][1..] == [w];
    assert [v][1..] == [];
  }

  lemma FillTwo(w: string, location: string, v: string)
    ensures Fill(["", " · ", w], [location, v]) == location + " · " + v + w
  {
    assert ["", " · ", w][1..] == [" · ", w];
    assert [location, v][1..] == [v];
    assert Fill([" · ", w], [v]) == " · " + v + Fill([w], []);
    assert Fill(["", " · ", w], [location, v]) == "" + location + Fill([" · ", w], [v]);
  }

  /** The location is the country alone, the country and state, or (with no country) the state after a space. */
  lemma LocationShape(country: string, state: string)
    ensures state == "" ==> Location(country, state) == country
    ensures state != "" ==> Location(country, state) == country + " " + state
    ensures country == "" && state != "" ==> Location(country, state)[0] == ' '
  {
  }
}
