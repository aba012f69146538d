/**
 * Rust's `std::cmp::Ordering` and the `Ord` instances the station
 * comparators use: `i32::cmp` and `String::cmp`. Rust orders strings by their
 * UTF-8 bytes, which is the same as ordering them by code points, so strings
 * are compared here character by character.
 */
module Ordering {

  datatype Ordering = Less | Equal | Greater {

    /** `Ordering::reverse`. */
    function Reverse(): Ordering {
      match this
      case Less => Greater
      case Equal => Equal
      case Greater => Less
    }

    /** `Ordering::is_le`. */
    predicate IsLe() {
      this != Greater
    }
  }

  /** `i32::cmp` (on unbounded integers; the comparison does not overflow). */
  function CompareInts(a: int, b: int): (r: Ordering)
    ensures r == Less <==> a < b
    ensures r == Equal <==> a == b
    ensures r == Greater <==> a > b
  {
    if a < b then Less else if a == b then Equal else Greater
  }

  /** `String::cmp`: lexicographic, a proper prefix comes first. */
  function CompareStrings(a: string, b: string): Ordering
    decreases |a|
  {
    if a == [] then (if b == [] then Equal else Less)
    else if b == [] then Greater
    else if a[0] < b[0] then Less
    else if a[0] > b[0] then Greater
    else CompareStrings(a[1..], b[1..])
  }

  /**
   * The textbook definition of "a sorts strictly before b": a is a proper
   * prefix of b, or they first differ at an index where a's character is smaller.
   */
  ghost predicate LexLess(a: string, b: string) {
    (|a| < |b| && a == b[..|a|])
    || exists k :: 0 <= k < |a| && k < |b| && a[..k] == b[..k] && a[k] < b[k]
  }

  lemma {:induction false} CompareStringsEqualIff(a: string, b: string)
    ensures CompareStrings(a, b) == Equal <==> a == b
    decreases |a|
  {
    if a != [] && b != [] && a[0] == b[0] {
      CompareStringsEqualIff(a[1..], b[1..]);
      assert a == [a[0]] + a[1..];
      assert b == [b[0]] + b[1..];
    }
  }

  /** Swapping the arguments reverses the result. */
  lemma {:induction false} CompareStringsFlip(a: string, b: string)
    ensures CompareStrings(b, a) == CompareStrings(a, b).Reverse()
    decreases |a|
  {
    if a != [] && b != [] && a[0] == b[0] {
      CompareStringsFlip(a[1..], b[1..]);
    }
  }

  lemma {:induction false} CompareStringsTransitive(a: string, b: string, c: string)
    requires CompareStrings(a, b).IsLe() && CompareStrings(b, c).IsLe()
    ensures CompareStrings(a, c).IsLe()
    decreases |a|
  {
    if a != [] && b != [] && c != [] && a[0] == b[0] && b[0] == c[0] {
      CompareStringsTransitive(a[1..], b[1..], c[1..]);
    }
  }

  /** Strings whose first characters differ are ordered by those characters. */
  lemma LexLessHead(a: string, b: string)
    requires a != [] && b != [] && a[0] != b[0]
    ensures LexLess(a, b) <==> a[0] < b[0]
  {
    if a[0] < b[0] {
      assert a[..0] == b[..0];
    } else {
      if |a| < |b| {
        assert b[..|a|][0] == b[0];
      }
      forall k | 0 <= k < |a| && k < |b|
        ensures !(a[..k] == b[..k] && a[k] < b[k])
      {
        if k > 0 {
          assert a[..k][0] == a[0] && b[..k][0] == b[0];
        }
      }
    }
  }

  /** A shared first character can be dropped: the tails decide. */
  lemma LexLessTailToWhole(a: string, b: string)
    requires a != [] && b != [] && a[0] == b[0] && LexLess(a[1..], b[1..])
    ensures LexLess(a, b)
  {
    if |a[1..]| < |b[1..]| && a[1..] == b[1..][..|a[1..]|] {
      assert a == b[..|a|];
    } else {
      var k :| 0 <= k < |a[1..]| && k < |b[1..]| && a[1..][..k] == b[1..][..k] && a[1..][k] < b[1..][k];
      assert a[..k + 1] == [a[0]] + a[1..][..k];
      assert b[..k + 1] == [b[0]] + b[1..][..k];
    }
  }

  /** Conversely, the whole strings being ordered orders their tails. */
  lemma LexLessWholeToTail(a: string, b: string)
    requires a != [] && b != [] && a[0] == b[0] && LexLess(a, b)
    ensures LexLess(a[1..], b[1..])
  {
    if |a| < |b| && a == b[..|a|] {
      assert a[1..] == b[1..][..|a[1..]|];
    } else {
      var k :| 0 <= k < |a| && k < |b| && a[..k] == b[..k] && a[k] < b[k];
      assert k != 0;
      assert a[1..][..k - 1] == a[..k][1..];
      assert b[1..][..k - 1] == b[..k][1..];
    }
  }

  /** The recursive comparison agrees with the textbook definition. */
  lemma {:induction false} CompareStringsLessIff(a: string, b: string)
    ensures CompareStrings(a, b) == Less <==> LexLess(a, b)
    decreases |a|
  {
    if a == [] {
      if b != [] {
        assert a == b[..0];
      }
    } else if b == [] {
    } else if a[0] != b[0] {
      LexLessHead(a, b);
    } else {
      CompareStringsLessIff(a[1..], b[1..]);
      if LexLess(a[1..], b[1..]) {
        LexLessTailToWhole(a, b);
      }
      if LexLess(a, b) {
        LexLessWholeToTail(a, b);
      }
    }
  }
}
