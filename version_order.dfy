/**
 * The order on versions: `Version.compareTo` and `comparePreReleaseTag`
 * as written (with Java's `int` subtraction and `Integer.parseInt` as
 * the test for a numeric identifier), the precedence of Semantic
 * Versioning 2.0.0, section 11, as an independent definition, and the
 * proof that the two agree on versions whose numbers are non-negative
 * ints and whose identifiers `Integer.parseInt` classifies as section 11
 * does.
 */
module VersionOrder {
  import opened Wrappers
  import opened JavaText
  import opened Version

  // ---------------------------------------------------------------------
  // The Java comparison.
  // ---------------------------------------------------------------------

  /**
   * `comparePreReleaseTag`: an identifier `Integer.parseInt` accepts ranks
   * below one it rejects; two accepted ones compare by value, two
   * rejected ones by `String.compareTo`.
   */
  function CompareTag(here: string, there: string): (r: int)
    ensures ParseInt(here).Some? != ParseInt(there).Some? ==> (r < 0 <==> ParseInt(here).Some?) && r != 0
    ensures ParseInt(here).Some? && ParseInt(there).Some? ==>
      && (r == 0 <==> ParseInt(here).value == ParseInt(there).value)
      && (r < 0 <==> ParseInt(here).value < ParseInt(there).value)
    ensures ParseInt(here).None? && ParseInt(there).None? ==> (r == 0 <==> here == there)
  {
    var h := ParseInt(here);
    var t := ParseInt(there);
    CompareToZeroIff(here, there);
    if h.Some? && t.None? then -1
    else if h.None? && t.Some? then 1
    else if h.None? then JavaText.CompareTo(here, there)
    else CompareInt(h.value, t.value)
  }

  /**
   * The tag loop of `compareTo` from index `count` on: the first tag
   * comparison that is not zero, or the difference of the list sizes
   * when the shorter list runs out.
   */
  function CompareTagsFrom(a: seq<string>, b: seq<string>, count: nat): (r: int)
    requires count <= |a| && count <= |b|
    decreases |a| - count
  {
    if count == |a| || count == |b| then |a| - |b|
    else
      var c := CompareTag(a[count], b[count]);
      if c != 0 then c else CompareTagsFrom(a, b, count + 1)
  }

  /**
   * `compareTo`: the wrapped difference of the majors, minors and patches
   * in turn; then a version without pre-release above one with; then the
   * tag loop.
   */
  function Compare(a: Version, b: Version): (r: int)
    ensures CoreInRange(a) && CoreInRange(b) && a.major != b.major ==>
      Signum(r) == CompareInt(a.major, b.major)
    ensures CoreInRange(a) && CoreInRange(b) && a.major == b.major && a.minor != b.minor ==>
      Signum(r) == CompareInt(a.minor, b.minor)
    ensures CoreInRange(a) && CoreInRange(b) && a.major == b.major && a.minor == b.minor && a.patch != b.patch ==>
      Signum(r) == CompareInt(a.patch, b.patch)
    ensures a.major == b.major && a.minor == b.minor && a.patch == b.patch ==>
      (|a.preRelease| == 0 && |b.preRelease| > 0 ==> r == 1)
      && (|a.preRelease| > 0 && |b.preRelease| == 0 ==> r == -1)
      && (|a.preRelease| == 0 && |b.preRelease| == 0 ==> r == 0)
  {
    var major := WrapInt32(a.major - b.major);
    if major != 0 then major
    else
      var minor := WrapInt32(a.minor - b.minor);
      if minor != 0 then minor
      else
        var patch := WrapInt32(a.patch - b.patch);
        if patch != 0 then patch
        else if |a.preRelease| == 0 && |b.preRelease| > 0 then 1
        else if |b.preRelease| == 0 && |a.preRelease| > 0 then -1
        else if |a.preRelease| == 0 then 0
        else CompareTagsFrom(a.preRelease, b.preRelease, 0)
  }

  /** `compareTo`, with its tag loop. */
  method CompareTo(a: Version, b: Version) returns (result: int)
    ensures result == Compare(a, b)
  {
    result := WrapInt32(a.major - b.major);
    if result != 0 {
      return;
    }
    result := WrapInt32(a.minor - b.minor);
    if result != 0 {
      return;
    }
    result := WrapInt32(a.patch - b.patch);
    if result != 0 {
      return;
    }
    var thisSize := |a.preRelease|;
    var otherSize := |b.preRelease|;
    if thisSize == 0 && otherSize > 0 {
      result := 1;
    }
    if otherSize == 0 && thisSize > 0 {
      result := -1;
    }
    if thisSize <= 0 || otherSize <= 0 {
      return;
    }
    var len := if thisSize < otherSize then thisSize else otherSize;
    var count := 0;
    while count < len
      invariant count <= len
      invariant result == 0
      invariant CompareTagsFrom(a.preRelease, b.preRelease, 0) == CompareTagsFrom(a.preRelease, b.preRelease, count)
    {
      result := CompareTag(a.preRelease[count], b.preRelease[count]);
      if result != 0 {
        break;
      }
      count := count + 1;
    }
    if result == 0 && count == len {
      result := thisSize - otherSize;
    }
  }

  /** `isStable`: a major above zero and no pre-release. */
  predicate IsStable(v: Version)
    ensures IsStable(v) ==> v.major > 0 && forall w: Version ::
      w.major == v.major && w.minor == v.minor && w.patch == v.patch && |w.preRelease| > 0 ==> Compare(v, w) == 1
  {
    v.major > 0 && |v.preRelease| == 0
  }

  // ---------------------------------------------------------------------
  // Precedence as section 11 of Semantic Versioning 2.0.0 defines it.
  // ---------------------------------------------------------------------

  /** An identifier made of digits only (section 11.4.1). */
  predicate IsNumeric(id: string) { |id| > 0 && AllDigits(id) }

  /**
   * Two pre-release identifiers: numeric ones by value, numeric below
   * alphanumeric, alphanumeric ones in ASCII order (sections 11.4.1-3).
   */
  function CompareIdentifiers(x: string, y: string): (r: int)
    ensures r in {-1, 0, 1}
  {
    if IsNumeric(x) && IsNumeric(y) then CompareInt(DigitsValue(x), DigitsValue(y))
    else if IsNumeric(x) then -1
    else if IsNumeric(y) then 1
    else Signum(JavaText.CompareTo(x, y))
  }

  /**
   * Two pre-release lists, field by field from the left; when every field
   * of the shorter list equals its counterpart the longer list ranks
   * higher (section 11.4.4).
   */
  function ComparePreRelease(a: seq<string>, b: seq<string>): (r: int)
    ensures r in {-1, 0, 1}
    decreases |a|
  {
    if |a| == 0 || |b| == 0 then CompareInt(|a|, |b|)
    else
      var c := CompareIdentifiers(a[0], b[0]);
      if c != 0 then c else ComparePreRelease(a[1..], b[1..])
  }

  /**
   * Precedence: major, minor and patch numerically, then a release above
   * its pre-releases, then the pre-release lists; build metadata plays no
   * part (sections 10 and 11).
   */
  function Precedence(a: Version, b: Version): (r: int)
    ensures r in {-1, 0, 1}
  {
    if a.major != b.major then CompareInt(a.major, b.major)
    else if a.minor != b.minor then CompareInt(a.minor, b.minor)
    else if a.patch != b.patch then CompareInt(a.patch, b.patch)
    else if |a.preRelease| == 0 || |b.preRelease| == 0 then CompareInt(|b.preRelease|, |a.preRelease|)
    else ComparePreRelease(a.preRelease, b.preRelease)
  }

  lemma {:induction false} ComparePreReleaseAntisymmetric(a: seq<string>, b: seq<string>)
    ensures ComparePreRelease(b, a) == -ComparePreRelease(a, b)
    decreases |a|
  {
    if |a| > 0 && |b| > 0 {
      CompareToAntisymmetric(a[0], b[0]);
      ComparePreReleaseAntisymmetric(a[1..], b[1..]);
    }
  }

  /** Precedence is antisymmetric: swapping the versions negates it. */
  lemma PrecedenceAntisymmetric(a: Version, b: Version)
    ensures Precedence(b, a) == -Precedence(a, b)
  {
    if a.major == b.major && a.minor == b.minor && a.patch == b.patch
      && |a.preRelease| > 0 && |b.preRelease| > 0
    {
      ComparePreReleaseAntisymmetric(a.preRelease, b.preRelease);
    }
  }

  // ---------------------------------------------------------------------
  // The Java comparison agrees with precedence.
  // ---------------------------------------------------------------------

  /**
   * An identifier that `Integer.parseInt` classifies as section 11 does:
   * a numeric identifier that fits in an int, or one that `parseInt`
   * rejects.
   */
  predicate TagAgrees(id: string)
  {
    if IsNumeric(id) then DigitsValue(id) <= INT_MAX else ParseInt(id).None?
  }

  /** A version on which `compareTo` follows precedence. */
  predicate Comparable(v: Version)
  {
    CoreInRange(v) && forall id <- v.preRelease :: TagAgrees(id)
  }

  lemma CompareTagAgrees(x: string, y: string)
    requires TagAgrees(x) && TagAgrees(y)
    ensures Signum(CompareTag(x, y)) == CompareIdentifiers(x, y)
  {
    if IsNumeric(x) {
      ParseUnsigned(x);
    }
    if IsNumeric(y) {
      ParseUnsigned(y);
    }
  }

  lemma {:induction false} CompareTagsFromAgrees(a: seq<string>, b: seq<string>, count: nat)
    requires count <= |a| && count <= |b|
    requires forall id <- a :: TagAgrees(id)
    requires forall id <- b :: TagAgrees(id)
    ensures Signum(CompareTagsFrom(a, b, count)) == ComparePreRelease(a[count..], b[count..])
    decreases |a| - count
  {
    if count < |a| && count < |b| {
      assert a[count] in a && b[count] in b;
      CompareTagAgrees(a[count], b[count]);
      CompareTagsFromAgrees(a, b, count + 1);
      assert a[count..][1..] == a[count + 1..];
      assert b[count..][1..] == b[count + 1..];
    }
  }

  /** On comparable versions the sign of `compareTo` is the precedence. */
  lemma CompareIsPrecedence(a: Version, b: Version)
    ensures Comparable(a) && Comparable(b) ==> Signum(Compare(a, b)) == Precedence(a, b)
  {
    if Comparable(a) && Comparable(b) && a.major == b.major && a.minor == b.minor && a.patch == b.patch
      && |a.preRelease| > 0 && |b.preRelease| > 0
    {
      CompareTagsFromAgrees(a.preRelease, b.preRelease, 0);
      assert a.preRelease[0..] == a.preRelease && b.preRelease[0..] == b.preRelease;
    }
  }

  /**
   * When one pre-release list is a proper prefix of the other, the longer
   * one ranks higher.
   */
  lemma LongerPreReleaseRanksHigher(a: Version, b: Version)
    requires a.major == b.major && a.minor == b.minor && a.patch == b.patch
    requires 0 < |a.preRelease| < |b.preRelease| && a.preRelease == b.preRelease[..|a.preRelease|]
    ensures Compare(a, b) < 0
  {
    var k := 0;
    while k < |a.preRelease|
      invariant k <= |a.preRelease|
      invariant CompareTagsFrom(a.preRelease, b.preRelease, 0) == CompareTagsFrom(a.preRelease, b.preRelease, k)
    {
      assert a.preRelease[k] == b.preRelease[k];
      CompareToZeroIff(a.preRelease[k], b.preRelease[k]);
      k := k + 1;
    }
  }

  /** `isUpdateFor`: this version ranks above the other. */
  function IsUpdateFor(a: Version, b: Version): (r: bool)
    ensures Comparable(a) && Comparable(b) ==> (r <==> Precedence(a, b) == 1)
  {
    CompareIsPrecedence(a, b);
    Compare(a, b) > 0
  }

  /** On comparable versions an update for `b` is never one that `b` is an update for. */
  lemma UpdateIsAsymmetric(a: Version, b: Version)
    requires Comparable(a) && Comparable(b)
    ensures IsUpdateFor(a, b) ==> !IsUpdateFor(b, a)
  {
    PrecedenceAntisymmetric(a, b);
  }

  /** `isCompatibleUpdateFor`: an update with the same, non-zero major. */
  function IsCompatibleUpdateFor(a: Version, b: Version): (r: bool)
    ensures r ==> a.major == b.major && a.major != 0
    ensures Comparable(a) && Comparable(b) ==>
      (r <==> Precedence(a, b) == 1 && a.major == b.major && a.major != 0)
  {
    IsUpdateFor(a, b) && a.major == b.major && a.major != 0
  }

  // ---------------------------------------------------------------------
  // Where `Integer.parseInt` and section 11 disagree.
  // ---------------------------------------------------------------------

  /**
   * `-1` is an alphanumeric identifier under section 11, so it ranks above
   * the numeric `0`; `parseInt` reads it as the number -1, and `compareTo`
   * puts `1.0.0--1` below `1.0.0-0`.
   */
  lemma NegativeIdentifierMisordered()
    ensures var a := Of(1, 0, 0, [], ["-1"]);
      var b := Of(1, 0, 0, [], ["0"]);
      Compare(a, b) < 0 && Precedence(a, b) == 1
  {
    var a := Of(1, 0, 0, [], ["-1"]);
    var b := Of(1, 0, 0, [], ["0"]);
    assert "-1"[0] == '-' && "-1"[1..] == "1";
    assert AllDigits("1") && DigitsValue("1") == 1;
    assert ParseDecimal("-1") == Some(-1);
    assert ParseInt("0") == Some(0);
    assert !IsNumeric("-1");
    assert IsNumeric("0");
    assert CompareTagsFrom(a.preRelease, b.preRelease, 0) == -1;
  }
}
