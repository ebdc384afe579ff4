/**
 * Inputs on which `Version.of(String)` as written departs from the
 * grammar it implements, each set against what the corrected parser does.
 * Each proof walks the parser's states one at a time.
 */
module VersionFindings {
  import opened Wrappers
  import opened JavaText
  import opened Version

  /** The state after the major number `n` was stored. */
  function AfterMajor(n: int): Progress { Fresh.(versionParts := [n, 0, 0]) }

  /** The state after the major and minor numbers were stored. */
  function AfterMinor(n: int, m: int): Progress { Fresh.(versionParts := [n, m, 0]) }

  /** The state after all three numbers were stored. */
  function AfterPatch(n: int, m: int, k: int): Progress { Fresh.(versionParts := [n, m, k]) }

  /** A one-digit number at `index`, followed by a character that is not a digit or by the end. */
  lemma OneDigit(s: string, index: nat, corrected: bool)
    requires index < |s| && IsAsciiDigit(s[index])
    requires index + 1 == |s| || !IsAsciiDigit(s[index + 1])
    ensures NumberAt(s, index, corrected) == Success((index + 1, DigitValue(s[index])))
  {
    assert DigitsEnd(s, index + 1) == index + 1;
    assert s[index..index + 1] == [s[index]];
    assert DigitsValue([s[index]]) == DigitValue(s[index]) by {
      assert [s[index]][..0] == [];
    }
  }

  /** A run of identifier characters from `from` to the end is one identifier. */
  lemma {:induction false} IdentifierToEnd(s: string, from: nat)
    requires from <= |s|
    requires forall k :: from <= k < |s| ==> IsIdentifierChar(s[k])
    ensures IdentifierEnd(s, from) == |s|
    decreases |s| - from
  {
    if from < |s| {
      IdentifierToEnd(s, from + 1);
    }
  }

  /** A pre-release state that reads one identifier up to the end of the input. */
  lemma LastIdentifier(p: Progress, s: string, index: nat)
    requires index < |s|
    requires forall k :: index <= k < |s| ==> IsIdentifierChar(s[k])
    ensures ReleaseState(p, s, index) == Step(p.(preReleaseParts := p.preReleaseParts + [s[index..]]), Success(true))
  {
    IdentifierToEnd(s, index);
    assert s[index..|s|] == s[index..];
  }

  /** `stateMajor` reading a number and a dot hands over to `stateMinor`. */
  lemma MajorHandsOver(s: string, corrected: bool, pos: nat, n: int)
    requires NumberAt(s, 0, corrected) == Success((pos, n))
    requires pos < |s| && s[pos] == '.'
    ensures MajorState(Fresh, s, corrected) == MinorState(AfterMajor(n), s, pos + 1, corrected)
  {
    assert Fresh.versionParts[0 := n] == [n, 0, 0];
  }

  /** `stateMinor` reading a number and a dot hands over to `statePatch`. */
  lemma MinorHandsOver(p: Progress, s: string, index: nat, corrected: bool, pos: nat, n: int)
    requires index <= |s| && |p.versionParts| == 3
    requires NumberAt(s, index, corrected) == Success((pos, n))
    requires pos < |s| && s[pos] == '.'
    ensures MinorState(p, s, index, corrected)
      == PatchState(p.(versionParts := p.versionParts[1 := n]), s, pos + 1, corrected)
  {
  }

  /** `statePatch` reading a number and a `-` hands over to `stateRelease`. */
  lemma PatchHandsOver(p: Progress, s: string, index: nat, corrected: bool, pos: nat, n: int)
    requires index <= |s| && |p.versionParts| == 3
    requires NumberAt(s, index, corrected) == Success((pos, n))
    requires pos < |s| && s[pos] == '-'
    ensures PatchState(p, s, index, corrected)
      == ReleaseState(p.(versionParts := p.versionParts[2 := n]), s, pos + 1)
  {
  }

  /** `statePatch` reading a number up to the end accepts. */
  lemma PatchEnds(p: Progress, s: string, index: nat, corrected: bool, n: int)
    requires index <= |s| && |p.versionParts| == 3
    requires NumberAt(s, index, corrected) == Success((|s|, n))
    ensures PatchState(p, s, index, corrected) == Step(p.(versionParts := p.versionParts[2 := n]), Success(true))
  {
  }

  /** `1.0.0-alpha`, given by its characters, reaches the end with the numbers and the one identifier. */
  lemma AlphaStates(s: string, corrected: bool)
    requires |s| == 11 && s[0] == '1' && s[1] == '.' && s[2] == '0' && s[3] == '.' && s[4] == '0' && s[5] == '-'
    requires forall k :: 6 <= k < 11 ==> IsIdentifierChar(s[k])
    ensures MajorState(Fresh, s, corrected)
      == Step(AfterPatch(1, 0, 0).(preReleaseParts := [s[6..]]), Success(true))
  {
    OneDigit(s, 0, corrected);
    OneDigit(s, 2, corrected);
    OneDigit(s, 4, corrected);
    MajorHandsOver(s, corrected, 1, 1);
    MinorHandsOver(AfterMajor(1), s, 2, corrected, 3, 0);
    assert AfterMajor(1).(versionParts := AfterMajor(1).versionParts[1 := 0]) == AfterMinor(1, 0);
    PatchHandsOver(AfterMinor(1, 0), s, 4, corrected, 5, 0);
    assert AfterMinor(1, 0).(versionParts := AfterMinor(1, 0).versionParts[2 := 0]) == AfterPatch(1, 0, 0);
    LastIdentifier(AfterPatch(1, 0, 0), s, 6);
  }

  /** `1.0.0-alpha` as written: the pre-release identifier lands in the build metadata. */
  lemma PreReleaseLandsInBuildMeta()
    ensures ParseVersion("1.0.0-alpha") == Success(Version(["alpha"], 1, 0, 0, []))
  {
    AlphaStates("1.0.0-alpha", false);
    assert "1.0.0-alpha"[6..] == "alpha";
  }

  /** `1.0.0-alpha` corrected: the identifier is the pre-release. */
  lemma PreReleaseKeptWhenCorrected()
    ensures ParseCorrected("1.0.0-alpha") == Success(Version([], 1, 0, 0, ["alpha"]))
  {
    AlphaStates("1.0.0-alpha", true);
    assert "1.0.0-alpha"[6..] == "alpha";
  }

  /**
   * `0.10.0` as written: the leading-zero test of the minor number reads
   * the major's `0`, so a valid version is rejected at index 2.
   */
  lemma LeadingZeroReadsFirstChar()
    ensures ParseVersion("0.10.0") == Failure(ParseException(2))
  {
    var s := "0.10.0";
    assert NumberAt(s, 2, false) == Failure(ParseException(2)) by {
      assert DigitsEnd(s, 2) == 4;
    }
    assert MinorState(AfterMajor(0), s, 2, false) == Step(AfterMajor(0).(errorPosition := 2), Success(false));
    assert MajorState(Fresh, s, false) == Step(AfterMajor(0).(errorPosition := 2), Success(false)) by {
      OneDigit(s, 0, false);
    }
  }

  /** `0.10.0` corrected: accepted with minor 10. */
  lemma LeadingZeroCorrected()
    ensures ParseCorrected("0.10.0") == Success(Version([], 0, 10, 0, []))
  {
    var s := "0.10.0";
    assert NumberAt(s, 2, true) == Success((4, 10)) by {
      assert DigitsEnd(s, 2) == 4;
      assert s[2..4] == "10";
      assert DigitsValue("10") == 10 by {
        assert "10"[..1] == "1" && "1"[..0] == "";
      }
    }
    assert PatchState(AfterMinor(0, 10), s, 5, true) == Step(AfterPatch(0, 10, 0), Success(true)) by {
      OneDigit(s, 5, true);
    }
    assert MinorState(AfterMajor(0), s, 2, true) == Step(AfterPatch(0, 10, 0), Success(true));
    assert MajorState(Fresh, s, true) == Step(AfterPatch(0, 10, 0), Success(true)) by {
      OneDigit(s, 0, true);
    }
  }

  /**
   * `1.01.0` as written: the same test looks at the `1` of the major, so
   * a minor with a leading zero is accepted.
   */
  lemma LeadingZeroMissed()
    ensures ParseVersion("1.01.0") == Success(Version([], 1, 1, 0, []))
  {
    var s := "1.01.0";
    assert NumberAt(s, 2, false) == Success((4, 1)) by {
      assert DigitsEnd(s, 2) == 4;
      assert s[2..4] == "01";
      assert DigitsValue("01") == 1 by {
        assert "01"[..1] == "0" && "0"[..0] == "";
      }
    }
    assert PatchState(AfterMinor(1, 1), s, 5, false) == Step(AfterPatch(1, 1, 0), Success(true)) by {
      OneDigit(s, 5, false);
    }
    assert MinorState(AfterMajor(1), s, 2, false) == Step(AfterPatch(1, 1, 0), Success(true));
    assert MajorState(Fresh, s, false) == Step(AfterPatch(1, 1, 0), Success(true)) by {
      OneDigit(s, 0, false);
    }
  }

  /** `1.01.0` corrected: rejected at the minor number. */
  lemma LeadingZeroRejectedWhenCorrected()
    ensures ParseCorrected("1.01.0") == Failure(ParseException(2))
  {
    var s := "1.01.0";
    assert NumberAt(s, 2, true) == Failure(ParseException(2)) by {
      assert DigitsEnd(s, 2) == 4;
    }
    assert MajorState(Fresh, s, true) == Step(AfterMajor(1).(errorPosition := 2), Success(false)) by {
      OneDigit(s, 0, true);
    }
  }

  /**
   * `1` and `1.2` as written: the state after a number reads the next
   * character without a bounds check and throws.
   */
  lemma MissingBoundsCheck()
    ensures ParseVersion("1") == Failure(IndexOutOfBounds(1))
    ensures ParseVersion("1.2") == Failure(IndexOutOfBounds(3))
  {
    OneDigit("1", 0, false);
    OneDigit("1.2", 0, false);
    OneDigit("1.2", 2, false);
  }

  /** `1` and `1.2` corrected: parse errors at the end of the input. */
  lemma BoundsCheckedWhenCorrected()
    ensures ParseCorrected("1") == Failure(ParseException(1))
    ensures ParseCorrected("1.2") == Failure(ParseException(3))
  {
    OneDigit("1", 0, true);
    OneDigit("1.2", 0, true);
    OneDigit("1.2", 2, true);
  }
}
