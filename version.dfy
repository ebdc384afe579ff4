/**
 * Semantic versions: a `major.minor.patch[-preRelease][+buildMeta]` value,
 * the state-machine parser that reads one from a string, the precedence
 * order of Semantic Versioning 2.0.0 (sections 9 to 11) and the renderer.
 *
 * The parser's states are modelled as functions from the parser's fields
 * to its fields and outcome (`MetaState` ... `MajorState`), and the
 * `Parser` class is proved to follow them.  `corrected == false` is the
 * Java code, with three defects; `corrected == true` fixes them.  The
 * module `VersionGrammar` says what each state accepts.
 */
module Version {
  import opened Wrappers
  import opened JavaText

  datatype Version = Version(
    buildMeta: seq<string>,
    major: int,
    minor: int,
    patch: int,
    preRelease: seq<string>)

  /** `Version.of(major, minor, patch, buildMeta, preRelease)`: build metadata comes first. */
  function Of(major: int, minor: int, patch: int, buildMeta: seq<string>, preRelease: seq<string>): (r: Version)
    ensures r.major == major && r.minor == minor && r.patch == patch
    ensures r.buildMeta == buildMeta && r.preRelease == preRelease
  {
    Version(buildMeta, major, minor, patch, preRelease)
  }

  /** What `Version.of(String)` can throw. */
  datatype ParseError =
    | ParseException(errorOffset: int)
    | NumberFormatException
    | IndexOutOfBounds(index: int)

  /** Characters of a pre-release or build identifier: [0-9A-Za-z-]. */
  predicate IsIdentifierChar(c: char) { IsAsciiDigit(c) || IsAsciiLetter(c) || c == '-' }

  predicate IsIdentifier(p: string)
  {
    |p| > 0 && forall i :: 0 <= i < |p| ==> IsIdentifierChar(p[i])
  }

  predicate AllIdentifiers(parts: seq<string>) { forall p <- parts :: IsIdentifier(p) }

  /** The text after `+` in a rendered version, or nothing when there is no metadata. */
  function MetaSuffix(meta: seq<string>): string
  {
    if |meta| > 0 then "+" + Join(meta, ".") else ""
  }

  /**
   * The leading-zero test of the numeric states.  As written the minor and
   * patch states look at the first character of the whole input, not of
   * the number; for the major number the two coincide.
   */
  predicate LeadingZero(s: string, index: nat, pos: nat, corrected: bool)
    requires index < pos <= |s|
  {
    (if corrected then s[index] else s[0]) == '0' && pos - index > 1
  }

  /** Where a numeric state's scanning loop stops: the end of the ASCII digit run from `from`. */
  function DigitsEnd(s: string, from: nat): (e: nat)
    requires from <= |s|
    ensures from <= e <= |s|
    ensures forall k :: from <= k < e ==> IsAsciiDigit(s[k])
    ensures e < |s| ==> !IsAsciiDigit(s[e])
    decreases |s| - from
  {
    if from < |s| && IsAsciiDigit(s[from]) then DigitsEnd(s, from + 1) else from
  }

  /** Where an identifier state's scanning loop stops: the end of the `[0-9a-zA-Z-]` run from `from`. */
  function IdentifierEnd(s: string, from: nat): (e: nat)
    requires from <= |s|
    ensures from <= e <= |s|
    ensures forall k :: from <= k < e ==> IsIdentifierChar(s[k])
    ensures e < |s| ==> !IsIdentifierChar(s[e])
    decreases |s| - from
  {
    if from < |s| && IsIdentifierChar(s[from]) then IdentifierEnd(s, from + 1) else from
  }

  /**
   * The number a numeric state reads at `index`, with the position after
   * it: a digit run, not empty, without a leading zero, that fits in an int.
   */
  function NumberAt(s: string, index: nat, corrected: bool): (r: Result<(nat, int), ParseError>)
    requires index <= |s|
    ensures r.Success? ==> r.value.0 == DigitsEnd(s, index) && index < r.value.0
    ensures r.Success? ==> 0 <= r.value.1 <= INT_MAX
    ensures r.Failure? ==> r.error == ParseException(index) || r.error == NumberFormatException
  {
    var pos := DigitsEnd(s, index);
    if pos == index then Failure(ParseException(index))
    else if LeadingZero(s, index, pos, corrected) then Failure(ParseException(index))
    else
      assert AllDigits(s[index..pos]);
      var n := DigitsValue(s[index..pos]);
      if n > INT_MAX then Failure(NumberFormatException) else Success((pos, n))
  }

  /** The number a numeric state reads is what `Integer.parseInt` makes of the digit run. */
  lemma NumberAtIsParseInt(s: string, index: nat, corrected: bool)
    requires index <= |s|
    ensures var pos := DigitsEnd(s, index);
      index < pos && !LeadingZero(s, index, pos, corrected) ==>
        (NumberAt(s, index, corrected).Success? <==> ParseInt(s[index..pos]).Some?)
        && (NumberAt(s, index, corrected).Success? ==> NumberAt(s, index, corrected).value.1 == ParseInt(s[index..pos]).value)
  {
    var pos := DigitsEnd(s, index);
    if index < pos {
      var d := s[index..pos];
      assert AllDigits(d);
      assert ParseDecimal(d) == Some(DigitsValue(d));
    }
  }

  // ---------------------------------------------------------------------
  // The parser's states as functions of its fields.
  // `corrected` selects the fixed behaviour; the Java code is `false`.
  // ---------------------------------------------------------------------

  /** The parser's mutable fields. */
  datatype Progress = Progress(
    versionParts: seq<int>,
    preReleaseParts: seq<string>,
    metaParts: seq<string>,
    errorPosition: int)

  /** The fields after a state returns, and what it returned or threw. */
  datatype Step = Step(after: Progress, outcome: Result<bool, ParseError>)

  /** `stateMeta`: dot-separated identifiers up to the end of the input. */
  function MetaState(p: Progress, s: string, index: nat): (st: Step)
    requires index <= |s|
    ensures st.outcome.Success?
    ensures st.after.versionParts == p.versionParts && st.after.preReleaseParts == p.preReleaseParts
    ensures st.outcome.value ==> st.after.errorPosition == p.errorPosition
    decreases |s| - index
  {
    var pos := IdentifierEnd(s, index);
    if pos == index then Step(p.(errorPosition := index), Success(false))
    else
      var added := p.(metaParts := p.metaParts + [s[index..pos]]);
      if pos == |s| then Step(added, Success(true))
      else if s[pos] == '.' then MetaState(added, s, pos + 1)
      else Step(added.(errorPosition := pos), Success(false))
  }

  /** `stateRelease`: dot-separated pre-release identifiers, then optionally `+` and metadata. */
  function ReleaseState(p: Progress, s: string, index: nat): (st: Step)
    requires index <= |s|
    ensures st.outcome.Success?
    ensures st.after.versionParts == p.versionParts
    ensures st.outcome.value ==> st.after.errorPosition == p.errorPosition
    decreases |s| - index
  {
    var pos := IdentifierEnd(s, index);
    if pos == index then Step(p.(errorPosition := index), Success(false))
    else
      var added := p.(preReleaseParts := p.preReleaseParts + [s[index..pos]]);
      if pos == |s| then Step(added, Success(true))
      else if s[pos] == '.' then ReleaseState(added, s, pos + 1)
      else if s[pos] == '+' then MetaState(added, s, pos + 1)
      else Step(added.(errorPosition := pos), Success(false))
  }

  /** `statePatch`: a number, then the end, `+` metadata or `-` pre-release. */
  function PatchState(p: Progress, s: string, index: nat, corrected: bool): (st: Step)
    requires index <= |s| && |p.versionParts| == 3
    ensures |st.after.versionParts| == 3
    ensures st.after.versionParts[..2] == p.versionParts[..2]
    ensures st.outcome == Success(true) ==> 0 <= st.after.versionParts[2] <= INT_MAX
  {
    match NumberAt(s, index, corrected)
    case Failure(e) =>
      if e.ParseException? then Step(p.(errorPosition := index), Success(false)) else Step(p, Failure(e))
    case Success((pos, n)) =>
      var stored := p.(versionParts := p.versionParts[2 := n]);
      if pos == |s| then Step(stored, Success(true))
      else if s[pos] == '+' then MetaState(stored, s, pos + 1)
      else if s[pos] == '-' then ReleaseState(stored, s, pos + 1)
      else Step(stored.(errorPosition := pos), Success(false))
  }

  /**
   * `stateMinor`: a number and a `.`.  As written the character after the
   * number is read without a bounds check.
   */
  function MinorState(p: Progress, s: string, index: nat, corrected: bool): (st: Step)
    requires index <= |s| && |p.versionParts| == 3
    ensures |st.after.versionParts| == 3 && st.after.versionParts[0] == p.versionParts[0]
    ensures st.outcome == Success(true) ==>
      0 <= st.after.versionParts[1] <= INT_MAX && 0 <= st.after.versionParts[2] <= INT_MAX
  {
    match NumberAt(s, index, corrected)
    case Failure(e) =>
      if e.ParseException? then Step(p.(errorPosition := index), Success(false)) else Step(p, Failure(e))
    case Success((pos, n)) =>
      var stored := p.(versionParts := p.versionParts[1 := n]);
      if pos == |s| then
        (if corrected then Step(stored.(errorPosition := pos), Success(false))
         else Step(stored, Failure(IndexOutOfBounds(pos))))
      else if s[pos] == '.' then PatchState(stored, s, pos + 1, corrected)
      else Step(stored.(errorPosition := pos), Success(false))
  }

  /**
   * `stateMajor`: a number and a `.`.  Its rejections leave the error
   * position alone; as written the character after the number is read
   * without a bounds check.
   */
  function MajorState(p: Progress, s: string, corrected: bool): (st: Step)
    requires |p.versionParts| == 3
    ensures |st.after.versionParts| == 3
    ensures st.outcome == Success(true) ==>
      0 <= st.after.versionParts[0] <= INT_MAX && 0 <= st.after.versionParts[1] <= INT_MAX
      && 0 <= st.after.versionParts[2] <= INT_MAX
  {
    match NumberAt(s, 0, corrected)
    case Failure(e) =>
      if e.ParseException? then Step(p, Success(false)) else Step(p, Failure(e))
    case Success((pos, n)) =>
      var stored := p.(versionParts := p.versionParts[0 := n]);
      if pos == |s| then
        (if corrected then Step(stored.(errorPosition := pos), Success(false))
         else Step(stored, Failure(IndexOutOfBounds(pos))))
      else if s[pos] == '.' then MinorState(stored, s, pos + 1, corrected)
      else Step(stored, Success(false))
  }

  /** The fields of a new parser. */
  const Fresh := Progress([0, 0, 0], [], [], 0)

  /**
   * `parse()` on a new parser: the exception `stateMajor` throws, a parse
   * error at the recorded position, or the version built from the parts.
   * As written the pre-release parts are handed to `buildMeta` and the
   * metadata parts to `preRelease`.
   */
  function ParseWith(s: string, corrected: bool): (r: Result<Version, ParseError>)
    ensures r.Success? ==> 0 <= r.value.major <= INT_MAX && 0 <= r.value.minor <= INT_MAX
    ensures r.Success? ==> 0 <= r.value.patch <= INT_MAX
  {
    var st := MajorState(Fresh, s, corrected);
    if st.outcome.Failure? then Failure(st.outcome.error)
    else if !st.outcome.value then Failure(ParseException(st.after.errorPosition))
    else
      var v := st.after.versionParts;
      if corrected then Success(Of(v[0], v[1], v[2], st.after.metaParts, st.after.preReleaseParts))
      else Success(Of(v[0], v[1], v[2], st.after.preReleaseParts, st.after.metaParts))
  }

  /** The three numbers lie in 0 .. `Integer.MAX_VALUE`, so `compareTo` subtracts them without overflow. */
  predicate CoreInRange(v: Version)
  {
    0 <= v.major <= INT_MAX && 0 <= v.minor <= INT_MAX && 0 <= v.patch <= INT_MAX
  }

  /** `Version.of(String)` as written. */
  function ParseVersion(s: string): (r: Result<Version, ParseError>)
    ensures |s| == 0 || !IsAsciiDigit(s[0]) ==> r == Failure(ParseException(0))
    ensures r.Success? ==> CoreInRange(r.value)
  {
    ParseWith(s, false)
  }

  /** `Version.of(String)` with the three defects fixed. */
  function ParseCorrected(s: string): (r: Result<Version, ParseError>)
    ensures |s| == 0 || !IsAsciiDigit(s[0]) ==> r == Failure(ParseException(0))
    ensures r.Success? ==> CoreInRange(r.value)
  {
    ParseWith(s, true)
  }

  // ---------------------------------------------------------------------
  // The imperative parser.
  // ---------------------------------------------------------------------

  class Parser {
    const input: string
    var versionParts: seq<int>
    var metaParts: seq<string>
    var preReleaseParts: seq<string>
    var errorPosition: int

    ghost predicate Valid() reads this { |versionParts| == 3 }

    /** The fields as a value. */
    ghost function State(): Progress
      reads this
    {
      Progress(versionParts, preReleaseParts, metaParts, errorPosition)
    }

    constructor (versionString: string)
      ensures Valid() && input == versionString && State() == Fresh
    {
      input := versionString;
      versionParts := [0, 0, 0];
      metaParts := [];
      preReleaseParts := [];
      errorPosition := 0;
    }

    /** The scanning loop of the numeric states. */
    method ScanDigits(from: nat) returns (pos: nat)
      requires from <= |input|
      ensures pos == DigitsEnd(input, from)
    {
      pos := from;
      while pos < |input| && '0' <= input[pos] <= '9'
        invariant from <= pos <= |input|
        invariant DigitsEnd(input, from) == DigitsEnd(input, pos)
        decreases |input| - pos
      {
        pos := pos + 1;
      }
    }

    /** The scanning loop of the identifier states. */
    method ScanIdentifier(from: nat) returns (pos: nat)
      requires from <= |input|
      ensures pos == IdentifierEnd(input, from)
    {
      pos := from;
      while pos < |input| && IsIdentifierChar(input[pos])
        invariant from <= pos <= |input|
        invariant IdentifierEnd(input, from) == IdentifierEnd(input, pos)
        decreases |input| - pos
      {
        pos := pos + 1;
      }
    }

    /**
     * The number a numeric state reads: the digit scan, the leading-zero
     * test and `Integer.parseInt`.
     */
    method ReadNumber(index: nat) returns (num: Result<(nat, int), ParseError>)
      requires index <= |input|
      ensures num == NumberAt(input, index, false)
    {
      var pos := ScanDigits(index);
      if pos == index {
        return Failure(ParseException(index));
      }
      if input[0] == '0' && pos - index > 1 {
        return Failure(ParseException(index));
      }
      var n := ParseInt(input[index..pos]);
      if n.None? {
        return Failure(NumberFormatException);
      }
      return Success((pos, n.value));
    }

    method StateMeta(index: nat) returns (r: bool)
      requires index <= |input|
      modifies this
      ensures State() == MetaState(old(State()), input, index).after
      ensures Success(r) == MetaState(old(State()), input, index).outcome
      decreases |input| - index
    {
      var pos := ScanIdentifier(index);
      if pos == index {
        errorPosition := index;
        return false;
      }
      metaParts := metaParts + [input[index..pos]];
      if pos == |input| {
        return true;
      }
      if input[pos] == '.' {
        r := StateMeta(pos + 1);
        return;
      }
      errorPosition := pos;
      return false;
    }

    method StateRelease(index: nat) returns (r: bool)
      requires index <= |input|
      modifies this
      ensures State() == ReleaseState(old(State()), input, index).after
      ensures Success(r) == ReleaseState(old(State()), input, index).outcome
      decreases |input| - index
    {
      var pos := ScanIdentifier(index);
      if pos == index {
        errorPosition := index;
        return false;
      }
      preReleaseParts := preReleaseParts + [input[index..pos]];
      if pos == |input| {
        return true;
      }
      if input[pos] == '.' {
        r := StateRelease(pos + 1);
        return;
      }
      if input[pos] == '+' {
        r := StateMeta(pos + 1);
        return;
      }
      errorPosition := pos;
      return false;
    }

    method StatePatch(index: nat) returns (r: Result<bool, ParseError>)
      requires Valid() && index <= |input|
      modifies this
      ensures Valid()
      ensures State() == PatchState(old(State()), input, index, false).after
      ensures r == PatchState(old(State()), input, index, false).outcome
    {
      var num := ReadNumber(index);
      if num.Failure? {
        if num.error.ParseException? {
          errorPosition := index;
          return Success(false);
        }
        return Failure(num.error);
      }
      var (pos, n) := num.value;
      versionParts := versionParts[2 := n];
      if pos == |input| {
        return Success(true);
      }
      if input[pos] == '+' {
        var ok := StateMeta(pos + 1);
        return Success(ok);
      }
      if input[pos] == '-' {
        var ok := StateRelease(pos + 1);
        return Success(ok);
      }
      errorPosition := pos;
      return Success(false);
    }

    method StateMinor(index: nat) returns (r: Result<bool, ParseError>)
      requires Valid() && index <= |input|
      modifies this
      ensures Valid()
      ensures State() == MinorState(old(State()), input, index, false).after
      ensures r == MinorState(old(State()), input, index, false).outcome
    {
      var num := ReadNumber(index);
      if num.Failure? {
        if num.error.ParseException? {
          errorPosition := index;
          return Success(false);
        }
        return Failure(num.error);
      }
      var (pos, n) := num.value;
      versionParts := versionParts[1 := n];
      if pos == |input| {
        return Failure(IndexOutOfBounds(pos));
      }
      if input[pos] == '.' {
        r := StatePatch(pos + 1);
        return;
      }
      errorPosition := pos;
      return Success(false);
    }

    method StateMajor() returns (r: Result<bool, ParseError>)
      requires Valid()
      modifies this
      ensures Valid()
      ensures State() == MajorState(old(State()), input, false).after
      ensures r == MajorState(old(State()), input, false).outcome
    {
      var num := ReadNumber(0);
      if num.Failure? {
        if num.error.ParseException? {
          return Success(false);
        }
        return Failure(num.error);
      }
      var (pos, n) := num.value;
      versionParts := versionParts[0 := n];
      if pos == |input| {
        return Failure(IndexOutOfBounds(pos));
      }
      if input[pos] == '.' {
        r := StateMinor(pos + 1);
        return;
      }
      return Success(false);
    }

    /** `parse()`, run once on a new parser. */
    method Parse() returns (r: Result<Version, ParseError>)
      requires Valid() && State() == Fresh
      modifies this
      ensures r == ParseVersion(input)
    {
      var ok := StateMajor();
      if ok.Failure? {
        return Failure(ok.error);
      }
      if !ok.value {
        return Failure(ParseException(errorPosition));
      }
      return Success(Of(versionParts[0], versionParts[1], versionParts[2], preReleaseParts, metaParts));
    }
  }

  /** `Version.of(String)`: a new parser over the string, parsed once. */
  method OfString(versionString: string) returns (r: Result<Version, ParseError>)
    ensures r == ParseVersion(versionString)
  {
    var parser := new Parser(versionString);
    r := parser.Parse();
  }

  // ---------------------------------------------------------------------
  // Rendering.
  // ---------------------------------------------------------------------

  /** The text after `-` in a rendered version, or nothing when there is no pre-release. */
  function PreSuffix(pre: seq<string>): string
  {
    if |pre| > 0 then "-" + Join(pre, ".") else ""
  }

  /** `toString()`: `major.minor.patch`, then `-` and the pre-release, then `+` and the metadata. */
  function Render(v: Version): (s: string)
    ensures var core := IntToString(v.major) + "." + IntToString(v.minor) + "." + IntToString(v.patch);
      && StartsWith(s, core)
      && (|s| == |core| <==> |v.preRelease| == 0 && |v.buildMeta| == 0)
      && (|v.preRelease| > 0 ==> s[|core|] == '-')
      && (|v.preRelease| == 0 && |v.buildMeta| > 0 ==> s[|core|] == '+')
  {
    IntToString(v.major) + "." + IntToString(v.minor) + "." + IntToString(v.patch)
    + PreSuffix(v.preRelease) + MetaSuffix(v.buildMeta)
  }

  /**
   * One loop of `toString`: the marker, then each part followed by a dot
   * unless it is the last.
   */
  method AppendJoined(builder: string, marker: string, parts: seq<string>) returns (s: string)
    requires |parts| > 0
    ensures s == builder + marker + Join(parts, ".")
  {
    s := builder + marker;
    ghost var base := s;
    var index := 0;
    while index < |parts|
      invariant index <= |parts|
      invariant index == 0 ==> s == base
      invariant 0 < index < |parts| ==> s == base + Join(parts[..index], ".") + "."
      invariant index == |parts| ==> s == base + Join(parts, ".")
    {
      ghost var done := if index == 0 then [] else parts[..index];
      s := s + parts[index];
      if index > 0 {
        JoinSnoc(done, parts[index], ".");
        assert parts[..index + 1] == done + [parts[index]];
      } else {
        assert parts[..1] == [parts[0]];
      }
      if index < |parts| - 1 {
        s := s + ".";
      } else {
        assert parts[..index + 1] == parts;
      }
      index := index + 1;
    }
  }

  /** `toString()`, with its two loops. */
  method ToString(v: Version) returns (s: string)
    ensures s == Render(v)
  {
    s := IntToString(v.major) + "." + IntToString(v.minor) + "." + IntToString(v.patch);
    if |v.preRelease| > 0 {
      s := AppendJoined(s, "-", v.preRelease);
    }
    if |v.buildMeta| > 0 {
      s := AppendJoined(s, "+", v.buildMeta);
    }
  }

  /** A version the parser can produce: numbers that fit in an int, identifiers of [0-9A-Za-z-]. */
  predicate WellFormed(v: Version)
  {
    0 <= v.major <= INT_MAX && 0 <= v.minor <= INT_MAX && 0 <= v.patch <= INT_MAX
    && AllIdentifiers(v.preRelease) && AllIdentifiers(v.buildMeta)
  }

}
