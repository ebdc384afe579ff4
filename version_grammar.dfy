/**
 * What each state of the version parser accepts and collects, as a
 * grammar over the input from the state's start index, and the proofs
 * that the state functions of `Version` follow it and that `Render`
 * gives back every text the corrected parser accepts (the converse is
 * `VersionRoundTrip.RenderParsesBack`).
 */
module VersionGrammar {
  import opened Wrappers
  import opened JavaText
  import opened Version

  /** What a state and the states after it collect: numbers, pre-release and metadata identifiers. */
  datatype Tail = Tail(numbers: seq<int>, pre: seq<string>, meta: seq<string>)

  /** What `first` collected followed by what the state it hands over to collected. */
  function Then(first: Tail, later: Result<Tail, ParseError>): (r: Result<Tail, ParseError>)
    ensures r.Success? <==> later.Success?
    ensures r.Failure? ==> r.error == later.error
    ensures r.Success? ==> r.value.numbers == first.numbers + later.value.numbers
    ensures r.Success? ==> r.value.pre == first.pre + later.value.pre && r.value.meta == first.meta + later.value.meta
  {
    match later
    case Success(t) => Success(Tail(first.numbers + t.numbers, first.pre + t.pre, first.meta + t.meta))
    case Failure(e) => Failure(e)
  }

  // ---------------------------------------------------------------------
  // What each state accepts from its start index, and the numbers and
  // identifiers it and the states after it collect.
  // ---------------------------------------------------------------------

  /** `stateMeta` accepts dot-separated identifiers up to the end of the input. */
  function MetaFrom(s: string, index: nat): (r: Result<Tail, ParseError>)
    requires index <= |s|
    ensures r.Success? ==> r.value.numbers == [] && r.value.pre == []
    ensures r.Failure? ==> r.error.ParseException? && index <= r.error.errorOffset <= |s|
    decreases |s| - index
  {
    var pos := IdentifierEnd(s, index);
    var first := Tail([], [], [s[index..pos]]);
    if pos == index then Failure(ParseException(index))
    else if pos == |s| then Success(first)
    else if s[pos] == '.' then Then(first, MetaFrom(s, pos + 1))
    else Failure(ParseException(pos))
  }

  /** `stateRelease` accepts dot-separated identifiers, then optionally `+` and metadata. */
  function ReleaseFrom(s: string, index: nat): (r: Result<Tail, ParseError>)
    requires index <= |s|
    ensures r.Success? ==> r.value.numbers == []
    ensures r.Failure? ==> r.error.ParseException? && index <= r.error.errorOffset <= |s|
    decreases |s| - index
  {
    var pos := IdentifierEnd(s, index);
    var first := Tail([], [s[index..pos]], []);
    if pos == index then Failure(ParseException(index))
    else if pos == |s| then Success(first)
    else if s[pos] == '.' then Then(first, ReleaseFrom(s, pos + 1))
    else if s[pos] == '+' then Then(first, MetaFrom(s, pos + 1))
    else Failure(ParseException(pos))
  }

  /** `statePatch` accepts a number, then the end, `+` and metadata or `-` and a pre-release. */
  function PatchFrom(s: string, index: nat, corrected: bool): (r: Result<Tail, ParseError>)
    requires index <= |s|
    ensures r.Success? ==> |r.value.numbers| == 1 && 0 <= r.value.numbers[0] <= INT_MAX
  {
    match NumberAt(s, index, corrected)
    case Failure(e) => Failure(e)
    case Success((pos, n)) =>
      var first := Tail([n], [], []);
      if pos == |s| then Success(first)
      else if s[pos] == '+' then Then(first, MetaFrom(s, pos + 1))
      else if s[pos] == '-' then Then(first, ReleaseFrom(s, pos + 1))
      else Failure(ParseException(pos))
  }

  /** `stateMinor` accepts a number, a `.` and what `statePatch` accepts. */
  function MinorFrom(s: string, index: nat, corrected: bool): (r: Result<Tail, ParseError>)
    requires index <= |s|
    ensures r.Success? ==> |r.value.numbers| == 2
    ensures r.Success? ==> 0 <= r.value.numbers[0] <= INT_MAX && 0 <= r.value.numbers[1] <= INT_MAX
  {
    match NumberAt(s, index, corrected)
    case Failure(e) => Failure(e)
    case Success((pos, n)) =>
      if pos == |s| then (if corrected then Failure(ParseException(pos)) else Failure(IndexOutOfBounds(pos)))
      else if s[pos] == '.' then Then(Tail([n], [], []), PatchFrom(s, pos + 1, corrected))
      else Failure(ParseException(pos))
  }

  /**
   * `stateMajor` accepts a number, a `.` and what `stateMinor` accepts.
   * A new parser's error position is 0, which is where its own rejections
   * leave it.
   */
  function MajorFrom(s: string, corrected: bool): (r: Result<Tail, ParseError>)
    ensures r.Success? ==> |r.value.numbers| == 3
    ensures r.Success? ==> 0 <= r.value.numbers[0] <= INT_MAX && 0 <= r.value.numbers[1] <= INT_MAX
    ensures r.Success? ==> 0 <= r.value.numbers[2] <= INT_MAX
  {
    match NumberAt(s, 0, corrected)
    case Failure(e) => Failure(e)
    case Success((pos, n)) =>
      if pos == |s| then (if corrected then Failure(ParseException(pos)) else Failure(IndexOutOfBounds(pos)))
      else if s[pos] == '.' then Then(Tail([n], [], []), MinorFrom(s, pos + 1, corrected))
      else Failure(ParseException(0))
  }

  /** Appending in two steps appends the concatenation. */
  lemma AppendTwice<T>(a: seq<T>, b: seq<T>, c: seq<T>)
    ensures a + (b + c) == (a + b) + c && [] + c == c && c + [] == c
  {
  }

  // ---------------------------------------------------------------------
  // The state functions follow the grammar: they report its outcome and
  // append what it collects to the parser's fields.
  // ---------------------------------------------------------------------

  /** `st` reports what `g` accepts, and appends the identifiers `g` collects to those of `p`. */
  predicate Follows(p: Progress, st: Step, g: Result<Tail, ParseError>)
  {
    Reports(g, st.outcome, st.after.errorPosition)
    && (g.Success? ==>
          st.after.preReleaseParts == p.preReleaseParts + g.value.pre
          && st.after.metaParts == p.metaParts + g.value.meta)
  }

  /** Appending nothing. */
  lemma AppendNil(a: seq<string>)
    ensures a + [] == a && [] + a == a
  {
  }

  /**
   * A state that collects `first`, leaves the fields as `mid` and hands over
   * to a later state that follows `later`, follows `first` then `later`.
   */
  lemma FollowsThen(p: Progress, mid: Progress, st: Step, first: Tail, later: Result<Tail, ParseError>)
    requires mid.preReleaseParts == p.preReleaseParts + first.pre
    requires mid.metaParts == p.metaParts + first.meta
    requires Follows(mid, st, later)
    ensures Follows(p, st, Then(first, later))
  {
    if later.Success? {
      AppendTwice(p.preReleaseParts, first.pre, later.value.pre);
      AppendTwice(p.metaParts, first.meta, later.value.meta);
    }
  }

  // One step of each state function, taken apart once.

  lemma MetaStateStep(p: Progress, s: string, index: nat, pos: nat, added: Progress)
    requires index < pos < |s| && pos == IdentifierEnd(s, index) && s[pos] == '.'
    requires added == p.(metaParts := p.metaParts + [s[index..pos]])
    ensures MetaState(p, s, index) == MetaState(added, s, pos + 1)
  {
  }

  lemma ReleaseStateStep(p: Progress, s: string, index: nat, pos: nat, added: Progress)
    requires index < pos < |s| && pos == IdentifierEnd(s, index)
    requires added == p.(preReleaseParts := p.preReleaseParts + [s[index..pos]])
    ensures s[pos] == '.' ==> ReleaseState(p, s, index) == ReleaseState(added, s, pos + 1)
    ensures s[pos] == '+' ==> ReleaseState(p, s, index) == MetaState(added, s, pos + 1)
  {
  }

  lemma PatchStateStep(p: Progress, s: string, index: nat, corrected: bool, pos: nat, n: int, stored: Progress)
    requires index <= |s| && |p.versionParts| == 3 && stored == p.(versionParts := p.versionParts[2 := n])
    requires NumberAt(s, index, corrected) == Success((pos, n)) && pos < |s|
    ensures s[pos] == '+' ==> PatchState(p, s, index, corrected) == MetaState(stored, s, pos + 1)
    ensures s[pos] == '-' ==> PatchState(p, s, index, corrected) == ReleaseState(stored, s, pos + 1)
  {
  }

  lemma MinorStateStep(p: Progress, s: string, index: nat, corrected: bool, pos: nat, n: int, stored: Progress)
    requires index <= |s| && |p.versionParts| == 3 && stored == p.(versionParts := p.versionParts[1 := n])
    requires NumberAt(s, index, corrected) == Success((pos, n)) && pos < |s| && s[pos] == '.'
    ensures MinorState(p, s, index, corrected) == PatchState(stored, s, pos + 1, corrected)
  {
  }

  lemma MajorStateStep(p: Progress, s: string, corrected: bool, pos: nat, n: int, stored: Progress)
    requires |p.versionParts| == 3 && stored == p.(versionParts := p.versionParts[0 := n])
    requires NumberAt(s, 0, corrected) == Success((pos, n)) && pos < |s| && s[pos] == '.'
    ensures MajorState(p, s, corrected) == MinorState(stored, s, pos + 1, corrected)
  {
  }

  lemma {:induction false} MetaStateFollows(p: Progress, s: string, index: nat)
    requires index <= |s|
    ensures Follows(p, MetaState(p, s, index), MetaFrom(s, index))
    decreases |s| - index
  {
    var pos := IdentifierEnd(s, index);
    AppendNil(p.preReleaseParts);
    if pos > index && pos < |s| && s[pos] == '.' {
      var added := p.(metaParts := p.metaParts + [s[index..pos]]);
      MetaStateStep(p, s, index, pos, added);
      MetaFromStep(s, index, pos);
      MetaStateFollows(added, s, pos + 1);
      FollowsThen(p, added, MetaState(added, s, pos + 1), Tail([], [], [s[index..pos]]), MetaFrom(s, pos + 1));
    }
  }

  lemma {:induction false} ReleaseStateFollows(p: Progress, s: string, index: nat)
    requires index <= |s|
    ensures Follows(p, ReleaseState(p, s, index), ReleaseFrom(s, index))
    decreases |s| - index
  {
    var pos := IdentifierEnd(s, index);
    AppendNil(p.metaParts);
    if pos > index && pos < |s| && (s[pos] == '.' || s[pos] == '+') {
      var added := p.(preReleaseParts := p.preReleaseParts + [s[index..pos]]);
      ReleaseStateStep(p, s, index, pos, added);
      var first := Tail([], [s[index..pos]], []);
      if s[pos] == '.' {
        ReleaseFromDotStep(s, index, pos);
        ReleaseStateFollows(added, s, pos + 1);
        FollowsThen(p, added, ReleaseState(added, s, pos + 1), first, ReleaseFrom(s, pos + 1));
      } else {
        ReleaseFromPlusStep(s, index, pos);
        MetaStateFollows(added, s, pos + 1);
        FollowsThen(p, added, MetaState(added, s, pos + 1), first, MetaFrom(s, pos + 1));
      }
    }
  }

  lemma PatchStateFollows(p: Progress, s: string, index: nat, corrected: bool)
    requires index <= |s| && |p.versionParts| == 3
    ensures var st := PatchState(p, s, index, corrected); var g := PatchFrom(s, index, corrected);
      Follows(p, st, g) && (g.Success? ==> st.after.versionParts == p.versionParts[2 := g.value.numbers[0]])
  {
    AppendNil(p.preReleaseParts);
    AppendNil(p.metaParts);
    var num := NumberAt(s, index, corrected);
    if num.Success? && num.value.0 < |s| && (s[num.value.0] == '+' || s[num.value.0] == '-') {
      var (pos, n) := num.value;
      PatchStateHandOver(p, s, index, corrected, pos, n, p.(versionParts := p.versionParts[2 := n]));
    }
  }

  lemma PatchStateHandOver(p: Progress, s: string, index: nat, corrected: bool, pos: nat, n: int, stored: Progress)
    requires index <= |s| && |p.versionParts| == 3 && stored == p.(versionParts := p.versionParts[2 := n])
    requires NumberAt(s, index, corrected) == Success((pos, n)) && pos < |s| && (s[pos] == '+' || s[pos] == '-')
    ensures var st := PatchState(p, s, index, corrected); var g := PatchFrom(s, index, corrected);
      Follows(p, st, g) && (g.Success? ==> st.after.versionParts == p.versionParts[2 := g.value.numbers[0]])
  {
    PatchStateStep(p, s, index, corrected, pos, n, stored);
    if s[pos] == '+' {
      PatchFromStep(s, index, corrected, pos, n, MetaFrom(s, pos + 1));
      PatchThenMeta(p, stored, s, pos, n);
    } else {
      PatchFromStep(s, index, corrected, pos, n, ReleaseFrom(s, pos + 1));
      PatchThenRelease(p, stored, s, pos, n);
    }
  }

  lemma PatchThenMeta(p: Progress, stored: Progress, s: string, pos: nat, n: int)
    requires pos < |s| && |p.versionParts| == 3 && stored == p.(versionParts := p.versionParts[2 := n])
    ensures var st := MetaState(stored, s, pos + 1); var g := Then(Tail([n], [], []), MetaFrom(s, pos + 1));
      Follows(p, st, g) && (g.Success? ==> st.after.versionParts == p.versionParts[2 := g.value.numbers[0]])
  {
    MetaStateFollows(stored, s, pos + 1);
    PatchThen(p, stored, MetaState(stored, s, pos + 1), n, MetaFrom(s, pos + 1));
  }

  lemma PatchThenRelease(p: Progress, stored: Progress, s: string, pos: nat, n: int)
    requires pos < |s| && |p.versionParts| == 3 && stored == p.(versionParts := p.versionParts[2 := n])
    ensures var st := ReleaseState(stored, s, pos + 1); var g := Then(Tail([n], [], []), ReleaseFrom(s, pos + 1));
      Follows(p, st, g) && (g.Success? ==> st.after.versionParts == p.versionParts[2 := g.value.numbers[0]])
  {
    ReleaseStateFollows(stored, s, pos + 1);
    PatchThen(p, stored, ReleaseState(stored, s, pos + 1), n, ReleaseFrom(s, pos + 1));
  }

  /** `statePatch` stores its number and hands over to a later state that keeps the version numbers. */
  lemma PatchThen(p: Progress, stored: Progress, st: Step, n: int, later: Result<Tail, ParseError>)
    requires |p.versionParts| == 3 && stored == p.(versionParts := p.versionParts[2 := n])
    requires Follows(stored, st, later) && st.after.versionParts == stored.versionParts
    requires later.Success? ==> later.value.numbers == []
    ensures var g := Then(Tail([n], [], []), later);
      Follows(p, st, g) && (g.Success? ==> st.after.versionParts == p.versionParts[2 := g.value.numbers[0]])
  {
    AppendNil(p.preReleaseParts);
    AppendNil(p.metaParts);
    FollowsThen(p, stored, st, Tail([n], [], []), later);
    if later.Success? {
      NumbersThen(n, later.value.numbers);
    }
  }

  lemma MinorStateFollows(p: Progress, s: string, index: nat, corrected: bool)
    requires index <= |s| && |p.versionParts| == 3
    ensures var st := MinorState(p, s, index, corrected); var g := MinorFrom(s, index, corrected);
      Follows(p, st, g)
      && (g.Success? ==> st.after.versionParts == p.versionParts[1 := g.value.numbers[0]][2 := g.value.numbers[1]])
  {
    var num := NumberAt(s, index, corrected);
    if num.Success? && num.value.0 < |s| && s[num.value.0] == '.' {
      var (pos, n) := num.value;
      MinorStateHandOver(p, s, index, corrected, pos, n, p.(versionParts := p.versionParts[1 := n]));
    }
  }

  lemma MinorStateHandOver(p: Progress, s: string, index: nat, corrected: bool, pos: nat, n: int, stored: Progress)
    requires index <= |s| && |p.versionParts| == 3 && stored == p.(versionParts := p.versionParts[1 := n])
    requires NumberAt(s, index, corrected) == Success((pos, n)) && pos < |s| && s[pos] == '.'
    ensures var st := MinorState(p, s, index, corrected); var g := MinorFrom(s, index, corrected);
      Follows(p, st, g)
      && (g.Success? ==> st.after.versionParts == p.versionParts[1 := g.value.numbers[0]][2 := g.value.numbers[1]])
  {
    MinorStateStep(p, s, index, corrected, pos, n, stored);
    MinorFromStep(s, index, corrected, pos, n, PatchFrom(s, pos + 1, corrected));
    MinorThenPatch(p, stored, s, pos, n, corrected);
  }

  lemma MinorThenPatch(p: Progress, stored: Progress, s: string, pos: nat, n: int, corrected: bool)
    requires pos < |s| && |p.versionParts| == 3 && stored == p.(versionParts := p.versionParts[1 := n])
    ensures var st := PatchState(stored, s, pos + 1, corrected);
      var g := Then(Tail([n], [], []), PatchFrom(s, pos + 1, corrected));
      Follows(p, st, g)
      && (g.Success? ==> st.after.versionParts == p.versionParts[1 := g.value.numbers[0]][2 := g.value.numbers[1]])
  {
    var later := PatchFrom(s, pos + 1, corrected);
    PatchStateFollows(stored, s, pos + 1, corrected);
    AppendNil(p.preReleaseParts);
    AppendNil(p.metaParts);
    FollowsThen(p, stored, PatchState(stored, s, pos + 1, corrected), Tail([n], [], []), later);
    if later.Success? {
      NumbersThen(n, later.value.numbers);
    }
  }

  lemma MajorStateFollows(p: Progress, s: string, corrected: bool)
    requires |p.versionParts| == 3 && p.errorPosition == 0
    ensures var st := MajorState(p, s, corrected); var g := MajorFrom(s, corrected);
      Follows(p, st, g)
      && (g.Success? ==> st.after.versionParts
                         == p.versionParts[0 := g.value.numbers[0]][1 := g.value.numbers[1]][2 := g.value.numbers[2]])
  {
    var num := NumberAt(s, 0, corrected);
    if num.Success? && num.value.0 < |s| && s[num.value.0] == '.' {
      var (pos, n) := num.value;
      MajorStateHandOver(p, s, corrected, pos, n, p.(versionParts := p.versionParts[0 := n]));
    }
  }

  lemma MajorStateHandOver(p: Progress, s: string, corrected: bool, pos: nat, n: int, stored: Progress)
    requires |p.versionParts| == 3 && stored == p.(versionParts := p.versionParts[0 := n])
    requires NumberAt(s, 0, corrected) == Success((pos, n)) && pos < |s| && s[pos] == '.'
    ensures var st := MajorState(p, s, corrected); var g := MajorFrom(s, corrected);
      Follows(p, st, g)
      && (g.Success? ==> st.after.versionParts
                         == p.versionParts[0 := g.value.numbers[0]][1 := g.value.numbers[1]][2 := g.value.numbers[2]])
  {
    MajorStateStep(p, s, corrected, pos, n, stored);
    MajorFromStep(s, corrected, pos, n, MinorFrom(s, pos + 1, corrected));
    MajorThenMinor(p, stored, s, pos, n, corrected);
  }

  lemma MajorThenMinor(p: Progress, stored: Progress, s: string, pos: nat, n: int, corrected: bool)
    requires pos < |s| && |p.versionParts| == 3 && stored == p.(versionParts := p.versionParts[0 := n])
    ensures var st := MinorState(stored, s, pos + 1, corrected);
      var g := Then(Tail([n], [], []), MinorFrom(s, pos + 1, corrected));
      Follows(p, st, g)
      && (g.Success? ==> st.after.versionParts
                         == p.versionParts[0 := g.value.numbers[0]][1 := g.value.numbers[1]][2 := g.value.numbers[2]])
  {
    var later := MinorFrom(s, pos + 1, corrected);
    MinorStateFollows(stored, s, pos + 1, corrected);
    AppendNil(p.preReleaseParts);
    AppendNil(p.metaParts);
    FollowsThen(p, stored, MinorState(stored, s, pos + 1, corrected), Tail([n], [], []), later);
    if later.Success? {
      NumbersThen(n, later.value.numbers);
    }
  }

  /** The numbers after a state's own number are the later states'. */
  lemma NumbersThen(n: int, rest: seq<int>)
    ensures ([n] + rest)[0] == n
    ensures |rest| > 0 ==> ([n] + rest)[1] == rest[0]
    ensures |rest| > 1 ==> ([n] + rest)[2] == rest[1]
  {
  }

  /**
   * `Version.of(String)` accepts what `stateMajor` accepts and reports
   * the grammar's error; as written it swaps the two identifier lists.
   */
  lemma ParseFollows(s: string, corrected: bool)
    ensures var g := MajorFrom(s, corrected);
      ParseWith(s, corrected) ==
        if g.Failure? then Failure(g.error)
        else
          var t := g.value;
          if corrected then Success(Of(t.numbers[0], t.numbers[1], t.numbers[2], t.meta, t.pre))
          else Success(Of(t.numbers[0], t.numbers[1], t.numbers[2], t.pre, t.meta))
  {
    MajorStateFollows(Fresh, s, corrected);
    var g := MajorFrom(s, corrected);
    if g.Success? {
      AppendNil(g.value.pre);
      AppendNil(g.value.meta);
    }
  }

  // ---------------------------------------------------------------------
  // One step of each state, taken apart once, and how a step's parts
  // join the parts collected before it.
  // ---------------------------------------------------------------------

  lemma MetaFromStep(s: string, index: nat, pos: nat)
    requires index < pos < |s| && pos == IdentifierEnd(s, index) && s[pos] == '.'
    ensures MetaFrom(s, index) == Then(Tail([], [], [s[index..pos]]), MetaFrom(s, pos + 1))
  {
  }

  lemma ReleaseFromDotStep(s: string, index: nat, pos: nat)
    requires index < pos < |s| && pos == IdentifierEnd(s, index) && s[pos] == '.'
    ensures ReleaseFrom(s, index) == Then(Tail([], [s[index..pos]], []), ReleaseFrom(s, pos + 1))
  {
  }

  lemma ReleaseFromPlusStep(s: string, index: nat, pos: nat)
    requires index < pos < |s| && pos == IdentifierEnd(s, index) && s[pos] == '+'
    ensures ReleaseFrom(s, index) == Then(Tail([], [s[index..pos]], []), MetaFrom(s, pos + 1))
  {
  }

  lemma PatchFromStep(s: string, index: nat, corrected: bool, pos: nat, n: int, later: Result<Tail, ParseError>)
    requires index <= |s| && NumberAt(s, index, corrected) == Success((pos, n)) && pos < |s|
    requires s[pos] == '+' ==> later == MetaFrom(s, pos + 1)
    requires s[pos] == '-' ==> later == ReleaseFrom(s, pos + 1)
    requires s[pos] == '+' || s[pos] == '-'
    ensures PatchFrom(s, index, corrected) == Then(Tail([n], [], []), later)
  {
  }

  lemma PatchFromPlusStep(s: string, index: nat, pos: nat, n: int)
    requires index <= |s| && NumberAt(s, index, true) == Success((pos, n)) && pos < |s| && s[pos] == '+'
    ensures PatchFrom(s, index, true) == Then(Tail([n], [], []), MetaFrom(s, pos + 1))
  {
  }

  lemma PatchFromMinusStep(s: string, index: nat, pos: nat, n: int)
    requires index <= |s| && NumberAt(s, index, true) == Success((pos, n)) && pos < |s| && s[pos] == '-'
    ensures PatchFrom(s, index, true) == Then(Tail([n], [], []), ReleaseFrom(s, pos + 1))
  {
  }

  lemma MinorFromStep(s: string, index: nat, corrected: bool, pos: nat, n: int, later: Result<Tail, ParseError>)
    requires index <= |s| && NumberAt(s, index, corrected) == Success((pos, n)) && pos < |s| && s[pos] == '.'
    requires later == PatchFrom(s, pos + 1, corrected)
    ensures MinorFrom(s, index, corrected) == Then(Tail([n], [], []), later)
  {
  }

  lemma MajorFromStep(s: string, corrected: bool, pos: nat, n: int, later: Result<Tail, ParseError>)
    requires NumberAt(s, 0, corrected) == Success((pos, n)) && pos < |s| && s[pos] == '.'
    requires later == MinorFrom(s, pos + 1, corrected)
    ensures MajorFrom(s, corrected) == Then(Tail([n], [], []), later)
  {
  }

  /**
   * How a state method reports `spec`: true, false with the error position
   * set, or the exception it throws.
   */
  predicate Reports(spec: Result<Tail, ParseError>, r: Result<bool, ParseError>, errorPosition: int)
  {
    if spec.Success? then r == Success(true)
    else if spec.error.ParseException? then r == Success(false) && errorPosition == spec.error.errorOffset
    else r == Failure(spec.error)
  }

  /** `s` is `a` followed by `b` from `index` on. */
  lemma SplitAt(s: string, index: nat, pos: nat)
    requires index <= pos < |s|
    ensures s[index..] == s[index..pos] + [s[pos]] + s[pos + 1..]
  {
  }

  lemma AllIdentifiersAppend(a: seq<string>, b: seq<string>)
    requires AllIdentifiers(a) && AllIdentifiers(b)
    ensures AllIdentifiers(a + b)
  {
  }

  /** What the metadata state accepts is a dot-joined list of identifiers. */
  lemma {:induction false} MetaFromText(s: string, index: nat)
    requires index <= |s| && MetaFrom(s, index).Success?
    ensures var m := MetaFrom(s, index).value.meta;
      |m| > 0 && AllIdentifiers(m) && Join(m, ".") == s[index..]
    decreases |s| - index
  {
    var pos := IdentifierEnd(s, index);
    var part := s[index..pos];
    assert IsIdentifier(part);
    if pos < |s| {
      MetaFromText(s, pos + 1);
      SplitAt(s, index, pos);
      var rest := MetaFrom(s, pos + 1).value.meta;
      assert ([part] + rest)[1..] == rest;
    }
  }

  /** What the pre-release state accepts is a dot-joined list of identifiers, then the metadata. */
  lemma {:induction false} ReleaseFromText(s: string, index: nat)
    requires index <= |s| && ReleaseFrom(s, index).Success?
    ensures var t := ReleaseFrom(s, index).value;
      |t.pre| > 0 && AllIdentifiers(t.pre) && AllIdentifiers(t.meta)
      && Join(t.pre, ".") + MetaSuffix(t.meta) == s[index..]
    decreases |s| - index, 1
  {
    var pos := IdentifierEnd(s, index);
    var part := s[index..pos];
    assert IsIdentifier(part);
    if pos == |s| {
      assert ReleaseFrom(s, index).value == Tail([], [part], []);
      assert part + "" == part;
    } else if s[pos] == '.' {
      ReleaseFromTextDot(s, index, pos);
    } else {
      ReleaseFromTextPlus(s, index, pos);
    }
  }

  /** Joining one more identifier in front of a rendered list. */
  lemma JoinCons(part: string, rest: seq<string>, suffix: string, text: string)
    requires |rest| > 0 && Join(rest, ".") + suffix == text
    ensures Join([part] + rest, ".") + suffix == part + "." + text
  {
    assert ([part] + rest)[1..] == rest;
    AppendTwice(part + ".", Join(rest, "."), suffix);
  }

  /** The case of `ReleaseFromText` where another pre-release identifier follows. */
  lemma {:induction false} ReleaseFromTextDot(s: string, index: nat, pos: nat)
    requires index < pos < |s| && pos == IdentifierEnd(s, index) && s[pos] == '.'
    requires ReleaseFrom(s, index).Success?
    ensures var t := ReleaseFrom(s, index).value;
      |t.pre| > 0 && AllIdentifiers(t.pre) && AllIdentifiers(t.meta)
      && Join(t.pre, ".") + MetaSuffix(t.meta) == s[index..]
    decreases |s| - index, 0
  {
    ReleaseFromDotStep(s, index, pos);
    ReleaseFromText(s, pos + 1);
    SplitAt(s, index, pos);
    ReleaseTextCons(s[index..pos], ReleaseFrom(s, pos + 1), s[pos + 1..], s[index..]);
  }

  /** One more pre-release identifier in front of what a later pre-release state accepted. */
  lemma ReleaseTextCons(part: string, later: Result<Tail, ParseError>, text: string, whole: string)
    requires IsIdentifier(part) && later.Success?
    requires |later.value.pre| > 0 && AllIdentifiers(later.value.pre) && AllIdentifiers(later.value.meta)
    requires Join(later.value.pre, ".") + MetaSuffix(later.value.meta) == text
    requires whole == part + "." + text
    ensures var t := Then(Tail([], [part], []), later).value;
      |t.pre| > 0 && AllIdentifiers(t.pre) && AllIdentifiers(t.meta)
      && Join(t.pre, ".") + MetaSuffix(t.meta) == whole
  {
    var rest := later.value;
    AppendNil(rest.meta);
    AllIdentifiersAppend([part], rest.pre);
    JoinCons(part, rest.pre, MetaSuffix(rest.meta), text);
  }

  /** The case of `ReleaseFromText` where the metadata follows. */
  lemma ReleaseFromTextPlus(s: string, index: nat, pos: nat)
    requires index < pos < |s| && pos == IdentifierEnd(s, index) && s[pos] == '+'
    requires ReleaseFrom(s, index).Success?
    ensures var t := ReleaseFrom(s, index).value;
      |t.pre| > 0 && AllIdentifiers(t.pre) && AllIdentifiers(t.meta)
      && Join(t.pre, ".") + MetaSuffix(t.meta) == s[index..]
  {
    ReleaseFromPlusStep(s, index, pos);
    MetaFromText(s, pos + 1);
    SplitAt(s, index, pos);
    ReleaseTextPlusCons(s[index..pos], MetaFrom(s, pos + 1), s[pos + 1..], s[index..]);
  }

  /** One pre-release identifier and `+` in front of what a metadata state accepted. */
  lemma ReleaseTextPlusCons(part: string, later: Result<Tail, ParseError>, text: string, whole: string)
    requires IsIdentifier(part) && later.Success? && later.value.pre == []
    requires |later.value.meta| > 0 && AllIdentifiers(later.value.meta) && Join(later.value.meta, ".") == text
    requires whole == part + "+" + text
    ensures var t := Then(Tail([], [part], []), later).value;
      |t.pre| > 0 && AllIdentifiers(t.pre) && AllIdentifiers(t.meta)
      && Join(t.pre, ".") + MetaSuffix(t.meta) == whole
  {
    var meta := later.value.meta;
    AppendTwice([part], [], []);
    AppendTwice([], [], meta);
    AppendTwice(part, "+", text);
  }

  /** The corrected number states accept exactly the decimal `Integer.toString` writes. */
  lemma NumberAtText(s: string, index: nat)
    requires index <= |s| && NumberAt(s, index, true).Success?
    ensures var (pos, n) := NumberAt(s, index, true).value;
      NatToString(n) == s[index..pos]
  {
    var (pos, n) := NumberAt(s, index, true).value;
    var d := s[index..pos];
    assert AllDigits(d);
    CanonicalDigits(d);
  }

  /** The identifiers of a tail as `toString` writes them after the patch number. */
  function SuffixText(t: Tail): string
  {
    PreSuffix(t.pre) + MetaSuffix(t.meta)
  }

  /** What the corrected patch state accepts is a decimal number, then the identifiers. */
  lemma PatchFromText(s: string, index: nat)
    requires index <= |s| && PatchFrom(s, index, true).Success?
    ensures var t := PatchFrom(s, index, true).value;
      AllIdentifiers(t.pre) && AllIdentifiers(t.meta)
      && NatToString(t.numbers[0]) + SuffixText(t) == s[index..]
  {
    NumberAtText(s, index);
    var (pos, n) := NumberAt(s, index, true).value;
    if pos == |s| {
      assert PatchFrom(s, index, true).value == Tail([n], [], []);
    } else if s[pos] == '+' {
      PatchFromTextPlus(s, index, pos, n);
    } else {
      PatchFromTextMinus(s, index, pos, n);
    }
  }

  lemma PatchFromTextPlus(s: string, index: nat, pos: nat, n: int)
    requires index <= pos < |s| && NumberAt(s, index, true) == Success((pos, n)) && s[pos] == '+'
    requires NatToString(n) == s[index..pos]
    requires PatchFrom(s, index, true).Success?
    ensures var t := PatchFrom(s, index, true).value;
      AllIdentifiers(t.pre) && AllIdentifiers(t.meta)
      && NatToString(t.numbers[0]) + SuffixText(t) == s[index..]
  {
    PatchFromPlusStep(s, index, pos, n);
    MetaFromText(s, pos + 1);
    SplitAt(s, index, pos);
    PatchTextPlusCons(n, MetaFrom(s, pos + 1), s[pos + 1..], s[index..]);
  }

  /** A patch number and `+` in front of what a metadata state accepted. */
  lemma PatchTextPlusCons(n: int, later: Result<Tail, ParseError>, text: string, whole: string)
    requires n >= 0 && later.Success? && later.value.numbers == [] && later.value.pre == []
    requires AllIdentifiers(later.value.meta) && |later.value.meta| > 0
    requires Join(later.value.meta, ".") == text
    requires whole == NatToString(n) + "+" + text
    ensures var t := Then(Tail([n], [], []), later).value;
      AllIdentifiers(t.pre) && AllIdentifiers(t.meta)
      && NatToString(t.numbers[0]) + SuffixText(t) == whole
  {
    var meta := later.value.meta;
    AppendTwice([], [], meta);
    AppendTwice([n], [], []);
    MarkedSuffix(NatToString(n), "+", "", Join(meta, "."), MetaSuffix(meta), text);
  }

  /** `text` behind a one-character marker, after a number, with `head` before the marker's suffix. */
  lemma MarkedSuffix(number: string, marker: string, head: string, body: string, suffix: string, text: string)
    requires body == text && suffix == marker + body && head == ""
    ensures number + (head + suffix) == number + marker + text
  {
    assert head + suffix == suffix;
    AppendTwice(number, marker, body);
  }

  lemma PatchFromTextMinus(s: string, index: nat, pos: nat, n: int)
    requires index <= pos < |s| && NumberAt(s, index, true) == Success((pos, n)) && s[pos] == '-'
    requires NatToString(n) == s[index..pos]
    requires PatchFrom(s, index, true).Success?
    ensures var t := PatchFrom(s, index, true).value;
      AllIdentifiers(t.pre) && AllIdentifiers(t.meta)
      && NatToString(t.numbers[0]) + SuffixText(t) == s[index..]
  {
    PatchFromMinusStep(s, index, pos, n);
    ReleaseFromText(s, pos + 1);
    SplitAt(s, index, pos);
    PatchTextMinusCons(n, ReleaseFrom(s, pos + 1), s[pos + 1..], s[index..]);
  }

  /** A patch number and `-` in front of what a pre-release state accepted. */
  lemma PatchTextMinusCons(n: int, later: Result<Tail, ParseError>, text: string, whole: string)
    requires n >= 0 && later.Success? && later.value.numbers == []
    requires AllIdentifiers(later.value.pre) && AllIdentifiers(later.value.meta) && |later.value.pre| > 0
    requires Join(later.value.pre, ".") + MetaSuffix(later.value.meta) == text
    requires whole == NatToString(n) + "-" + text
    ensures var t := Then(Tail([n], [], []), later).value;
      AllIdentifiers(t.pre) && AllIdentifiers(t.meta)
      && NatToString(t.numbers[0]) + SuffixText(t) == whole
  {
    var rest := later.value;
    AppendTwice([], [], rest.pre);
    AppendTwice([], [], rest.meta);
    AppendTwice([n], [], []);
    AppendTwice("-", Join(rest.pre, "."), MetaSuffix(rest.meta));
    AppendTwice(NatToString(n), "-", Join(rest.pre, ".") + MetaSuffix(rest.meta));
  }

  /** One more number in front of a rendered tail. */
  lemma NumberCons(number: string, first: string, suffix: string, text: string)
    requires first + suffix == text
    ensures number + "." + first + suffix == number + "." + text
  {
    AppendTwice(number + ".", first, suffix);
  }

  /** What the corrected minor state accepts is two dot-separated numbers, then the identifiers. */
  lemma MinorFromText(s: string, index: nat)
    requires index <= |s| && MinorFrom(s, index, true).Success?
    ensures var t := MinorFrom(s, index, true).value;
      AllIdentifiers(t.pre) && AllIdentifiers(t.meta)
      && NatToString(t.numbers[0]) + "." + NatToString(t.numbers[1]) + SuffixText(t) == s[index..]
  {
    NumberAtText(s, index);
    var (pos, n) := NumberAt(s, index, true).value;
    MinorFromStep(s, index, true, pos, n, PatchFrom(s, pos + 1, true));
    SplitAt(s, index, pos);
    MinorThenText(s, pos, n, s[index..]);
  }

  lemma MinorThenText(s: string, pos: nat, n: nat, whole: string)
    requires pos < |s| && whole == NatToString(n) + "." + s[pos + 1..]
    requires PatchFrom(s, pos + 1, true).Success?
    ensures var t := Then(Tail([n], [], []), PatchFrom(s, pos + 1, true)).value;
      AllIdentifiers(t.pre) && AllIdentifiers(t.meta)
      && NatToString(t.numbers[0]) + "." + NatToString(t.numbers[1]) + SuffixText(t) == whole
  {
    PatchFromText(s, pos + 1);
    MinorTextCons(n, PatchFrom(s, pos + 1, true), s[pos + 1..], whole);
  }

  /** The minor number in front of what the patch state accepted. */
  lemma MinorTextCons(n: nat, later: Result<Tail, ParseError>, text: string, whole: string)
    requires later.Success? && |later.value.numbers| == 1 && 0 <= later.value.numbers[0]
    requires AllIdentifiers(later.value.pre) && AllIdentifiers(later.value.meta)
    requires NatToString(later.value.numbers[0]) + SuffixText(later.value) == text
    requires whole == NatToString(n) + "." + text
    ensures var t := Then(Tail([n], [], []), later).value;
      AllIdentifiers(t.pre) && AllIdentifiers(t.meta)
      && NatToString(t.numbers[0]) + "." + NatToString(t.numbers[1]) + SuffixText(t) == whole
  {
    var rest := later.value;
    AppendNil(rest.pre);
    AppendNil(rest.meta);
    NumbersThen(n, rest.numbers);
    NumberCons(NatToString(n), NatToString(rest.numbers[0]), SuffixText(rest), text);
  }

  /** Two more numbers in front of a rendered tail. */
  lemma NumbersCons(number: string, first: string, second: string, suffix: string, text: string)
    requires first + "." + second + suffix == text
    ensures number + "." + first + "." + second + suffix == number + "." + text
  {
    AppendTwice(number + ".", first, ".");
    AppendTwice(number + ".", first + ".", second);
    AppendTwice(number + ".", first + "." + second, suffix);
  }

  /** What the corrected major state accepts is `toString` of three numbers and the identifiers. */
  lemma MajorFromText(s: string)
    requires MajorFrom(s, true).Success?
    ensures var t := MajorFrom(s, true).value;
      AllIdentifiers(t.pre) && AllIdentifiers(t.meta)
      && NatToString(t.numbers[0]) + "." + NatToString(t.numbers[1]) + "."
         + NatToString(t.numbers[2]) + SuffixText(t) == s
  {
    NumberAtText(s, 0);
    var (pos, n) := NumberAt(s, 0, true).value;
    MajorFromStep(s, true, pos, n, MinorFrom(s, pos + 1, true));
    SplitAt(s, 0, pos);
    assert s[0..] == s;
    MajorThenText(s, pos, n);
  }

  lemma MajorThenText(s: string, pos: nat, n: nat)
    requires pos < |s| && s == NatToString(n) + "." + s[pos + 1..]
    requires MinorFrom(s, pos + 1, true).Success?
    ensures var t := Then(Tail([n], [], []), MinorFrom(s, pos + 1, true)).value;
      AllIdentifiers(t.pre) && AllIdentifiers(t.meta)
      && NatToString(t.numbers[0]) + "." + NatToString(t.numbers[1]) + "."
         + NatToString(t.numbers[2]) + SuffixText(t) == s
  {
    MinorFromText(s, pos + 1);
    MajorTextCons(n, MinorFrom(s, pos + 1, true), s[pos + 1..], s);
  }

  /** The major number in front of what the minor state accepted. */
  lemma MajorTextCons(n: nat, later: Result<Tail, ParseError>, text: string, whole: string)
    requires later.Success? && |later.value.numbers| == 2
    requires 0 <= later.value.numbers[0] && 0 <= later.value.numbers[1]
    requires AllIdentifiers(later.value.pre) && AllIdentifiers(later.value.meta)
    requires NatToString(later.value.numbers[0]) + "." + NatToString(later.value.numbers[1])
             + SuffixText(later.value) == text
    requires whole == NatToString(n) + "." + text
    ensures var t := Then(Tail([n], [], []), later).value;
      AllIdentifiers(t.pre) && AllIdentifiers(t.meta)
      && NatToString(t.numbers[0]) + "." + NatToString(t.numbers[1]) + "."
         + NatToString(t.numbers[2]) + SuffixText(t) == whole
  {
    var rest := later.value;
    AppendNil(rest.pre);
    AppendNil(rest.meta);
    NumbersThen(n, rest.numbers);
    NumbersCons(NatToString(n), NatToString(rest.numbers[0]), NatToString(rest.numbers[1]),
      SuffixText(rest), text);
  }

  /** Everything the corrected parser accepts is a well-formed version written as `toString` writes it. */
  lemma ParseCorrectedRenders(s: string)
    requires ParseCorrected(s).Success?
    ensures WellFormed(ParseCorrected(s).value) && Render(ParseCorrected(s).value) == s
  {
    ParseFollows(s, true);
    MajorFromText(s);
    var t := MajorFrom(s, true).value;
    var v := ParseCorrected(s).value;
    assert v == Version(t.meta, t.numbers[0], t.numbers[1], t.numbers[2], t.pre);
    var prefix := IntToString(v.major) + "." + IntToString(v.minor) + "." + IntToString(v.patch);
    AppendTwice(prefix, PreSuffix(v.preRelease), MetaSuffix(v.buildMeta));
  }
}
