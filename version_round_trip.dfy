/**
 * The other half of the round trip between the corrected version parser
 * and `toString`: a well-formed version, written as `toString` writes it,
 * is read back by the corrected parser as that same version.  Together
 * with `VersionGrammar.ParseCorrectedRenders` this makes the corrected
 * parser and `Render` inverse bijections between well-formed versions and
 * the texts the parser accepts.
 */
module VersionRoundTrip {
  import opened Wrappers
  import opened JavaText
  import opened Version
  import opened VersionGrammar
  import opened VersionScan

  /** Dot-joined identifiers to the end of the input are read back by `stateMeta`. */
  lemma {:induction false} MetaFromJoin(s: string, index: nat, meta: seq<string>)
    requires index <= |s| && |meta| > 0 && AllIdentifiers(meta) && s[index..] == Join(meta, ".")
    ensures MetaFrom(s, index) == Success(Tail([], [], meta))
    decreases |meta|
  {
    var part := meta[0];
    assert IsIdentifier(part);
    if |meta| == 1 {
      IdentifierLast(s, index, part);
      assert meta == [part];
    } else {
      var later := Join(meta[1..], ".");
      JoinFirst(meta, "");
      var pos := index + |part|;
      IdentifierThen(s, index, part, '.', later, pos);
      MetaFromJoin(s, pos + 1, meta[1..]);
      MetaFromStep(s, index, pos);
      ThenMetaIdentifier(part, meta);
    }
  }

  /** One identifier, then `+` and metadata, read back by `stateRelease`. */
  lemma ReleaseFromPlus(s: string, index: nat, part: string, meta: seq<string>)
    requires index <= |s| && IsIdentifier(part) && |meta| > 0 && AllIdentifiers(meta)
    requires s[index..] == part + (['+'] + Join(meta, "."))
    ensures ReleaseFrom(s, index) == Success(Tail([], [part], meta))
  {
    var pos := index + |part|;
    var t := Tail([], [], meta);
    IdentifierThen(s, index, part, '+', Join(meta, "."), pos);
    MetaFromJoin(s, pos + 1, meta);
    ReleaseFromPlusStep(s, index, pos);
    ThenIdentifier(part, [part], meta);
  }

  /** One last identifier, read back by `stateRelease`. */
  lemma ReleaseFromLast(s: string, index: nat, part: string)
    requires index <= |s| && IsIdentifier(part) && s[index..] == part
    ensures ReleaseFrom(s, index) == Success(Tail([], [part], []))
  {
    IdentifierLast(s, index, part);
  }

  /** The first of several dot-joined identifiers: where the identifier scan stops and what follows the dot. */
  lemma ReleaseDotParts(s: string, index: nat, pre: seq<string>, suffix: string, pos: nat)
    requires index <= |s| && |pre| > 1 && IsIdentifier(pre[0])
    requires s[index..] == Join(pre, ".") + suffix && pos == index + |pre[0]|
    ensures index < pos < |s| && IdentifierEnd(s, index) == pos && s[index..pos] == pre[0]
    ensures s[pos] == '.' && s[pos + 1..] == Join(pre[1..], ".") + suffix
  {
    JoinFirst(pre, suffix);
    IdentifierThen(s, index, pre[0], '.', Join(pre[1..], ".") + suffix, pos);
  }

  /** `stateRelease` on an identifier that `.` follows and a later pre-release state that succeeds. */
  lemma ReleaseJoinDot(s: string, index: nat, pos: nat, pre: seq<string>, meta: seq<string>)
    requires index < pos < |s| && IdentifierEnd(s, index) == pos && s[pos] == '.'
    requires |pre| > 1 && s[index..pos] == pre[0]
    requires ReleaseFrom(s, pos + 1) == Success(Tail([], pre[1..], meta))
    ensures ReleaseFrom(s, index) == Success(Tail([], pre, meta))
  {
    ReleaseFromDotStep(s, index, pos);
    ThenIdentifier(pre[0], pre, meta);
  }

  /** A single identifier, then optionally `+` and metadata, read back by `stateRelease`. */
  lemma ReleaseJoinOne(s: string, index: nat, pre: seq<string>, meta: seq<string>)
    requires index <= |s| && |pre| == 1 && AllIdentifiers(pre) && AllIdentifiers(meta)
    requires s[index..] == Join(pre, ".") + MetaSuffix(meta)
    ensures ReleaseFrom(s, index) == Success(Tail([], pre, meta))
  {
    var part := pre[0];
    assert IsIdentifier(part) && pre == [part];
    if |meta| > 0 {
      ReleaseFromPlus(s, index, part, meta);
    } else {
      ReleaseFromLast(s, index, part);
    }
  }

  /** Dot-joined identifiers, then optionally `+` and metadata, are read back by `stateRelease`. */
  lemma {:induction false} ReleaseFromJoin(s: string, index: nat, pre: seq<string>, meta: seq<string>)
    requires index <= |s| && |pre| > 0 && AllIdentifiers(pre) && AllIdentifiers(meta)
    requires s[index..] == Join(pre, ".") + MetaSuffix(meta)
    ensures ReleaseFrom(s, index) == Success(Tail([], pre, meta))
    decreases |pre|
  {
    if |pre| > 1 {
      var pos := index + |pre[0]|;
      ReleaseDotParts(s, index, pre, MetaSuffix(meta), pos);
      ReleaseFromJoin(s, pos + 1, pre[1..], meta);
      ReleaseJoinDot(s, index, pos, pre, meta);
    } else {
      ReleaseJoinOne(s, index, pre, meta);
    }
  }

  /** `statePatch` on a number that `-` follows and a pre-release state that succeeds. */
  lemma PatchFromDashThen(s: string, index: nat, pos: nat, n: nat, pre: seq<string>, meta: seq<string>)
    requires index <= |s| && pos < |s| && NumberAt(s, index, true) == Success((pos, n)) && s[pos] == '-'
    requires ReleaseFrom(s, pos + 1) == Success(Tail([], pre, meta))
    ensures PatchFrom(s, index, true) == Success(Tail([n], pre, meta))
  {
    PatchFromMinusStep(s, index, pos, n);
    ThenPatch(n, pre, meta);
  }

  /** Identifiers after a `-` at `pos`, read back by `stateRelease`. */
  lemma ReleaseAfterDash(s: string, pos: nat, pre: seq<string>, meta: seq<string>)
    requires pos < |s| && |pre| > 0 && AllIdentifiers(pre) && AllIdentifiers(meta)
    requires s[pos + 1..] == Join(pre, ".") + MetaSuffix(meta)
    ensures ReleaseFrom(s, pos + 1) == Success(Tail([], pre, meta))
  {
    ReleaseFromJoin(s, pos + 1, pre, meta);
  }

  /** The patch number, then `-` and the identifiers, read back by `statePatch`. */
  lemma PatchFromDash(s: string, index: nat, n: nat, dn: string, pre: seq<string>, meta: seq<string>)
    requires index <= |s| && Numeral(dn, n) && |pre| > 0 && AllIdentifiers(pre) && AllIdentifiers(meta)
    requires s[index..] == dn + (['-'] + (Join(pre, ".") + MetaSuffix(meta)))
    ensures PatchFrom(s, index, true) == Success(Tail([n], pre, meta))
  {
    var pos := index + |dn|;
    NumberThen(s, index, n, dn, '-', Join(pre, ".") + MetaSuffix(meta), pos);
    ReleaseAfterDash(s, pos, pre, meta);
    PatchFromDashThen(s, index, pos, n, pre, meta);
  }

  /** Metadata after a `+` at `pos`, read back by `stateMeta`. */
  lemma MetaAfterPlus(s: string, pos: nat, meta: seq<string>)
    requires pos < |s| && |meta| > 0 && AllIdentifiers(meta) && s[pos + 1..] == Join(meta, ".")
    ensures MetaFrom(s, pos + 1) == Success(Tail([], [], meta))
  {
    MetaFromJoin(s, pos + 1, meta);
  }

  /** `statePatch` on a number that `+` follows and a metadata state that succeeds. */
  lemma PatchFromPlusThen(s: string, index: nat, pos: nat, n: nat, meta: seq<string>)
    requires index <= |s| && pos < |s| && NumberAt(s, index, true) == Success((pos, n)) && s[pos] == '+'
    requires MetaFrom(s, pos + 1) == Success(Tail([], [], meta))
    ensures PatchFrom(s, index, true) == Success(Tail([n], [], meta))
  {
    PatchFromPlusStep(s, index, pos, n);
    ThenPatch(n, [], meta);
  }

  /** The patch number, then `+` and metadata, read back by `statePatch`. */
  lemma PatchFromPlus(s: string, index: nat, n: nat, dn: string, meta: seq<string>)
    requires index <= |s| && Numeral(dn, n) && |meta| > 0 && AllIdentifiers(meta)
    requires s[index..] == dn + (['+'] + Join(meta, "."))
    ensures PatchFrom(s, index, true) == Success(Tail([n], [], meta))
  {
    var pos := index + |dn|;
    NumberThen(s, index, n, dn, '+', Join(meta, "."), pos);
    MetaAfterPlus(s, pos, meta);
    PatchFromPlusThen(s, index, pos, n, meta);
  }

  /** The patch number as the last thing in the input, read back by `statePatch`. */
  lemma PatchFromLast(s: string, index: nat, n: nat, dn: string)
    requires index <= |s| && Numeral(dn, n) && s[index..] == dn
    ensures PatchFrom(s, index, true) == Success(Tail([n], [], []))
  {
    assert s[index..] == dn + "";
    NumberAtRendered(s, index, n, dn, "");
    Split(s, index, dn, "");
  }

  /** The three shapes of the text after the patch number. */
  lemma SuffixShapes(pre: seq<string>, meta: seq<string>)
    ensures |pre| > 0 ==> PreSuffix(pre) + MetaSuffix(meta) == ['-'] + (Join(pre, ".") + MetaSuffix(meta))
    ensures |pre| == 0 && |meta| > 0 ==> PreSuffix(pre) + MetaSuffix(meta) == ['+'] + Join(meta, ".")
    ensures |pre| == 0 && |meta| == 0 ==> PreSuffix(pre) + MetaSuffix(meta) == ""
  {
  }

  /** The patch number and the identifiers, as `toString` writes them, are read back by `statePatch`. */
  lemma PatchFromRendered(s: string, index: nat, n: nat, dn: string, pre: seq<string>, meta: seq<string>)
    requires index <= |s| && Numeral(dn, n) && AllIdentifiers(pre) && AllIdentifiers(meta)
    requires s[index..] == dn + (PreSuffix(pre) + MetaSuffix(meta))
    ensures PatchFrom(s, index, true) == Success(Tail([n], pre, meta))
  {
    SuffixShapes(pre, meta);
    if |pre| > 0 {
      PatchFromDash(s, index, n, dn, pre, meta);
    } else if |meta| > 0 {
      PatchFromPlus(s, index, n, dn, meta);
    } else {
      PatchFromLast(s, index, n, dn);
    }
  }

  /** The minor number, then `.`: where the numeric state stops and what `statePatch` reads after it. */
  lemma MinorParts(s: string, index: nat, m: nat, dm: string, n: nat, dn: string, pre: seq<string>, meta: seq<string>, pos: nat)
    requires index <= |s| && Numeral(dm, m) && Numeral(dn, n) && AllIdentifiers(pre) && AllIdentifiers(meta)
    requires s[index..] == dm + (['.'] + (dn + (PreSuffix(pre) + MetaSuffix(meta))))
    requires pos == index + |dm|
    ensures pos < |s| && NumberAt(s, index, true) == Success((pos, m)) && s[pos] == '.'
    ensures PatchFrom(s, pos + 1, true) == Success(Tail([n], pre, meta))
  {
    NumberThen(s, index, m, dm, '.', dn + (PreSuffix(pre) + MetaSuffix(meta)), pos);
    PatchFromRendered(s, pos + 1, n, dn, pre, meta);
  }

  /** The minor and patch numbers and the identifiers are read back by `stateMinor`. */
  lemma MinorFromRendered(s: string, index: nat, m: nat, dm: string, n: nat, dn: string, pre: seq<string>, meta: seq<string>)
    requires index <= |s| && Numeral(dm, m) && Numeral(dn, n) && AllIdentifiers(pre) && AllIdentifiers(meta)
    requires s[index..] == dm + (['.'] + (dn + (PreSuffix(pre) + MetaSuffix(meta))))
    ensures MinorFrom(s, index, true) == Success(Tail([m, n], pre, meta))
  {
    var pos := index + |dm|;
    MinorParts(s, index, m, dm, n, dn, pre, meta, pos);
    MinorFromStep(s, index, true, pos, m, Success(Tail([n], pre, meta)));
    ThenMinor(m, n, pre, meta);
  }

  /** All three numbers and the identifiers are read back by `stateMajor`. */
  lemma MajorFromRendered(s: string, k: nat, dk: string, m: nat, dm: string, n: nat, dn: string, pre: seq<string>, meta: seq<string>)
    requires Numeral(dk, k) && Numeral(dm, m) && Numeral(dn, n) && AllIdentifiers(pre) && AllIdentifiers(meta)
    requires s == dk + (['.'] + (dm + (['.'] + (dn + (PreSuffix(pre) + MetaSuffix(meta))))))
    ensures MajorFrom(s, true) == Success(Tail([k, m, n], pre, meta))
  {
    var rest := dm + (['.'] + (dn + (PreSuffix(pre) + MetaSuffix(meta))));
    assert s[0..] == s;
    var pos := |dk|;
    NumberThen(s, 0, k, dk, '.', rest, pos);
    var t := Tail([m, n], pre, meta);
    MinorFromRendered(s, pos + 1, m, dm, n, dn, pre, meta);
    MajorFromStep(s, true, pos, k, Success(t));
    ThenMajor(k, m, n, pre, meta);
  }

  /** `toString`'s text, with its concatenations grouped from the right. */
  lemma RenderGrouped(v: Version)
    requires WellFormed(v)
    ensures Render(v) == NatToString(v.major) + (['.'] + (NatToString(v.minor) + (['.'] + (NatToString(v.patch)
      + (PreSuffix(v.preRelease) + MetaSuffix(v.buildMeta))))))
  {
    var a, b, c := NatToString(v.major), NatToString(v.minor), NatToString(v.patch);
    var tail := PreSuffix(v.preRelease) + MetaSuffix(v.buildMeta);
    assert Render(v) == a + "." + b + "." + c + PreSuffix(v.preRelease) + MetaSuffix(v.buildMeta);
    assert a + "." + b + "." + c + PreSuffix(v.preRelease) + MetaSuffix(v.buildMeta) == a + "." + b + "." + c + tail;
    assert a + "." + b + "." + c + tail == a + (['.'] + (b + (['.'] + (c + tail))));
  }

  /** The corrected parser reads back every well-formed version from its `toString`. */
  lemma RenderParsesBack(v: Version)
    requires WellFormed(v)
    ensures ParseCorrected(Render(v)) == Success(v)
  {
    var s := Render(v);
    RenderGrouped(v);
    NumeralOf(v.major);
    NumeralOf(v.minor);
    NumeralOf(v.patch);
    MajorFromRendered(s, v.major, NatToString(v.major), v.minor, NatToString(v.minor), v.patch, NatToString(v.patch),
      v.preRelease, v.buildMeta);
    ParseFollows(s, true);
  }

  /**
   * Hence the corrected parser is injective on the texts it accepts, and
   * `toString` is injective on well-formed versions.
   */
  lemma RenderInjective(v: Version, w: Version)
    requires WellFormed(v) && WellFormed(w) && Render(v) == Render(w)
    ensures v == w
  {
    RenderParsesBack(v);
    RenderParsesBack(w);
  }
}
