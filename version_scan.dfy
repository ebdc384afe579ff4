/**
 * Facts about how the corrected numeric and identifier scans of the
 * version parser read text laid out as `toString` lays it out, and what
 * `Then` assembles from the states' results.
 */
module VersionScan {
  import opened Wrappers
  import opened JavaText
  import opened Version
  import opened VersionGrammar

  /** The rest of the input from `index`, known as `a` then `b`, taken apart. */
  lemma Split(s: string, index: nat, a: string, b: string)
    requires index <= |s| && s[index..] == a + b
    ensures index + |a| <= |s| && s[index..index + |a|] == a && s[index + |a|..] == b
    ensures |b| > 0 ==> s[index + |a|] == b[0]
  {
    assert s[index..][..|a|] == a;
    assert s[index..][|a|..] == b;
  }

  /** The digit scan stops right after a run of digits that a non-digit or the end follows. */
  lemma {:induction false} DigitsEndAfter(s: string, index: nat, d: string)
    requires index + |d| <= |s| && s[index..index + |d|] == d && AllDigits(d)
    requires index + |d| == |s| || !IsAsciiDigit(s[index + |d|])
    ensures DigitsEnd(s, index) == index + |d|
    decreases |d|
  {
    if |d| > 0 {
      assert s[index] == d[0];
      assert s[index + 1..index + 1 + |d[1..]|] == d[1..];
      DigitsEndAfter(s, index + 1, d[1..]);
    }
  }

  /** The identifier scan stops right after an identifier that a non-identifier character or the end follows. */
  lemma {:induction false} IdentifierEndAfter(s: string, index: nat, p: string)
    requires index + |p| <= |s| && s[index..index + |p|] == p
    requires forall k :: 0 <= k < |p| ==> IsIdentifierChar(p[k])
    requires index + |p| == |s| || !IsIdentifierChar(s[index + |p|])
    ensures IdentifierEnd(s, index) == index + |p|
    decreases |p|
  {
    if |p| > 0 {
      assert s[index] == p[0];
      assert s[index + 1..index + 1 + |p[1..]|] == p[1..];
      IdentifierEndAfter(s, index + 1, p[1..]);
    }
  }

  /** `d` is how `Integer.toString` writes `n`, a value that fits in an int: digits, no leading zero. */
  ghost predicate Numeral(d: string, n: nat)
  {
    && |d| > 0 && AllDigits(d) && (|d| > 1 ==> d[0] != '0')
    && DigitsValue(d) == n && n <= INT_MAX
  }

  lemma NumeralOf(n: nat)
    requires n <= INT_MAX
    ensures Numeral(NatToString(n), n)
  {
    NatToStringValue(n);
  }

  /** A number as `Integer.toString` writes it is read back by the corrected numeric states. */
  lemma NumberAtRendered(s: string, index: nat, n: nat, dn: string, rest: string)
    requires Numeral(dn, n) && index <= |s| && s[index..] == dn + rest
    requires rest == "" || !IsAsciiDigit(rest[0])
    ensures NumberAt(s, index, true) == Success((index + |dn|, n))
  {
    Split(s, index, dn, rest);
    DigitsEndAfter(s, index, dn);
  }

  /** The input from `index` is the number `n` as `toString` writes it, then `marker` at `pos`, then `later`. */
  ghost predicate NumberFollowed(s: string, index: nat, n: nat, dn: string, marker: char, later: string, pos: nat)
  {
    && Numeral(dn, n) && index <= |s| && !IsAsciiDigit(marker)
    && s[index..] == dn + ([marker] + later) && pos == index + |dn|
  }

  /** A number that a marker follows: the numeric state reads it, and the text after the marker is left. */
  lemma NumberThen(s: string, index: nat, n: nat, dn: string, marker: char, later: string, pos: nat)
    requires NumberFollowed(s, index, n, dn, marker, later, pos)
    ensures pos < |s| && NumberAt(s, index, true) == Success((pos, n))
    ensures s[pos] == marker && s[pos + 1..] == later
  {
    NumberAtRendered(s, index, n, dn, [marker] + later);
    Split(s, index, dn, [marker] + later);
    Split(s, index + |dn|, [marker], later);
  }

  /** An identifier that a marker follows: the identifier scan stops at the marker. */
  lemma IdentifierThen(s: string, index: nat, part: string, marker: char, later: string, pos: nat)
    requires index <= |s| && IsIdentifier(part) && !IsIdentifierChar(marker)
    requires s[index..] == part + ([marker] + later) && pos == index + |part|
    ensures index < pos < |s| && IdentifierEnd(s, index) == pos && s[index..pos] == part
    ensures s[pos] == marker && s[pos + 1..] == later
  {
    Split(s, index, part, [marker] + later);
    IdentifierEndAfter(s, index, part);
    Split(s, index + |part|, [marker], later);
  }

  /** An identifier at the end of the input: the identifier scan stops at the end. */
  lemma IdentifierLast(s: string, index: nat, part: string)
    requires index <= |s| && IsIdentifier(part) && s[index..] == part
    ensures index < |s| && IdentifierEnd(s, index) == |s| && s[index..|s|] == part
  {
    Split(s, index, part, "");
    IdentifierEndAfter(s, index, part);
  }

  /** The first identifier of a dot-joined list, and the rest. */
  lemma JoinFirst(parts: seq<string>, suffix: string)
    requires |parts| > 1
    ensures Join(parts, ".") + suffix == parts[0] + (['.'] + (Join(parts[1..], ".") + suffix))
  {
  }

  // What `Then` yields when the state handed over succeeds, one lemma per
  // shape, so that the list equalities are settled away from the text.

  lemma ThenIdentifier(part: string, pre: seq<string>, meta: seq<string>)
    requires |pre| > 0 && pre[0] == part
    ensures Then(Tail([], [part], []), Success(Tail([], pre[1..], meta))) == Success(Tail([], pre, meta))
  {
    assert [part] + pre[1..] == pre;
    assert [] + meta == meta;
    assert Then(Tail([], [part], []), Success(Tail([], pre[1..], meta))).value == Tail([] + [], [part] + pre[1..], [] + meta);
  }

  lemma ThenMetaIdentifier(part: string, meta: seq<string>)
    requires |meta| > 0 && meta[0] == part
    ensures Then(Tail([], [], [part]), Success(Tail([], [], meta[1..]))) == Success(Tail([], [], meta))
  {
    assert [part] + meta[1..] == meta;
    assert Then(Tail([], [], [part]), Success(Tail([], [], meta[1..]))).value == Tail([] + [], [] + [], [part] + meta[1..]);
  }

  lemma ThenPatch(n: int, pre: seq<string>, meta: seq<string>)
    ensures Then(Tail([n], [], []), Success(Tail([], pre, meta))) == Success(Tail([n], pre, meta))
  {
    assert [n] + [] == [n];
    assert [] + pre == pre && [] + meta == meta;
  }

  lemma ThenMinor(m: int, n: int, pre: seq<string>, meta: seq<string>)
    ensures Then(Tail([m], [], []), Success(Tail([n], pre, meta))) == Success(Tail([m, n], pre, meta))
  {
    assert [m] + [n] == [m, n];
    assert [] + pre == pre && [] + meta == meta;
  }

  lemma ThenMajor(k: int, m: int, n: int, pre: seq<string>, meta: seq<string>)
    ensures Then(Tail([k], [], []), Success(Tail([m, n], pre, meta))) == Success(Tail([k, m, n], pre, meta))
  {
    assert [k] + [m, n] == [k, m, n];
    assert [] + pre == pre && [] + meta == meta;
  }
}
