/**
 * `PermissionDefault`: who holds a permission by default, looked up by
 * any of its names.
 */
module PermissionDefault {
  import opened Wrappers
  import opened JavaText

  datatype PermissionDefault = True | False | Op | NotOp

  const VALUES: seq<PermissionDefault> := [True, False, Op, NotOp]

  /** The names each constant is declared with; the first is its `toString`. */
  function Names(p: PermissionDefault): (names: seq<string>)
    ensures |names| > 0
  {
    match p
    case True => ["true"]
    case False => ["false"]
    case Op => ["op", "isop", "operator", "isoperator", "admin", "isadmin"]
    case NotOp => ["!op", "notop", "!operator", "notoperator", "!admin", "notadmin"]
  }

  /** The static initialiser: every name of every constant, put in declaration order. */
  function PutNames(cache: map<string, PermissionDefault>, names: seq<string>, p: PermissionDefault): (r: map<string, PermissionDefault>)
    ensures forall n :: n in r <==> n in cache || n in names
    ensures forall n :: n in names ==> r[n] == p
    ensures forall n :: n in cache && n !in names ==> r[n] == cache[n]
    decreases |names|
  {
    if |names| == 0 then cache else PutNames(cache[names[0] := p], names[1..], p)
  }

  function BuildCache(cache: map<string, PermissionDefault>, values: seq<PermissionDefault>): map<string, PermissionDefault>
    decreases |values|
  {
    if |values| == 0 then cache else BuildCache(PutNames(cache, Names(values[0]), values[0]), values[1..])
  }

  const CACHE: map<string, PermissionDefault> := BuildCache(map[], VALUES)

  /** The characters `replaceAll("[^a-z!]", "")` keeps. */
  predicate IsNameChar(c: char) { 'a' <= c <= 'z' || c == '!' }

  /** Lower-cases `name` and drops every character outside `[a-z!]`. */
  function Normalize(name: string): (r: string)
    ensures forall i :: 0 <= i < |r| ==> IsNameChar(r[i])
    ensures |r| <= |name|
  {
    if |name| == 0 then ""
    else
      var c := LowerChar(name[0]);
      (if IsNameChar(c) then [c] else []) + Normalize(name[1..])
  }

  /** `getByName`: the constant whose name is the normalised `name`. */
  function GetByName(name: string): (r: Option<PermissionDefault>)
    ensures r.Some? <==> Normalize(name) in CACHE
    ensures r.Some? ==> Normalize(name) in Names(r.value)
  {
    var key := Normalize(name);
    if key in CACHE then
      CacheNames(key);
      Some(CACHE[key])
    else None
  }

  /** `getValue(op)`: whether a sender with operator status `op` holds the permission. */
  function GetValue(p: PermissionDefault, op: bool): (r: bool)
    ensures p == Op ==> r == op
    ensures p == NotOp ==> r == !op
    ensures p == True ==> r
    ensures p == False ==> !r
  {
    match p
    case True => true
    case Op => op
    case NotOp => !op
    case False => false
  }

  /** `toString`: the first declared name. */
  function ToString(p: PermissionDefault): (s: string)
    ensures s in Names(p)
  {
    Names(p)[0]
  }

  /** A key ends up in the table when it was there or some constant in `values` declares it. */
  lemma {:induction false} BuildCacheKeys(cache: map<string, PermissionDefault>, values: seq<PermissionDefault>, n: string)
    ensures n in BuildCache(cache, values) <==> n in cache || exists i :: 0 <= i < |values| && n in Names(values[i])
    decreases |values|
  {
    if |values| > 0 {
      BuildCacheKeys(PutNames(cache, Names(values[0]), values[0]), values[1..], n);
      if exists i :: 0 <= i < |values[1..]| && n in Names(values[1..][i]) {
        var i :| 0 <= i < |values[1..]| && n in Names(values[1..][i]);
        assert n in Names(values[i + 1]);
      }
      if exists i :: 0 <= i < |values| && n in Names(values[i]) {
        var i :| 0 <= i < |values| && n in Names(values[i]);
        if i > 0 {
          assert n in Names(values[1..][i - 1]);
        }
      }
    }
  }

  /** A key declared by `p` in `values`, and by no other constant, maps to `p`. */
  lemma {:induction false} BuildCacheValue(cache: map<string, PermissionDefault>, values: seq<PermissionDefault>, n: string, p: PermissionDefault)
    requires p in values && n in Names(p)
    ensures n in BuildCache(cache, values) && BuildCache(cache, values)[n] == p
    decreases |values|
  {
    var next := PutNames(cache, Names(values[0]), values[0]);
    if values[0] == p {
      if p in values[1..] {
        BuildCacheValue(next, values[1..], n, p);
      } else {
        forall q | q in values[1..] ensures n !in Names(q) {
          if n in Names(q) {
            NamesDisjoint(p, q, n);
          }
        }
        BuildCacheUntouched(next, values[1..], n);
      }
    } else {
      assert p in values[1..];
      BuildCacheValue(next, values[1..], n, p);
    }
  }

  /** A key no constant in `values` declares keeps its entry. */
  lemma {:induction false} BuildCacheUntouched(cache: map<string, PermissionDefault>, values: seq<PermissionDefault>, n: string)
    requires n in cache
    requires forall q :: q in values ==> n !in Names(q)
    ensures n in BuildCache(cache, values) && BuildCache(cache, values)[n] == cache[n]
    decreases |values|
  {
    if |values| > 0 {
      BuildCacheUntouched(PutNames(cache, Names(values[0]), values[0]), values[1..], n);
    }
  }

  /** Every key of a table built from a table of own names is a name of the constant it maps to. */
  lemma {:induction false} BuildCacheOwned(cache: map<string, PermissionDefault>, values: seq<PermissionDefault>, n: string)
    requires forall k :: k in cache ==> k in Names(cache[k])
    requires n in BuildCache(cache, values)
    ensures n in Names(BuildCache(cache, values)[n])
    decreases |values|
  {
    if |values| > 0 {
      BuildCacheOwned(PutNames(cache, Names(values[0]), values[0]), values[1..], n);
    }
  }

  /** The constant whose names start with `c`: the first character tells the names apart. */
  function OwnerOfInitial(c: char): Option<PermissionDefault>
  {
    match c
    case 't' => Some(True)
    case 'f' => Some(False)
    case 'o' => Some(Op)
    case 'i' => Some(Op)
    case 'a' => Some(Op)
    case '!' => Some(NotOp)
    case 'n' => Some(NotOp)
    case _ => None
  }

  /** Every name is non-empty and starts with a character that belongs to its constant. */
  lemma NameInitial(p: PermissionDefault, n: string)
    requires n in Names(p)
    ensures |n| > 0 && OwnerOfInitial(n[0]) == Some(p)
  {
  }

  /** No name is declared by two constants. */
  lemma NamesDisjoint(p: PermissionDefault, q: PermissionDefault, n: string)
    requires n in Names(p) && n in Names(q)
    ensures p == q
  {
    NameInitial(p, n);
    NameInitial(q, n);
  }

  /** The table holds exactly the declared names, each mapped to the constant declaring it. */
  lemma CacheContents(p: PermissionDefault, n: string)
    requires n in Names(p)
    ensures n in CACHE && CACHE[n] == p
  {
    BuildCacheValue(map[], VALUES, n, p);
  }

  /** A key of the table is one of the names of the constant it maps to. */
  lemma CacheNames(key: string)
    requires key in CACHE
    ensures key in Names(CACHE[key])
  {
    BuildCacheOwned(map[], VALUES, key);
  }

  /** Names are already normal: lower-case letters and `!`. */
  lemma {:induction false} NormalizeNormal(s: string)
    requires forall i :: 0 <= i < |s| ==> IsNameChar(s[i])
    ensures Normalize(s) == s
  {
    if |s| > 0 {
      NormalizeNormal(s[1..]);
      assert s == [s[0]] + s[1..];
    }
  }

  /** The declared names are made of lower-case letters and `!`. */
  lemma NamesNormal(p: PermissionDefault, n: string)
    requires n in Names(p)
    ensures forall i :: 0 <= i < |n| ==> IsNameChar(n[i])
  {
  }

  /** Every declared name, and so `toString`, looks up its own constant. */
  lemma GetByNameOfName(p: PermissionDefault, n: string)
    requires n in Names(p)
    ensures GetByName(n) == Some(p)
  {
    CacheContents(p, n);
    NamesNormal(p, n);
    NormalizeNormal(n);
  }

  /** `getByName(toString())` gives the constant back. */
  lemma GetByNameToString(p: PermissionDefault)
    ensures GetByName(ToString(p)) == Some(p)
  {
    GetByNameOfName(p, ToString(p));
  }

  /** Normalising twice is normalising once, so a name found once is found again. */
  lemma NormalizeIdempotent(s: string)
    ensures Normalize(Normalize(s)) == Normalize(s)
  {
    NormalizeNormal(Normalize(s));
  }

  /** `NOT_OP` answers the opposite of `OP` for every sender. */
  lemma NotOpNegatesOp(op: bool)
    ensures GetValue(NotOp, op) == !GetValue(Op, op)
  {
  }
}
