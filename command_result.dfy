/**
 * `CommandResult`: the count a command reports, and `SimpleCommandResult`,
 * its only implementation, whose `merge` adds another count in place.
 */
module CommandResult {
  import opened JavaText

  /** `SimpleCommandResult`: one mutable Java `int`. */
  class SimpleCommandResult {
    var result: int

    ghost predicate Valid()
      reads this
    {
      IsInt32(result)
    }

    constructor (result: int)
      requires IsInt32(result)
      ensures Valid() && this.result == result
    {
      this.result := result;
    }

    /** `result()`. */
    function Result(): (r: int)
      reads this
      requires Valid()
      ensures IsInt32(r)
    {
      result
    }

    /**
     * `merge(other)`: adds the other count with `int` wrap-around and
     * hands back this same object, not a new one.  Merging an object with
     * itself doubles it.
     */
    method Merge(other: SimpleCommandResult) returns (r: SimpleCommandResult)
      requires Valid() && other.Valid()
      modifies this
      ensures r == this && Valid()
      ensures result == WrapInt32(old(result) + old(other.result))
    {
      result := WrapInt32(result + other.result);
      r := this;
    }

    /** `equals`: another `SimpleCommandResult` with the same count. */
    predicate Equals(that: SimpleCommandResult)
      reads this, that
      ensures Equals(that) <==> result == that.result
    {
      this == that || result == that.result
    }

    /** `hashCode`: `Objects.hash(result)`. */
    function HashCode(): (h: int)
      reads this
      requires Valid()
      ensures IsInt32(h)
    {
      Hash(result)
    }

    /** `toString`. */
    function ToString(): (s: string)
      reads this
      ensures |s| == 28 + |IntToString(result)| && s[27..|s| - 1] == IntToString(result)
    {
      Render(result)
    }
  }

  /** `empty()`: a fresh result of 0. */
  method Empty() returns (r: SimpleCommandResult)
    ensures fresh(r) && r.Valid() && r.result == 0
  {
    r := new SimpleCommandResult(0);
  }

  /** `of()`: a fresh result of 1. */
  method Of() returns (r: SimpleCommandResult)
    ensures fresh(r) && r.Valid() && r.result == 1
  {
    r := new SimpleCommandResult(1);
  }

  /** `of(amount)`: a fresh result holding `amount`. */
  method OfAmount(amount: int) returns (r: SimpleCommandResult)
    requires IsInt32(amount)
    ensures fresh(r) && r.Valid() && r.result == amount
  {
    r := new SimpleCommandResult(amount);
  }

  /** `Objects.hash` of one `Integer`: `31 * 1 + value`, in `int` arithmetic. */
  function Hash(value: int): (h: int)
    ensures IsInt32(h)
  {
    WrapInt32(31 + value)
  }

  /** The text `toString` builds around a count. */
  function Render(value: int): (s: string)
    ensures StartsWith(s, "SimpleCommandResult{result=") && s[|s| - 1] == '}'
  {
    "SimpleCommandResult{result=" + IntToString(value) + "}"
  }

  /** Two values congruent modulo 2^32 wrap to the same `int`. */
  lemma WrapCongruent(x: int, y: int)
    requires (x - y) % 0x1_0000_0000 == 0
    ensures WrapInt32(x) == WrapInt32(y)
  {
    var a, b := WrapInt32(x), WrapInt32(y);
    assert (a - b) % 0x1_0000_0000 == 0 by {
      ModSum(a - x, x - y, y - b);
    }
    assert -0x1_0000_0000 < a - b < 0x1_0000_0000;
  }

  /** Sums of multiples of 2^32 are multiples of 2^32. */
  lemma ModSum(p: int, q: int, r: int)
    requires p % 0x1_0000_0000 == 0 && q % 0x1_0000_0000 == 0 && r % 0x1_0000_0000 == 0
    ensures (p + q + r) % 0x1_0000_0000 == 0
  {
    var m := 0x1_0000_0000;
    assert p == (p / m) * m && q == (q / m) * m && r == (r / m) * m;
    assert p + q + r == (p / m + q / m + r / m) * m;
  }

  /** Merging counts in any grouping gives the same count: `merge` is associative. */
  lemma MergeAssociative(a: int, b: int, c: int)
    ensures WrapInt32(WrapInt32(a + b) + c) == WrapInt32(a + WrapInt32(b + c))
  {
    var ab, bc := WrapInt32(a + b), WrapInt32(b + c);
    ModSum(ab - (a + b), 0, 0);
    WrapCongruent(ab + c, a + b + c);
    WrapCongruent(a + bc, a + b + c);
  }


  /** Merging `empty()` changes nothing. */
  lemma MergeEmptyIdentity(a: int)
    requires IsInt32(a)
    ensures WrapInt32(a + 0) == a
  {
  }

  /** Merging `of()` into `Integer.MAX_VALUE` wraps to `Integer.MIN_VALUE`. */
  lemma MergeOverflows()
    ensures WrapInt32(INT_MAX + 1) == INT_MIN
  {
  }

  /** Two counts hash alike exactly when they are equal: the hash is injective on `int`. */
  lemma HashInjective(a: int, b: int)
    requires IsInt32(a) && IsInt32(b)
    ensures Hash(a) == Hash(b) <==> a == b
  {
    if Hash(a) == Hash(b) {
      ModSum(Hash(a) - (31 + a), (31 + b) - Hash(b), 0);
      assert (b - a) % 0x1_0000_0000 == 0;
    }
  }

  /** Two counts print alike exactly when they are equal. */
  lemma RenderInjective(a: int, b: int)
    ensures Render(a) == Render(b) <==> a == b
  {
    if Render(a) == Render(b) {
      var prefix := "SimpleCommandResult{result=";
      var sa, sb := IntToString(a), IntToString(b);
      assert Render(a) == prefix + (sa + "}");
      assert Render(b) == prefix + (sb + "}");
      assert sa + "}" == Render(a)[|prefix|..];
      assert sa == (sa + "}")[..|sa|];
      assert sb == (sb + "}")[..|sb|];
      assert |sa| == |sb|;
      IntToStringInjective(a, b);
    }
  }

  /** `Integer.toString` tells every two values apart. */
  lemma IntToStringInjective(a: int, b: int)
    requires IntToString(a) == IntToString(b)
    ensures a == b
  {
    var s := IntToString(a);
    if a < 0 && b < 0 {
      assert NatToString(-a) == s[1..] == NatToString(-b);
      NatToStringInjective(-a, -b);
    } else if a >= 0 && b >= 0 {
      NatToStringInjective(a, b);
    } else {
      assert false;
    }
  }

  /** Equal results have equal hash codes and equal text, as `equals` and `hashCode` must agree. */
  lemma EqualsConsistent(x: SimpleCommandResult, y: SimpleCommandResult)
    requires x.Valid() && y.Valid()
    ensures x.Equals(y) <==> x.HashCode() == y.HashCode()
    ensures x.Equals(y) <==> x.ToString() == y.ToString()
  {
    HashInjective(x.result, y.result);
    RenderInjective(x.result, y.result);
  }
}
