/**
 * `ChatColor`: the formatting codes of chat text.  A code is the escape
 * character U+00A7 followed by one code character; `clean` strips codes.
 */
module ChatColor {
  import opened Wrappers

  datatype ChatColor =
    | Black | DarkBlue | DarkGreen | DarkAqua | DarkRed | DarkPurple | Gold | Gray
    | DarkGray | Blue | Green | Aqua | Red | LightPurple | Yellow | White
    | Obfuscated | Bold | Strikethrough | Underline | Italic | Reset

  /** The escape character that starts every code. */
  const ESCAPE: char := '\U{00A7}'

  /** The constants in declaration order, as `values()` lists them. */
  const VALUES: seq<ChatColor> := [
    Black, DarkBlue, DarkGreen, DarkAqua, DarkRed, DarkPurple, Gold, Gray,
    DarkGray, Blue, Green, Aqua, Red, LightPurple, Yellow, White,
    Obfuscated, Bold, Strikethrough, Underline, Italic, Reset]

  /** The character each constant is declared with. */
  function ColorChar(c: ChatColor): char
  {
    match c
    case Black => '0'
    case DarkBlue => '1'
    case DarkGreen => '2'
    case DarkAqua => '3'
    case DarkRed => '4'
    case DarkPurple => '5'
    case Gold => '6'
    case Gray => '7'
    case DarkGray => '8'
    case Blue => '9'
    case Green => 'a'
    case Aqua => 'b'
    case Red => 'c'
    case LightPurple => 'd'
    case Yellow => 'e'
    case White => 'f'
    case Obfuscated => 'k'
    case Bold => 'l'
    case Strikethrough => 'm'
    case Underline => 'n'
    case Italic => 'o'
    case Reset => 'r'
  }

  /** `toString`: the escape character, then the constant's character. */
  function ToString(c: ChatColor): (s: string)
    ensures |s| == 2 && CodeAt(s, 0) && s[0] == ESCAPE && s[1] == ColorChar(c)
  {
    [ESCAPE, ColorChar(c)]
  }

  /**
   * The characters the pattern `(?i)§[0-9A-FK-ORX]` accepts after the
   * escape: the class matched case-insensitively over ASCII.
   */
  predicate IsCodeChar(c: char)
  {
    '0' <= c <= '9' || 'a' <= c <= 'f' || 'A' <= c <= 'F' || 'k' <= c <= 'o' || 'K' <= c <= 'O'
    || c == 'r' || c == 'R' || c == 'x' || c == 'X'
  }

  /** A code starts at `i`. */
  predicate CodeAt(s: string, i: int)
  {
    0 <= i && i + 1 < |s| && s[i] == ESCAPE && IsCodeChar(s[i + 1])
  }

  /** The pattern finds a match somewhere in `s`. */
  predicate HasCode(s: string)
  {
    exists i :: 0 <= i < |s| && CodeAt(s, i)
  }

  /**
   * One `replaceAll` with the empty string: the scan from the left takes
   * each code it meets and resumes after it.
   */
  function CleanOnce(s: string): (r: string)
    ensures |r| <= |s|
    decreases |s|
  {
    if |s| == 0 then ""
    else if CodeAt(s, 0) then CleanOnce(s[2..])
    else [s[0]] + CleanOnce(s[1..])
  }

  /** A code somewhere in `s` is a code at its head or a code in its tail. */
  lemma HasCodeCons(s: string)
    requires |s| > 0
    ensures HasCode(s) <==> CodeAt(s, 0) || HasCode(s[1..])
  {
    if HasCode(s) && !CodeAt(s, 0) {
      var i :| 0 <= i < |s| && CodeAt(s, i);
      assert CodeAt(s[1..], i - 1);
    }
    if HasCode(s[1..]) {
      var i :| 0 <= i < |s[1..]| && CodeAt(s[1..], i);
      assert CodeAt(s, i + 1);
    }
  }

  /** One pass changes `s` exactly when `s` holds a code, and then it shortens it. */
  lemma {:induction false} CleanOnceChangesIff(s: string)
    ensures CleanOnce(s) == s <==> !HasCode(s)
    ensures CleanOnce(s) != s ==> |CleanOnce(s)| < |s|
    decreases |s|
  {
    if |s| > 0 {
      HasCodeCons(s);
      if !CodeAt(s, 0) {
        CleanOnceChangesIff(s[1..]);
        if CleanOnce(s) == s {
          assert CleanOnce(s[1..]) == CleanOnce(s)[1..];
        }
      }
    }
  }

  /**
   * `clean(input, recursive)`: one pass, repeated while `recursive` and
   * the pattern still finds a code in the result.
   */
  function Clean(input: string, recursive: bool): (r: string)
    ensures |r| <= |input|
    decreases |input|
  {
    var result := CleanOnce(input);
    if recursive && HasCode(result) then
      CleanOnceChangesIff(input);
      CleanOnceChangesIff(result);
      Clean(result, true)
    else result
  }

  /** The recursive clean leaves no code behind. */
  lemma {:induction false} CleanRecursiveLeavesNoCode(input: string)
    ensures !HasCode(Clean(input, true))
    decreases |input|
  {
    var result := CleanOnce(input);
    if HasCode(result) {
      CleanOnceChangesIff(input);
      CleanOnceChangesIff(result);
      CleanRecursiveLeavesNoCode(result);
    }
  }

  /** Cleaning text without codes changes nothing, recursive or not. */
  lemma CleanWithoutCode(input: string, recursive: bool)
    requires !HasCode(input)
    ensures Clean(input, recursive) == input
  {
    CleanOnceChangesIff(input);
  }

  /** The recursive clean is idempotent. */
  lemma CleanRecursiveIdempotent(input: string)
    ensures Clean(Clean(input, true), true) == Clean(input, true)
  {
    CleanRecursiveLeavesNoCode(input);
    CleanWithoutCode(Clean(input, true), true);
  }

  /** One pass can join an escape and a code character into a new code: `§§aa` leaves `§a`. */
  lemma OnePassCanLeaveCode(s: string)
    requires s == [ESCAPE, ESCAPE, 'a', 'a']
    ensures Clean(s, false) == [ESCAPE, 'a'] && HasCode(Clean(s, false))
    ensures Clean(s, true) == ""
  {
    var left := [ESCAPE, 'a'];
    assert CodeAt(s[1..], 0) && s[1..][2..] == "a";
    assert CleanOnce("a") == "a";
    assert CleanOnce(s[1..]) == "a";
    assert CleanOnce(s) == [ESCAPE] + "a" == left;
    assert CodeAt(left, 0) && left[2..] == "";
    assert CleanOnce(left) == "";
    assert !HasCode("");
  }

  /** Every colour's `toString` is a code that one pass removes. */
  lemma ToStringCleaned(c: ChatColor)
    ensures Clean(ToString(c), false) == ""
  {
    assert ToString(c)[2..] == "";
  }

  /** The first constant in `values` whose character is `colorChar`. */
  function FirstWithChar(values: seq<ChatColor>, colorChar: char): (r: Option<ChatColor>)
    ensures r.Some? ==> r.value in values && ColorChar(r.value) == colorChar
    ensures r.None? ==> forall c :: c in values ==> ColorChar(c) != colorChar
  {
    if |values| == 0 then None
    else if ColorChar(values[0]) == colorChar then Some(values[0])
    else FirstWithChar(values[1..], colorChar)
  }

  /** `of(colorChar)`: the colour with that character, or `IllegalArgumentException`. */
  function Of(colorChar: char): (r: Result<ChatColor, string>)
    ensures r.Success? ==> ColorChar(r.value) == colorChar
    ensures r.Failure? ==> r.error == "no color with character " + [colorChar]
  {
    match FirstWithChar(VALUES, colorChar)
    case Some(c) => Success(c)
    case None => Failure("no color with character " + [colorChar])
  }

  /** `values` lists every constant. */
  lemma AllInValues(c: ChatColor)
    ensures c in VALUES
  {
  }

  /** The constant declared with `colorChar`, if any. */
  function FromChar(colorChar: char): Option<ChatColor>
  {
    match colorChar
    case '0' => Some(Black)
    case '1' => Some(DarkBlue)
    case '2' => Some(DarkGreen)
    case '3' => Some(DarkAqua)
    case '4' => Some(DarkRed)
    case '5' => Some(DarkPurple)
    case '6' => Some(Gold)
    case '7' => Some(Gray)
    case '8' => Some(DarkGray)
    case '9' => Some(Blue)
    case 'a' => Some(Green)
    case 'b' => Some(Aqua)
    case 'c' => Some(Red)
    case 'd' => Some(LightPurple)
    case 'e' => Some(Yellow)
    case 'f' => Some(White)
    case 'k' => Some(Obfuscated)
    case 'l' => Some(Bold)
    case 'm' => Some(Strikethrough)
    case 'n' => Some(Underline)
    case 'o' => Some(Italic)
    case 'r' => Some(Reset)
    case _ => None
  }

  /** Each constant is found back from its character, so the characters are distinct. */
  lemma FromColorChar(c: ChatColor)
    ensures FromChar(ColorChar(c)) == Some(c)
  {
  }

  /** `of` finds every colour by its own character. */
  lemma OfColorChar(c: ChatColor)
    ensures Of(ColorChar(c)) == Success(c)
  {
    AllInValues(c);
    var r := Of(ColorChar(c));
    FromColorChar(c);
    FromColorChar(r.value);
  }

  /** `of` fails exactly on the characters no colour has. */
  lemma OfFailsIff(colorChar: char)
    ensures Of(colorChar).Failure? <==> forall c: ChatColor :: ColorChar(c) != colorChar
  {
    if Of(colorChar).Failure? {
      forall c: ChatColor ensures ColorChar(c) != colorChar {
        AllInValues(c);
      }
    }
  }

  /** `of('A')` fails although `A` is a code character. */
  lemma OfIsCaseSensitive()
    ensures Of('A').Failure? && IsCodeChar('A')
  {
    forall c: ChatColor ensures ColorChar(c) != 'A' {
      FromColorChar(c);
    }
    OfFailsIff('A');
  }
}
