/**
 * `PluginDescriptionFile`: the description a plugin ships in its
 * `plugin.yml`, and `init`, which validates the YAML map key by key and
 * builds the immutable description.
 */
module PluginDescriptionFile {
  import opened Wrappers
  import opened JavaText
  import PermissionDefault

  /** A value the YAML reader produces: null, a scalar, a list or a map (its entries in file order). */
  datatype Yaml =
    | YNull
    | YBool(b: bool)
    | YInt(i: int)
    | YString(s: string)
    | YList(items: seq<Yaml>)
    | YMap(entries: seq<YEntry>)

  datatype YEntry = YEntry(key: Yaml, value: Yaml)

  /** Why `init` fails: an `InvalidDescriptionException` with its message, or a `NullPointerException` it lets through. */
  datatype InitError = InvalidDescription(message: string) | NullPointer

  /** A built description; `order` is the name of a `PluginLoadOrder` constant. */
  datatype PluginDescription = PluginDescription(
    authors: seq<string>,
    commands: map<Yaml, map<Yaml, Yaml>>,
    contributors: seq<string>,
    defaultPermission: PermissionDefault.PermissionDefault,
    depend: seq<string>,
    description: string,
    loadBefore: seq<string>,
    main: string,
    name: string,
    order: string,
    permissions: Yaml,
    prefix: string,
    providedNames: seq<string>,
    softDepend: seq<string>,
    version: string,
    website: string)

  /** The load order when `load` is absent. */
  const POST_WORLD: string := "POST_WORLD"
  /** The package a plugin's main class may not be in. */
  const RESERVED_PACKAGE: string := "net.shiruka"
  const COMMANDS_WRONG_TYPE: string := "commands are of wrong type"

  /** `toString()` of a value: lists as `[a, b]`, maps as `{k=v}`, null inside them as `null`. */
  function ToStr(y: Yaml): string
  {
    match y
    case YNull => "null"
    case YBool(b) => if b then "true" else "false"
    case YInt(i) => IntToString(i)
    case YString(s) => s
    case YList(items) =>
      "[" + Join(seq(|items|, i requires 0 <= i < |items| => ToStr(items[i])), ", ") + "]"
    case YMap(entries) =>
      "{" + Join(seq(|entries|, i requires 0 <= i < |entries| => ToStr(entries[i].key) + "=" + ToStr(entries[i].value)), ", ") + "}"
  }

  /** `map.get(key)`: null when absent. */
  function Get(m: map<string, Yaml>, key: string): Yaml
  {
    if key in m then m[key] else YNull
  }

  /** The characters of `^[A-Za-z0-9 _.-]+$`. */
  predicate IsNameChar(c: char)
  {
    IsAsciiLetter(c) || IsAsciiDigit(c) || c == ' ' || c == '_' || c == '.' || c == '-'
  }

  /** `VALID_NAME` matches: at least one character, all of them name characters. */
  predicate ValidName(s: string)
  {
    |s| > 0 && forall i :: 0 <= i < |s| ==> IsNameChar(s[i])
  }

  /** The `name` step: defined, valid, with every space made `_`. */
  function NameOf(m: map<string, Yaml>): (r: Result<string, InitError>)
    ensures r.Failure? && Get(m, "name") == YNull ==> r.error == InvalidDescription("name is not defined")
    ensures r.Success? ==> ValidName(r.value)
  {
    var v := Get(m, "name");
    if v == YNull then Failure(InvalidDescription("name is not defined"))
    else
      var raw := ToStr(v);
      if !ValidName(raw) then Failure(InvalidDescription("name '" + raw + "' contains invalid characters."))
      else Success(ReplaceChar(raw, ' ', '_'))
  }

  /** The `version` step. */
  function VersionOf(m: map<string, Yaml>): (r: Result<string, InitError>)
    ensures r.Success? <==> Get(m, "version") != YNull
    ensures r.Success? ==> r.value == ToStr(m["version"])
  {
    var v := Get(m, "version");
    if v == YNull then Failure(InvalidDescription("version is not defined")) else Success(ToStr(v))
  }

  /** The `main` step: defined and outside the reserved package. */
  function MainOf(m: map<string, Yaml>): (r: Result<string, InitError>)
    ensures r.Success? ==> !StartsWith(r.value, RESERVED_PACKAGE)
  {
    var v := Get(m, "main");
    if v == YNull then Failure(InvalidDescription("main is not defined"))
    else if StartsWith(ToStr(v), RESERVED_PACKAGE) then
      Failure(InvalidDescription("main may not be within the net.shiruka namespace"))
    else Success(ToStr(v))
  }

  /** `(String) key` succeeds on a string and on null. */
  predicate StringKey(y: Yaml)
  {
    y.YString? || y.YNull?
  }

  /** Putting the entries into a hash map in order: a later entry for a key wins. */
  function EntriesMap(entries: seq<YEntry>): (r: map<Yaml, Yaml>)
  {
    if |entries| == 0 then map[]
    else
      var last := entries[|entries| - 1];
      EntriesMap(entries[..|entries| - 1])[last.key := last.value]
  }

  /** One command's settings: a map with string keys; a null map is an uncaught null pointer. */
  function CommandOf(values: Yaml): (r: Result<map<Yaml, Yaml>, InitError>)
    ensures r == Failure(NullPointer) <==> values == YNull
    ensures r.Failure? && values != YNull ==> r.error == InvalidDescription(COMMANDS_WRONG_TYPE)
    ensures r.Success? ==> values.YMap? && forall i :: 0 <= i < |values.entries| ==> StringKey(values.entries[i].key)
  {
    match values
    case YNull => Failure(NullPointer)
    case YMap(inner) =>
      if forall i :: 0 <= i < |inner| ==> StringKey(inner[i].key) then Success(EntriesMap(inner))
      else Failure(InvalidDescription(COMMANDS_WRONG_TYPE))
    case _ => Failure(InvalidDescription(COMMANDS_WRONG_TYPE))
  }

  /** The commands map, entry by entry in file order; the first bad entry decides the error. */
  function CommandTable(entries: seq<YEntry>): (r: Result<map<Yaml, map<Yaml, Yaml>>, InitError>)
    ensures r.Failure? ==> r.error == NullPointer || r.error == InvalidDescription(COMMANDS_WRONG_TYPE)
    ensures r.Success? ==> forall k :: k in r.value ==> StringKey(k)
  {
    if |entries| == 0 then Success(map[])
    else
      var table :- CommandTable(entries[..|entries| - 1]);
      var last := entries[|entries| - 1];
      var command :- CommandOf(last.value);
      if StringKey(last.key) then Success(table[last.key := command])
      else Failure(InvalidDescription(COMMANDS_WRONG_TYPE))
  }

  /** The `commands` step. */
  function CommandsOf(m: map<string, Yaml>): (r: Result<map<Yaml, map<Yaml, Yaml>>, InitError>)
    ensures "commands" !in m ==> r == Success(map[])
  {
    if "commands" !in m then Success(map[])
    else
      match m["commands"]
      case YNull => Failure(NullPointer)
      case YMap(entries) => CommandTable(entries)
      case _ => Failure(InvalidDescription(COMMANDS_WRONG_TYPE))
  }

  /** `map.getOrDefault(key, "").toString()`: a present null is an uncaught null pointer. */
  function TextOr(m: map<string, Yaml>, key: string): (r: Result<string, InitError>)
    ensures key !in m ==> r == Success("")
    ensures r.Failure? <==> key in m && m[key] == YNull
  {
    if key !in m then Success("")
    else if m[key] == YNull then Failure(NullPointer)
    else Success(ToStr(m[key]))
  }

  /** Whether some item is null. */
  predicate HasNull(items: seq<Yaml>)
  {
    exists i :: 0 <= i < |items| && items[i] == YNull
  }

  /** `toString()` of every item in order; None when an item is null. */
  function Strings(items: seq<Yaml>): (r: Option<seq<string>>)
  {
    if HasNull(items) then None else Some(seq(|items|, i requires 0 <= i < |items| => ToStr(items[i])))
  }

  /** The `contributors` step: a list; null, or a null item, is an uncaught null pointer. */
  function ContributorsOf(m: map<string, Yaml>): (r: Result<seq<string>, InitError>)
    ensures "contributors" !in m ==> r == Success([])
    ensures r == Failure(NullPointer) <==>
      "contributors" in m && (m["contributors"] == YNull || (m["contributors"].YList? && HasNull(m["contributors"].items)))
    ensures r.Success? && "contributors" in m ==>
      m["contributors"].YList? && |r.value| == |m["contributors"].items|
      && forall i :: 0 <= i < |r.value| ==> r.value[i] == ToStr(m["contributors"].items[i])
  {
    if "contributors" !in m then Success([])
    else
      match m["contributors"]
      case YList(items) => if HasNull(items) then Failure(NullPointer) else Success(Strings(items).value)
      case YNull => Failure(NullPointer)
      case _ => Failure(InvalidDescription("contributors are of wrong type"))
  }

  /** The `authors` step: a list; null, or a null item, is "authors are improperly defined". */
  function AuthorsOf(m: map<string, Yaml>): (r: Result<seq<string>, InitError>)
    ensures "authors" !in m ==> r == Success([])
    ensures r.Failure? ==> r.error.InvalidDescription?
    ensures r.Failure? <==> "authors" in m && (!m["authors"].YList? || HasNull(m["authors"].items))
    ensures r.Success? && "authors" in m ==>
      |r.value| == |m["authors"].items| && forall i :: 0 <= i < |r.value| ==> r.value[i] == ToStr(m["authors"].items[i])
  {
    if "authors" !in m then Success([])
    else
      match m["authors"]
      case YList(items) =>
        if HasNull(items) then Failure(InvalidDescription("authors are improperly defined"))
        else Success(Strings(items).value)
      case YNull => Failure(InvalidDescription("authors are improperly defined"))
      case _ => Failure(InvalidDescription("authors are of wrong type"))
  }

  /** The characters `\w` matches. */
  predicate IsWordChar(c: char)
  {
    IsAsciiLetter(c) || IsAsciiDigit(c) || c == '_'
  }

  /** `replaceAll("\\W", "")`: keeps the word characters, in order. */
  function KeepWordChars(s: string): (r: string)
    ensures forall i :: 0 <= i < |r| ==> IsWordChar(r[i])
    ensures |r| <= |s|
  {
    if |s| == 0 then ""
    else (if IsWordChar(s[0]) then [s[0]] else []) + KeepWordChars(s[1..])
  }

  /** The constant name `load` asks for: upper-cased, with the non-word characters dropped. */
  function LoadName(s: string): string
  {
    KeepWordChars(ToUpper(s))
  }

  /**
   * The `load` step; `orders` are the names of the `PluginLoadOrder`
   * constants, which `valueOf` accepts.
   */
  function LoadOf(m: map<string, Yaml>, orders: set<string>): (r: Result<string, InitError>)
    ensures "load" !in m ==> r == Success(POST_WORLD)
    ensures r.Success? && "load" in m ==> m["load"].YString? && r.value == LoadName(m["load"].s) && r.value in orders
    ensures r == Failure(NullPointer) <==> "load" in m && m["load"] == YNull
  {
    if "load" !in m then Success(POST_WORLD)
    else
      match m["load"]
      case YString(s) =>
        if LoadName(s) in orders then Success(LoadName(s)) else Failure(InvalidDescription("load is not a valid choice"))
      case YNull => Failure(NullPointer)
      case _ => Failure(InvalidDescription("load is of wrong type"))
  }

  /** The names in a plugin name list: each item's text with every space made `_`; None when an item is null. */
  function Names(items: seq<Yaml>): (r: Option<seq<string>>)
  {
    if HasNull(items) then None
    else Some(seq(|items|, i requires 0 <= i < |items| => ReplaceChar(ToStr(items[i]), ' ', '_')))
  }

  /** `makePluginNameList(map, key)`. */
  function PluginNameList(m: map<string, Yaml>, key: string): (r: Result<seq<string>, InitError>)
    ensures r.Failure? ==> r.error.InvalidDescription?
    ensures r.Success? ==> forall i, j :: 0 <= i < |r.value| && 0 <= j < |r.value[i]| ==> r.value[i][j] != ' '
  {
    if key !in m then Success([])
    else
      match m[key]
      case YList(items) =>
        if HasNull(items) then Failure(InvalidDescription("invalid " + key + " format")) else Success(Names(items).value)
      case YNull => Failure(InvalidDescription("invalid " + key + " format"))
      case _ => Failure(InvalidDescription(key + " is of wrong type"))
  }

  /** The `default-permission` step: `OP` when absent, null or not a known name. */
  function DefaultPermissionOf(m: map<string, Yaml>): (r: PermissionDefault.PermissionDefault)
    ensures Get(m, "default-permission") == YNull ==> r == PermissionDefault.Op
  {
    var v := Get(m, "default-permission");
    if v == YNull then PermissionDefault.Op else PermissionDefault.GetByName(ToStr(v)).UnwrapOr(PermissionDefault.Op)
  }

  /** The `permissions` step: a map, or null, handed on unread; an empty map when absent. */
  function PermissionsOf(m: map<string, Yaml>): (r: Result<Yaml, InitError>)
    ensures r.Success? ==> r.value.YMap? || r.value.YNull?
  {
    if "permissions" !in m then Success(YMap([]))
    else
      match m["permissions"]
      case YMap(_) => Success(m["permissions"])
      case YNull => Success(YNull)
      case _ => Failure(InvalidDescription("permissions are of the wrong type"))
  }

  /** `init(map)`: the steps in the order the source takes them; the first that throws decides the error. */
  function Describe(m: map<string, Yaml>, orders: set<string>): (r: Result<PluginDescription, InitError>)
    ensures r.Success? ==> ValidName(r.value.name) && !StartsWith(r.value.main, RESERVED_PACKAGE)
    ensures r.Success? ==> r.value.order == POST_WORLD || r.value.order in orders
    ensures r.Success? ==> r.value.permissions.YMap? || r.value.permissions.YNull?
  {
    var name :- NameOf(m);
    var providedNames :- PluginNameList(m, "provides");
    var version :- VersionOf(m);
    var main :- MainOf(m);
    var commands :- CommandsOf(m);
    var website :- TextOr(m, "website");
    var description :- TextOr(m, "description");
    var prefix :- TextOr(m, "prefix");
    var contributors :- ContributorsOf(m);
    var authors :- AuthorsOf(m);
    var order :- LoadOf(m, orders);
    var depend :- PluginNameList(m, "depend");
    var softDepend :- PluginNameList(m, "soft-depend");
    var loadBefore :- PluginNameList(m, "load-before");
    var defaultPermission := DefaultPermissionOf(m);
    var permissions :- PermissionsOf(m);
    Success(PluginDescription(authors, commands, contributors, defaultPermission, depend, description, loadBefore,
      main, name, order, permissions, prefix, providedNames, softDepend, version, website))
  }

  /** `toString()` of each item, one at a time; None at the first null item. */
  method ToStrings(items: seq<Yaml>) returns (r: Option<seq<string>>)
    ensures r == Strings(items)
  {
    var list: seq<string> := [];
    var i := 0;
    while i < |items|
      invariant 0 <= i <= |items|
      invariant |list| == i
      invariant forall j :: 0 <= j < i ==> items[j] != YNull && list[j] == ToStr(items[j])
    {
      if items[i] == YNull {
        assert HasNull(items);
        return None;
      }
      list := list + [ToStr(items[i])];
      i := i + 1;
    }
    assert !HasNull(items);
    assert list == seq(|items|, i requires 0 <= i < |items| => ToStr(items[i]));
    r := Some(list);
  }

  /** `makePluginNameList(map, key)`, adding one name per item. */
  method MakePluginNameList(m: map<string, Yaml>, key: string) returns (r: Result<seq<string>, InitError>)
    ensures r == PluginNameList(m, key)
  {
    if key !in m {
      return Success([]);
    }
    var items;
    match m[key] {
      case YList(xs) => items := xs;
      case YNull => return Failure(InvalidDescription("invalid " + key + " format"));
      case _ => return Failure(InvalidDescription(key + " is of wrong type"));
    }
    var list: seq<string> := [];
    var i := 0;
    while i < |items|
      invariant 0 <= i <= |items|
      invariant |list| == i
      invariant forall j :: 0 <= j < i ==> items[j] != YNull && list[j] == ReplaceChar(ToStr(items[j]), ' ', '_')
    {
      if items[i] == YNull {
        assert HasNull(items);
        return Failure(InvalidDescription("invalid " + key + " format"));
      }
      list := list + [ReplaceChar(ToStr(items[i]), ' ', '_')];
      i := i + 1;
    }
    assert !HasNull(items);
    assert list == Names(items).value;
    r := Success(list);
  }

  /** `init(map)`, step by step. */
  method Init(m: map<string, Yaml>, orders: set<string>) returns (r: Result<PluginDescription, InitError>)
    ensures r == Describe(m, orders)
  {
    var name :- NameOf(m);
    var providedNames :- MakePluginNameList(m, "provides");
    var version :- VersionOf(m);
    var main :- MainOf(m);
    var commands :- CommandsOf(m);
    var website :- TextOr(m, "website");
    var description :- TextOr(m, "description");
    var prefix :- TextOr(m, "prefix");
    var contributors: seq<string> := [];
    if "contributors" in m {
      match m["contributors"] {
        case YList(items) =>
          var strings := ToStrings(items);
          if strings.None? {
            return Failure(NullPointer);
          }
          contributors := strings.value;
        case YNull => return Failure(NullPointer);
        case _ => return Failure(InvalidDescription("contributors are of wrong type"));
      }
    }
    var authors: seq<string> := [];
    if "authors" in m {
      match m["authors"] {
        case YList(items) =>
          var strings := ToStrings(items);
          if strings.None? {
            return Failure(InvalidDescription("authors are improperly defined"));
          }
          authors := strings.value;
        case YNull => return Failure(InvalidDescription("authors are improperly defined"));
        case _ => return Failure(InvalidDescription("authors are of wrong type"));
      }
    }
    var order :- LoadOf(m, orders);
    var depend :- MakePluginNameList(m, "depend");
    var softDepend :- MakePluginNameList(m, "soft-depend");
    var loadBefore :- MakePluginNameList(m, "load-before");
    var defaultPermission := DefaultPermissionOf(m);
    var permissions :- PermissionsOf(m);
    r := Success(PluginDescription(authors, commands, contributors, defaultPermission, depend, description, loadBefore,
      main, name, order, permissions, prefix, providedNames, softDepend, version, website));
  }

  /** `getFullName()`. */
  function GetFullName(d: PluginDescription): (r: string)
    ensures |r| == |d.name| + 2 + |d.version|
  {
    d.name + " v" + d.version
  }

  /** An accepted description: every step passed, and the fields are what the steps gave. */
  lemma DescribeSuccess(m: map<string, Yaml>, orders: set<string>)
    requires Describe(m, orders).Success?
    ensures NameOf(m).Success? && PluginNameList(m, "provides").Success? && VersionOf(m).Success?
    ensures MainOf(m).Success? && CommandsOf(m).Success? && LoadOf(m, orders).Success?
    ensures PluginNameList(m, "depend").Success? && PluginNameList(m, "soft-depend").Success?
    ensures PluginNameList(m, "load-before").Success?
    ensures var d := Describe(m, orders).value;
      d.name == NameOf(m).value && d.main == MainOf(m).value && d.version == VersionOf(m).value
      && d.order == LoadOf(m, orders).value && d.defaultPermission == DefaultPermissionOf(m)
      && d.providedNames == PluginNameList(m, "provides").value && d.depend == PluginNameList(m, "depend").value
      && d.softDepend == PluginNameList(m, "soft-depend").value
      && d.loadBefore == PluginNameList(m, "load-before").value
  {
  }

  /** A missing or null name is "name is not defined", before any other check. */
  lemma NameMissing(m: map<string, Yaml>, orders: set<string>)
    requires Get(m, "name") == YNull
    ensures Describe(m, orders) == Failure(InvalidDescription("name is not defined"))
  {
  }

  /** A name outside `^[A-Za-z0-9 _.-]+$` is rejected with the name in the message. */
  lemma NameInvalid(m: map<string, Yaml>, orders: set<string>)
    requires Get(m, "name") != YNull && !ValidName(ToStr(m["name"]))
    ensures Describe(m, orders) == Failure(InvalidDescription("name '" + ToStr(m["name"]) + "' contains invalid characters."))
  {
  }

  /** An accepted name is the valid raw name with every space made `_`: non-empty, spaceless, of name characters. */
  lemma NameSpacesReplaced(m: map<string, Yaml>, orders: set<string>)
    requires Describe(m, orders).Success?
    ensures var name := Describe(m, orders).value.name;
      ValidName(ToStr(m["name"])) && ValidName(name) && |name| == |ToStr(m["name"])|
      && forall i :: 0 <= i < |name| ==> name[i] != ' ' && (ToStr(m["name"])[i] != ' ' ==> name[i] == ToStr(m["name"])[i])
  {
    DescribeSuccess(m, orders);
  }

  /** Once name, provides and version pass, a main class in `net.shiruka` is rejected; an accepted one is outside it. */
  lemma MainNamespaceRejected(m: map<string, Yaml>, orders: set<string>)
    requires NameOf(m).Success? && PluginNameList(m, "provides").Success? && VersionOf(m).Success?
    requires Get(m, "main") != YNull && StartsWith(ToStr(m["main"]), RESERVED_PACKAGE)
    ensures Describe(m, orders) == Failure(InvalidDescription("main may not be within the net.shiruka namespace"))
  {
  }

  /** An accepted description's main class is the `main` value, outside `net.shiruka`. */
  lemma MainAccepted(m: map<string, Yaml>, orders: set<string>)
    requires Describe(m, orders).Success?
    ensures Get(m, "main") != YNull && Describe(m, orders).value.main == ToStr(m["main"])
    ensures !StartsWith(Describe(m, orders).value.main, RESERVED_PACKAGE)
  {
    DescribeSuccess(m, orders);
  }

  /** Without `load` the order is `POST_WORLD`; with it, the order is the constant its upper-cased word characters name. */
  lemma LoadOrder(m: map<string, Yaml>, orders: set<string>)
    requires Describe(m, orders).Success?
    ensures "load" !in m ==> Describe(m, orders).value.order == POST_WORLD
    ensures "load" in m ==>
      (m["load"].YString? && Describe(m, orders).value.order == LoadName(m["load"].s)
       && Describe(m, orders).value.order in orders)
  {
    DescribeSuccess(m, orders);
  }

  /** A `load` string that names no constant makes `init` fail. */
  lemma LoadUnknownFails(m: map<string, Yaml>, orders: set<string>)
    requires "load" in m && m["load"].YString? && LoadName(m["load"].s) !in orders
    ensures Describe(m, orders).Failure?
  {
  }

  /** `load: post_world`, in any case, names `POST_WORLD`. */
  lemma LoadUnderscoreKept()
    ensures LoadName("post_world") == POST_WORLD
  {
    assert POST_WORLD == "POST" + ("_" + "WORLD");
    assert ToUpper("post_world") == POST_WORLD;
    KeepWordCharsAll("POST");
    KeepWordCharsAll("_WORLD");
    KeepWordCharsAppend("POST", "_WORLD");
  }

  /** Dropping the non-word characters of two texts one after the other. */
  lemma {:induction false} KeepWordCharsAppend(a: string, b: string)
    ensures KeepWordChars(a + b) == KeepWordChars(a) + KeepWordChars(b)
  {
    if |a| > 0 {
      assert (a + b)[1..] == a[1..] + b;
      KeepWordCharsAppend(a[1..], b);
    } else {
      assert a + b == b;
    }
  }

  /** A text of word characters is kept whole. */
  lemma {:induction false} KeepWordCharsAll(s: string)
    requires forall i :: 0 <= i < |s| ==> IsWordChar(s[i])
    ensures KeepWordChars(s) == s
  {
    if |s| > 0 {
      KeepWordCharsAll(s[1..]);
    }
  }

  /** The default permission is `OP` when absent, null or unknown, else the constant the name denotes. */
  lemma DefaultPermissionFallback(m: map<string, Yaml>, orders: set<string>)
    requires Describe(m, orders).Success?
    ensures var p := Describe(m, orders).value.defaultPermission;
      (Get(m, "default-permission") == YNull ==> p == PermissionDefault.Op)
      && (Get(m, "default-permission") != YNull && PermissionDefault.GetByName(ToStr(m["default-permission"])).None?
          ==> p == PermissionDefault.Op)
      && (Get(m, "default-permission") != YNull && PermissionDefault.GetByName(ToStr(m["default-permission"])).Some?
          ==> p == PermissionDefault.GetByName(ToStr(m["default-permission"])).value)
  {
    DescribeSuccess(m, orders);
  }

  /** Any of a constant's names given as `default-permission` selects that constant. */
  lemma DefaultPermissionByName(m: map<string, Yaml>, p: PermissionDefault.PermissionDefault, n: string)
    requires n in PermissionDefault.Names(p) && Get(m, "default-permission") == YString(n)
    ensures DefaultPermissionOf(m) == p
  {
    PermissionDefault.GetByNameOfName(p, n);
  }

  /**
   * `makePluginNameList`: an absent key gives the empty list; a list gives
   * one name per item, the item's text with every space made `_`.
   */
  lemma PluginNameListContents(m: map<string, Yaml>, key: string)
    ensures key !in m ==> PluginNameList(m, key) == Success([])
    ensures PluginNameList(m, key).Success? && key in m ==>
      m[key].YList? && |PluginNameList(m, key).value| == |m[key].items|
      && forall i :: 0 <= i < |m[key].items| ==>
        PluginNameList(m, key).value[i] == ReplaceChar(ToStr(m[key].items[i]), ' ', '_')
  {
  }

  /** A list with a null item, or a null value, is "invalid <key> format"; another non-list is of wrong type. */
  lemma PluginNameListErrors(m: map<string, Yaml>, key: string)
    requires key in m
    ensures m[key] == YNull || (m[key].YList? && HasNull(m[key].items)) ==>
      PluginNameList(m, key) == Failure(InvalidDescription("invalid " + key + " format"))
    ensures !m[key].YList? && m[key] != YNull ==> PluginNameList(m, key) == Failure(InvalidDescription(key + " is of wrong type"))
  {
  }

  /**
   * The commands table holds exactly the keys of the `commands` entries,
   * and each command's settings the keys of its entries.
   */
  lemma {:induction false} CommandTableKeys(entries: seq<YEntry>)
    requires CommandTable(entries).Success?
    ensures forall k :: k in CommandTable(entries).value <==> exists i :: 0 <= i < |entries| && entries[i].key == k
    ensures forall i :: 0 <= i < |entries| ==> StringKey(entries[i].key) && entries[i].value.YMap?
  {
    if |entries| > 0 {
      var init := entries[..|entries| - 1];
      CommandTableKeys(init);
      forall k ensures k in CommandTable(entries).value <==> exists i :: 0 <= i < |entries| && entries[i].key == k {
        if exists i :: 0 <= i < |init| && init[i].key == k {
          var i :| 0 <= i < |init| && init[i].key == k;
          assert entries[i].key == k;
        }
        if exists i :: 0 <= i < |entries| && entries[i].key == k {
          var i :| 0 <= i < |entries| && entries[i].key == k;
          if i < |init| {
            assert init[i].key == k;
          }
        }
      }
      forall i | 0 <= i < |entries| ensures StringKey(entries[i].key) && entries[i].value.YMap? {
        if i < |init| {
          assert entries[i] == init[i];
        }
      }
    }
  }

  /** The full name holds the name, then " v", then the version. */
  lemma FullNameSplits(d: PluginDescription)
    ensures GetFullName(d)[..|d.name|] == d.name
    ensures GetFullName(d)[|d.name|] == ' ' && GetFullName(d)[|d.name| + 1] == 'v'
    ensures GetFullName(d)[|d.name| + 2..] == d.version
  {
  }

  /** In the full name of a described plugin, the first space ends the name: name and version can be read back. */
  lemma FullNameReadsBack(m: map<string, Yaml>, orders: set<string>)
    requires Describe(m, orders).Success?
    ensures var d := Describe(m, orders).value;
      ScanWhile(GetFullName(d), 0, c => c != ' ') == |d.name|
      && GetFullName(d)[..|d.name|] == d.name && GetFullName(d)[|d.name| + 2..] == d.version
  {
    var d := Describe(m, orders).value;
    NameSpacesReplaced(m, orders);
    FullNameSplits(d);
    ScanWhileStopsAt(GetFullName(d), 0, |d.name|, c => c != ' ');
  }
}
