/**
 * `ListTagBasic`: an NBT list tag.  Every edit copies the current list,
 * changes the copy and installs it; the first edit of an `END`-typed
 * list fixes the list's element type.
 */
module ListTagBasic {
  import opened Wrappers

  /** The NBT tag types; `END` is the type of an empty, untyped list. */
  datatype TagType =
    | End | Byte | Short | Int | Long | Float | Double | ByteArray | String | List | Compound | IntArray | LongArray

  /** A tag: its type and, standing for its contents, a value. */
  datatype Tag = Tag(tagType: TagType, value: int)

  /** Why an edit throws: an `END` tag, a tag of another type, or an index out of range. */
  datatype ListError = EndTag | WrongType(given: TagType, listType: TagType) | IndexOutOfBounds(index: int, size: nat)

  /** The two fields of a list tag. */
  datatype ListState = ListState(original: seq<Tag>, listType: TagType)

  /** Every element has the list's type, which is not `END`: the list is a well-formed NBT list. */
  predicate Typed(s: ListState)
  {
    forall i :: 0 <= i < |s.original| ==> s.original[i].tagType == s.listType && s.listType != End
  }

  /**
   * `edit(consumer, type)` once the consumer has produced `tags`: the
   * copy is installed, and an `END`-typed list takes `type` unless it is
   * `NONE` (here `None`).
   */
  function Edit(s: ListState, tags: seq<Tag>, editType: Option<TagType>): (r: ListState)
    ensures r.original == tags
    ensures editType.Some? && s.listType == End ==> r.listType == editType.value
    ensures editType.None? || s.listType != End ==> r.listType == s.listType
  {
    if editType.Some? && s.listType == End then ListState(tags, editType.value) else ListState(tags, s.listType)
  }

  /** `add(tag)`: rejects an `END` tag, then a tag whose type differs from a typed list's, else appends. */
  function AddTag(s: ListState, tag: Tag): (r: Result<ListState, ListError>)
    ensures tag.tagType == End ==> r == Failure(EndTag)
    ensures tag.tagType != End && s.listType != End && tag.tagType != s.listType ==>
      r == Failure(WrongType(tag.tagType, s.listType))
    ensures r.Success? ==> r.value.original == s.original + [tag] && r.value.listType == tag.tagType
  {
    if tag.tagType == End then Failure(EndTag)
    else if s.listType != End && tag.tagType != s.listType then Failure(WrongType(tag.tagType, s.listType))
    else Success(Edit(s, s.original + [tag], Some(tag.tagType)))
  }

  /** `remove(key)`: drops the element at `key`, keeping the type; an index out of range throws. */
  function RemoveAt(s: ListState, key: int): (r: Result<ListState, ListError>)
    ensures r.Success? <==> 0 <= key < |s.original|
    ensures r.Failure? ==> r.error == IndexOutOfBounds(key, |s.original|)
    ensures r.Success? ==> r.value.listType == s.listType && |r.value.original| == |s.original| - 1
  {
    if 0 <= key < |s.original| then Success(Edit(s, s.original[..key] + s.original[key + 1..], None))
    else Failure(IndexOutOfBounds(key, |s.original|))
  }

  /** `set(key, tag)` as written: replaces the element with no check of the tag's type. */
  function SetAt(s: ListState, key: int, tag: Tag): (r: Result<ListState, ListError>)
    ensures r.Success? <==> 0 <= key < |s.original|
    ensures r.Failure? ==> r.error == IndexOutOfBounds(key, |s.original|)
    ensures r.Success? ==> |r.value.original| == |s.original| && r.value.original[key] == tag
  {
    if 0 <= key < |s.original| then Success(Edit(s, s.original[key := tag], Some(tag.tagType)))
    else Failure(IndexOutOfBounds(key, |s.original|))
  }

  /** `set(key, tag)` corrected: the same checks as `add` before the replacement. */
  function SetAtCorrected(s: ListState, key: int, tag: Tag): (r: Result<ListState, ListError>)
    ensures r.Success? <==> AddTag(s, tag).Success? && 0 <= key < |s.original|
    ensures r.Success? ==> r == SetAt(s, key, tag)
  {
    if tag.tagType == End then Failure(EndTag)
    else if s.listType != End && tag.tagType != s.listType then Failure(WrongType(tag.tagType, s.listType))
    else SetAt(s, key, tag)
  }

  /** `get(key)`: the element, or `IndexOutOfBoundsException`. */
  function GetAt(s: ListState, key: int): (r: Result<Tag, ListError>)
    ensures r.Success? <==> 0 <= key < |s.original|
    ensures r.Success? ==> r.value in s.original && r.value == s.original[key]
    ensures r.Failure? ==> r.error == IndexOutOfBounds(key, |s.original|)
  {
    if 0 <= key < |s.original| then Success(s.original[key]) else Failure(IndexOutOfBounds(key, |s.original|))
  }

  /** The first index at which `tag` occurs in `tags`. */
  function IndexOf(tags: seq<Tag>, tag: Tag): (i: nat)
    requires tag in tags
    ensures i < |tags| && tags[i] == tag
  {
    if tags[0] == tag then 0 else 1 + IndexOf(tags[1..], tag)
  }

  /** The state after an edit: the new state, or the old one when the edit threw. */
  function After(s: ListState, r: Result<ListState, ListError>): ListState
  {
    if r.Success? then r.value else s
  }

  /** The error an edit threw, if any. */
  function ErrorOf(r: Result<ListState, ListError>): Option<ListError>
  {
    if r.Failure? then Some(r.error) else None
  }

  class ListTagBasic {
    var original: seq<Tag>
    var listType: TagType

    function State(): ListState
      reads this
    {
      ListState(original, listType)
    }

    constructor (original: seq<Tag>, listType: TagType)
      ensures State() == ListState(original, listType)
    {
      this.original := original;
      this.listType := listType;
    }

    /** `all()`: the elements, exactly those `get` returns, in index order. */
    function All(): (r: seq<Tag>)
      reads this
      ensures forall i :: 0 <= i < |r| ==> GetAt(State(), i) == Success(r[i])
      ensures GetAt(State(), |r|).Failure?
    {
      original
    }

    /** `getListType()`: the one type `add` accepts once the list is typed, and the type of all its elements. */
    function GetListType(): (r: TagType)
      reads this
      ensures r != End ==> forall t :: AddTag(State(), t).Success? <==> t.tagType == r
      ensures r == End ==> forall t :: AddTag(State(), t).Success? <==> t.tagType != End
      ensures Typed(State()) ==> forall i :: 0 <= i < |original| ==> original[i].tagType == r
    {
      listType
    }

    /** `contains(tag)`: the tag is one `get` returns; a well-formed list holds only tags of its own type. */
    predicate Contains(tag: Tag)
      reads this
      ensures Contains(tag) <==> exists i :: 0 <= i < |original| && GetAt(State(), i) == Success(tag)
      ensures Typed(State()) && Contains(tag) ==> tag.tagType == GetListType() && tag.tagType != End
    {
      assert tag in original ==> GetAt(State(), IndexOf(original, tag)) == Success(tag);
      tag in original
    }

    /** `get(key)`. */
    function Get(key: int): (r: Result<Tag, ListError>)
      reads this
      ensures r.Success? <==> 0 <= key < |All()|
      ensures r.Success? ==> Contains(r.value) && r.value == All()[key]
    {
      GetAt(State(), key)
    }

    /** `add(tag)`: on an exception nothing changes. */
    method Add(tag: Tag) returns (error: Option<ListError>)
      modifies this
      ensures State() == After(old(State()), AddTag(old(State()), tag))
      ensures error == ErrorOf(AddTag(old(State()), tag))
    {
      if tag.tagType == End {
        return Some(EndTag);
      }
      if listType != End && tag.tagType != listType {
        return Some(WrongType(tag.tagType, listType));
      }
      var tags := original + [tag];
      EditWith(tags, Some(tag.tagType));
      error := None;
    }

    /** `remove(key)`. */
    method Remove(key: int) returns (error: Option<ListError>)
      modifies this
      ensures State() == After(old(State()), RemoveAt(old(State()), key))
      ensures error == ErrorOf(RemoveAt(old(State()), key))
    {
      if !(0 <= key < |original|) {
        return Some(IndexOutOfBounds(key, |original|));
      }
      var tags := original[..key] + original[key + 1..];
      EditWith(tags, None);
      error := None;
    }

    /** `set(key, tag)`, as written. */
    method Set(key: int, tag: Tag) returns (error: Option<ListError>)
      modifies this
      ensures State() == After(old(State()), SetAt(old(State()), key, tag))
      ensures error == ErrorOf(SetAt(old(State()), key, tag))
    {
      if !(0 <= key < |original|) {
        return Some(IndexOutOfBounds(key, |original|));
      }
      var tags := original[key := tag];
      EditWith(tags, Some(tag.tagType));
      error := None;
    }

    /** `edit`, once the consumer has run on the copy: installs it and fixes the type of an `END` list. */
    method EditWith(tags: seq<Tag>, editType: Option<TagType>)
      modifies this
      ensures State() == Edit(old(State()), tags, editType)
    {
      if editType.Some? && listType == End {
        original := tags;
        listType := editType.value;
      } else {
        original := tags;
      }
    }
  }

  /** `add` succeeds exactly on a non-`END` tag that matches a typed list, and then appends it. */
  lemma AddSucceedsIff(s: ListState, tag: Tag)
    ensures AddTag(s, tag).Success? <==> tag.tagType != End && (s.listType == End || tag.tagType == s.listType)
  {
  }

  /** `add` keeps a well-formed list well-formed. */
  lemma AddKeepsTyped(s: ListState, tag: Tag)
    requires Typed(s) && AddTag(s, tag).Success?
    ensures Typed(AddTag(s, tag).value)
  {
    var r := AddTag(s, tag).value;
    assert r.listType == tag.tagType;
    if |s.original| > 0 {
      assert s.original[0].tagType == s.listType;
    }
  }

  /** `remove` takes out exactly the one element at `key` and keeps the type. */
  lemma RemoveTakesOne(s: ListState, key: int)
    requires 0 <= key < |s.original|
    ensures var r := RemoveAt(s, key).value;
      r.listType == s.listType && |r.original| == |s.original| - 1
      && multiset(r.original) + multiset{s.original[key]} == multiset(s.original)
      && (forall i :: 0 <= i < key ==> r.original[i] == s.original[i])
      && (forall i :: key <= i < |r.original| ==> r.original[i] == s.original[i + 1])
  {
    assert s.original == s.original[..key] + [s.original[key]] + s.original[key + 1..];
  }

  /** `remove` keeps a well-formed list well-formed. */
  lemma RemoveKeepsTyped(s: ListState, key: int)
    requires Typed(s) && RemoveAt(s, key).Success?
    ensures Typed(RemoveAt(s, key).value)
  {
    RemoveTakesOne(s, key);
  }

  /** `set` as written puts a `STRING` tag into an `INT` list: the list is no longer well-formed. */
  lemma SetBreaksTyped()
    ensures var s := ListState([Tag(Int, 7)], Int);
      Typed(s) && SetAt(s, 0, Tag(String, 0)).Success? && !Typed(SetAt(s, 0, Tag(String, 0)).value)
  {
    var r := SetAt(ListState([Tag(Int, 7)], Int), 0, Tag(String, 0)).value;
    assert r.original[0].tagType == String;
  }

  /** The corrected `set` keeps a well-formed list well-formed and fails only where `add` or the index would. */
  lemma SetCorrectedKeepsTyped(s: ListState, key: int, tag: Tag)
    requires Typed(s)
    ensures SetAtCorrected(s, key, tag).Success? ==> Typed(SetAtCorrected(s, key, tag).value)
  {
    if SetAtCorrected(s, key, tag).Success? {
      var r := SetAtCorrected(s, key, tag).value;
      if |s.original| > 0 {
        assert s.original[0].tagType == s.listType;
      }
      forall i | 0 <= i < |r.original| ensures r.original[i].tagType == r.listType && r.listType != End {
        if i != key {
          assert r.original[i] == s.original[i];
        }
      }
    }
  }

  /** `set` replaces the one element and leaves the rest. */
  lemma SetReplacesOne(s: ListState, key: int, tag: Tag)
    requires 0 <= key < |s.original|
    ensures var r := SetAt(s, key, tag).value;
      |r.original| == |s.original| && r.original[key] == tag
      && forall i :: 0 <= i < |s.original| && i != key ==> r.original[i] == s.original[i]
  {
  }
}
