/**
 * The tag editor of a note (`TagInput`): a text field whose Enter or comma
 * turns the typed text into a tag and whose Backspace on an empty field
 * removes the last tag. The tag list belongs to the caller; the component
 * owns only the text of the field and hands every new list to `onChange`.
 */
module TagInput {
  import opened Wrappers
  import Ascii
  import Lists

  /** `raw.trim().toLowerCase()`: the form in which tags are stored. */
  function Normalize(raw: string): (r: string)
    ensures |r| <= |raw|
    ensures r == [] <==> Ascii.Blank(raw)
  {
    Ascii.ToLower(Ascii.Trim(raw))
  }

  /** A stored tag: no white space at either end, no upper-case ASCII letter. */
  predicate Normalized(tag: string) {
    && (tag == [] || (!Ascii.IsSpace(tag[0]) && !Ascii.IsSpace(tag[|tag| - 1])))
    && forall i :: 0 <= i < |tag| ==> Ascii.LowerChar(tag[i]) == tag[i]
  }

  /** `Normalize` always produces a stored tag. */
  lemma NormalizeIsNormalized(raw: string)
    ensures Normalized(Normalize(raw))
  {
    var trimmed := Ascii.Trim(raw);
    Ascii.ToLowerKeepsEnds(trimmed);
    Ascii.ToLowerIsLower(trimmed);
  }

  /** A stored tag normalizes to itself, so normalizing twice is normalizing once. */
  lemma NormalizedIsFixed(tag: string)
    requires Normalized(tag)
    ensures Normalize(tag) == tag
  {
    Ascii.TrimOfTrimmed(tag);
  }

  predicate Distinct(tags: seq<string>) {
    forall i, j :: 0 <= i < j < |tags| ==> tags[i] != tags[j]
  }

  /**
   * `addTag(raw)`: the list handed to `onChange`, or `None` when `onChange`
   * is not called (blank text, or a tag already present).
   */
  function WithTag(tags: seq<string>, raw: string): (r: Option<seq<string>>)
    ensures r.Some? <==> !Ascii.Blank(raw) && Normalize(raw) !in tags
    ensures r.Some? ==> |r.value| == |tags| + 1 && r.value[..|tags|] == tags && r.value[|tags|] == Normalize(raw)
  {
    var trimmed := Normalize(raw);
    if trimmed != [] && trimmed !in tags then Some(tags + [trimmed]) else None
  }

  /** Adding never introduces a duplicate. */
  lemma WithTagKeepsDistinct(tags: seq<string>, raw: string)
    requires Distinct(tags)
    ensures WithTag(tags, raw).Some? ==> Distinct(WithTag(tags, raw).value)
  {
  }

  /** Adding to a list of stored tags leaves every tag in stored form. */
  lemma WithTagKeepsNormalized(tags: seq<string>, raw: string)
    requires forall t :: t in tags ==> Normalized(t)
    ensures WithTag(tags, raw).Some? ==> forall t :: t in WithTag(tags, raw).value ==> Normalized(t)
  {
    NormalizeIsNormalized(raw);
  }

  /** `removeTag(tag)`: every occurrence of `tag` removed, the rest kept in order. */
  function WithoutTag(tags: seq<string>, tag: string): (r: seq<string>)
    ensures forall t :: t in r <==> t in tags && t != tag
    ensures forall t :: multiset(r)[t] == if t == tag then 0 else multiset(tags)[t]
  {
    Lists.KeepWhereCounts(tags, t => t != tag);
    Lists.KeepWhere(tags, t => t != tag)
  }

  /** Removing a tag that is not there hands back the same list. */
  lemma WithoutAbsentTag(tags: seq<string>, tag: string)
    requires tag !in tags
    ensures WithoutTag(tags, tag) == tags
  {
    Lists.KeepWhereAll(tags, t => t != tag);
  }

  /** Removing the last tag of a duplicate-free list drops exactly that tag. */
  lemma WithoutLastTag(tags: seq<string>)
    requires tags != [] && Distinct(tags)
    ensures WithoutTag(tags, tags[|tags| - 1]) == tags[..|tags| - 1]
  {
    var last := tags[|tags| - 1];
    var front := tags[..|tags| - 1];
    assert tags == front + [last];
    Lists.KeepWhereAppend(front, [last], t => t != last);
    assert last !in front;
    Lists.KeepWhereAll(front, t => t != last);
  }

  /** The field: the text typed so far. */
  class TagField {
    var input: string

    constructor()
      ensures input == ""
    {
      input := "";
    }

    /** The field's change handler. */
    method SetInput(text: string)
      modifies this
      ensures input == text
    {
      input := text;
    }

    /** `addTag`: the field is cleared whether or not a tag was added. */
    method AddTag(tags: seq<string>, raw: string) returns (emitted: Option<seq<string>>)
      modifies this
      ensures emitted == WithTag(tags, raw)
      ensures input == ""
    {
      emitted := WithTag(tags, raw);
      input := "";
    }

    /**
     * `handleKeyDown`: `emitted` is the list handed to `onChange`, if any;
     * `prevented` says whether the key's default action was cancelled.
     */
    method HandleKeyDown(tags: seq<string>, key: string) returns (emitted: Option<seq<string>>, prevented: bool)
      modifies this
      ensures (key == "Enter" || key == ",") && !Ascii.Blank(old(input)) ==>
        emitted == WithTag(tags, old(input)) && prevented && input == ""
      ensures key == "Backspace" && old(input) == "" && tags != [] ==>
        emitted == Some(WithoutTag(tags, tags[|tags| - 1])) && !prevented && input == old(input)
      ensures !((key == "Enter" || key == ",") && !Ascii.Blank(old(input))) && !(key == "Backspace" && old(input) == "" && tags != []) ==>
        emitted.None? && !prevented && input == old(input)
    {
      emitted, prevented := None, false;
      if (key == "Enter" || key == ",") && Ascii.Trim(input) != "" {
        prevented := true;
        emitted := AddTag(tags, input);
      }
      if key == "Backspace" && input == "" && |tags| > 0 {
        emitted := Some(WithoutTag(tags, tags[|tags| - 1]));
      }
    }
  }

  /**
   * Typing a new tag and pressing Enter appends it; Backspace on the now
   * empty field takes it off again, leaving the list as it was.
   */
  method EnterThenBackspace(tags: seq<string>, typed: string)
    returns (afterEnter: Option<seq<string>>, afterBackspace: Option<seq<string>>)
    requires Distinct(tags) && !Ascii.Blank(typed) && Normalize(typed) !in tags
    ensures afterEnter == Some(tags + [Normalize(typed)])
    ensures afterBackspace == Some(tags)
  {
    var field := new TagField();
    field.SetInput(typed);
    var prevented;
    afterEnter, prevented := field.HandleKeyDown(tags, "Enter");
    var grown := afterEnter.value;
    WithTagKeepsDistinct(tags, typed);
    assert grown[..|grown| - 1] == tags;
    WithoutLastTag(grown);
    afterBackspace, prevented := field.HandleKeyDown(grown, "Backspace");
  }
}
