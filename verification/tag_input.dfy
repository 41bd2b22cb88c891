/** The tag input field: the list of tags chosen so far and the text being typed, with adding
    the typed tag, removing a tag by position and the key bindings that trigger them. */
module TagInput {

  import opened Text

  /** The tags (held by the parent form) and the field's current text. */
  datatype Field = Field(tags: seq<string>, input: string)

  ghost predicate NoDuplicates(s: seq<string>)
  {
    forall i, j :: 0 <= i < j < |s| ==> s[i] != s[j]
  }

  /** `addTag`, run on Enter, on ',' and when the field loses focus: the trimmed text is
      appended when it is non-empty and not yet a tag, and the field is cleared; otherwise
      nothing changes, the typed text included. */
  function AddTag(f: Field): (r: Field)
    ensures var t := Trim(f.input);
      if !IsBlank(f.input) && t !in f.tags then r == Field(f.tags + [t], "") else r == f
  {
    var trimmed := Trim(f.input);
    if |trimmed| > 0 && trimmed !in f.tags then Field(f.tags + [trimmed], "") else f
  }

  /** Adding a tag never creates a duplicate. */
  lemma AddTagKeepsNoDuplicates(f: Field)
    requires NoDuplicates(f.tags)
    ensures NoDuplicates(AddTag(f).tags)
  {
    var r := AddTag(f).tags;
    if r != f.tags {
      var t := Trim(f.input);
      assert r == f.tags + [t] && t !in f.tags;
      forall i, j | 0 <= i < j < |r|
        ensures r[i] != r[j]
      {
        assert r[i] == f.tags[i];
        if j == |f.tags| {
          assert r[j] == t;
        } else {
          assert r[j] == f.tags[j];
        }
      }
    }
  }

  /** The elements of `s` from position `from` on whose index is not `index`: the source's
      `filter((_, i) => i !== index)`. */
  function SkipIndex(s: seq<string>, index: int, from: nat): (r: seq<string>)
    requires from <= |s|
    ensures from <= index < |s| ==> r == s[from..index] + s[index + 1..]
    ensures !(from <= index < |s|) ==> r == s[from..]
    decreases |s| - from
  {
    if from == |s| then []
    else (if from == index then [] else [s[from]]) + SkipIndex(s, index, from + 1)
  }

  /** `removeTag(index)`: the tag at that position is dropped and the others keep their order;
      an index outside the list changes nothing. */
  function RemoveTag(tags: seq<string>, index: int): (r: seq<string>)
    ensures 0 <= index < |tags| ==> r == tags[..index] + tags[index + 1..] && |r| == |tags| - 1
    ensures !(0 <= index < |tags|) ==> r == tags
  {
    SkipIndex(tags, index, 0)
  }

  /** Removing a tag never creates a duplicate. */
  lemma RemoveTagKeepsNoDuplicates(tags: seq<string>, index: int)
    requires NoDuplicates(tags)
    ensures NoDuplicates(RemoveTag(tags, index))
  {
    var r := RemoveTag(tags, index);
    if 0 <= index < |tags| {
      forall i, j | 0 <= i < j < |r|
        ensures r[i] != r[j]
      {
        var i' := if i < index then i else i + 1;
        var j' := if j < index then j else j + 1;
        assert r[i] == tags[i'] && r[j] == tags[j'];
      }
    }
  }

  /** `handleKeyDown`: Enter and ',' add the typed tag; Backspace in an empty field removes the
      last tag; every other key leaves the tags and the text alone. */
  function HandleKeyDown(f: Field, key: string): (r: Field)
    ensures key == "Enter" || key == "," ==> r == AddTag(f)
    ensures key == "Backspace" && f.input == "" && |f.tags| > 0 ==>
      r == Field(f.tags[..|f.tags| - 1], "")
    ensures key == "Backspace" && !(f.input == "" && |f.tags| > 0) ==> r == f
    ensures key != "Enter" && key != "," && key != "Backspace" ==> r == f
  {
    if key == "Enter" || key == "," then AddTag(f)
    else if key == "Backspace" && f.input == "" && |f.tags| > 0 then f.(tags := RemoveTag(f.tags, |f.tags| - 1))
    else f
  }

  /** No key binding creates a duplicate tag. */
  lemma HandleKeyDownKeepsNoDuplicates(f: Field, key: string)
    requires NoDuplicates(f.tags)
    ensures NoDuplicates(HandleKeyDown(f, key).tags)
  {
    AddTagKeepsNoDuplicates(f);
    if |f.tags| > 0 {
      RemoveTagKeepsNoDuplicates(f.tags, |f.tags| - 1);
    }
  }
}
