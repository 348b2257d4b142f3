/**
 * Tags and joins: the tag list read from `Labels.txt` (`extract_tags`), the
 * lookup of a label name in it (`tag_id_from_name`), and the join entries
 * linking a note to the tags it references (`create_join_entries`).
 */
module Tags {
  import opened Wrappers
  import opened Records
  import opened Traversal
  import opened Strip

  /**
   * `extract_tags`: `labelLines` are the lines of the label file, each with
   * its line break, or None when there is no such file. Tag `i` (from 1) is
   * line `i`, stripped of surrounding whitespace; no file gives no tags.
   */
  method ExtractTags(labelLines: Option<seq<string>>) returns (tags: seq<Tag>)
    ensures labelLines.None? ==> tags == []
    ensures labelLines.Some? ==>
              && |tags| == |labelLines.value|
              && forall i :: 0 <= i < |tags| ==> tags[i] == Tag(i + 1, StripSpace(labelLines.value[i]))
  {
    if labelLines.None? {
      return [];
    }
    var lines := labelLines.value;
    tags := [];
    for i := 0 to |lines|
      invariant |tags| == i
      invariant forall k :: 0 <= k < i ==> tags[k] == Tag(k + 1, StripSpace(lines[k]))
    {
      var tag := Tag(i + 1, StripSpace(lines[i]));
      tags := tags + [tag];
    }
  }

  /** Tag `k` is the first tag named `name`. */
  predicate FirstNamed(tags: seq<Tag>, name: string, k: nat)
  {
    && k < |tags|
    && tags[k].name == name
    && forall i :: 0 <= i < k ==> tags[i].name != name
  }

  /** The id of the first tag named `name`, or UnknownTag when there is none. */
  function FindTag(tags: seq<Tag>, name: string): Result<int, Error>
    decreases |tags|
  {
    if tags == [] then Failure(UnknownTag(name))
    else if tags[0].name == name then Success(tags[0].id)
    else FindTag(tags[1..], name)
  }

  /**
   * Lookup is by exact name and the first match wins: it succeeds exactly when
   * some tag has the name, giving the id of the first such tag, and otherwise
   * fails naming the label it could not find.
   */
  lemma {:induction false} FindTagFirstMatch(tags: seq<Tag>, name: string)
    ensures FindTag(tags, name).Success? <==> exists k :: 0 <= k < |tags| && tags[k].name == name
    ensures FindTag(tags, name).Success? ==>
              exists k: nat :: FirstNamed(tags, name, k) && tags[k].id == FindTag(tags, name).value
    ensures FindTag(tags, name).Failure? ==> FindTag(tags, name).error == UnknownTag(name)
    decreases |tags|
  {
    if tags != [] && tags[0].name != name {
      var rest := tags[1..];
      FindTagFirstMatch(rest, name);
      assert forall k :: 0 < k < |tags| ==> tags[k] == rest[k - 1];
      if FindTag(rest, name).Success? {
        var k: nat :| FirstNamed(rest, name, k) && rest[k].id == FindTag(rest, name).value;
        assert FirstNamed(tags, name, k + 1);
      }
    } else if tags != [] {
      assert FirstNamed(tags, name, 0);
    }
  }

  /** `tag_id_from_name`: a linear scan that returns at the first tag with the name. */
  method TagIdFromName(tags: seq<Tag>, name: string) returns (r: Result<int, Error>)
    ensures r == FindTag(tags, name)
  {
    for i := 0 to |tags|
      invariant FindTag(tags[i..], name) == FindTag(tags, name)
    {
      assert tags[i..][1..] == tags[i + 1..];
      if tags[i].name == name {
        return Success(tags[i].id);
      }
    }
    return Failure(UnknownTag(name));
  }

  /** The join entry for one label reference of note `noteId`. */
  function JoinOf(noteId: int, tags: seq<Tag>, labelRef: KeepLabel): Result<JoinEntry, Error>
  {
    var name :- Require(labelRef.name, "name");
    var tagId :- FindTag(tags, name);
    Success(JoinEntry(tagId, noteId))
  }

  function JoinStep(noteId: int, tags: seq<Tag>): (nat, KeepLabel) -> Result<JoinEntry, Error>
  {
    (i: nat, labelRef: KeepLabel) => JoinOf(noteId, tags, labelRef)
  }

  /** The join entries of note `noteId`, one per label reference, in order. */
  function JoinsOf(noteId: int, labels: seq<KeepLabel>, tags: seq<Tag>): Result<seq<JoinEntry>, Error>
  {
    Traverse(JoinStep(noteId, tags), labels)
  }

  /** `create_join_entries`: resolves the note's label references one by one. */
  method CreateJoinEntries(noteId: int, noteTags: seq<KeepLabel>, tags: seq<Tag>)
    returns (r: Result<seq<JoinEntry>, Error>)
    ensures r == JoinsOf(noteId, noteTags, tags)
  {
    var entries: seq<JoinEntry> := [];
    for i := 0 to |noteTags|
      invariant JoinsOf(noteId, noteTags[..i], tags) == Success(entries)
    {
      var noteTag := noteTags[i];
      assert noteTags[..i + 1][..i] == noteTags[..i];
      if noteTag.name.None? {
        TraversePrefixFailure(JoinStep(noteId, tags), noteTags, i + 1);
        return Failure(MissingKey("name"));
      }
      var tagId := TagIdFromName(tags, noteTag.name.value);
      if tagId.Failure? {
        TraversePrefixFailure(JoinStep(noteId, tags), noteTags, i + 1);
        return Failure(tagId.error);
      }
      entries := entries + [JoinEntry(tagId.value, noteId)];
    }
    assert noteTags[..|noteTags|] == noteTags;
    return Success(entries);
  }

  /** Every label reference names a label, and a tag of that name exists. */
  predicate Resolvable(labels: seq<KeepLabel>, tags: seq<Tag>)
  {
    forall i :: 0 <= i < |labels| ==>
      labels[i].name.Some? && exists k :: 0 <= k < |tags| && tags[k].name == labels[i].name.value
  }

  /**
   * Joins are built exactly when every reference resolves: then there is one
   * entry per reference, in order, each for note `noteId` and for the first
   * tag with the referenced name. Otherwise the error names the first
   * reference that does not resolve (every earlier one resolves, and this
   * one has no name or no tag carries it): a missing `name` key or an
   * unknown label.
   */
  lemma JoinsOfResolve(noteId: int, labels: seq<KeepLabel>, tags: seq<Tag>)
    ensures JoinsOf(noteId, labels, tags).Success? <==> Resolvable(labels, tags)
    ensures JoinsOf(noteId, labels, tags).Success? ==>
              var joins := JoinsOf(noteId, labels, tags).value;
              && |joins| == |labels|
              && forall i :: 0 <= i < |joins| ==>
                   && joins[i].noteId == noteId
                   && exists k: nat :: FirstNamed(tags, labels[i].name.value, k) && joins[i].tagId == tags[k].id
    ensures JoinsOf(noteId, labels, tags).Failure? ==>
              exists i :: 0 <= i < |labels| && Resolvable(labels[..i], tags) &&
                !(labels[i].name.Some? && exists k :: 0 <= k < |tags| && tags[k].name == labels[i].name.value) &&
                JoinsOf(noteId, labels, tags).error ==
                  (if labels[i].name.None? then MissingKey("name") else UnknownTag(labels[i].name.value))
  {
    var f := JoinStep(noteId, tags);
    TraverseSuccess(f, labels);
    forall i | 0 <= i < |labels|
      ensures f(i, labels[i]).Success? <==>
                labels[i].name.Some? && exists k :: 0 <= k < |tags| && tags[k].name == labels[i].name.value
      ensures f(i, labels[i]).Success? ==>
                && f(i, labels[i]).value.noteId == noteId
                && exists k: nat :: FirstNamed(tags, labels[i].name.value, k) && f(i, labels[i]).value.tagId == tags[k].id
      ensures f(i, labels[i]).Failure? ==>
                f(i, labels[i]).error ==
                  (if labels[i].name.None? then MissingKey("name") else UnknownTag(labels[i].name.value))
    {
      if labels[i].name.Some? {
        FindTagFirstMatch(tags, labels[i].name.value);
      }
    }
    if JoinsOf(noteId, labels, tags).Failure? {
      TraverseFirstFailure(f, labels);
      var i: nat :| FailsFirstAt(f, labels, i) && f(i, labels[i]).error == Traverse(f, labels).error;
      assert Resolvable(labels[..i], tags) by {
        forall j | 0 <= j < i
          ensures labels[..i][j].name.Some?
          ensures exists k :: 0 <= k < |tags| && tags[k].name == labels[..i][j].name.value
        {
          assert labels[..i][j] == labels[j] && f(j, labels[j]).Success?;
        }
      }
    }
  }

  /** The example of a label list with a repeated name: lookup gives the first. */
  lemma FirstMatchExample()
    ensures FindTag([Tag(1, "Work"), Tag(2, "Home"), Tag(3, "Work")], "Work") == Success(1)
    ensures FindTag([Tag(1, "Work"), Tag(2, "Home"), Tag(3, "Work")], "Home") == Success(2)
    ensures FindTag([Tag(1, "Work"), Tag(2, "Home"), Tag(3, "Work")], "Play") == Failure(UnknownTag("Play"))
  {
  }
}
