/**
 * Converting one Google Keep note into one Quillpad note (`convert_note`).
 * NoteOf states the whole field mapping as one expression; ConvertNote
 * builds the note key by key as the converter does and is proved to give
 * exactly NoteOf; the lemmas state what NoteOf promises field by field.
 */
module Notes {
  import opened Wrappers
  import opened Records
  import opened Traversal
  import opened Untitled

  /** Keep timestamps are in microseconds, Quillpad dates in seconds. */
  const MicrosPerSecond: int := 1_000_000

  /** Every converted note goes into the single imported notebook. */
  const ImportNotebookId: int := 1

  /** What converting a note yields: the Quillpad note, its raw label references, and the attachment paths to copy. */
  datatype ConvertedNote = ConvertedNote(note: QuillpadNote, labels: seq<KeepLabel>, attachmentPaths: seq<string>)

  /** Checklist entry number `j` becomes task `j`. */
  function TaskOf(j: nat, item: KeepListItem): Result<TaskItem, Error>
  {
    var isDone :- Require(item.isChecked, "isChecked");
    var content :- Require(item.text, "text");
    Success(TaskItem(j, isDone, content))
  }

  function PathOf(j: nat, attachment: KeepAttachment): Result<string, Error>
  {
    Require(attachment.filePath, "filePath")
  }

  /** One attachment record per path, the path serving as both description and file name. */
  function RecordsOf(paths: seq<string>): seq<AttachmentRecord>
  {
    seq(|paths|, i requires 0 <= i < |paths| => AttachmentRecord(paths[i], paths[i]))
  }

  /** The task list, when the note has a `listContent` key. */
  function TasksOf(listContent: Option<seq<KeepListItem>>): Result<Option<seq<TaskItem>>, Error>
  {
    match listContent
    case None => Success(None)
    case Some(items) =>
      var tasks :- Traverse(TaskOf, items);
      Success(Some(tasks))
  }

  /** The attachment paths, when the note has an `attachments` key. */
  function PathsOf(attachments: Option<seq<KeepAttachment>>): Result<Option<seq<string>>, Error>
  {
    match attachments
    case None => Success(None)
    case Some(entries) =>
      var paths :- Traverse(PathOf, entries);
      Success(Some(paths))
  }

  /**
   * The keys every note must have, read in the converter's order (the first
   * one absent is the one reported), and the fields they determine: the given
   * id, dates in whole seconds, the import notebook, the title unless the
   * stem is an untitled name, the flags that are true, the colour when the
   * table maps it, and the text body when there is one.
   */
  function HeaderOf(id: int, stem: string, gk: KeepNote, colors: map<string, string>): Result<QuillpadNote, Error>
  {
    if gk.createdTimestampUsec.None? then Failure(MissingKey("createdTimestampUsec"))
    else if gk.userEditedTimestampUsec.None? then Failure(MissingKey("userEditedTimestampUsec"))
    else if gk.isArchived.None? then Failure(MissingKey("isArchived"))
    else if gk.isPinned.None? then Failure(MissingKey("isPinned"))
    else if gk.isTrashed.None? then Failure(MissingKey("isTrashed"))
    else if gk.color.None? then Failure(MissingKey("color"))
    else
      Success(QuillpadNote(
        id := id,
        creationDate := gk.createdTimestampUsec.value / MicrosPerSecond,
        modifiedDate := gk.userEditedTimestampUsec.value / MicrosPerSecond,
        notebookId := ImportNotebookId,
        title := if IsUntitled(stem) then None else Some(stem),
        isArchived := if gk.isArchived.value then Some(true) else None,
        isPinned := if gk.isPinned.value then Some(true) else None,
        isDeleted := if gk.isTrashed.value then Some(true) else None,
        color := if gk.color.value in colors then Some(colors[gk.color.value]) else None,
        content := gk.textContent,
        isList := None,
        taskList := None,
        attachments := None))
  }

  /**
   * The note with id `id` converted from the file with stem `stem` holding
   * `gk`, under colour table `colors`: the header, then the checklist, then
   * the attachments, each failing on the first key it misses.
   */
  function NoteOf(id: int, stem: string, gk: KeepNote, colors: map<string, string>): Result<ConvertedNote, Error>
  {
    var header :- HeaderOf(id, stem, gk, colors);
    var tasks :- TasksOf(gk.listContent);
    var paths :- PathsOf(gk.attachments);
    var note := header.(
      isList := if tasks.Some? then Some(true) else None,
      taskList := tasks,
      attachments := if paths.Some? then Some(RecordsOf(paths.value)) else None);
    Success(ConvertedNote(note, gk.labels.GetOr([]), paths.GetOr([])))
  }

  /** The checklist loop of `convert_note`: one task per entry, ids counting from 0. */
  method ConvertChecklist(items: seq<KeepListItem>) returns (r: Result<seq<TaskItem>, Error>)
    ensures r == Traverse(TaskOf, items)
  {
    var taskList: seq<TaskItem> := [];
    for j := 0 to |items|
      invariant Traverse(TaskOf, items[..j]) == Success(taskList)
    {
      var gkt := items[j];
      assert items[..j + 1][..j] == items[..j];
      if gkt.isChecked.None? {
        TraversePrefixFailure(TaskOf, items, j + 1);
        return Failure(MissingKey("isChecked"));
      }
      if gkt.text.None? {
        TraversePrefixFailure(TaskOf, items, j + 1);
        return Failure(MissingKey("text"));
      }
      taskList := taskList + [TaskItem(j, gkt.isChecked.value, gkt.text.value)];
    }
    assert items[..|items|] == items;
    return Success(taskList);
  }

  /** The attachments loop of `convert_note`: a record per attachment, and its path for copying. */
  method ConvertAttachments(entries: seq<KeepAttachment>)
    returns (r: Result<(seq<AttachmentRecord>, seq<string>), Error>)
    ensures r.Success? <==> Traverse(PathOf, entries).Success?
    ensures r.Failure? ==> r.error == Traverse(PathOf, entries).error
    ensures r.Success? ==> r.value.1 == Traverse(PathOf, entries).value && r.value.0 == RecordsOf(r.value.1)
  {
    var records: seq<AttachmentRecord> := [];
    var attachments: seq<string> := [];
    for j := 0 to |entries|
      invariant Traverse(PathOf, entries[..j]) == Success(attachments)
      invariant records == RecordsOf(attachments)
    {
      var gka := entries[j];
      assert entries[..j + 1][..j] == entries[..j];
      if gka.filePath.None? {
        TraversePrefixFailure(PathOf, entries, j + 1);
        return Failure(MissingKey("filePath"));
      }
      records := records + [AttachmentRecord(gka.filePath.value, gka.filePath.value)];
      attachments := attachments + [gka.filePath.value];
    }
    assert entries[..|entries|] == entries;
    return Success((records, attachments));
  }

  /** The first part of `convert_note`: the always-present keys, then the optional keys one at a time. */
  method ConvertHeader(id: int, stem: string, gk: KeepNote, colors: map<string, string>)
    returns (r: Result<QuillpadNote, Error>)
    ensures r == HeaderOf(id, stem, gk, colors)
  {
    if gk.createdTimestampUsec.None? {
      return Failure(MissingKey("createdTimestampUsec"));
    }
    if gk.userEditedTimestampUsec.None? {
      return Failure(MissingKey("userEditedTimestampUsec"));
    }
    var qp := QuillpadNote(
      id := id,
      creationDate := gk.createdTimestampUsec.value / MicrosPerSecond,
      modifiedDate := gk.userEditedTimestampUsec.value / MicrosPerSecond,
      notebookId := ImportNotebookId,
      title := None, isArchived := None, isPinned := None, isDeleted := None,
      color := None, content := None, isList := None, taskList := None, attachments := None);

    if !IsUntitled(stem) {
      qp := qp.(title := Some(stem));
    }
    if gk.isArchived.None? {
      return Failure(MissingKey("isArchived"));
    }
    if gk.isArchived.value {
      qp := qp.(isArchived := Some(true));
    }
    if gk.isPinned.None? {
      return Failure(MissingKey("isPinned"));
    }
    if gk.isPinned.value {
      qp := qp.(isPinned := Some(true));
    }
    if gk.isTrashed.None? {
      return Failure(MissingKey("isTrashed"));
    }
    if gk.isTrashed.value {
      qp := qp.(isDeleted := Some(true));
    }
    if gk.color.None? {
      return Failure(MissingKey("color"));
    }
    if gk.color.value in colors {
      qp := qp.(color := Some(colors[gk.color.value]));
    }
    if gk.textContent.Some? {
      qp := qp.(content := gk.textContent);
    }
    return Success(qp);
  }

  /** `convert_note`: the header, then the checklist and attachment loops. */
  method ConvertNote(id: int, stem: string, gk: KeepNote, colors: map<string, string>)
    returns (r: Result<ConvertedNote, Error>)
    ensures r == NoteOf(id, stem, gk, colors)
  {
    var qp :- ConvertHeader(id, stem, gk, colors);

    if gk.listContent.Some? {
      var taskList :- ConvertChecklist(gk.listContent.value);
      qp := qp.(isList := Some(true), taskList := Some(taskList));
    }

    var tags := gk.labels.GetOr([]);

    var attachments: seq<string> := [];
    if gk.attachments.Some? {
      var converted := ConvertAttachments(gk.attachments.value);
      if converted.Failure? {
        return Failure(converted.error);
      }
      var records := converted.value.0;
      attachments := converted.value.1;
      qp := qp.(attachments := Some(records));
    }

    return Success(ConvertedNote(qp, tags, attachments));
  }

  // ---- What NoteOf promises ----

  /** All keys the converter indexes directly are present. */
  predicate WellFormed(gk: KeepNote)
  {
    && gk.createdTimestampUsec.Some? && gk.userEditedTimestampUsec.Some?
    && gk.isArchived.Some? && gk.isPinned.Some? && gk.isTrashed.Some? && gk.color.Some?
    && (gk.listContent.Some? ==>
          forall j :: 0 <= j < |gk.listContent.value| ==>
            gk.listContent.value[j].isChecked.Some? && gk.listContent.value[j].text.Some?)
    && (gk.attachments.Some? ==>
          forall j :: 0 <= j < |gk.attachments.value| ==> gk.attachments.value[j].filePath.Some?)
  }

  /** The names of the keys whose absence stops the conversion. */
  const RequiredKeys: set<string> :=
    {"createdTimestampUsec", "userEditedTimestampUsec", "isArchived", "isPinned", "isTrashed",
     "color", "isChecked", "text", "filePath"}

  /** Conversion fails exactly on a note missing a required key, and names a required key when it does. */
  lemma NoteOfFailure(id: int, stem: string, gk: KeepNote, colors: map<string, string>)
    ensures NoteOf(id, stem, gk, colors).Failure? <==> !WellFormed(gk)
    ensures NoteOf(id, stem, gk, colors).Failure? ==>
              && NoteOf(id, stem, gk, colors).error.MissingKey?
              && NoteOf(id, stem, gk, colors).error.key in RequiredKeys
  {
    if gk.listContent.Some? {
      var items := gk.listContent.value;
      TraverseSuccess(TaskOf, items);
      if Traverse(TaskOf, items).Failure? {
        TraverseFirstFailure(TaskOf, items);
      }
    }
    if gk.attachments.Some? {
      var entries := gk.attachments.value;
      TraverseSuccess(PathOf, entries);
      if Traverse(PathOf, entries).Failure? {
        TraverseFirstFailure(PathOf, entries);
      }
    }
  }

  /**
   * Header fields: the given id, notebook 1, dates in whole seconds (floor of
   * the microsecond values), the stem as title unless it is an untitled name,
   * each flag present (and true) only when the Keep flag is true, the colour
   * only when the table maps it, and the text body only when there is one.
   */
  lemma NoteOfHeader(id: int, stem: string, gk: KeepNote, colors: map<string, string>)
    requires NoteOf(id, stem, gk, colors).Success?
    ensures WellFormed(gk)
    ensures var n := NoteOf(id, stem, gk, colors).value.note;
            && n.id == id
            && n.notebookId == 1
            && n.creationDate * 1_000_000 <= gk.createdTimestampUsec.value < (n.creationDate + 1) * 1_000_000
            && n.modifiedDate * 1_000_000 <= gk.userEditedTimestampUsec.value < (n.modifiedDate + 1) * 1_000_000
            && (n.title.Some? <==> !IsUntitled(stem))
            && (n.title.Some? ==> n.title.value == stem)
            && (n.isArchived.Some? <==> gk.isArchived.value) && n.isArchived != Some(false)
            && (n.isPinned.Some? <==> gk.isPinned.value) && n.isPinned != Some(false)
            && (n.isDeleted.Some? <==> gk.isTrashed.value) && n.isDeleted != Some(false)
            && (n.color.Some? <==> gk.color.value in colors)
            && (n.color.Some? ==> n.color.value == colors[gk.color.value])
            && n.content == gk.textContent
  {
    NoteOfFailure(id, stem, gk, colors);
  }

  /**
   * Checklist: a note with `listContent` (even an empty one) becomes a list
   * note with one task per entry, in order; task `j` has id `j` and the
   * entry's checked state and text. A note without it has neither key.
   */
  lemma NoteOfChecklist(id: int, stem: string, gk: KeepNote, colors: map<string, string>)
    requires NoteOf(id, stem, gk, colors).Success?
    ensures WellFormed(gk)
    ensures var n := NoteOf(id, stem, gk, colors).value.note;
            && (n.isList.Some? <==> gk.listContent.Some?)
            && (n.isList.Some? ==> n.isList.value)
            && (n.taskList.Some? <==> gk.listContent.Some?)
            && (gk.listContent.Some? ==>
                  var items, tasks := gk.listContent.value, n.taskList.value;
                  && |tasks| == |items|
                  && forall j :: 0 <= j < |tasks| ==>
                       tasks[j] == TaskItem(j, items[j].isChecked.value, items[j].text.value))
  {
    NoteOfFailure(id, stem, gk, colors);
    if gk.listContent.Some? {
      TraverseSuccess(TaskOf, gk.listContent.value);
    }
  }

  /**
   * Attachments: one record per Keep attachment, in order, whose description
   * and file name are both its path; the paths handed back for copying are
   * those same paths, and none when the note has no `attachments` key.
   * Labels are handed back unresolved, none when the note has no `labels` key.
   */
  lemma NoteOfAttachments(id: int, stem: string, gk: KeepNote, colors: map<string, string>)
    requires NoteOf(id, stem, gk, colors).Success?
    ensures WellFormed(gk)
    ensures var c := NoteOf(id, stem, gk, colors).value;
            && (c.note.attachments.Some? <==> gk.attachments.Some?)
            && (gk.attachments.None? ==> c.attachmentPaths == [])
            && (gk.attachments.Some? ==>
                  var entries, records := gk.attachments.value, c.note.attachments.value;
                  && |records| == |entries| == |c.attachmentPaths|
                  && forall j :: 0 <= j < |entries| ==>
                       && c.attachmentPaths[j] == entries[j].filePath.value
                       && records[j] == AttachmentRecord(entries[j].filePath.value, entries[j].filePath.value))
            && c.labels == (if gk.labels.Some? then gk.labels.value else [])
  {
    NoteOfFailure(id, stem, gk, colors);
    if gk.attachments.Some? {
      TraverseSuccess(PathOf, gk.attachments.value);
    }
  }
}
