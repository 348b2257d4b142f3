/**
 * The records on both sides of the conversion: a Google Keep note as its
 * JSON export holds it (every key the converter indexes may be absent, so
 * each is an Option), and the pieces of the Quillpad backup document.
 */
module Records {
  import opened Wrappers

  /**
   * Why a run stops: a JSON key the converter indexes directly is absent (a
   * KeyError), or a note names a label the label list does not contain.
   */
  datatype Error = MissingKey(key: string) | UnknownTag(name: string)

  /** Indexing a JSON object with `obj[key]`: an absent key is a MissingKey failure. */
  function Require<T>(field: Option<T>, key: string): Result<T, Error>
  {
    match field
    case Some(v) => Success(v)
    case None => Failure(MissingKey(key))
  }

  // ---- Google Keep export ----

  /** One entry of a checklist note's `listContent`. */
  datatype KeepListItem = KeepListItem(isChecked: Option<bool>, text: Option<string>)

  /** One entry of a note's `labels`. */
  datatype KeepLabel = KeepLabel(name: Option<string>)

  /** One entry of a note's `attachments`. */
  datatype KeepAttachment = KeepAttachment(filePath: Option<string>)

  /** A parsed note file: the keys the converter reads. */
  datatype KeepNote = KeepNote(
    createdTimestampUsec: Option<int>,
    userEditedTimestampUsec: Option<int>,
    isArchived: Option<bool>,
    isPinned: Option<bool>,
    isTrashed: Option<bool>,
    color: Option<string>,
    textContent: Option<string>,
    listContent: Option<seq<KeepListItem>>,
    labels: Option<seq<KeepLabel>>,
    attachments: Option<seq<KeepAttachment>>)

  /** One `*.json` note file of the export: its file-name stem and its parsed contents. */
  datatype NoteFile = NoteFile(stem: string, note: KeepNote)

  // ---- Quillpad backup ----

  /** A checklist entry; `id` is its 0-based position in the note's checklist. */
  datatype TaskItem = TaskItem(id: int, isDone: bool, content: string)

  datatype AttachmentRecord = AttachmentRecord(description: string, fileName: string)

  /** A converted note; each Option field is a key that may be left out of the JSON object. */
  datatype QuillpadNote = QuillpadNote(
    id: int,
    creationDate: int,
    modifiedDate: int,
    notebookId: int,
    title: Option<string>,
    isArchived: Option<bool>,
    isPinned: Option<bool>,
    isDeleted: Option<bool>,
    color: Option<string>,
    content: Option<string>,
    isList: Option<bool>,
    taskList: Option<seq<TaskItem>>,
    attachments: Option<seq<AttachmentRecord>>)

  datatype Tag = Tag(id: int, name: string)

  /** Links note `noteId` to tag `tagId`. */
  datatype JoinEntry = JoinEntry(tagId: int, noteId: int)

  datatype Notebook = Notebook(name: string, id: int)

  /** The `backup.json` document. */
  datatype BackupDocument = BackupDocument(
    version: int,
    notes: seq<QuillpadNote>,
    notebooks: seq<Notebook>,
    tags: seq<Tag>,
    joins: seq<JoinEntry>)
}
