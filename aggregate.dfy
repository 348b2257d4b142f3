/**
 * Converting every note of the export into one backup document
 * (`convert_notes`): notes get ids 1, 2, ... in processing order, each
 * note's joins and attachment paths are appended in that order, and the
 * document carries the format version, the single import notebook and the
 * tag list.
 */
module Aggregate {
  import opened Wrappers
  import opened Records
  import opened Traversal
  import opened Notes
  import opened Tags

  /** The backup format version written into every document. */
  const FormatVersion: int := 26

  /** The one notebook every imported note belongs to. */
  const ImportNotebook: Notebook := Notebook("Imported from Google Keep", 1)

  /** What one note file contributes: its converted note, its joins, its attachment paths. */
  datatype NoteOutput = NoteOutput(note: QuillpadNote, joins: seq<JoinEntry>, attachmentPaths: seq<string>)

  /** The document, and the attachment paths to copy into its media directory. */
  datatype Conversion = Conversion(backup: BackupDocument, attachments: seq<string>)

  /** Note file number `i` (from 0) is converted with id `i + 1` and its labels are resolved. */
  function NoteOutputOf(tags: seq<Tag>, colors: map<string, string>, i: nat, file: NoteFile): Result<NoteOutput, Error>
  {
    var converted :- NoteOf(i + 1, file.stem, file.note, colors);
    var joins :- JoinsOf(i + 1, converted.labels, tags);
    Success(NoteOutput(converted.note, joins, converted.attachmentPaths))
  }

  function NoteStep(tags: seq<Tag>, colors: map<string, string>): (nat, NoteFile) -> Result<NoteOutput, Error>
  {
    (i: nat, file: NoteFile) => NoteOutputOf(tags, colors, i, file)
  }

  function NotesIn(outs: seq<NoteOutput>): seq<QuillpadNote>
  {
    seq(|outs|, i requires 0 <= i < |outs| => outs[i].note)
  }

  function JoinListsIn(outs: seq<NoteOutput>): seq<seq<JoinEntry>>
  {
    seq(|outs|, i requires 0 <= i < |outs| => outs[i].joins)
  }

  function PathListsIn(outs: seq<NoteOutput>): seq<seq<string>>
  {
    seq(|outs|, i requires 0 <= i < |outs| => outs[i].attachmentPaths)
  }

  /** The result of converting `files` in order against `tags` under colour table `colors`. */
  function ConversionOf(files: seq<NoteFile>, tags: seq<Tag>, colors: map<string, string>): Result<Conversion, Error>
  {
    var outs :- Traverse(NoteStep(tags, colors), files);
    var backup := BackupDocument(
      version := FormatVersion,
      notes := NotesIn(outs),
      notebooks := [ImportNotebook],
      tags := tags,
      joins := Flatten(JoinListsIn(outs)));
    Success(Conversion(backup, Flatten(PathListsIn(outs))))
  }

  /** Appending one note's output extends the notes, the joins and the paths by that note's own. */
  lemma OutputsGrow(outs: seq<NoteOutput>, out: NoteOutput)
    ensures NotesIn(outs + [out]) == NotesIn(outs) + [out.note]
    ensures Flatten(JoinListsIn(outs + [out])) == Flatten(JoinListsIn(outs)) + out.joins
    ensures Flatten(PathListsIn(outs + [out])) == Flatten(PathListsIn(outs)) + out.attachmentPaths
  {
    assert JoinListsIn(outs + [out])[..|outs|] == JoinListsIn(outs);
    assert PathListsIn(outs + [out])[..|outs|] == PathListsIn(outs);
  }

  /** One iteration of `convert_notes`: convert note file `i` (from 0) and resolve its labels. */
  method ConvertOne(tags: seq<Tag>, colors: map<string, string>, i: nat, file: NoteFile)
    returns (r: Result<NoteOutput, Error>)
    ensures r == NoteOutputOf(tags, colors, i, file)
  {
    var converted :- ConvertNote(i + 1, file.stem, file.note, colors);
    var joins :- CreateJoinEntries(i + 1, converted.labels, tags);
    r := Success(NoteOutput(converted.note, joins, converted.attachmentPaths));
  }

  /** `convert_notes`: one pass over the note files, appending to the document as it goes. */
  method ConvertNotes(files: seq<NoteFile>, tags: seq<Tag>, colors: map<string, string>)
    returns (r: Result<Conversion, Error>)
    ensures r == ConversionOf(files, tags, colors)
  {
    var notes: seq<QuillpadNote> := [];
    var joins: seq<JoinEntry> := [];
    var attachments: seq<string> := [];
    ghost var outs: seq<NoteOutput> := [];
    for i := 0 to |files|
      invariant Traverse(NoteStep(tags, colors), files[..i]) == Success(outs)
      invariant notes == NotesIn(outs)
      invariant joins == Flatten(JoinListsIn(outs))
      invariant attachments == Flatten(PathListsIn(outs))
    {
      var out := ConvertOne(tags, colors, i, files[i]);
      assert NoteStep(tags, colors)(i, files[i]) == out;
      TraverseStep(NoteStep(tags, colors), files, i, outs);
      if out.Failure? {
        TraversePrefixFailure(NoteStep(tags, colors), files, i + 1);
        return Failure(out.error);
      }
      notes := notes + [out.value.note];
      joins := joins + out.value.joins;
      attachments := attachments + out.value.attachmentPaths;
      OutputsGrow(outs, out.value);
      outs := outs + [out.value];
    }
    assert files[..|files|] == files;
    var backup := BackupDocument(
      version := FormatVersion,
      notes := notes,
      notebooks := [ImportNotebook],
      tags := tags,
      joins := joins);
    return Success(Conversion(backup, attachments));
  }

  // ---- What ConversionOf promises ----

  /** The label references of a Keep note, none when it has no `labels` key. */
  function LabelsOf(gk: KeepNote): seq<KeepLabel>
  {
    gk.labels.GetOr([])
  }

  /**
   * One note file converts exactly when it has every required key and all
   * its labels resolve; its output is then its converted note, the joins of
   * its labels under its id and its attachment paths, and otherwise the
   * error is the note's own or, for a complete note, the first bad label's.
   */
  lemma NoteOutputFacts(tags: seq<Tag>, colors: map<string, string>, i: nat, file: NoteFile)
    ensures NoteOutputOf(tags, colors, i, file).Success? <==>
              WellFormed(file.note) && Resolvable(LabelsOf(file.note), tags)
    ensures NoteOutputOf(tags, colors, i, file).Success? ==>
              && NoteOf(i + 1, file.stem, file.note, colors).Success?
              && JoinsOf(i + 1, LabelsOf(file.note), tags).Success?
              && NoteOutputOf(tags, colors, i, file).value == NoteOutput(
                   NoteOf(i + 1, file.stem, file.note, colors).value.note,
                   JoinsOf(i + 1, LabelsOf(file.note), tags).value,
                   NoteOf(i + 1, file.stem, file.note, colors).value.attachmentPaths)
    ensures NoteOutputOf(tags, colors, i, file).Failure? ==>
              if !WellFormed(file.note) then
                NoteOf(i + 1, file.stem, file.note, colors).Failure? &&
                NoteOutputOf(tags, colors, i, file).error == NoteOf(i + 1, file.stem, file.note, colors).error
              else
                JoinsOf(i + 1, LabelsOf(file.note), tags).Failure? &&
                NoteOutputOf(tags, colors, i, file).error == JoinsOf(i + 1, LabelsOf(file.note), tags).error
  {
    NoteOfFailure(i + 1, file.stem, file.note, colors);
    JoinsOfResolve(i + 1, LabelsOf(file.note), tags);
    if NoteOf(i + 1, file.stem, file.note, colors).Success? {
      NoteOfAttachments(i + 1, file.stem, file.note, colors);
    }
  }

  /** A converted note file gives its note, under id `i + 1` in notebook 1. */
  lemma OutputNote(tags: seq<Tag>, colors: map<string, string>, i: nat, file: NoteFile)
    requires NoteOutputOf(tags, colors, i, file).Success?
    ensures NoteOf(i + 1, file.stem, file.note, colors).Success?
    ensures NoteOutputOf(tags, colors, i, file).value.note == NoteOf(i + 1, file.stem, file.note, colors).value.note
    ensures NoteOutputOf(tags, colors, i, file).value.note.id == i + 1
    ensures NoteOutputOf(tags, colors, i, file).value.note.notebookId == 1
  {
    NoteOutputFacts(tags, colors, i, file);
    NoteOfHeader(i + 1, file.stem, file.note, colors);
  }

  /** A converted note file gives the joins of its labels, all for note `i + 1`. */
  lemma OutputJoins(tags: seq<Tag>, colors: map<string, string>, i: nat, file: NoteFile)
    requires NoteOutputOf(tags, colors, i, file).Success?
    ensures JoinsOf(i + 1, LabelsOf(file.note), tags).Success?
    ensures NoteOutputOf(tags, colors, i, file).value.joins == JoinsOf(i + 1, LabelsOf(file.note), tags).value
    ensures forall e :: e in NoteOutputOf(tags, colors, i, file).value.joins ==> e.noteId == i + 1
  {
    NoteOutputFacts(tags, colors, i, file);
    JoinsOfResolve(i + 1, LabelsOf(file.note), tags);
  }

  /** A converted note file hands back exactly the paths of its attachments. */
  lemma OutputPaths(tags: seq<Tag>, colors: map<string, string>, i: nat, file: NoteFile, path: string)
    requires NoteOutputOf(tags, colors, i, file).Success?
    ensures path in NoteOutputOf(tags, colors, i, file).value.attachmentPaths <==>
              file.note.attachments.Some? &&
              exists j :: 0 <= j < |file.note.attachments.value| && file.note.attachments.value[j].filePath == Some(path)
  {
    NoteOutputFacts(tags, colors, i, file);
    NoteOfAttachments(i + 1, file.stem, file.note, colors);
  }

  /** A converted document is assembled from the outputs of the note files, in order. */
  lemma ConversionParts(files: seq<NoteFile>, tags: seq<Tag>, colors: map<string, string>)
    requires ConversionOf(files, tags, colors).Success?
    ensures Traverse(NoteStep(tags, colors), files).Success?
    ensures var c, outs := ConversionOf(files, tags, colors).value, Traverse(NoteStep(tags, colors), files).value;
            && c.backup == BackupDocument(FormatVersion, NotesIn(outs), [ImportNotebook], tags, Flatten(JoinListsIn(outs)))
            && c.attachments == Flatten(PathListsIn(outs))
            && |outs| == |files|
            && forall i :: 0 <= i < |files| ==> NoteOutputOf(tags, colors, i, files[i]) == Success(outs[i])
  {
    TraverseSuccess(NoteStep(tags, colors), files);
  }

  /**
   * The whole conversion succeeds exactly when every note file converts;
   * when it fails, the error is that of the first note file that does not
   * convert, all earlier ones having converted.
   */
  lemma ConversionOfOutcome(files: seq<NoteFile>, tags: seq<Tag>, colors: map<string, string>)
    ensures ConversionOf(files, tags, colors).Success? <==>
              forall i :: 0 <= i < |files| ==> WellFormed(files[i].note) && Resolvable(LabelsOf(files[i].note), tags)
    ensures ConversionOf(files, tags, colors).Failure? ==>
              exists k: nat ::
                && k < |files|
                && (forall i :: 0 <= i < k ==> WellFormed(files[i].note) && Resolvable(LabelsOf(files[i].note), tags))
                && !(WellFormed(files[k].note) && Resolvable(LabelsOf(files[k].note), tags))
                && NoteOutputOf(tags, colors, k, files[k]).Failure?
                && ConversionOf(files, tags, colors).error == NoteOutputOf(tags, colors, k, files[k]).error
  {
    var f := NoteStep(tags, colors);
    forall i | 0 <= i < |files|
      ensures f(i, files[i]).Success? <==> WellFormed(files[i].note) && Resolvable(LabelsOf(files[i].note), tags)
    {
      NoteOutputFacts(tags, colors, i, files[i]);
    }
    TraverseSuccess(f, files);
    if Traverse(f, files).Failure? {
      TraverseFirstFailure(f, files);
    }
  }

  /**
   * A converted document has format version 26, the single import notebook
   * and the tags as given, and one note per file in order: note `i` is the
   * conversion of file `i` with id `i + 1`, in notebook 1.
   */
  lemma ConversionOfNotes(files: seq<NoteFile>, tags: seq<Tag>, colors: map<string, string>)
    requires ConversionOf(files, tags, colors).Success?
    ensures var b := ConversionOf(files, tags, colors).value.backup;
            && b.version == 26
            && b.notebooks == [Notebook("Imported from Google Keep", 1)]
            && b.tags == tags
            && |b.notes| == |files|
            && forall i :: 0 <= i < |files| ==>
                 && NoteOf(i + 1, files[i].stem, files[i].note, colors).Success?
                 && b.notes[i] == NoteOf(i + 1, files[i].stem, files[i].note, colors).value.note
                 && b.notes[i].id == i + 1
                 && b.notes[i].notebookId == 1
  {
    ConversionParts(files, tags, colors);
    forall i | 0 <= i < |files| {
      OutputNote(tags, colors, i, files[i]);
    }
  }

  /** The joins of `joins` that belong to note `noteId`, in order. */
  function JoinsFor(joins: seq<JoinEntry>, noteId: int): (r: seq<JoinEntry>)
    ensures forall e :: e in r ==> e in joins && e.noteId == noteId
    ensures forall e :: e in joins && e.noteId == noteId ==> e in r
    decreases |joins|
  {
    if joins == [] then []
    else
      var last := joins[|joins| - 1];
      JoinsFor(joins[..|joins| - 1], noteId) + if last.noteId == noteId then [last] else []
  }

  lemma {:induction false} JoinsForConcat(a: seq<JoinEntry>, b: seq<JoinEntry>, noteId: int)
    ensures JoinsFor(a + b, noteId) == JoinsFor(a, noteId) + JoinsFor(b, noteId)
    decreases |b|
  {
    if b != [] {
      var init := b[..|b| - 1];
      assert (a + b)[..|a + b| - 1] == a + init;
      JoinsForConcat(a, init, noteId);
    } else {
      assert a + b == a;
    }
  }

  lemma {:induction false} JoinsForUniform(joins: seq<JoinEntry>, noteId: int)
    ensures (forall e :: e in joins ==> e.noteId == noteId) ==> JoinsFor(joins, noteId) == joins
    ensures (forall e :: e in joins ==> e.noteId != noteId) ==> JoinsFor(joins, noteId) == []
    decreases |joins|
  {
    if joins != [] {
      var init := joins[..|joins| - 1];
      assert forall e :: e in init ==> e in joins;
      JoinsForUniform(init, noteId);
      assert init + [joins[|joins| - 1]] == joins;
    }
  }

  /**
   * When list `j` of `lists` holds only joins for note `j + 1`, picking the
   * joins for note `i + 1` out of the lists laid end to end gives back list
   * `i` exactly.
   */
  lemma {:induction false} JoinsForFlatten(lists: seq<seq<JoinEntry>>, i: nat)
    requires i < |lists|
    requires forall j, e :: 0 <= j < |lists| && e in lists[j] ==> e.noteId == j + 1
    ensures JoinsFor(Flatten(lists), i + 1) == lists[i]
    decreases |lists|
  {
    var init, last := lists[..|lists| - 1], lists[|lists| - 1];
    assert Flatten(lists) == Flatten(init) + last;
    JoinsForConcat(Flatten(init), last, i + 1);
    if i == |lists| - 1 {
      forall e: JoinEntry | e in Flatten(init) ensures e.noteId != i + 1 {
        FlattenMember(init, e);
        var j :| 0 <= j < |init| && e in init[j];
        assert init[j] == lists[j];
      }
      JoinsForUniform(Flatten(init), i + 1);
      JoinsForUniform(last, i + 1);
    } else {
      assert forall j :: 0 <= j < |init| ==> init[j] == lists[j];
      JoinsForFlatten(init, i);
      JoinsForUniform(last, i + 1);
    }
  }

  /**
   * The joins of a converted document, picked out for note `i + 1`, are
   * exactly the joins of that note's own label references, in order (what
   * those are is stated by `JoinsOfResolve`).
   */
  lemma ConversionOfJoins(files: seq<NoteFile>, tags: seq<Tag>, colors: map<string, string>, i: nat)
    requires ConversionOf(files, tags, colors).Success?
    requires i < |files|
    ensures JoinsOf(i + 1, LabelsOf(files[i].note), tags).Success?
    ensures JoinsFor(ConversionOf(files, tags, colors).value.backup.joins, i + 1) ==
              JoinsOf(i + 1, LabelsOf(files[i].note), tags).value
  {
    ConversionParts(files, tags, colors);
    var lists := JoinListsIn(Traverse(NoteStep(tags, colors), files).value);
    forall j | 0 <= j < |lists| ensures forall e: JoinEntry :: e in lists[j] ==> e.noteId == j + 1 {
      OutputJoins(tags, colors, j, files[j]);
    }
    JoinsForFlatten(lists, i);
    OutputJoins(tags, colors, i, files[i]);
  }

  /** Join `e` resolves one of `labels`: a reference with a name whose first tag is the join's tag. */
  ghost predicate ResolvesSomeLabel(e: JoinEntry, labels: seq<KeepLabel>, tags: seq<Tag>)
  {
    exists j :: 0 <= j < |labels| && labels[j].name.Some? &&
      exists k: nat :: FirstNamed(tags, labels[j].name.value, k) && e.tagId == tags[k].id
  }

  /**
   * Each join a converted note file gives is for note `i + 1` and resolves
   * one of that file's label references to one of the tags.
   */
  lemma OutputJoinTag(tags: seq<Tag>, colors: map<string, string>, i: nat, file: NoteFile, e: JoinEntry)
    requires NoteOutputOf(tags, colors, i, file).Success?
    requires e in NoteOutputOf(tags, colors, i, file).value.joins
    ensures e.noteId == i + 1
    ensures ResolvesSomeLabel(e, LabelsOf(file.note), tags)
    ensures exists k :: 0 <= k < |tags| && tags[k].id == e.tagId
  {
    OutputJoins(tags, colors, i, file);
    var labels := LabelsOf(file.note);
    JoinsOfResolve(i + 1, labels, tags);
    var joins := JoinsOf(i + 1, labels, tags).value;
    var m :| 0 <= m < |joins| && joins[m] == e;
    var k: nat :| FirstNamed(tags, labels[m].name.value, k) && e.tagId == tags[k].id;
  }

  /**
   * Every join of a converted document comes from a label reference of the
   * note it names: that reference has a name, and the join's tag is the
   * first tag carrying it, so in particular one of the document's tags.
   */
  lemma ConversionOfJoinTags(files: seq<NoteFile>, tags: seq<Tag>, colors: map<string, string>)
    requires ConversionOf(files, tags, colors).Success?
    ensures forall e: JoinEntry :: e in ConversionOf(files, tags, colors).value.backup.joins ==>
              && (exists n :: 0 <= n < |files| && e.noteId == n + 1 && ResolvesSomeLabel(e, LabelsOf(files[n].note), tags))
              && exists k :: 0 <= k < |tags| && tags[k].id == e.tagId
  {
    ConversionParts(files, tags, colors);
    var lists := JoinListsIn(Traverse(NoteStep(tags, colors), files).value);
    forall e: JoinEntry | e in Flatten(lists)
      ensures exists n :: 0 <= n < |files| && e.noteId == n + 1 && ResolvesSomeLabel(e, LabelsOf(files[n].note), tags)
      ensures exists k :: 0 <= k < |tags| && tags[k].id == e.tagId
    {
      FlattenMember(lists, e);
      var n :| 0 <= n < |lists| && e in lists[n];
      OutputJoinTag(tags, colors, n, files[n], e);
    }
  }

  /** Every join of a converted document is for one of its notes, ids 1 to the number of files. */
  lemma ConversionOfJoinIds(files: seq<NoteFile>, tags: seq<Tag>, colors: map<string, string>)
    requires ConversionOf(files, tags, colors).Success?
    ensures forall e: JoinEntry :: e in ConversionOf(files, tags, colors).value.backup.joins ==> 1 <= e.noteId <= |files|
  {
    ConversionOfJoinTags(files, tags, colors);
  }

  /**
   * The attachment paths handed back for copying are exactly those of the
   * converted notes: a path is among them when, and only when, some note
   * file lists it as an attachment.
   */
  lemma ConversionOfAttachments(files: seq<NoteFile>, tags: seq<Tag>, colors: map<string, string>, path: string)
    requires ConversionOf(files, tags, colors).Success?
    ensures path in ConversionOf(files, tags, colors).value.attachments <==>
              exists i, j :: 0 <= i < |files| && files[i].note.attachments.Some? &&
                0 <= j < |files[i].note.attachments.value| && files[i].note.attachments.value[j].filePath == Some(path)
  {
    ConversionParts(files, tags, colors);
    var lists := PathListsIn(Traverse(NoteStep(tags, colors), files).value);
    FlattenMember(lists, path);
    forall i | 0 <= i < |files|
      ensures path in lists[i] <==>
                files[i].note.attachments.Some? &&
                exists j :: 0 <= j < |files[i].note.attachments.value| &&
                  files[i].note.attachments.value[j].filePath == Some(path)
    {
      OutputPaths(tags, colors, i, files[i], path);
    }
  }
}
