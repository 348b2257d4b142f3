# gk2qp in Dafny

A model of the conversion core of `gk2qp.py`. The script turns a Google Keep Takeout export into a Quillpad
backup document. It does this in two stages.

1. **Tags.** The label list (`Labels.txt`) is read into tags. Line `i` of the file becomes tag `i`, with the
   line's surrounding whitespace stripped.
2. **Notes.** Each Keep note (one JSON file per note) becomes a Quillpad note, and the notes are gathered into
   one document:
   - the note's id is its 1-based position;
   - its label references are resolved against the tags into join entries;
   - its attachment paths are collected for copying.

   The document carries format version 26, a single notebook "Imported from Google Keep" with id 1, the tag
   list, and the joins.

The modules follow the script:

| module | what it models |
|---|---|
| `Wrappers` | `Option` and `Result` |
| `Records` | the Keep-side records (every JSON key is an `Option`, absent when the key is missing) and the Quillpad-side records (an optional output key is an `Option`) |
| `Traversal` | the shape of the converting loops of the script (checklist items, attachments, label references and note files): convert each element in order, knowing its position, and stop at the first element that raises |
| `Untitled` | `is_untitled` and its regular expression |
| `Colors` | the colour tables |
| `Strip` | `str.strip()` |
| `Notes` | `convert_note` |
| `Tags` | `extract_tags`, `tag_id_from_name` and `create_join_entries` |
| `Aggregate` | `convert_notes` |

Each loop of the script is a method. The converting loops at gk2qp.py:70, 83, 111 and 135 are methods whose
`ensures` ties the result to a specification function built on `Traverse`. The properties the script promises
for them are stated as lemmas about those functions. The loop of `tag_id_from_name` is a search rather than a
conversion. It stops at the first tag with the name, and fails only after the loop. `TagIdFromName` is proved
equal to the first-match lookup `FindTag`, and `FindTagFirstMatch` states what that lookup gives. The loop of
`extract_tags` cannot fail. `ExtractTags` states its result directly in its own `ensures`: one tag per line,
with id `i + 1` and the stripped line as its name.

**Errors.** Indexing a JSON object with `gk[key]` on a missing key raises a `KeyError`. The model gives that
as the failure `MissingKey(key)`. The keys are tried in the script's own evaluation order, so the first
missing key is the one reported. `tag_id_from_name` prints a message and calls `sys.exit(-1)` for an unknown
label. The model gives that as the failure `UnknownTag(name)`. A failure in one note stops the whole
conversion.

Behaviour of the script worth knowing:

- **Checklist keys.** `isList` and `taskList` are written whenever the note has a `listContent` key, even
  when that list is empty.
- **Untitled pattern.** The `.` at position 19 is unescaped, so it accepts any character but a newline.
  Because of `$`, a single trailing newline is also accepted.
- **Timestamps.** They are divided with `//`, which rounds down. For a negative microsecond value that is not a
  whole number of seconds, the result is one second below the truncated quotient. Dafny's `/` by a positive
  divisor also rounds down, so the model matches the script.
- **Duplicate labels.** A label that appears twice in the label list gets two tags. A lookup takes the first
  tag with that name.
- **Cleanup.** The temporary directories are removed only at the end of a successful run. An exception or
  `sys.exit` leaves them behind. This is part of `main`, which is not modelled.

## Model

| member | source | states |
|---|---|---|
| Untitled.IsUntitledIsAnchoredMatch | gk2qp.py:31-35 | The position-by-position untitled predicate holds exactly when the pattern, read token by token, matches the whole name under `^…$`. |
| Untitled.IsUntitledByPosition | gk2qp.py:31-35 | A name is untitled exactly when it is 29 characters long, or 30 with a final newline, and each of the first 29 characters is accepted by the pattern's token at that position. |
| Untitled.AnchoredMatchByPosition | gk2qp.py:31 | An anchored match of single-character tokens means one character per token plus at most one final newline, for every token list. |
| Untitled.DateMatches | gk2qp.py:31 | `\d\d\d\d-\d\d-\d\d` accepts positions 0–9 exactly when the date part has digits in the digit slots and `-` at positions 4 and 7. |
| Untitled.TimeMatches | gk2qp.py:31 | `T\d\d_\d\d_\d\d.` accepts positions 10–19 exactly when the time part has the right digits, a `T` and `_` characters, and any character but a newline at position 19. |
| Untitled.ZoneMatches | gk2qp.py:31 | `\d\d\d\+\d\d_\d\d` accepts positions 20–28 exactly when the fraction and offset have the right digits, a `+` and a `_`. |
| Untitled.UntitledExamples | gk2qp.py:31-35 | An exported timestamp stem is untitled. So are that stem with any character at position 19, and that stem followed by one newline. A newline at position 19, colons in place of underscores, or an ordinary title are not untitled. |
| Colors.ColorTable | gk2qp.py:12-28 | The table has the base keys, plus the extra keys when extra colours are on. Every base entry is kept unchanged. Every extra entry is present when extra colours are on. Every value is a Quillpad colour. |
| Colors.ColorTableExamples | gk2qp.py:22-28 | CERULEAN maps to Blue only with extra colours on. GRAY is never mapped. |
| Strip.LeadingSpaces | gk2qp.py:154 | The count stops at the first non-whitespace character. |
| Strip.TrailingSpaces | gk2qp.py:154 | The count stops at the last non-whitespace character. |
| Strip.StripSpace | gk2qp.py:154 | A non-empty stripped line begins and ends with a non-whitespace character. |
| Strip.StripKeepsMiddle | gk2qp.py:154 | The stripped line is a contiguous piece of the original, and everything cut off on either side of it is whitespace. |
| Strip.StripIdempotent | gk2qp.py:154 | Stripping a second time changes nothing. |
| Traversal.TraverseSuccess | gk2qp.py:70-76 | A loop whose body may raise completes exactly when every element converts. It then yields one result per element, in order, and result `i` is the conversion of element `i` at position `i`. |
| Traversal.TraverseFirstFailure | gk2qp.py:70-76 | A loop that raises reports the error of the first element that fails, and every earlier element converted. |
| Traversal.TraversePrefixFailure | gk2qp.py:111-118 | Once the loop has raised on a prefix, the whole loop has raised with that error. |
| Traversal.TraverseStep | gk2qp.py:111-118 | One more iteration after a successful prefix either appends the next element's result or fails with that element's error. |
| Traversal.FlattenMember | gk2qp.py:116-118 | After repeated `extend`, an item is in the result exactly when it was in one of the lists that were appended. |
| Notes.ConvertChecklist | gk2qp.py:67-76 | The checklist loop computes exactly the traversal of the Keep items into tasks: task `j` has id `j` and the item's `isChecked` and `text`, and the first item missing a key stops the loop. |
| Notes.ConvertAttachments | gk2qp.py:80-90 | The attachment loop fails exactly when the traversal into paths fails, with the same error. On success it returns those paths, plus one record per path whose description and file name are both that path. |
| Notes.ConvertHeader | gk2qp.py:42-65 | The note's scalar fields are exactly those of the header specification, with keys looked up in the script's order. |
| Notes.ConvertNote | gk2qp.py:38-92 | `convert_note` computes exactly `NoteOf`: the header, then the checklist, then the attachments, returning the note, its label references and its attachment paths. |
| Notes.NoteOfFailure | gk2qp.py:42-90 | Conversion fails exactly when a key the script indexes directly is missing. The error then names a key from that set. |
| Notes.NoteOfHeader | gk2qp.py:42-65 | On success the note has the given id and notebook 1. Both dates are the floor of microseconds divided by 1,000,000. There is a title exactly when the stem is not untitled, and it is the stem. Each flag is present exactly when the Keep flag is true, and is never false. There is a colour exactly when the table maps the Keep colour, and it is the mapped value. The content is the Keep text, or absent. |
| Notes.NoteOfChecklist | gk2qp.py:67-76 | `isList` (true) and `taskList` are present exactly when `listContent` is, even when it is empty. There is one task per item, in order, and task `j` is `(j, isChecked, text)`. |
| Notes.NoteOfAttachments | gk2qp.py:78-92 | There is one attachment record per Keep attachment, in order, with description = file name = `filePath`. The returned paths are those `filePath`s, or none without an `attachments` key. The returned labels are the note's `labels`, or none without that key. |
| Tags.ExtractTags | gk2qp.py:145-158 | No label file gives no tags. Otherwise there is one tag per line, and tag `i` is `(i + 1, line i stripped)`. |
| Tags.FindTagFirstMatch | gk2qp.py:123-130 | A lookup succeeds exactly when some tag has the name, and then gives the id of the first tag with that name. Otherwise it fails with `UnknownTag(name)`. |
| Tags.TagIdFromName | gk2qp.py:123-130 | The scanning loop returns exactly the first-match lookup, including its failure. |
| Tags.FirstMatchExample | gk2qp.py:123-130 | With two tags named Work, the lookup gives the first one's id. An absent name fails with that name. |
| Tags.CreateJoinEntries | gk2qp.py:133-142 | The join loop computes exactly the traversal of the label references into joins. |
| Tags.JoinsOfResolve | gk2qp.py:133-142 | Joins are built exactly when every reference has a `name` that some tag carries. They are then one per reference, in order, for this note and for the first tag with that name. Otherwise some reference fails: it has no `name` or no tag carries its name, and every earlier reference resolves. The error is for that reference: `MissingKey("name")` or `UnknownTag(name)`. |
| Aggregate.ConvertOne | gk2qp.py:112-116 | One iteration converts note file `i` with id `i + 1` and resolves its labels, exactly as `NoteOutputOf` specifies. |
| Aggregate.ConvertNotes | gk2qp.py:95-120 | The loop over the note files computes exactly `ConversionOf`: the notes in order, their joins and attachment paths concatenated in order, version 26, the import notebook and the tags, or the first failure. |
| Aggregate.OutputsGrow | gk2qp.py:113-118 | Appending one note's output extends the notes by that note, the joins by its joins and the paths by its paths. |
| Aggregate.NoteOutputFacts | gk2qp.py:112-116 | One note file converts exactly when it has every required key and all its labels resolve. Its output is then its note, its joins under id `i + 1` and its paths. Otherwise the error is the note's own, or the first bad label's for a complete note. |
| Aggregate.OutputNote | gk2qp.py:112-113 | A converted file gives its converted note, with id `i + 1` and notebook 1. |
| Aggregate.OutputJoins | gk2qp.py:115-116 | A converted file gives the joins of its labels, all for note `i + 1`. |
| Aggregate.OutputPaths | gk2qp.py:112-118 | A converted file hands back exactly the `filePath`s of its attachments. |
| Aggregate.ConversionParts | gk2qp.py:95-120 | A converted document is assembled from the per-file outputs, in order, and output `i` is the conversion of file `i`. |
| Aggregate.ConversionOfOutcome | gk2qp.py:111-118 | The conversion succeeds exactly when every file is complete and its labels resolve. Otherwise the error is that of the first file that does not convert, and every earlier file converted. |
| Aggregate.ConversionOfNotes | gk2qp.py:96-113 | The document has version 26, the single notebook ("Imported from Google Keep", 1) and the given tags. It has one note per file in order, and note `i` is file `i` converted, with id `i + 1`, in notebook 1. |
| Aggregate.JoinsFor | gk2qp.py:115-116 | Selecting the joins of one note keeps exactly the joins of the list that belong to that note. |
| Aggregate.JoinsForConcat | gk2qp.py:115-116 | Selecting one note's joins distributes over concatenation. |
| Aggregate.JoinsForUniform | gk2qp.py:115-116 | Selecting from joins that all belong to the note keeps them all. Selecting from joins that all belong to other notes keeps none. |
| Aggregate.JoinsForFlatten | gk2qp.py:115-116 | When list `j` holds only joins for note `j + 1`, selecting note `i + 1`'s joins from the concatenation gives back list `i` exactly. |
| Aggregate.ConversionOfJoins | gk2qp.py:111-116 | The document's joins for note `i + 1`, in order, are exactly the joins of file `i`'s label references. |
| Aggregate.OutputJoinTag | gk2qp.py:115-116 | Each join that a converted file gives is for note `i + 1`. Its tag is the first tag named by one of that file's label references, and so is one of the tags. |
| Aggregate.ConversionOfJoinTags | gk2qp.py:111-116 | Every join in the document belongs to some note `n + 1` with `n` below the number of files, and resolves one of file `n`'s label references. Its tag is the first tag with the referenced name, so its `tagId` is the id of one of the document's tags. |
| Aggregate.ConversionOfJoinIds | gk2qp.py:111-116 | Every join in the document is for a note id from 1 to the number of files (a corollary of `ConversionOfJoinTags`). |
| Aggregate.ConversionOfAttachments | gk2qp.py:109-118 | A path is among the attachments to copy exactly when some note file lists it as an attachment's `filePath`. |

## Left out

- `main` is not modelled (gk2qp.py:161-198). It unpacks the archive, creates and removes the temporary
  directories, globs `*.json`, writes `backup.json`, copies the media, builds the zip and prints. The note files
  reach the model as a sequence, in the order the glob yields them, each with its stem and its parsed JSON.
- Argument parsing is not modelled. The `--disable-extra-colors` switch appears only as the `useExtraColors`
  parameter of `Colors.ColorTable`.
- Reading files is not modelled: `open`, `json.load` and `readlines`. A note arrives already parsed, and the
  label file arrives as its list of lines, or `None` when it is not a file.
- JSON value types are not modelled. The flags are taken to be booleans, the timestamps integers, and
  `isChecked` and `text` to be of the right type. Python's truthiness on other values, and the `TypeError` from
  `//` on a non-number, are outside the model.
- The global `colors` dictionary, updated in place by `colors.update(extra_colors)`, becomes a table passed to
  the converter. The effect is the same, because the update happens once, before any conversion.
- Untitled.IsDigit: accepts ASCII `0`–`9` only. In a `str` pattern, Python's `\d` also matches other Unicode
  decimal digits. So the model differs from the script for a stem in the untitled shape written with such
  digits (Arabic-Indic digits, for example): the script omits the title, but the model keeps it.
- Strip.IsSpace: follows `str.isspace` by code point list. Python's Unicode database is not modelled beyond
  that list.
- The JSON key order of the output objects is not modelled. An output object is a record whose optional keys
  are `Option`s.
- `print` and `sys.exit` are not modelled; an unknown label becomes the failure `UnknownTag(name)`. The
  `return 0` after `sys.exit` cannot be reached and is not modelled.
