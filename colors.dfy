/**
 * The colour tables: the Keep colours Quillpad supports directly, and the
 * extra Keep colours folded onto the nearest supported one.
 */
module Colors {

  /** The colour names Quillpad knows (besides its default colour). */
  const QuillpadColors: set<string> := {"Green", "Pink", "Blue", "Red", "Orange", "Yellow"}

  /** Keep colour name to Quillpad colour name, for the colours Quillpad has. */
  const BaseColors: map<string, string> :=
    map["GREEN" := "Green", "PINK" := "Pink", "BLUE" := "Blue",
        "RED" := "Red", "ORANGE" := "Orange", "YELLOW" := "Yellow"]

  /** Keep colours Quillpad lacks, with the closest Quillpad colour (GRAY has none). */
  const ExtraColors: map<string, string> :=
    map["CERULEAN" := "Blue", "BROWN" := "Orange", "PURPLE" := "Pink", "TEAL" := "Blue"]

  /**
   * The table note conversion consults: the base table, updated with the
   * extra one unless extra colours were disabled on the command line. The
   * update overrides no base entry, and every colour it yields is one
   * Quillpad supports.
   */
  function ColorTable(useExtraColors: bool): (table: map<string, string>)
    ensures table.Keys == if useExtraColors then BaseColors.Keys + ExtraColors.Keys else BaseColors.Keys
    ensures forall k :: k in BaseColors ==> k in table && table[k] == BaseColors[k]
    ensures useExtraColors ==> forall k :: k in ExtraColors ==> table[k] == ExtraColors[k]
    ensures forall k :: k in table ==> table[k] in QuillpadColors
  {
    if useExtraColors then BaseColors + ExtraColors else BaseColors
  }

  /** Folding examples: a muted blue becomes Blue, GRAY is never mapped. */
  lemma ColorTableExamples()
    ensures ColorTable(true)["CERULEAN"] == "Blue"
    ensures "CERULEAN" !in ColorTable(false)
    ensures forall useExtraColors :: "GRAY" !in ColorTable(useExtraColors)
  {
  }
}
