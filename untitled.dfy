/**
 * Recognising the file-name stems Google Keep gives to notes that never had a
 * title: a creation timestamp shaped `YYYY-MM-DDTHH_MM_SS.mmm+OO_OO`.
 */
module Untitled {

  /** What `\d` accepts in the untitled pattern (ASCII digits only here). */
  predicate IsDigit(c: char)
  {
    '0' <= c <= '9'
  }

  /** Positions 0 to 9: `YYYY-MM-DD`. */
  predicate HasDateShape(s: string)
    requires |s| >= 29
  {
    && IsDigit(s[0]) && IsDigit(s[1]) && IsDigit(s[2]) && IsDigit(s[3])
    && s[4] == '-'
    && IsDigit(s[5]) && IsDigit(s[6])
    && s[7] == '-'
    && IsDigit(s[8]) && IsDigit(s[9])
  }

  /**
   * Positions 10 to 19: `THH_MM_SS` and then, at 19 (an unescaped `.` in
   * the pattern), any character but a newline.
   */
  predicate HasTimeShape(s: string)
    requires |s| >= 29
  {
    && s[10] == 'T'
    && IsDigit(s[11]) && IsDigit(s[12])
    && s[13] == '_'
    && IsDigit(s[14]) && IsDigit(s[15])
    && s[16] == '_'
    && IsDigit(s[17]) && IsDigit(s[18])
    && s[19] != '\n'
  }

  /** Positions 20 to 28: `mmm+OO_OO`. */
  predicate HasZoneShape(s: string)
    requires |s| >= 29
  {
    && IsDigit(s[20]) && IsDigit(s[21]) && IsDigit(s[22])
    && s[23] == '+'
    && IsDigit(s[24]) && IsDigit(s[25])
    && s[26] == '_'
    && IsDigit(s[27]) && IsDigit(s[28])
  }

  /** The first 29 characters have the untitled shape, position by position. */
  predicate HasUntitledShape(s: string)
    requires |s| >= 29
  {
    HasDateShape(s) && HasTimeShape(s) && HasZoneShape(s)
  }

  /**
   * `is_untitled`: the stem has the untitled shape and nothing after it, except
   * that the end anchor `$` also accepts a single newline as the last character.
   */
  predicate IsUntitled(name: string)
  {
    (|name| == 29 || (|name| == 30 && name[29] == '\n')) && HasUntitledShape(name)
  }

  // A second reading of the same pattern, token by token, as the regular
  // expression engine walks it; IsUntitledIsAnchoredMatch ties the two together.

  /** One single-character token of the pattern. */
  datatype Token = Digit | AnyButNewline | Literal(c: char)

  /** `\d\d\d\d-\d\d-\d\dT\d\d_\d\d_\d\d.\d\d\d\+\d\d_\d\d`, one token per character. */
  const UntitledPattern: seq<Token> :=
    [ Digit, Digit, Digit, Digit, Literal('-'), Digit, Digit, Literal('-'), Digit, Digit,
      Literal('T'), Digit, Digit, Literal('_'), Digit, Digit, Literal('_'), Digit, Digit,
      AnyButNewline, Digit, Digit, Digit, Literal('+'), Digit, Digit, Literal('_'), Digit, Digit ]

  predicate Accepts(t: Token, c: char)
  {
    match t
    case Digit => IsDigit(c)
    case AnyButNewline => c != '\n'
    case Literal(l) => c == l
  }

  /**
   * `^tokens$` as Python's `re.match` reads it: each token consumes one
   * character, and `$` matches at the end or before a newline that ends the string.
   */
  predicate AnchoredMatch(tokens: seq<Token>, s: string)
    decreases tokens
  {
    if tokens == [] then s == "" || s == "\n"
    else s != "" && Accepts(tokens[0], s[0]) && AnchoredMatch(tokens[1..], s[1..])
  }

  /** An anchored match is a position-by-position match plus at most one final newline. */
  lemma {:induction false} AnchoredMatchByPosition(tokens: seq<Token>, s: string)
    ensures AnchoredMatch(tokens, s) <==>
              && (|s| == |tokens| || (|s| == |tokens| + 1 && s[|tokens|] == '\n'))
              && forall i :: 0 <= i < |tokens| ==> Accepts(tokens[i], s[i])
    decreases tokens
  {
    if tokens != [] && s != "" {
      var rest, tail := tokens[1..], s[1..];
      AnchoredMatchByPosition(rest, tail);
      if |s| >= |tokens| {
        assert (forall i :: 0 <= i < |tokens| ==> Accepts(tokens[i], s[i])) <==>
               (Accepts(tokens[0], s[0]) && forall i :: 0 <= i < |rest| ==> Accepts(rest[i], tail[i])) by {
          forall i | 1 <= i < |tokens| ensures tokens[i] == rest[i - 1] && s[i] == tail[i - 1] { }
        }
      }
    }
  }

  /** The pattern accepts positions `lo` to `hi - 1` of `s`. */
  predicate AcceptsRange(s: string, lo: nat, hi: nat)
    requires hi <= 29 && hi <= |s|
  {
    forall i :: lo <= i < hi ==> Accepts(UntitledPattern[i], s[i])
  }

  /** The date part of the shape is the pattern's positions 0 to 9. */
  lemma DateMatches(s: string)
    requires |s| >= 29
    ensures HasDateShape(s) <==> AcceptsRange(s, 0, 10)
  {
  }

  /** The time part of the shape is the pattern's positions 10 to 19. */
  lemma TimeMatches(s: string)
    requires |s| >= 29
    ensures HasTimeShape(s) <==> AcceptsRange(s, 10, 20)
  {
  }

  /** The zone part of the shape is the pattern's positions 20 to 28. */
  lemma ZoneMatches(s: string)
    requires |s| >= 29
    ensures HasZoneShape(s) <==> AcceptsRange(s, 20, 29)
  {
  }

  /** The untitled predicate is the pattern accepting every position, plus the end condition. */
  lemma IsUntitledByPosition(name: string)
    ensures IsUntitled(name) <==>
              && (|name| == 29 || (|name| == 30 && name[29] == '\n'))
              && AcceptsRange(name, 0, 29)
  {
    if |name| >= 29 {
      DateMatches(name);
      TimeMatches(name);
      ZoneMatches(name);
      assert AcceptsRange(name, 0, 29) <==>
             AcceptsRange(name, 0, 10) && AcceptsRange(name, 10, 20) && AcceptsRange(name, 20, 29);
    }
  }

  /** The per-position predicate is exactly the anchored match of the pattern. */
  lemma IsUntitledIsAnchoredMatch(name: string)
    ensures IsUntitled(name) <==> AnchoredMatch(UntitledPattern, name)
  {
    var tokens := UntitledPattern;
    AnchoredMatchByPosition(tokens, name);
    IsUntitledByPosition(name);
  }

  /** A stem exported for an untitled note, and the quirks the pattern lets through. */
  lemma UntitledExamples()
    ensures IsUntitled("2023-01-15T10_30_45.123+01_00")
    ensures IsUntitled("2023-01-15T10_30_45x123+01_00")
    ensures IsUntitled("2023-01-15T10_30_45.123+01_00\n")
    ensures !IsUntitled("2023-01-15T10_30_45\n123+01_00")
    ensures !IsUntitled("2023-01-15T10:30:45.123+01:00")
    ensures !IsUntitled("Shopping list")
  {
  }
}
