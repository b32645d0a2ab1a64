/**
 * `morseToText` of the input component: a space-separated string of dot/dash
 * groups is split on " ", every group is looked up in a fixed table, and the
 * looked-up strings are joined with no separator. A group missing from the
 * table contributes the empty string.
 */
module MorseDecoder {
  import opened JsString

  /**
   * The decoder's table, `morseCodeMap`, written as the union of its three
   * runs in the source (letters, figures, punctuation); no key occurs in two
   * runs. The letters and figures are those of Recommendation ITU-R M.1677-1,
   * Part I, section 1.1; so are the entries for `.` `,` `?` `'` `/` `(` `)`
   * `:` `=` `+` `-` `"` `@`. The entries for `!` `&` `;` `_` `$` are
   * extensions (in the Recommendation the code given here to `&` is the
   * "wait" signal).
   */
  const MorseCodeMap: map<string, string> := Letters + Figures + Punctuation

  const Letters: map<string, string> := map[
    ".-" := "a", "-..." := "b", "-.-." := "c", "-.." := "d", "." := "e",
    "..-." := "f", "--." := "g", "...." := "h", ".." := "i", ".---" := "j",
    "-.-" := "k", ".-.." := "l", "--" := "m", "-." := "n", "---" := "o",
    ".--." := "p", "--.-" := "q", ".-." := "r", "..." := "s", "-" := "t",
    "..-" := "u", "...-" := "v", ".--" := "w", "-..-" := "x", "-.--" := "y",
    "--.." := "z"
  ]

  const Figures: map<string, string> := map[
    ".----" := "1", "..---" := "2", "...--" := "3", "....-" := "4", "....." := "5",
    "-...." := "6", "--..." := "7", "---.." := "8", "----." := "9", "-----" := "0"
  ]

  const Punctuation: map<string, string> := map[
    ".-.-.-" := ".", "--..--" := ",", "..--.." := "?", ".----." := "'", "-.-.--" := "!",
    "-..-." := "/", "-.--." := "(", "-.--.-" := ")", ".-..." := "&", "---..." := ":",
    "-.-.-." := ";", "-...-" := "=", ".-.-." := "+", "-....-" := "-", "..--.-" := "_",
    ".-..-." := "\"", "...-..-" := "$", ".--.-." := "@"
  ]

  /** A symbol group: one or more dots and dashes. */
  predicate IsGroup(g: string) {
    |g| > 0 && forall i | 0 <= i < |g| :: g[i] == '.' || g[i] == '-'
  }

  /** `morseCodeMap[char] || ""`: the table's entry, or "" for a group it lacks. */
  function Lookup(group: string): (text: string)
    ensures group in MorseCodeMap ==> text == MorseCodeMap[group]
    ensures group !in MorseCodeMap ==> text == ""
  {
    if group in MorseCodeMap then MorseCodeMap[group] else ""
  }

  /** `.map(...)` over the groups. */
  function LookupAll(groups: seq<string>): (texts: seq<string>)
    ensures |texts| == |groups|
    ensures forall i | 0 <= i < |groups| :: texts[i] == Lookup(groups[i])
  {
    seq(|groups|, i requires 0 <= i < |groups| => Lookup(groups[i]))
  }

  /** `morseToText`. */
  function MorseToText(morse: string): (text: string)
    ensures morse == "" ==> text == ""
    ensures ' ' !in morse && morse in MorseCodeMap ==> text == MorseCodeMap[morse]
    ensures ' ' !in morse && morse !in MorseCodeMap ==> text == ""
  {
    var groups := Split(morse, ' ');
    KeysAreGroups();
    assert ' ' !in morse ==> groups == [morse] by {
      if ' ' !in morse { SplitNoSep(morse, ' '); }
    }
    Join(LookupAll(groups), "")
  }

  lemma LetterKeysAreGroups()
    ensures forall k | k in Letters :: IsGroup(k)
  {
  }

  lemma FigureKeysAreGroups()
    ensures forall k | k in Figures :: IsGroup(k)
  {
  }

  lemma PunctuationKeysAreGroups()
    ensures forall k | k in Punctuation :: IsGroup(k)
  {
  }

  lemma LetterKeyLengths()
    ensures forall k | k in Letters :: 1 <= |k| <= 4
  {
  }

  lemma FigureKeyLengths()
    ensures forall k | k in Figures :: |k| == 5
  {
  }

  lemma PunctuationKeyLengths()
    ensures forall k | k in Punctuation :: 5 <= |k| <= 7
  {
  }

  lemma FiguresAreNotPunctuation()
    ensures forall k | k in Figures :: k !in Punctuation
  {
  }

  // The keys of the letter and punctuation runs, grouped by length. Keys of
  // different lengths differ, so each run's size is the sum of its groups'.

  const LetterKeys1: set<string> := {".", "-"}
  const LetterKeys2: set<string> := {".-", "..", "--", "-."}
  const LetterKeys3: set<string> := {"-..", "--.", "-.-", "---", ".-.", "...", "..-", ".--"}
  const LetterKeys4: set<string> :=
    {"-...", "-.-.", "..-.", "....", ".---", ".-..", ".--.", "--.-", "...-", "-..-", "-.--", "--.."}

  const PunctuationKeys5: set<string> := {"-..-.", "-.--.", ".-...", "-...-", ".-.-."}
  const PunctuationKeys6: set<string> :=
    {".-.-.-", "--..--", "..--..", ".----.", "-.-.--", "-.--.-", "---...", "-.-.-.", "-....-", "..--.-", ".-..-.", ".--.-."}
  const PunctuationKeys7: set<string> := {"...-..-"}

  lemma LetterKeysGrouped()
    ensures Letters.Keys == LetterKeys1 + LetterKeys2 + LetterKeys3 + LetterKeys4
  {
  }

  lemma LetterGroupLengths()
    ensures forall x | x in LetterKeys1 :: |x| == 1
    ensures forall x | x in LetterKeys2 :: |x| == 2
    ensures forall x | x in LetterKeys3 :: |x| == 3
    ensures forall x | x in LetterKeys4 :: |x| == 4
  {
  }

  lemma LetterGroupSizes()
    ensures |LetterKeys1| == 2 && |LetterKeys2| == 4 && |LetterKeys3| == 8
  {
  }

  lemma LetterGroupSizeFour()
    ensures |LetterKeys4| == 12
  {
  }

  lemma PunctuationKeysGrouped()
    ensures Punctuation.Keys == PunctuationKeys5 + PunctuationKeys6 + PunctuationKeys7
  {
  }

  lemma PunctuationGroupLengths()
    ensures forall x | x in PunctuationKeys5 :: |x| == 5
    ensures forall x | x in PunctuationKeys6 :: |x| == 6
    ensures forall x | x in PunctuationKeys7 :: |x| == 7
  {
  }

  lemma PunctuationGroupSizes()
    ensures |PunctuationKeys5| == 5 && |PunctuationKeys7| == 1
  {
  }

  lemma PunctuationGroupSizeSix()
    ensures |PunctuationKeys6| == 12
  {
  }

  /** One letter entry per line of the source's object literal; none is lost to a repeated key. */
  lemma LetterCount()
    ensures |Letters| == 26
  {
    LetterKeysGrouped();
    LetterGroupLengths();
    LetterGroupSizes();
    LetterGroupSizeFour();
    var a, b, c, d := LetterKeys1, LetterKeys2, LetterKeys3, LetterKeys4;
    assert a !! b && (a + b) !! c && (a + b + c) !! d;
    assert |Letters| == |Letters.Keys|;
  }

  /** One figure entry per line. */
  lemma FigureCount()
    ensures |Figures| == 10
  {
  }

  /** One punctuation entry per line. */
  lemma PunctuationCount()
    ensures |Punctuation| == 18
  {
    PunctuationKeysGrouped();
    PunctuationGroupLengths();
    PunctuationGroupSizes();
    PunctuationGroupSizeSix();
    var a, b, c := PunctuationKeys5, PunctuationKeys6, PunctuationKeys7;
    assert a !! b && (a + b) !! c;
    assert |Punctuation| == |Punctuation.Keys|;
  }

  /** The whole table: 26 + 10 + 18 = 54 entries, one per entry line of the decoder's object literal. */
  lemma EntryCount()
    ensures |MorseCodeMap| == 54
  {
    LetterCount();
    FigureCount();
    PunctuationCount();
    RunsDisjoint();
  }

  /** No key occurs in two runs, so the union loses no entry of the source's table. */
  lemma RunsDisjoint()
    ensures Letters.Keys !! Figures.Keys
    ensures Letters.Keys !! Punctuation.Keys
    ensures Figures.Keys !! Punctuation.Keys
  {
    LetterKeyLengths();
    FigureKeyLengths();
    PunctuationKeyLengths();
    FiguresAreNotPunctuation();
  }

  /** The table holds every entry of every run, with its own value. */
  lemma TableHoldsRuns()
    ensures forall k | k in Letters :: k in MorseCodeMap && MorseCodeMap[k] == Letters[k]
    ensures forall k | k in Figures :: k in MorseCodeMap && MorseCodeMap[k] == Figures[k]
    ensures forall k | k in Punctuation :: k in MorseCodeMap && MorseCodeMap[k] == Punctuation[k]
    ensures MorseCodeMap.Keys == Letters.Keys + Figures.Keys + Punctuation.Keys
  {
    RunsDisjoint();
  }

  /** Every key of the table is a symbol group (so none is empty or holds a space). */
  lemma KeysAreGroups()
    ensures forall k | k in MorseCodeMap :: IsGroup(k)
  {
    LetterKeysAreGroups();
    FigureKeysAreGroups();
    PunctuationKeysAreGroups();
  }

  lemma LetterValuesAreCharacters()
    ensures forall k | k in Letters :: |Letters[k]| == 1 && 'a' <= Letters[k][0] <= 'z'
  {
  }

  lemma FigureValuesAreCharacters()
    ensures forall k | k in Figures :: |Figures[k]| == 1 && '0' <= Figures[k][0] <= '9'
  {
  }

  lemma PunctuationValuesAreCharacters()
    ensures forall k | k in Punctuation :: |Punctuation[k]| == 1 && '!' <= Punctuation[k][0] <= '_'
  {
  }

  /** Every entry of the table is one printable character, never white space. */
  lemma ValuesAreCharacters()
    ensures forall k | k in MorseCodeMap :: |MorseCodeMap[k]| == 1 && '!' <= MorseCodeMap[k][0] <= 'z'
  {
    LetterValuesAreCharacters();
    FigureValuesAreCharacters();
    PunctuationValuesAreCharacters();
  }

  lemma PrintableIsNotWhiteSpace(c: char)
    requires '!' <= c <= 'z'
    ensures !IsWhiteSpace(c)
  {
  }

  /** No looked-up text holds white space. */
  lemma LookupHasNoWhiteSpace(group: string)
    ensures NoWhiteSpace(Lookup(group))
  {
    if group in MorseCodeMap {
      ValuesAreCharacters();
      var text := MorseCodeMap[group];
      PrintableIsNotWhiteSpace(text[0]);
      assert text == [text[0]];
    }
  }

  /** Decoded text never holds white space, so `trim` leaves it as it is. */
  lemma DecodedHasNoWhiteSpace(morse: string)
    ensures NoWhiteSpace(MorseToText(morse))
  {
    var groups := Split(morse, ' ');
    var texts := LookupAll(groups);
    forall i | 0 <= i < |texts|
      ensures NoWhiteSpace(texts[i])
    {
      LookupHasNoWhiteSpace(groups[i]);
    }
    JoinNoWhiteSpace(texts);
  }

  /** Every key of the table decodes to exactly its entry. */
  lemma DecodesTableKey(k: string)
    requires k in MorseCodeMap
    ensures MorseToText(k) == MorseCodeMap[k]
  {
    KeysAreGroups();
  }

  /** `.map` distributes over concatenation of the groups. */
  lemma LookupAllAppend(a: seq<string>, b: seq<string>)
    ensures LookupAll(a + b) == LookupAll(a) + LookupAll(b)
  {
  }

  /** Decoding distributes over the separator. */
  lemma {:induction false} DecodeConcat(a: string, b: string)
    ensures MorseToText(a + " " + b) == MorseToText(a) + MorseToText(b)
  {
    SplitConcat(a, ' ', b);
    LookupAllAppend(Split(a, ' '), Split(b, ' '));
    JoinEmptyAppend(LookupAll(Split(a, ' ')), LookupAll(Split(b, ' ')));
  }

  /** A letter gap at the end adds nothing. */
  lemma TrailingGap(a: string)
    ensures MorseToText(a + " ") == MorseToText(a)
  {
    DecodeConcat(a, "");
    assert a + " " + "" == a + " ";
  }

  /** A letter gap at the start adds nothing. */
  lemma LeadingGap(b: string)
    ensures MorseToText(" " + b) == MorseToText(b)
  {
    DecodeConcat("", b);
    assert "" + " " + b == " " + b;
  }

  /** A doubled letter gap decodes like a single one. */
  lemma DoubledGap(a: string, b: string)
    ensures MorseToText(a + "  " + b) == MorseToText(a) + MorseToText(b)
  {
    DecodeConcat(a, " " + b);
    LeadingGap(b);
    assert a + " " + (" " + b) == a + "  " + b;
  }

  /** A group the table lacks contributes nothing, wherever it stands. */
  lemma UnknownGroupDropped(a: string, g: string, b: string)
    requires ' ' !in g && g !in MorseCodeMap
    ensures MorseToText(a + " " + g + " " + b) == MorseToText(a) + MorseToText(b)
  {
    DecodeConcat(a + " " + g, b);
    DecodeConcat(a, g);
  }

  /** A letter's group decodes to that letter. */
  lemma DecodeLetter(k: string)
    requires k in Letters
    ensures MorseToText(k) == Letters[k]
  {
    TableHoldsRuns();
    DecodesTableKey(k);
  }

  /** A figure's group decodes to that figure. */
  lemma DecodeFigure(k: string)
    requires k in Figures
    ensures MorseToText(k) == Figures[k]
  {
    TableHoldsRuns();
    DecodesTableKey(k);
  }

  /** Two letters' groups separated by a single gap decode to those two letters. */
  lemma DecodeTwoLetters(a: string, b: string)
    requires a in Letters && b in Letters
    ensures MorseToText(a + " " + b) == Letters[a] + Letters[b]
  {
    DecodeLetter(a);
    DecodeLetter(b);
    DecodeConcat(a, b);
  }

  /** Five letters' groups separated by single gaps decode to those five letters. */
  lemma DecodeFiveLetters(a: string, b: string, c: string, d: string, e: string)
    requires a in Letters && b in Letters && c in Letters && d in Letters && e in Letters
    ensures MorseToText(a + " " + b + " " + c + " " + d + " " + e)
         == Letters[a] + Letters[b] + Letters[c] + Letters[d] + Letters[e]
  {
    DecodeLetter(a);
    DecodeLetter(b);
    DecodeLetter(c);
    DecodeLetter(d);
    DecodeLetter(e);
    DecodeConcat(a, b);
    DecodeConcat(a + " " + b, c);
    DecodeConcat(a + " " + b + " " + c, d);
    DecodeConcat(a + " " + b + " " + c + " " + d, e);
  }

  lemma HelloSpelling(morse: string)
    requires morse == ".... . .-.. .-.. ---"
    ensures morse == "...." + " " + "." + " " + ".-.." + " " + ".-.." + " " + "---"
    ensures Letters["...."] + Letters["."] + Letters[".-.."] + Letters[".-.."] + Letters["---"] == "hello"
  {
  }

  /** The worked example: ".... . .-.. .-.. ---" reads "hello". */
  lemma DecodeHello(morse: string)
    requires morse == ".... . .-.. .-.. ---"
    ensures MorseToText(morse) == "hello"
  {
    HelloSpelling(morse);
    DecodeFiveLetters("....", ".", ".-..", ".-..", "---");
  }

  /** "..." decodes to "s". */
  lemma DecodesS(morse: string)
    requires morse == "..."
    ensures MorseToText(morse) == "s"
  {
    DecodeLetter(morse);
  }

  lemma SeSpelling(morse: string)
    requires morse == "... ."
    ensures morse == "..." + " " + "." && Letters["..."] + Letters["."] == "se"
  {
  }

  /** "... ." decodes to "se". */
  lemma DecodesSE(morse: string)
    requires morse == "... ."
    ensures MorseToText(morse) == "se"
  {
    SeSpelling(morse);
    DecodeTwoLetters("...", ".");
  }

  lemma SaSpelling(morse: string)
    requires morse == "... .-"
    ensures morse == "..." + " " + ".-" && Letters["..."] + Letters[".-"] == "sa"
  {
  }

  /** "... .-" decodes to "sa". */
  lemma DecodesSA(morse: string)
    requires morse == "... .-"
    ensures MorseToText(morse) == "sa"
  {
    SaSpelling(morse);
    DecodeTwoLetters("...", ".-");
  }

  /** Two trailing gaps decode like one. */
  lemma SecondGapDecodesAsOne(m: string)
    ensures MorseToText(m + " " + " ") == MorseToText(m + " ")
  {
    DoubledGap(m, "");
    TrailingGap(m);
    assert m + " " + " " == m + "  " + "";
  }
}
