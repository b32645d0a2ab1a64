/**
 * The reference card shown beside the input: 36 letter/code pairs, the
 * letters `a`-`z` and then the figures `1`-`9` and `0`. It is only
 * displayed; its interest is that it must agree with the decoder's table.
 */
module MorseHelper {
  import opened MorseDecoder

  datatype Entry = Entry(letter: string, morse: string)

  /** `morseCode`, in the source's order. */
  const MorseCode: seq<Entry> := [
    Entry("a", ".-"), Entry("b", "-..."), Entry("c", "-.-."), Entry("d", "-.."),
    Entry("e", "."), Entry("f", "..-."), Entry("g", "--."), Entry("h", "...."),
    Entry("i", ".."), Entry("j", ".---"), Entry("k", "-.-"), Entry("l", ".-.."),
    Entry("m", "--"), Entry("n", "-."), Entry("o", "---"), Entry("p", ".--."),
    Entry("q", "--.-"), Entry("r", ".-."), Entry("s", "..."), Entry("t", "-"),
    Entry("u", "..-"), Entry("v", "...-"), Entry("w", ".--"), Entry("x", "-..-"),
    Entry("y", "-.--"), Entry("z", "--.."),
    Entry("1", ".----"), Entry("2", "..---"), Entry("3", "...--"), Entry("4", "....-"),
    Entry("5", "....."), Entry("6", "-...."), Entry("7", "--..."), Entry("8", "---.."),
    Entry("9", "----."), Entry("0", "-----")
  ]

  /** The letter the card lists at position `i`: `a`-`z`, then `1`-`9`, then `0`. */
  function CardLetter(i: nat): (c: char)
    requires i < 36
    ensures i < 26 ==> 'a' <= c <= 'z'
    ensures 26 <= i ==> '0' <= c <= '9'
  {
    if i < 26 then ('a' as int + i) as char
    else if i < 35 then ('1' as int + i - 26) as char
    else '0'
  }

  /** The card has 36 entries, in the order `a`-`z`, `1`-`9`, `0`. */
  lemma CardOrder()
    ensures |MorseCode| == 36
    ensures forall i | 0 <= i < 36 :: MorseCode[i].letter == [CardLetter(i)]
  {
  }

  /** Every code is non-empty and is made of dots and dashes only. */
  lemma CodesAreGroups()
    ensures forall i | 0 <= i < |MorseCode| :: IsGroup(MorseCode[i].morse)
  {
  }

  /** Letter codes have one to four symbols, figure codes exactly five. */
  lemma CodeLengths()
    ensures forall i | 0 <= i < 26 :: 1 <= |MorseCode[i].morse| <= 4
    ensures forall i | 26 <= i < |MorseCode| :: |MorseCode[i].morse| == 5
  {
  }

  /** The card's letters are pairwise distinct. */
  lemma LettersDistinct()
    ensures forall i, j | 0 <= i < j < |MorseCode| :: MorseCode[i].letter != MorseCode[j].letter
  {
    CardOrder();
    forall i, j | 0 <= i < j < |MorseCode|
      ensures MorseCode[i].letter != MorseCode[j].letter
    {
      assert MorseCode[i].letter[0] == CardLetter(i) && MorseCode[j].letter[0] == CardLetter(j);
    }
  }

  lemma LetterRowsInDecoderAM()
    ensures forall i | 0 <= i < 13 :: MorseCode[i].morse in Letters && Letters[MorseCode[i].morse] == MorseCode[i].letter
  {
  }

  lemma LetterRowsInDecoderNZ()
    ensures forall i | 13 <= i < 26 :: MorseCode[i].morse in Letters && Letters[MorseCode[i].morse] == MorseCode[i].letter
  {
  }

  /** The card's letter entries are entries of the decoder's letter run. */
  lemma LetterRowsInDecoder()
    ensures forall i | 0 <= i < 26 :: MorseCode[i].morse in Letters && Letters[MorseCode[i].morse] == MorseCode[i].letter
  {
    LetterRowsInDecoderAM();
    LetterRowsInDecoderNZ();
  }

  /** The card's figure entries are entries of the decoder's figure run. */
  lemma FigureRowsInDecoder()
    ensures forall i | 26 <= i < 36 :: MorseCode[i].morse in Figures && Figures[MorseCode[i].morse] == MorseCode[i].letter
  {
  }

  /** Every entry of the card decodes, through the decoder's table, to its own letter. */
  lemma CardDecodes()
    ensures forall i | 0 <= i < |MorseCode| :: MorseToText(MorseCode[i].morse) == MorseCode[i].letter
  {
    LetterRowsInDecoder();
    FigureRowsInDecoder();
    forall i | 0 <= i < |MorseCode|
      ensures MorseToText(MorseCode[i].morse) == MorseCode[i].letter
    {
      if i < 26 {
        DecodeLetter(MorseCode[i].morse);
      } else {
        DecodeFigure(MorseCode[i].morse);
      }
    }
  }

  /** The card's codes are pairwise distinct, so the card is invertible. */
  lemma CodesDistinct()
    ensures forall i, j | 0 <= i < j < |MorseCode| :: MorseCode[i].morse != MorseCode[j].morse
  {
    CardDecodes();
    LettersDistinct();
  }
}
