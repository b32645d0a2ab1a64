/**
 * The page that owns the test: the input mode, the word to type, the Morse
 * text last reported by the input, the words typed so far and the
 * correct / incorrect / neutral feedback flag.
 *
 * A submission is judged by comparing the submitted text, trimmed and
 * lower-cased, with the lower-cased word. The one-second timers that return
 * the flag to neutral are counted in `pendingReverts`; the host fires them
 * with `FireRevert`.
 */
module Page {
  import opened Wrappers
  import opened JsString
  import opened Types
  import opened MorseDecoder
  import MorseInput

  /** `handleSubmit`'s test. The text is trimmed; the word is not. */
  predicate IsMatch(text: string, word: string) {
    ToLower(Trim(text)) == ToLower(word)
  }

  /** White space around the submitted text does not change the outcome. */
  lemma MatchIgnoresPadding(pre: string, text: string, post: string, word: string)
    requires AllWhiteSpace(pre) && AllWhiteSpace(post)
    ensures IsMatch(pre + text + post, word) <==> IsMatch(text, word)
  {
    TrimIgnoresPadding(pre, text, post);
  }

  /** Lower-casing keeps white space and never produces it. */
  lemma LowerCharWhiteSpace(c: char)
    ensures IsWhiteSpace(LowerChar(c)) <==> IsWhiteSpace(c)
  {
  }

  /**
   * Since the word is not trimmed, a word that starts or ends with white
   * space is matched by no text at all.
   */
  lemma PaddedWordNeverMatches(text: string, word: string)
    requires word != [] && (IsWhiteSpace(word[0]) || IsWhiteSpace(word[|word| - 1]))
    ensures !IsMatch(text, word)
  {
    var r := Trim(text);
    if |r| == |word| {
      LowerCharWhiteSpace(r[0]);
      LowerCharWhiteSpace(word[0]);
      LowerCharWhiteSpace(r[|r| - 1]);
      LowerCharWhiteSpace(word[|word| - 1]);
      assert ToLower(r)[0] == LowerChar(r[0]) && ToLower(word)[0] == LowerChar(word[0]);
      assert ToLower(r)[|r| - 1] == LowerChar(r[|r| - 1]);
      assert ToLower(word)[|word| - 1] == LowerChar(word[|word| - 1]);
    }
  }

  /** A word with no white space at its ends is matched by itself. */
  lemma WordMatchesItself(word: string)
    requires word != [] ==> !IsWhiteSpace(word[0]) && !IsWhiteSpace(word[|word| - 1])
    ensures IsMatch(word, word)
  {
    TrimNoEdges(word);
  }

  /** Whatever the input submits on an early match is judged correct. */
  lemma EarlyMatchIsCorrect(s: MorseInput.SessionState)
    requires MorseInput.EarlyMatch(s).Some?
    ensures IsMatch(MorseInput.EarlyMatch(s).value, s.currentWord)
  {
    var text := MorseToText(s.morseSequence);
    DecodedHasNoWhiteSpace(s.morseSequence);
    TrimNoEdges(text);
  }

  /** The page's state fields. */
  datatype PageState = PageState(
    inputMode: InputMode,
    currentWord: string,
    enteredMorse: string,
    typedText: string,
    isCorrect: Option<bool>,
    pendingReverts: nat)

  class Home {
    var inputMode: InputMode
    var currentWord: string
    var enteredMorse: string
    var typedText: string
    /** `true`, `false`, or `null` (neutral). */
    var isCorrect: Option<bool>
    /** Scheduled returns of the flag to neutral that have not fired yet. */
    var pendingReverts: nat

    function State(): PageState
      reads this
    {
      PageState(inputMode, currentWord, enteredMorse, typedText, isCorrect, pendingReverts)
    }

    constructor ()
      ensures State() == PageState(KeyboardDual, "", "", "", None, 0)
    {
      inputMode := KeyboardDual;
      currentWord, enteredMorse, typedText := "", "", "";
      isCorrect := None;
      pendingReverts := 0;
    }

    method HandleInputModeChange(mode: InputMode)
      modifies this
      ensures State() == old(State()).(inputMode := mode)
    {
      inputMode := mode;
    }

    /** `onMorseInput`: the input reports its sequence. */
    method HandleMorseInput(morse: string)
      modifies this
      ensures State() == old(State()).(enteredMorse := morse)
    {
      enteredMorse := morse;
    }

    /** `setCurrentWord`, as the typing test calls it. */
    method SetCurrentWord(word: string)
      modifies this
      ensures State() == old(State()).(currentWord := word)
    {
      currentWord := word;
    }

    /**
     * `handleSubmit`: a match records the untrimmed text and clears the word
     * and the Morse text; a mismatch only sets the flag. Both schedule a revert.
     */
    method HandleSubmit(text: string)
      modifies this
      ensures IsMatch(text, old(currentWord)) ==>
        State() == old(State()).(isCorrect := Some(true), typedText := old(typedText) + " " + text,
          currentWord := "", enteredMorse := "", pendingReverts := old(pendingReverts) + 1)
      ensures !IsMatch(text, old(currentWord)) ==>
        State() == old(State()).(isCorrect := Some(false), pendingReverts := old(pendingReverts) + 1)
    {
      if ToLower(Trim(text)) == ToLower(currentWord) {
        isCorrect := Some(true);
        typedText := typedText + " " + text;
        currentWord := "";
        enteredMorse := "";
      } else {
        isCorrect := Some(false);
      }
      pendingReverts := pendingReverts + 1;
    }

    /** A revert timer elapsing: the flag returns to neutral (nothing happens if none is pending). */
    method FireRevert()
      modifies this
      ensures old(pendingReverts) > 0 ==>
        State() == old(State()).(isCorrect := None, pendingReverts := old(pendingReverts) - 1)
      ensures old(pendingReverts) == 0 ==> State() == old(State())
    {
      if pendingReverts > 0 {
        isCorrect := None;
        pendingReverts := pendingReverts - 1;
      }
    }

    /** `resetMorseInput`: only the reported Morse text is cleared. */
    method ResetMorseInput()
      modifies this
      ensures State() == old(State()).(enteredMorse := "")
    {
      enteredMorse := "";
    }

    /** The "Reset Test" button: the typed words, the word and the Morse text are cleared. */
    method ResetTest()
      modifies this
      ensures State() == old(State()).(typedText := "", currentWord := "", enteredMorse := "")
    {
      typedText := "";
      currentWord := "";
      enteredMorse := "";
    }
  }
}
