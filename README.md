# Morse code typing trainer — a Dafny model

The trainer is a browser page. It shows a practice word, and the user keys that
word in Morse code with the keyboard or the mouse. Keyed symbols build up a
Morse sequence: dots, dashes and single spaces that separate letters. The
sequence is decoded and submitted. The page then judges the submission against
the word, shows correct or incorrect, and keeps timing statistics.

This project models the logic behind that page:

- `MorseDecoder`: `morseToText` and its table, with the decoding laws.
- `MorseInput`: the input component's session. It covers:
  - the sequence edits made by the key handlers, the mouse handlers and the buttons;
  - press timing in the single-key modes;
  - the auto-advance and auto-submit timers;
  - the early-match check and the word-change reset.
  It is written twice. Pure `On...` transition functions on a `SessionState`
  say what each handler does. The `Session` class then performs each handler
  on its own fields, and each of its methods is proved to equal that
  handler's transition.
- `Page`: the page's submission outcome (a trimmed, case-insensitive
  comparison), the feedback flag and the two reset handlers, as the class `Home`.
- `TypingTest`: the practice list, the completion records, and the average and
  best times, as the class `Stats` and pure functions.
- `MorseHelper`: the reference card of 36 letters and figures, proved
  consistent with the decoder's table.
- `JsString`: the JavaScript string operations the code depends on:
  - `split` on one character and `join`;
  - `trim`, with the ECMAScript white-space and line-terminator set;
  - `toLowerCase`, for ASCII.
- `Types` holds the four input modes. `Wrappers` holds `Option` and JavaScript
  truthiness of a timestamp.

Timers have no clock here. Arming a timer stores a record in the session, and
clearing or re-arming it drops or replaces that record. The host fires a
pending timer with `FireAutoAdvance`, `FireAutoSubmit` or `FireRevert`.
Timestamps (`now`) and the random word index (`pick`) are parameters. Times
are whole milliseconds.

The letters and figures of the table follow Recommendation ITU-R M.1677-1,
Part I, section 1.1, and so do `. , ? ' / ( ) : = + - " @`. The entries for
`! & ; _ $` are not in that recommendation; it gives `.-...` to "wait", where
this table gives `&`.

Four behaviours of the code are modelled as written:

- **Callbacks use a stale sequence.** A timer callback uses the sequence from
  the render that scheduled it. That sequence is the one BEFORE the edit that
  armed the timer (components/MorseInput.tsx:83-95 and 109-115). The timer
  records therefore hold that captured sequence.
  - Consequence: a single-symbol letter keyed first, or keyed after a gap,
    never receives an automatic gap (`SymbolAfterGapGetsNoGap`).
  - Example: after "s " and its gap, keying the dot of "e", waiting past the
    delay, then the dash of "t" gives `... .-`, which decodes to "sa"
    (`SetReadsAsSa`).
  - Consequence: the submit that the automatic gap arms holds the sequence
    from before the last symbol, not the current one. With both automations
    on, keying `....` ("h") gives `.... ` after the delay, and the submit
    then sends "s" (`AutoGapSubmitDropsLastSymbol`).
- **No edit key cancels a pending auto-submit.** `resetAutoAdvanceTimer`
  (components/MorseInput.tsx:70-96) clears only the auto-advance timer, and
  the dot, dash and backspace keys (components/MorseInput.tsx:188-212) call
  nothing else. So an auto-submit armed after one letter still fires after
  more keys, with its own captured sequence (`EditKeysKeepSubmitTimer`).
  - Example: after "s " keyed with the gap key, an auto-submit of `...` is
    pending (after the automatic gap it would hold `..`, see above). Keying the dot of
    "e" does not cancel it, and when it fires it submits "s" while the
    sequence reads "se" (`StaleSubmitAfterMoreKeys`).
- **The gap key is followed by a second gap.** The manual gap key
  (components/MorseInput.tsx:203-209) has no guard of its own. The
  auto-advance callback it arms holds the sequence from before the gap, so
  after a letter it appends a second gap once the delay passes. The doubled
  gap decodes like a single one (`GapKeyGetsSecondGap`).
- **Auto-submit waits twice the auto-advance delay.** The code uses twice the
  delay (components/MorseInput.tsx:115). The comment on line 108 says 1.5 times.

## Model

| member | source | states |
|---|---|---|
| `MorseDecoder.MorseToText` | components/MorseInput.tsx:386-449 | the empty sequence decodes to ""; a single group that is a table key decodes to its entry; a single group that is not a key decodes to "" |
| `MorseDecoder.Lookup` | components/MorseInput.tsx:447 | a key gives its entry and any other group gives "", the `|| ""` fallback |
| `MorseDecoder.LookupAll` | components/MorseInput.tsx:446-447 | one looked-up text per group, in order |
| `MorseDecoder.DecodesTableKey` | components/MorseInput.tsx:387-447 | every key of the table decodes to exactly its entry |
| `MorseDecoder.DecodeLetter` | components/MorseInput.tsx:388-413 | every letter group decodes to its letter |
| `MorseDecoder.DecodeFigure` | components/MorseInput.tsx:414-423 | every figure group decodes to its figure |
| `MorseDecoder.DecodeConcat` | components/MorseInput.tsx:445-448 | decoding distributes over the gap: decode(a + " " + b) == decode(a) + decode(b) |
| `MorseDecoder.LookupAllAppend` | components/MorseInput.tsx:446-447 | the per-group lookup distributes over concatenation of the group lists |
| `MorseDecoder.TrailingGap` | components/MorseInput.tsx:445-448 | a trailing gap does not change the decoded text |
| `MorseDecoder.LeadingGap` | components/MorseInput.tsx:445-448 | a leading gap does not change the decoded text |
| `MorseDecoder.DoubledGap` | components/MorseInput.tsx:445-448 | a doubled gap decodes like a single one |
| `MorseDecoder.UnknownGroupDropped` | components/MorseInput.tsx:447 | a group that is not a key contributes nothing, wherever it stands |
| `MorseDecoder.DecodeTwoLetters` | components/MorseInput.tsx:388-413 | two letter groups with a gap decode to the two letters |
| `MorseDecoder.DecodeFiveLetters` | components/MorseInput.tsx:388-413 | five letter groups with gaps decode to the five letters |
| `MorseDecoder.DecodeHello` | components/MorseInput.tsx:386-449 | ".... . .-.. .-.. ---" decodes to "hello" |
| `MorseDecoder.KeysAreGroups` | components/MorseInput.tsx:387-442 | every key is a non-empty string of dots and dashes |
| `MorseDecoder.LetterKeysAreGroups` | components/MorseInput.tsx:388-413 | letter keys are dot/dash groups |
| `MorseDecoder.FigureKeysAreGroups` | components/MorseInput.tsx:414-423 | figure keys are dot/dash groups |
| `MorseDecoder.PunctuationKeysAreGroups` | components/MorseInput.tsx:424-441 | punctuation keys are dot/dash groups |
| `MorseDecoder.LetterKeyLengths` | components/MorseInput.tsx:388-413 | letter groups have 1 to 4 symbols |
| `MorseDecoder.FigureKeyLengths` | components/MorseInput.tsx:414-423 | figure groups have exactly 5 symbols |
| `MorseDecoder.PunctuationKeyLengths` | components/MorseInput.tsx:424-441 | punctuation groups have 5 to 7 symbols |
| `MorseDecoder.FiguresAreNotPunctuation` | components/MorseInput.tsx:414-441 | no figure group is also a punctuation group |
| `MorseDecoder.RunsDisjoint` | components/MorseInput.tsx:387-442 | letters, figures and punctuation use disjoint groups, so no key is shared between two runs |
| `MorseDecoder.LetterCount` | components/MorseInput.tsx:388-413 | the letter run has 26 entries, one per line, so no letter key is repeated |
| `MorseDecoder.FigureCount` | components/MorseInput.tsx:414-423 | the figure run has 10 entries, one per line |
| `MorseDecoder.PunctuationCount` | components/MorseInput.tsx:424-441 | the punctuation run has 18 entries, one per line |
| `MorseDecoder.EntryCount` | components/MorseInput.tsx:387-442 | the table has 54 entries, one per line of the object literal, so no key is repeated anywhere |
| `MorseDecoder.LetterKeysGrouped` | components/MorseInput.tsx:388-413 | the letter keys are exactly the four length groups |
| `MorseDecoder.LetterGroupLengths` | components/MorseInput.tsx:388-413 | each letter group holds keys of one length, 1 to 4 |
| `MorseDecoder.LetterGroupSizes` | components/MorseInput.tsx:388-413 | 2, 4 and 8 letter keys of length 1, 2 and 3 |
| `MorseDecoder.LetterGroupSizeFour` | components/MorseInput.tsx:388-413 | 12 letter keys of length 4 |
| `MorseDecoder.PunctuationKeysGrouped` | components/MorseInput.tsx:424-441 | the punctuation keys are exactly the three length groups |
| `MorseDecoder.PunctuationGroupLengths` | components/MorseInput.tsx:424-441 | each punctuation group holds keys of one length, 5 to 7 |
| `MorseDecoder.PunctuationGroupSizes` | components/MorseInput.tsx:424-441 | 5 punctuation keys of length 5 and 1 of length 7 |
| `MorseDecoder.PunctuationGroupSizeSix` | components/MorseInput.tsx:424-441 | 12 punctuation keys of length 6 |
| `MorseDecoder.TableHoldsRuns` | components/MorseInput.tsx:387-442 | the table is exactly the letters, the figures and the punctuation, each entry unchanged |
| `MorseDecoder.LetterValuesAreCharacters` | components/MorseInput.tsx:388-413 | every letter entry is one character a-z |
| `MorseDecoder.FigureValuesAreCharacters` | components/MorseInput.tsx:414-423 | every figure entry is one character 0-9 |
| `MorseDecoder.PunctuationValuesAreCharacters` | components/MorseInput.tsx:424-441 | every punctuation entry is one printable character |
| `MorseDecoder.ValuesAreCharacters` | components/MorseInput.tsx:387-442 | every entry is one printable, non-space character |
| `MorseDecoder.LookupHasNoWhiteSpace` | components/MorseInput.tsx:447 | a looked-up text never contains white space |
| `MorseDecoder.DecodedHasNoWhiteSpace` | components/MorseInput.tsx:445-448 | decoded text never contains white space |
| `MorseDecoder.MorseCodeMap` | components/MorseInput.tsx:387-442 | the decoder's table; `TableHoldsRuns`, `EntryCount`, `KeysAreGroups` and `ValuesAreCharacters` state what it holds |
| `MorseDecoder.Letters` | components/MorseInput.tsx:388-413 | the letter entries; `LetterCount`, `LetterKeyLengths`, `LetterValuesAreCharacters` and `DecodeLetter` state them |
| `MorseDecoder.Figures` | components/MorseInput.tsx:414-423 | the figure entries; `FigureCount`, `FigureKeyLengths`, `FigureValuesAreCharacters` and `DecodeFigure` state them |
| `MorseDecoder.Punctuation` | components/MorseInput.tsx:424-441 | the punctuation entries; `PunctuationCount`, `PunctuationKeyLengths` and `PunctuationValuesAreCharacters` state them |
| `JsString.Split` | components/MorseInput.tsx:446 | `split(" ")` yields at least one piece and no piece contains the separator |
| `JsString.JoinSplit` | components/MorseInput.tsx:446-448 | joining the pieces of a split with the separator gives back the string |
| `JsString.SplitJoin` | components/MorseInput.tsx:446-448 | splitting a join of separator-free pieces gives back the pieces |
| `JsString.SplitConcat` | components/MorseInput.tsx:446 | splitting a + sep + b gives the pieces of a followed by the pieces of b |
| `JsString.SplitNoSep` | components/MorseInput.tsx:446 | a string without the separator splits into itself alone |
| `JsString.Join` | components/MorseInput.tsx:448 | `Array.prototype.join`; `JoinSplit`, `SplitJoin`, `JoinEmptyAppend` and `JoinNoWhiteSpace` state it |
| `JsString.JoinEmptyAppend` | components/MorseInput.tsx:448 | `join("")` of two lists is the concatenation of their joins |
| `JsString.JoinNoWhiteSpace` | components/MorseInput.tsx:448 | joining white-space-free pieces gives a white-space-free string |
| `JsString.LeadingWhiteSpace` | app/page.tsx:28 | the leading run that `trim()` cuts fits in the text and stops before a character that is not white space |
| `JsString.TrailingWhiteSpace` | app/page.tsx:28 | the trailing run that `trim()` cuts fits in the text and stops after a character that is not white space |
| `JsString.LeadingRun` | app/page.tsx:28 | the leading run is all white space |
| `JsString.TrailingRun` | app/page.tsx:28 | the trailing run is all white space |
| `JsString.Trim` | app/page.tsx:28 | `trim()` gives a substring with only white space cut from either side and neither end white |
| `JsString.TrimPadded` | app/page.tsx:28 | white space around a string without white space at its ends is exactly what `trim()` removes |
| `JsString.TrimIgnoresPadding` | app/page.tsx:28 | adding white space around a text does not change its trim |
| `JsString.LeadingAfterWhiteSpace` | app/page.tsx:28 | white space in front of a string adds to its leading run |
| `JsString.TrailingBeforeWhiteSpace` | app/page.tsx:28 | white space behind a string adds to its trailing run |
| `JsString.LowerChar` | app/page.tsx:28 | `toLowerCase()` maps A-Z 32 code points up, to a-z, and leaves every other character |
| `JsString.ToLower` | app/page.tsx:28 | lower-casing keeps the length and lowers each character |
| `MorseHelper.MorseCode` | components/MorseHelper.tsx:4-41 | the reference card; `CardOrder`, `CodesAreGroups`, `CodesDistinct` and `CardDecodes` state it |
| `MorseHelper.CardOrder` | components/MorseHelper.tsx:4-41 | 36 rows: a-z in order, then 1-9, then 0 |
| `MorseHelper.CardLetter` | components/MorseHelper.tsx:5-40 | the first 26 rows hold letters and the rest hold figures |
| `MorseHelper.CodesAreGroups` | components/MorseHelper.tsx:5-40 | every code is non-empty and uses only dots and dashes |
| `MorseHelper.CodeLengths` | components/MorseHelper.tsx:5-40 | letter codes have 1 to 4 symbols and figure codes exactly 5 |
| `MorseHelper.LettersDistinct` | components/MorseHelper.tsx:5-40 | no letter appears twice |
| `MorseHelper.CodesDistinct` | components/MorseHelper.tsx:5-40 | no code appears twice, so the card can be read both ways |
| `MorseHelper.LetterRowsInDecoderAM` | components/MorseHelper.tsx:5-17 | rows a-m appear in the decoder's letter entries with the same letter |
| `MorseHelper.LetterRowsInDecoderNZ` | components/MorseHelper.tsx:18-30 | rows n-z appear in the decoder's letter entries with the same letter |
| `MorseHelper.LetterRowsInDecoder` | components/MorseHelper.tsx:5-30 | every letter row is a decoder letter entry |
| `MorseHelper.FigureRowsInDecoder` | components/MorseHelper.tsx:31-40 | every figure row is a decoder figure entry |
| `MorseHelper.CardDecodes` | components/MorseHelper.tsx:5-40 | every row's code decodes, through `morseToText`, to that row's letter |
| `MorseInput.Backspace` | components/MorseInput.tsx:211 | `slice(0, -1)` drops the last symbol; "" stays "" |
| `MorseInput.PressSymbol` | components/MorseInput.tsx:236-242 | a press under 200 ms keys a dot and one of 200 ms or more keys a dash |
| `MorseInput.RestartAdvance` | components/MorseInput.tsx:70-96 | disabled, nothing changes; enabled, the pending callback is replaced by one with the current delay and the captured sequence |
| `MorseInput.StartSubmit` | components/MorseInput.tsx:99-116 | disabled, nothing changes; enabled, auto-submit is armed at twice the advance delay |
| `MorseInput.Cleared` | components/MorseInput.tsx:57-67 | `resetInput` empties the sequence and leaves no timer pending |
| `MorseInput.Released` | components/MorseInput.tsx:229-247 | the key is up; with a start time that time is forgotten; without one, nothing else changes |
| `MorseInput.EarlyMatch` | components/MorseInput.tsx:338-346 | submits exactly when sequence and word are non-empty, auto-submit is on, and the lower-cased decode equals the lower-cased word |
| `MorseInput.IsMorseTextAppend` | components/MorseInput.tsx:191-203 | appending symbols and gaps keeps the sequence made of dots, dashes and spaces |
| `MorseInput.BackspaceIsMorseText` | components/MorseInput.tsx:211 | backspacing keeps the sequence made of dots, dashes and spaces |
| `MorseInput.KeyedPreservesValid` | components/MorseInput.tsx:189-208 | keying a symbol or a gap keeps the session invariant |
| `MorseInput.BackspacePreservesValid` | components/MorseInput.tsx:210-213 | backspacing keeps the session invariant |
| `MorseInput.ReleasedPreservesValid` | components/MorseInput.tsx:229-247 | a release keeps the session invariant |
| `MorseInput.HandlersPreserveValid` | components/MorseInput.tsx:181-308 | every key and mouse handler keeps the session invariant |
| `MorseInput.CallbacksPreserveValid` | components/MorseInput.tsx:57-116 | the timer callbacks, the reset and the word change keep the session invariant |
| `MorseInput.AppendThenBackspace` | components/MorseInput.tsx:190-213 | a dot or dash key followed by Backspace gives back the sequence |
| `MorseInput.ClickThenBackspaceButton` | components/MorseInput.tsx:270-282 | a click followed by the Backspace button (components/MorseInput.tsx:493) gives back the sequence |
| `MorseInput.ReleaseKeysOneSymbol` | components/MorseInput.tsx:229-247 | a release appends one dot (under 200 ms) or one dash and forgets the start time; no start time, no symbol |
| `MorseInput.AutoAdvanceAppendsAtMostOneGap` | components/MorseInput.tsx:83-95 | the whole new state: when the captured sequence is non-empty and does not end in a gap, one gap is appended and auto-submit is armed at twice the delay if that setting was on when the timer was set (else the old auto-submit stays); otherwise nothing changes; either way the timer is spent |
| `MorseInput.DisabledAdvanceArmsNothing` | components/MorseInput.tsx:71 | with auto-advance off, no input arms its timer |
| `MorseInput.KeyingRestartsAdvance` | components/MorseInput.tsx:190-213 | every edit key replaces the pending auto-advance callback |
| `MorseInput.SubmitArmedAtTwiceDelay` | components/MorseInput.tsx:99-116 | a key arms auto-submit only when it is enabled, and at twice the advance delay |
| `MorseInput.GapSubmitSeesCurrentText` | components/MorseInput.tsx:202-208 | the gap key arms auto-submit on a sequence that decodes like the current one |
| `MorseInput.AutoSubmitOnlyNonEmpty` | components/MorseInput.tsx:109-114 | firing submits exactly when the captured sequence decodes to some text, and submits that text |
| `MorseInput.ResetSilencesTimers` | components/MorseInput.tsx:57-67 | after a reset, neither timer firing changes or submits anything |
| `MorseInput.WordChangeResets` | components/MorseInput.tsx:353-356 | a new word clears the sequence and both timers |
| `MorseInput.SymbolAfterGapGetsNoGap` | components/MorseInput.tsx:83-95 | a symbol keyed into an empty or gap-terminated sequence gets no automatic gap, although the current sequence would pass the guard |
| `MorseDecoder.DecodesSA` | components/MorseInput.tsx:386-449 | "... .-" decodes to "sa" |
| `MorseInput.SetReadsAsSa` | components/MorseInput.tsx:83-95 | after "s ", keying a dot, waiting and keying a dash gives "... .-", read as "sa" |
| `MorseInput.AutoGapSubmitDropsLastSymbol` | components/MorseInput.tsx:83-115 | after "..." keying a dot gives "....", the automatic gap gives ".... ", and the submit it arms sends "s", the decode of the sequence before the last dot |
| `MorseInput.EditKeysKeepSubmitTimer` | components/MorseInput.tsx:70-96 | the dot, dash and backspace keys leave a pending auto-submit exactly as it was |
| `MorseInput.StaleSubmitAfterMoreKeys` | components/MorseInput.tsx:99-116 | an auto-submit of "..." armed before the dot of "e" still fires and submits "s" while the sequence reads "se" |
| `MorseDecoder.DecodesS` | components/MorseInput.tsx:386-449 | "..." decodes to "s" |
| `MorseDecoder.DecodesSE` | components/MorseInput.tsx:386-449 | "... ." decodes to "se" |
| `MorseInput.GapKeyGetsSecondGap` | components/MorseInput.tsx:203-209 | after a letter, the gap key appends one gap and its auto-advance callback a second one, which decodes like a single gap |
| `MorseDecoder.SecondGapDecodesAsOne` | components/MorseInput.tsx:445-448 | a sequence ending in two gaps decodes like the same sequence ending in one |
| `MorseInput.KeyDownAction` | components/MorseInput.tsx:188-226 | the branch of `handleKeyDown` an event takes, in the order of the if/else chain; its effects are stated through `OnKeyDown` |
| `MorseInput.OnKeyDown` | components/MorseInput.tsx:181-227 | `handleKeyDown` as a transition; `Session.HandleKeyDown` is proved equal to it, and `HandlersPreserveValid`, `AppendThenBackspace`, `KeyingRestartsAdvance`, `SubmitArmedAtTwiceDelay`, `DisabledAdvanceArmsNothing` and `EditKeysKeepSubmitTimer` state its properties |
| `MorseInput.OnKeyUp` | components/MorseInput.tsx:229-247 | `handleKeyUp`: a Space release in single-key mode runs `Released`, anything else changes nothing; `Session.HandleKeyUp`, `ReleaseKeysOneSymbol` and `HandlersPreserveValid` state it |
| `MorseInput.OnMouseDown` | components/MorseInput.tsx:267-288 | `handleMouseDown`: buttons 0 and 2 key a dot and a dash in dual mode, any button starts a press in single mode; `Session.HandleMouseDown`, `ClickThenBackspaceButton` and `HandlersPreserveValid` state it |
| `MorseInput.OnMouseUp` | components/MorseInput.tsx:290-308 | `handleMouseUp`: a release in single mode runs `Released`; `Session.HandleMouseUp` and `ReleaseKeysOneSymbol` state it |
| `MorseInput.OnAutoAdvance` | components/MorseInput.tsx:83-95 | the auto-advance callback on its captured values; `AutoAdvanceAppendsAtMostOneGap` gives its whole result, `SymbolAfterGapGetsNoGap` and `GapKeyGetsSecondGap` its consequences |
| `MorseInput.OnAutoSubmit` | components/MorseInput.tsx:109-115 | the auto-submit callback on its captured sequence; `AutoSubmitOnlyNonEmpty` and `StaleSubmitAfterMoreKeys` state it |
| `MorseInput.OnWordChange` | components/MorseInput.tsx:353-356 | the word-change effect; `WordChangeResets` states it |
| `MorseInput.OnAddSpaceButton` | components/MorseInput.tsx:487 | the "Add Space" button; `KeyedPreservesValid` and `Session.AddSpaceButton` state it |
| `MorseInput.OnBackspaceButton` | components/MorseInput.tsx:493 | the "Backspace" button; `ClickThenBackspaceButton` and `BackspacePreservesValid` state it |
| `MorseInput.Keyed` | components/MorseInput.tsx:190-199 | a dot or dash appended, then `resetAutoAdvanceTimer` on the pre-edit sequence; `KeyedPreservesValid` and `KeyingRestartsAdvance` state it |
| `MorseInput.GapKeyed` | components/MorseInput.tsx:202-208 | the manual gap, then both timers on the pre-gap sequence; `GapSubmitSeesCurrentText` and `GapKeyGetsSecondGap` state it |
| `MorseInput.BackspaceKeyed` | components/MorseInput.tsx:210-213 | the backspace key; `AppendThenBackspace` and `BackspacePreservesValid` state it |
| `MorseInput.Pressed` | components/MorseInput.tsx:223-224 | key down with start time `now`; `Session.Press` and `ReleaseKeysOneSymbol` state it |
| `MorseInput.SubmitText` | components/MorseInput.tsx:119-122 | what `handleSubmit` reports, the decode of the sequence; `Session.HandleSubmit` states it |
| `MorseInput.AdvanceGuard` | components/MorseInput.tsx:85-88 | the callback's test on its captured sequence; `AutoAdvanceAppendsAtMostOneGap` states what it decides |
| `MorseInput.Initial` | components/MorseInput.tsx:18-23 | the `useState` defaults; `Session.constructor` states them |
| `MorseInput.Session.constructor` | components/MorseInput.tsx:18-23 | the initial state: empty sequence, no press, both automations on, a 1000 ms delay, no timer |
| `MorseInput.Session.ResetAutoAdvanceTimer` | components/MorseInput.tsx:70-96 | performs `RestartAdvance` on the fields and keeps the invariant for a Morse-text capture |
| `MorseInput.Session.StartAutoSubmitTimer` | components/MorseInput.tsx:99-116 | performs `StartSubmit` on the fields and keeps the invariant for a Morse-text capture |
| `MorseInput.Session.ResetInput` | components/MorseInput.tsx:57-67 | performs `Cleared` and keeps the invariant |
| `MorseInput.Session.HandleSubmit` | components/MorseInput.tsx:119-122 | hands on the decoded sequence |
| `MorseInput.Session.KeySymbol` | components/MorseInput.tsx:190-200 | appends a dot or dash and restarts auto-advance on the previous sequence |
| `MorseInput.Session.KeyGap` | components/MorseInput.tsx:202-208 | appends a gap, restarts auto-advance and starts auto-submit |
| `MorseInput.Session.KeyBackspace` | components/MorseInput.tsx:210-213 | drops the last symbol and restarts auto-advance |
| `MorseInput.Session.Press` | components/MorseInput.tsx:218-226 | records the key as down at `now` |
| `MorseInput.Session.Release` | components/MorseInput.tsx:230-246 | performs `Released` and keeps the invariant |
| `MorseInput.Session.HandleKeyDown` | components/MorseInput.tsx:181-227 | the new fields and the submitted text are those of `OnKeyDown`, and the invariant holds |
| `MorseInput.Session.HandleKeyUp` | components/MorseInput.tsx:229-247 | the new fields are those of `OnKeyUp` |
| `MorseInput.Session.HandleMouseDown` | components/MorseInput.tsx:267-288 | the new fields are those of `OnMouseDown` |
| `MorseInput.Session.HandleMouseUp` | components/MorseInput.tsx:290-308 | the new fields are those of `OnMouseUp` |
| `MorseInput.Session.AddSpaceButton` | components/MorseInput.tsx:487 | appends a gap and touches no timer |
| `MorseInput.Session.BackspaceButton` | components/MorseInput.tsx:493 | drops the last symbol and touches no timer |
| `MorseInput.Session.FireAutoAdvance` | components/MorseInput.tsx:83-95 | the new fields are those of `OnAutoAdvance` |
| `MorseInput.Session.FireAutoSubmit` | components/MorseInput.tsx:109-115 | the new fields and the submitted text are those of `OnAutoSubmit` |
| `MorseInput.Session.CheckEarlyMatch` | components/MorseInput.tsx:338-346 | submits exactly what `EarlyMatch` gives for the current state: the decoded text when sequence and word are non-empty, auto-submit is on and the two agree ignoring case |
| `MorseInput.Session.SetCurrentWord` | components/MorseInput.tsx:353-356 | a different word replaces the old one and resets the input; the same word changes nothing |
| `MorseInput.Session.SetInputMode` | components/MorseInput.tsx:13 | only the mode changes |
| `MorseInput.Session.SetAutoAdvanceEnabled` | components/MorseInput.tsx:513 | only the auto-advance setting changes |
| `MorseInput.Session.SetAutoAdvanceDelay` | components/MorseInput.tsx:530 | only the delay changes |
| `MorseInput.Session.SetAutoSubmitEnabled` | components/MorseInput.tsx:542 | only the auto-submit setting changes |
| `Page.IsMatch` | app/page.tsx:28 | the submission test, trimmed text against the word, both lower-cased; `MatchIgnoresPadding`, `PaddedWordNeverMatches`, `WordMatchesItself`, `EarlyMatchIsCorrect` and `Home.HandleSubmit` state it |
| `Page.MatchIgnoresPadding` | app/page.tsx:28 | white space around the submitted text never changes the outcome |
| `Page.PaddedWordNeverMatches` | app/page.tsx:28 | the word is not trimmed: a word starting or ending with white space matches no text |
| `Page.LowerCharWhiteSpace` | app/page.tsx:28 | lower-casing neither creates nor removes white space |
| `Page.WordMatchesItself` | app/page.tsx:28 | a word without white space at its ends is matched by itself |
| `Page.EarlyMatchIsCorrect` | components/MorseInput.tsx:338-346 | whatever the input submits on an early match, the page judges correct |
| `Page.Home.constructor` | app/page.tsx:12-16 | two-key keyboard mode, empty word, Morse text and typed text, neutral flag |
| `Page.Home.HandleSubmit` | app/page.tsx:27-42 | a match sets the flag to correct, appends " " and the untrimmed text to the typed text, and clears the word and the Morse text; a mismatch only sets the flag to incorrect; both schedule one revert |
| `Page.Home.FireRevert` | app/page.tsx:33-35 | a pending revert returns the flag to neutral and changes nothing else |
| `Page.Home.ResetMorseInput` | app/page.tsx:44-46 | only the Morse text is cleared |
| `Page.Home.ResetTest` | app/page.tsx:85-89 | typed text, word and Morse text are cleared; mode and flag stay |
| `Page.Home.HandleInputModeChange` | app/page.tsx:19-21 | only the mode changes |
| `Page.Home.HandleMorseInput` | app/page.tsx:23-25 | only the Morse text changes |
| `Page.Home.SetCurrentWord` | app/page.tsx:13 | only the word changes |
| `Wrappers.IsTruthy` | components/MorseInput.tsx:234 | JavaScript truthiness of a `number \| null` timestamp: present and not 0; `Released`, `ReleaseKeysOneSymbol` and `Stats.RecordCompletion` (components/TypingTest.tsx:47) state its effect |
| `TypingTest.Words` | components/TypingTest.tsx:23-30 | the practice words; `WordListShape` and `RandomWord` state them |
| `TypingTest.TotalTime` | components/TypingTest.tsx:59 | the `reduce` sum of the times; `TotalAppend`, `TotalAtLeast` and `AverageTime` state it |
| `TypingTest.Min` | components/TypingTest.tsx:66 | the smaller of two times; `BestTime` and `BestAfterAppend` state it |
| `TypingTest.RandomWord` | components/TypingTest.tsx:33-35 | the chosen word is on the practice list |
| `TypingTest.WordListShape` | components/TypingTest.tsx:23-30 | 33 practice words, none empty |
| `TypingTest.AverageTime` | components/TypingTest.tsx:57-61 | absent exactly for no records; otherwise average times count equals the total |
| `TypingTest.BestTime` | components/TypingTest.tsx:64-68 | absent exactly for no records; otherwise a recorded time that no record beats |
| `TypingTest.TotalAppend` | components/TypingTest.tsx:59 | appending a record adds its time to the total |
| `TypingTest.TotalAtLeast` | components/TypingTest.tsx:59 | the total is at least the count times any lower bound of the times |
| `TypingTest.BestAtMostAverage` | components/TypingTest.tsx:57-68 | the best time never exceeds the average |
| `TypingTest.BestAfterAppend` | components/TypingTest.tsx:51-66 | after a new record the best is the smaller of the old best and the new time |
| `TypingTest.ThreeWordsExample` | components/TypingTest.tsx:57-68 | times 2 s, 4 s, 3 s give average 3 s, best 2 s, last 3 s |
| `TypingTest.Stats.constructor` | components/TypingTest.tsx:18-20 | no baseline, no records, no last time |
| `TypingTest.Stats.NewWordEffect` | components/TypingTest.tsx:38-43 | with no word, a list word is chosen and the baseline set to now; otherwise nothing changes |
| `TypingTest.Stats.RecordCompletion` | components/TypingTest.tsx:46-54 | a correct outcome with a baseline appends exactly one record, sets the last time and restarts the baseline; anything else changes nothing |
| `TypingTest.Stats.ResetStats` | components/TypingTest.tsx:118-123 | no records, no last time, baseline now, a new list word |

## Left out

- Audio: the tones and the audio context (components/MorseInput.tsx:34-54, 124-177, 358-383). They are Web Audio side effects.
- Event wiring: listener registration and removal, `preventDefault` and the context-menu handler (components/MorseInput.tsx:183-185, 249-255, 310-327). Handlers take abstract key and mouse events.
- The unmount cleanup that clears pending timers (components/MorseInput.tsx:39-53). Unmounting is not modelled.
- Rendering: all JSX. This includes the "Show/Hide reference" toggle of app/page.tsx and the `onMorseInput` effect (components/MorseInput.tsx:349-351), which only copies the sequence to the page (`Page.Home.HandleMorseInput`). components/InputModeSelector.tsx is UI only and is not part of this model.
- React batching and effect re-runs. Each handler is one atomic transition, and each effect runs once when the host calls it. So the model does not show two things the code does:
  - the completion effect runs again when `startTime` or `currentWord` change while the flag is still correct, and can record more than once;
  - after a correct submission the word prop is already "" when the record is made.
  `TypingTest.Stats.RecordCompletion` records whatever word its caller passes.
- The page's `onSubmit` closure also holds the word of the render that armed a timer. `Page.Home.HandleSubmit` compares with the page's current word.
- `Math.random`, `Date.now` and `setTimeout` are left out. The word index `pick`, the time `now` and explicit fire events stand in for them.
- `lastInputTimeRef` (components/MorseInput.tsx:80) is written but never read.
- Floating point is left out. Times stay in integer milliseconds, with no division by 1000 and no `toFixed(2)`.
- Display truthiness is left out: a last time of exactly 0 shows as "N/A" (components/TypingTest.tsx:94). The average and best times reach the display as `toFixed(2)` strings, which are never empty, so they show even when 0.
- `TypingTest.AverageTime`: the result is the exact quotient, a `real`. `toFixed(2)` rounding and its string are not modelled.
- `JsString.LowerChar`: only ASCII letters are lowered. Other Unicode case mappings of `toLowerCase` are not modelled. Decoded text and the practice words are ASCII.
- `MorseDecoder.Lookup`: property names inherited by JavaScript objects (such as `constructor`) are not table keys here. Groups made of dots and dashes never name one.
- The decoder's single object literal is written as the union of three runs (letters, figures, punctuation). `MorseDecoder.TableHoldsRuns` and `MorseDecoder.RunsDisjoint` prove the union is that table, and `MorseDecoder.EntryCount` that it has all 54 entries.
- Strings are sequences of Unicode scalar values (Dafny's `char`), not of UTF-16 code units as in JavaScript. A character outside the Basic Multilingual Plane is one `char` here but two code units there, and a lone surrogate cannot be written. The text the core handles (Morse symbols, decoded text, the practice words) is ASCII, where the two agree. There is no normalisation.
