/**
 * The input component's session: the Morse sequence being keyed, the press
 * state of the single-key modes, the auto-advance and auto-submit timers and
 * the user's settings.
 *
 * Timers have no clock here. Arming a timer records what its callback will
 * act on; the host fires it later with `FireAutoAdvance` / `FireAutoSubmit`,
 * and re-arming or clearing it replaces or drops the record, as
 * `clearTimeout` does. A callback reads the values of the render that
 * scheduled it, not the current ones: the sequence it sees is the one from
 * BEFORE the edit that armed it. The records keep exactly those captured
 * values.
 *
 * Every handler is one atomic transition. The pure `On...` functions say what
 * each one does to a `SessionState`; the `Session` class performs them on its
 * fields and its methods promise `State() == On...(old(State()), ...)`.
 */
module MorseInput {
  import opened Wrappers
  import opened JsString
  import opened MorseDecoder
  import opened Types

  /** A keyboard event as the handlers read it: `e.key`, `e.code`, `e.repeat`. */
  datatype KeyEvent = KeyEvent(key: string, code: string, repeat: bool)

  /** A mouse event as the handlers read it: `e.button`. */
  datatype MouseEvent = MouseEvent(button: int)

  /** A pending auto-advance callback: its delay and the closure values it uses. */
  datatype AdvanceTimer = AdvanceTimer(delay: int, captured: string, submitEnabled: bool)

  /** A pending auto-submit callback: its delay and the sequence its closure holds. */
  datatype SubmitTimer = SubmitTimer(delay: int, captured: string)

  /** Presses held this long (in ms) or longer key a dash. */
  const DashThreshold := 200

  /** The default auto-advance delay, in ms. */
  const DefaultAutoAdvanceDelay := 1000

  datatype SessionState = SessionState(
    inputMode: InputMode,
    currentWord: string,
    morseSequence: string,
    isKeyDown: bool,
    startTime: Option<int>,
    autoAdvanceEnabled: bool,
    autoAdvanceDelay: int,
    autoSubmitEnabled: bool,
    autoAdvance: Option<AdvanceTimer>,
    autoSubmit: Option<SubmitTimer>)

  /** Dots, dashes and letter gaps: all the handlers ever append. */
  predicate IsMorseText(s: string) {
    forall i | 0 <= i < |s| :: s[i] == '.' || s[i] == '-' || s[i] == ' '
  }

  /** The invariant every transition keeps. */
  predicate ValidState(s: SessionState) {
    && IsMorseText(s.morseSequence)
    && (s.autoAdvance.Some? ==> IsMorseText(s.autoAdvance.value.captured))
    && (s.autoSubmit.Some? ==> IsMorseText(s.autoSubmit.value.captured))
  }

  /** `prev.slice(0, -1)`: the sequence without its last symbol; "" stays "". */
  function Backspace(s: string): (r: string)
    ensures s == "" ==> r == ""
    ensures s != "" ==> r + [s[|s| - 1]] == s
  {
    if s == "" then "" else s[..|s| - 1]
  }

  /** The symbol a press held for `duration` ms keys. */
  function PressSymbol(duration: int): (sym: string)
    ensures duration < DashThreshold <==> sym == "."
    ensures DashThreshold <= duration <==> sym == "-"
  {
    if duration < DashThreshold then "." else "-"
  }

  /** The auto-advance callback's test: content, not already ending in a gap. */
  predicate AdvanceGuard(captured: string) {
    |captured| > 0 && captured[|captured| - 1] != ' '
  }

  /** `resetAutoAdvanceTimer`, with the sequence its closure captured. */
  function RestartAdvance(s: SessionState, captured: string): (t: SessionState)
    ensures !s.autoAdvanceEnabled ==> t == s
    ensures s.autoAdvanceEnabled ==>
      t == s.(autoAdvance := Some(AdvanceTimer(s.autoAdvanceDelay, captured, s.autoSubmitEnabled)))
  {
    if !s.autoAdvanceEnabled then s
    else s.(autoAdvance := Some(AdvanceTimer(s.autoAdvanceDelay, captured, s.autoSubmitEnabled)))
  }

  /** `startAutoSubmitTimer` as called from a handler: armed at twice the advance delay. */
  function StartSubmit(s: SessionState, captured: string): (t: SessionState)
    ensures !s.autoSubmitEnabled ==> t == s
    ensures s.autoSubmitEnabled ==>
      t == s.(autoSubmit := Some(SubmitTimer(2 * s.autoAdvanceDelay, captured)))
  {
    if !s.autoSubmitEnabled then s
    else s.(autoSubmit := Some(SubmitTimer(2 * s.autoAdvanceDelay, captured)))
  }

  /** `resetInput`: empty sequence, both timers cleared. */
  function Cleared(s: SessionState): (t: SessionState)
    ensures t.morseSequence == "" && t.autoAdvance == None && t.autoSubmit == None
    ensures t == s.(morseSequence := "", autoAdvance := None, autoSubmit := None)
  {
    s.(morseSequence := "", autoAdvance := None, autoSubmit := None)
  }

  /** Appending a dot or dash from a handler, which then restarts auto-advance. */
  function Keyed(s: SessionState, sym: string): SessionState {
    RestartAdvance(s.(morseSequence := s.morseSequence + sym), s.morseSequence)
  }

  /** The manual letter gap of the two-key keyboard mode. */
  function GapKeyed(s: SessionState): SessionState {
    StartSubmit(RestartAdvance(s.(morseSequence := s.morseSequence + " "), s.morseSequence), s.morseSequence)
  }

  /** The backspace key of the two-key keyboard mode. */
  function BackspaceKeyed(s: SessionState): SessionState {
    RestartAdvance(s.(morseSequence := Backspace(s.morseSequence)), s.morseSequence)
  }

  /** Press-down in a single-key mode. */
  function Pressed(s: SessionState, now: int): SessionState {
    s.(isKeyDown := true, startTime := Some(now))
  }

  /** Release in a single-key mode: a dot or dash by the time held, if a start time is set. */
  function Released(s: SessionState, now: int): (t: SessionState)
    ensures !t.isKeyDown
    ensures IsTruthy(s.startTime) ==> t.startTime == None
    ensures !IsTruthy(s.startTime) ==> t == s.(isKeyDown := false)
  {
    var up := s.(isKeyDown := false);
    if IsTruthy(s.startTime) then
      Keyed(up.(startTime := None), PressSymbol(now - s.startTime.value))
    else up
  }

  /** What `handleSubmit` reports: the decoded sequence. */
  function SubmitText(s: SessionState): string {
    MorseToText(s.morseSequence)
  }

  /** The branch of `handleKeyDown` an event takes. */
  datatype KeyAction = AppendDot | AppendDash | AppendGap | DeleteLast | Submit | Press | NoAction

  function KeyDownAction(mode: InputMode, e: KeyEvent): KeyAction {
    if mode == KeyboardDual then
      if e.key == "." && !e.repeat then AppendDot
      else if e.key == "-" && !e.repeat then AppendDash
      else if e.code == "Space" && !e.repeat then AppendGap
      else if e.key == "Backspace" then DeleteLast
      else if e.key == "Enter" then Submit
      else NoAction
    else if mode == KeyboardSingle && e.code == "Space" && !e.repeat then Press
    else NoAction
  }

  /** `handleKeyDown`: the new state and the text handed to `onSubmit`, if any. */
  function OnKeyDown(s: SessionState, e: KeyEvent, now: int): (SessionState, Option<string>) {
    match KeyDownAction(s.inputMode, e)
    case AppendDot => (Keyed(s, "."), None)
    case AppendDash => (Keyed(s, "-"), None)
    case AppendGap => (GapKeyed(s), None)
    case DeleteLast => (BackspaceKeyed(s), None)
    case Submit => (s, Some(SubmitText(s)))
    case Press => (Pressed(s, now), None)
    case NoAction => (s, None)
  }

  /** `handleKeyUp`. */
  function OnKeyUp(s: SessionState, e: KeyEvent, now: int): SessionState {
    if s.inputMode == KeyboardSingle && e.code == "Space" then Released(s, now) else s
  }

  /** `handleMouseDown`: left button a dot, right button a dash, or a press. */
  function OnMouseDown(s: SessionState, e: MouseEvent, now: int): SessionState {
    if s.inputMode == MouseDual then
      if e.button == 0 then Keyed(s, ".")
      else if e.button == 2 then Keyed(s, "-")
      else s
    else if s.inputMode == MouseSingle then Pressed(s, now)
    else s
  }

  /** `handleMouseUp`. */
  function OnMouseUp(s: SessionState, e: MouseEvent, now: int): SessionState {
    if s.inputMode == MouseSingle then Released(s, now) else s
  }

  /**
   * The auto-advance callback firing: a gap is appended to the current
   * sequence when the CAPTURED one passes the guard, and then auto-submit is
   * armed if it was enabled when the timer was set.
   */
  function OnAutoAdvance(s: SessionState): SessionState {
    match s.autoAdvance
    case None => s
    case Some(t) =>
      var done := s.(autoAdvance := None);
      if !AdvanceGuard(t.captured) then done
      else
        var gapped := done.(morseSequence := s.morseSequence + " ");
        if t.submitEnabled then gapped.(autoSubmit := Some(SubmitTimer(2 * t.delay, t.captured)))
        else gapped
  }

  /** The auto-submit callback firing: it submits the captured sequence's text when non-empty. */
  function OnAutoSubmit(s: SessionState): (SessionState, Option<string>) {
    match s.autoSubmit
    case None => (s, None)
    case Some(t) =>
      var text := MorseToText(t.captured);
      (s.(autoSubmit := None), if |text| > 0 then Some(text) else None)
  }

  /** The early-match effect: submit at once when the decoded text is the word, ignoring case. */
  function EarlyMatch(s: SessionState): (submitted: Option<string>)
    ensures submitted.Some? <==>
      s.morseSequence != "" && s.currentWord != "" && s.autoSubmitEnabled
      && ToLower(MorseToText(s.morseSequence)) == ToLower(s.currentWord)
    ensures submitted.Some? ==> submitted.value == MorseToText(s.morseSequence)
  {
    if s.morseSequence != "" && s.currentWord != "" && s.autoSubmitEnabled then
      var text := MorseToText(s.morseSequence);
      if ToLower(text) == ToLower(s.currentWord) then Some(text) else None
    else None
  }

  /** The word-change effect: a new `currentWord` clears the input. */
  function OnWordChange(s: SessionState, word: string): SessionState {
    if word == s.currentWord then s else Cleared(s).(currentWord := word)
  }

  /** The "Add Space" button: a bare letter gap, no timer touched. */
  function OnAddSpaceButton(s: SessionState): SessionState {
    s.(morseSequence := s.morseSequence + " ")
  }

  /** The "Backspace" button: drops the last symbol, no timer touched. */
  function OnBackspaceButton(s: SessionState): SessionState {
    s.(morseSequence := Backspace(s.morseSequence))
  }

  /** The state when the component mounts. */
  function Initial(mode: InputMode, word: string): SessionState {
    SessionState(mode, word, "", false, None, true, DefaultAutoAdvanceDelay, true, None, None)
  }

  // ---------------------------------------------------------------------
  // Properties of the transitions

  lemma IsMorseTextAppend(a: string, b: string)
    requires IsMorseText(a) && IsMorseText(b)
    ensures IsMorseText(a + b)
  {
    forall i | 0 <= i < |a + b|
      ensures (a + b)[i] == '.' || (a + b)[i] == '-' || (a + b)[i] == ' '
    {
      if i < |a| { assert (a + b)[i] == a[i]; } else { assert (a + b)[i] == b[i - |a|]; }
    }
  }

  lemma BackspaceIsMorseText(s: string)
    requires IsMorseText(s)
    ensures IsMorseText(Backspace(s))
  {
    if s != "" {
      assert forall i | 0 <= i < |s| - 1 :: Backspace(s)[i] == s[i];
    }
  }

  /** Keying a symbol or a gap keeps the invariant. */
  lemma KeyedPreservesValid(s: SessionState, sym: string)
    requires ValidState(s) && sym in {".", "-"}
    ensures ValidState(Keyed(s, sym)) && ValidState(GapKeyed(s)) && ValidState(OnAddSpaceButton(s))
  {
    IsMorseTextAppend(s.morseSequence, sym);
    IsMorseTextAppend(s.morseSequence, " ");
  }

  /** Backspacing keeps the invariant. */
  lemma BackspacePreservesValid(s: SessionState)
    requires ValidState(s)
    ensures ValidState(BackspaceKeyed(s)) && ValidState(OnBackspaceButton(s))
  {
    BackspaceIsMorseText(s.morseSequence);
  }

  /** A release keeps the invariant. */
  lemma ReleasedPreservesValid(s: SessionState, now: int)
    requires ValidState(s)
    ensures ValidState(Released(s, now))
  {
    if IsTruthy(s.startTime) {
      KeyedPreservesValid(s.(isKeyDown := false, startTime := None), PressSymbol(now - s.startTime.value));
    }
  }

  /** Every key and mouse handler keeps the invariant. */
  lemma HandlersPreserveValid(s: SessionState, k: KeyEvent, m: MouseEvent, now: int)
    requires ValidState(s)
    ensures ValidState(OnKeyDown(s, k, now).0)
    ensures ValidState(OnKeyUp(s, k, now))
    ensures ValidState(OnMouseDown(s, m, now))
    ensures ValidState(OnMouseUp(s, m, now))
  {
    KeyedPreservesValid(s, ".");
    KeyedPreservesValid(s, "-");
    BackspacePreservesValid(s);
    ReleasedPreservesValid(s, now);
  }

  /** The timer callbacks, the reset and the word change keep the invariant. */
  lemma CallbacksPreserveValid(s: SessionState, word: string)
    requires ValidState(s)
    ensures ValidState(OnAutoAdvance(s))
    ensures ValidState(OnAutoSubmit(s).0)
    ensures ValidState(Cleared(s))
    ensures ValidState(OnWordChange(s, word))
  {
    IsMorseTextAppend(s.morseSequence, " ");
  }

  /** Keying a dot or dash and then backspacing gives back the sequence, in the two-key keyboard mode. */
  lemma AppendThenBackspace(s: SessionState, symbol: KeyEvent, backspace: KeyEvent, t0: int, t1: int)
    requires KeyDownAction(s.inputMode, symbol) in {AppendDot, AppendDash}
    requires KeyDownAction(s.inputMode, backspace) == DeleteLast
    ensures OnKeyDown(OnKeyDown(s, symbol, t0).0, backspace, t1).0.morseSequence == s.morseSequence
  {
    var mid := OnKeyDown(s, symbol, t0).0;
    assert mid.inputMode == s.inputMode;
    assert Backspace(mid.morseSequence) == s.morseSequence;
  }

  /** A mouse click and then the Backspace button give back the sequence, in the two-button mouse mode. */
  lemma ClickThenBackspaceButton(s: SessionState, click: MouseEvent, now: int)
    requires s.inputMode == MouseDual && (click.button == 0 || click.button == 2)
    ensures OnBackspaceButton(OnMouseDown(s, click, now)).morseSequence == s.morseSequence
  {
    assert Backspace(OnMouseDown(s, click, now).morseSequence) == s.morseSequence;
  }

  /**
   * A release keys a dot when the press was held under 200 ms and a dash
   * otherwise, and forgets the start time; without a start time it keys nothing.
   */
  lemma ReleaseKeysOneSymbol(s: SessionState, now: int)
    ensures var t := Released(s, now);
      && !t.isKeyDown
      && (IsTruthy(s.startTime) && now - s.startTime.value < DashThreshold ==>
            t.morseSequence == s.morseSequence + "." && t.startTime == None)
      && (IsTruthy(s.startTime) && now - s.startTime.value >= DashThreshold ==>
            t.morseSequence == s.morseSequence + "-" && t.startTime == None)
      && (!IsTruthy(s.startTime) ==> t.morseSequence == s.morseSequence)
  {
  }

  /**
   * Auto-advance firing appends exactly one gap when the sequence its
   * closure captured is non-empty and does not end in a gap, and then arms
   * auto-submit if that setting was on when the timer was set; otherwise
   * nothing changes. Either way the auto-advance timer is spent.
   */
  lemma AutoAdvanceAppendsAtMostOneGap(s: SessionState)
    requires s.autoAdvance.Some?
    ensures var t, c := OnAutoAdvance(s), s.autoAdvance.value;
      && (!AdvanceGuard(c.captured) ==> t == s.(autoAdvance := None))
      && (AdvanceGuard(c.captured) ==>
            t == s.(autoAdvance := None, morseSequence := s.morseSequence + " ",
                    autoSubmit := if c.submitEnabled then Some(SubmitTimer(2 * c.delay, c.captured)) else s.autoSubmit))
  {
  }

  /** With auto-advance disabled, no input arms the auto-advance timer. */
  lemma DisabledAdvanceArmsNothing(s: SessionState, k: KeyEvent, m: MouseEvent, now: int)
    requires !s.autoAdvanceEnabled
    ensures OnKeyDown(s, k, now).0.autoAdvance == s.autoAdvance
    ensures OnKeyUp(s, k, now).autoAdvance == s.autoAdvance
    ensures OnMouseDown(s, m, now).autoAdvance == s.autoAdvance
    ensures OnMouseUp(s, m, now).autoAdvance == s.autoAdvance
  {
  }

  /** Any input the user keys restarts the auto-advance window: the old pending callback is replaced. */
  lemma KeyingRestartsAdvance(s: SessionState, k: KeyEvent, now: int)
    requires s.autoAdvanceEnabled
    requires KeyDownAction(s.inputMode, k) in {AppendDot, AppendDash, AppendGap, DeleteLast}
    ensures OnKeyDown(s, k, now).0.autoAdvance
         == Some(AdvanceTimer(s.autoAdvanceDelay, s.morseSequence, s.autoSubmitEnabled))
  {
  }

  /**
   * Auto-submit is armed by a key only when it is enabled, and then at twice
   * the auto-advance delay; disabled, the key leaves the timer as it was.
   */
  lemma SubmitArmedAtTwiceDelay(s: SessionState, k: KeyEvent, now: int)
    ensures var t := OnKeyDown(s, k, now).0;
      t.autoSubmit != s.autoSubmit ==>
        s.autoSubmitEnabled && t.autoSubmit == Some(SubmitTimer(2 * s.autoAdvanceDelay, s.morseSequence))
    ensures !s.autoSubmitEnabled ==> OnKeyDown(s, k, now).0.autoSubmit == s.autoSubmit
  {
  }

  /**
   * The gap key arms auto-submit on the sequence before the gap, which
   * decodes to the same text as the sequence with it.
   */
  lemma GapSubmitSeesCurrentText(s: SessionState, k: KeyEvent, now: int)
    requires s.autoSubmitEnabled && KeyDownAction(s.inputMode, k) == AppendGap
    ensures var t := OnKeyDown(s, k, now).0;
      t.autoSubmit.Some? && MorseToText(t.autoSubmit.value.captured) == MorseToText(t.morseSequence)
  {
    TrailingGap(s.morseSequence);
  }

  /** Auto-submit firing submits exactly when the captured sequence decodes to some text. */
  lemma AutoSubmitOnlyNonEmpty(s: SessionState)
    ensures var (t, submitted) := OnAutoSubmit(s);
      && t.autoSubmit == None
      && t.morseSequence == s.morseSequence
      && (submitted.Some? <==> s.autoSubmit.Some? && MorseToText(s.autoSubmit.value.captured) != "")
      && (submitted.Some? ==> submitted.value == MorseToText(s.autoSubmit.value.captured))
  {
  }

  /** After a reset no timer is pending, so firing either one changes nothing and submits nothing. */
  lemma ResetSilencesTimers(s: SessionState)
    ensures Cleared(s).morseSequence == ""
    ensures OnAutoAdvance(Cleared(s)) == Cleared(s)
    ensures OnAutoSubmit(Cleared(s)) == (Cleared(s), None)
  {
  }

  /** A new word clears the sequence and both timers; the same word changes nothing. */
  lemma WordChangeResets(s: SessionState, word: string)
    ensures word != s.currentWord ==>
      var t := OnWordChange(s, word);
      t.currentWord == word && t.morseSequence == "" && t.autoAdvance == None && t.autoSubmit == None
    ensures word == s.currentWord ==> OnWordChange(s, word) == s
  {
  }

  /**
   * The callback guard reads a stale sequence: a dot or dash keyed when the
   * sequence is empty or ends in a gap arms a callback whose captured
   * sequence fails the guard, so no gap follows that symbol although the
   * current sequence would pass.
   */
  lemma SymbolAfterGapGetsNoGap(s: SessionState, k: KeyEvent, now: int)
    requires s.autoAdvanceEnabled
    requires KeyDownAction(s.inputMode, k) in {AppendDot, AppendDash}
    requires !AdvanceGuard(s.morseSequence)
    ensures var keyed := OnKeyDown(s, k, now).0;
      && AdvanceGuard(keyed.morseSequence)
      && OnAutoAdvance(keyed).morseSequence == keyed.morseSequence
  {
  }

  /**
   * The submit armed by the automatic gap holds the sequence from before the
   * last symbol: keying "h" as four dots submits "s".
   */
  lemma AutoGapSubmitDropsLastSymbol(s: SessionState, dot: KeyEvent, now: int)
    requires s.morseSequence == "..." && s.autoAdvanceEnabled && s.autoSubmitEnabled
    requires KeyDownAction(s.inputMode, dot) == AppendDot
    ensures var keyed := OnKeyDown(s, dot, now).0;
      && keyed.morseSequence == "...."
      && OnAutoAdvance(keyed).morseSequence == ".... "
      && OnAutoSubmit(OnAutoAdvance(keyed)).1 == Some("s")
  {
    var keyed := OnKeyDown(s, dot, now).0;
    assert keyed == Keyed(s, ".");
    DecodesS("...");
  }

  /**
   * No edit key clears a pending auto-submit: `resetAutoAdvanceTimer` leaves
   * that timer alone, so keying on after a letter gap does not cancel it.
   */
  lemma EditKeysKeepSubmitTimer(s: SessionState, k: KeyEvent, now: int)
    requires KeyDownAction(s.inputMode, k) in {AppendDot, AppendDash, DeleteLast}
    ensures OnKeyDown(s, k, now).0.autoSubmit == s.autoSubmit
  {
  }

  /**
   * What that does: after "s" and its gap an auto-submit of "..." is pending;
   * keying the dot of "e" does not cancel it, and when it fires it submits
   * "s" although the sequence now reads "se".
   */
  lemma StaleSubmitAfterMoreKeys(s: SessionState, dot: KeyEvent, now: int, d: int)
    requires s.morseSequence == "... " && s.autoSubmit == Some(SubmitTimer(d, "..."))
    requires KeyDownAction(s.inputMode, dot) == AppendDot
    ensures var keyed := OnKeyDown(s, dot, now).0;
      && keyed.morseSequence == "... ."
      && MorseToText(keyed.morseSequence) == "se"
      && OnAutoSubmit(keyed).1 == Some("s")
  {
    var keyed := OnKeyDown(s, dot, now).0;
    assert keyed == Keyed(s, ".");
    EditKeysKeepSubmitTimer(s, dot, now);
    DecodesSE(keyed.morseSequence);
    DecodesS("...");
  }

  /**
   * The manual gap key has no guard of its own, and the callback it arms holds
   * the sequence from before the gap: after a letter, the gap key is followed
   * by a second gap once the delay passes. The doubled gap decodes like one.
   */
  lemma GapKeyGetsSecondGap(s: SessionState, k: KeyEvent, now: int)
    requires s.autoAdvanceEnabled && AdvanceGuard(s.morseSequence)
    requires KeyDownAction(s.inputMode, k) == AppendGap
    ensures var keyed := OnKeyDown(s, k, now).0;
      && keyed.morseSequence == s.morseSequence + " "
      && OnAutoAdvance(keyed).morseSequence == s.morseSequence + "  "
      && MorseToText(OnAutoAdvance(keyed).morseSequence) == MorseToText(keyed.morseSequence)
  {
    var keyed := OnKeyDown(s, k, now).0;
    assert keyed == GapKeyed(s);
    assert OnAutoAdvance(keyed).morseSequence == s.morseSequence + " " + " ";
    SecondGapDecodesAsOne(s.morseSequence);
  }

  /**
   * What that does to a word: after "s" and its automatic gap, keying "e"
   * (one dot), waiting, then the dash of "t" reads "sa", not "set".
   */
  lemma SetReadsAsSa(s: SessionState, dot: KeyEvent, dash: KeyEvent, t0: int, t1: int)
    requires s.morseSequence == "... " && s.autoAdvanceEnabled
    requires KeyDownAction(s.inputMode, dot) == AppendDot && KeyDownAction(s.inputMode, dash) == AppendDash
    ensures var waited := OnAutoAdvance(OnKeyDown(s, dot, t0).0);
      var final := OnKeyDown(waited, dash, t1).0;
      final.morseSequence == "... .-" && MorseToText(final.morseSequence) == "sa"
  {
    var waited := OnAutoAdvance(OnKeyDown(s, dot, t0).0);
    assert waited.morseSequence == "... ." && waited.inputMode == s.inputMode;
    DecodesSA(OnKeyDown(waited, dash, t1).0.morseSequence);
  }

  // ---------------------------------------------------------------------
  // The component's state, updated in place

  class Session {
    var inputMode: InputMode
    var currentWord: string
    var morseSequence: string
    var isKeyDown: bool
    var startTime: Option<int>
    var autoAdvanceEnabled: bool
    var autoAdvanceDelay: int
    var autoSubmitEnabled: bool
    var autoAdvance: Option<AdvanceTimer>
    var autoSubmit: Option<SubmitTimer>

    function State(): SessionState
      reads this
    {
      SessionState(inputMode, currentWord, morseSequence, isKeyDown, startTime,
        autoAdvanceEnabled, autoAdvanceDelay, autoSubmitEnabled, autoAdvance, autoSubmit)
    }

    ghost predicate Valid()
      reads this
    {
      ValidState(State())
    }

    constructor (mode: InputMode, word: string)
      ensures Valid() && State() == Initial(mode, word)
    {
      inputMode, currentWord := mode, word;
      morseSequence := "";
      isKeyDown, startTime := false, None;
      autoAdvanceEnabled, autoAdvanceDelay, autoSubmitEnabled := true, DefaultAutoAdvanceDelay, true;
      autoAdvance, autoSubmit := None, None;
    }

    /** `resetAutoAdvanceTimer`, with the sequence the scheduling closure holds. */
    method ResetAutoAdvanceTimer(captured: string)
      requires Valid() && IsMorseText(captured)
      modifies this
      ensures Valid() && State() == RestartAdvance(old(State()), captured)
    {
      if !autoAdvanceEnabled {
        return;
      }
      autoAdvance := Some(AdvanceTimer(autoAdvanceDelay, captured, autoSubmitEnabled));
    }

    /** `startAutoSubmitTimer`, with the sequence the scheduling closure holds. */
    method StartAutoSubmitTimer(captured: string)
      requires Valid() && IsMorseText(captured)
      modifies this
      ensures Valid() && State() == StartSubmit(old(State()), captured)
    {
      if !autoSubmitEnabled {
        return;
      }
      autoSubmit := Some(SubmitTimer(autoAdvanceDelay * 2, captured));
    }

    /** `resetInput`, also the "Clear" button. */
    method ResetInput()
      requires Valid()
      modifies this
      ensures Valid() && State() == Cleared(old(State()))
    {
      morseSequence := "";
      autoAdvance := None;
      autoSubmit := None;
    }

    /** `handleSubmit`: the decoded sequence, handed to `onSubmit`. */
    method HandleSubmit() returns (text: string)
      ensures text == SubmitText(State())
    {
      text := MorseToText(morseSequence);
    }

    /** A dot or dash keyed by a handler: appended, then auto-advance restarted. */
    method KeySymbol(sym: string)
      requires Valid() && sym in {".", "-"}
      modifies this
      ensures Valid() && State() == Keyed(old(State()), sym)
    {
      KeyedPreservesValid(State(), sym);
      var before := morseSequence;
      morseSequence := morseSequence + sym;
      ResetAutoAdvanceTimer(before);
    }

    /** The space key of the two-key keyboard mode. */
    method KeyGap()
      requires Valid()
      modifies this
      ensures Valid() && State() == GapKeyed(old(State()))
    {
      KeyedPreservesValid(State(), ".");
      var before := morseSequence;
      morseSequence := morseSequence + " ";
      ResetAutoAdvanceTimer(before);
      StartAutoSubmitTimer(before);
    }

    /** The backspace key of the two-key keyboard mode. */
    method KeyBackspace()
      requires Valid()
      modifies this
      ensures Valid() && State() == BackspaceKeyed(old(State()))
    {
      BackspacePreservesValid(State());
      var before := morseSequence;
      morseSequence := Backspace(morseSequence);
      ResetAutoAdvanceTimer(before);
    }

    /** Press-down in a single-key mode: the press time is recorded. */
    method Press(now: int)
      requires Valid()
      modifies this
      ensures Valid() && State() == Pressed(old(State()), now)
    {
      isKeyDown := true;
      startTime := Some(now);
    }

    /** Release in a single-key mode, shared by key-up and mouse-up. */
    method Release(now: int)
      requires Valid()
      modifies this
      ensures Valid() && State() == Released(old(State()), now)
    {
      ReleasedPreservesValid(State(), now);
      isKeyDown := false;
      if IsTruthy(startTime) {
        var duration := now - startTime.value;
        startTime := None;
        if duration < DashThreshold {
          KeySymbol(".");
        } else {
          KeySymbol("-");
        }
      }
    }

    method HandleKeyDown(e: KeyEvent, now: int) returns (submitted: Option<string>)
      requires Valid()
      modifies this
      ensures Valid()
      ensures (State(), submitted) == OnKeyDown(old(State()), e, now)
    {
      submitted := None;
      match KeyDownAction(inputMode, e)
      case AppendDot => KeySymbol(".");
      case AppendDash => KeySymbol("-");
      case AppendGap => KeyGap();
      case DeleteLast => KeyBackspace();
      case Submit =>
        var text := HandleSubmit();
        submitted := Some(text);
      case Press => Press(now);
      case NoAction =>
    }

    method HandleKeyUp(e: KeyEvent, now: int)
      requires Valid()
      modifies this
      ensures Valid() && State() == OnKeyUp(old(State()), e, now)
    {
      if inputMode == KeyboardSingle && e.code == "Space" {
        Release(now);
      }
    }

    method HandleMouseDown(e: MouseEvent, now: int)
      requires Valid()
      modifies this
      ensures Valid() && State() == OnMouseDown(old(State()), e, now)
    {
      if inputMode == MouseDual {
        if e.button == 0 {
          KeySymbol(".");
        } else if e.button == 2 {
          KeySymbol("-");
        }
      } else if inputMode == MouseSingle {
        Press(now);
      }
    }

    method HandleMouseUp(e: MouseEvent, now: int)
      requires Valid()
      modifies this
      ensures Valid() && State() == OnMouseUp(old(State()), e, now)
    {
      if inputMode == MouseSingle {
        Release(now);
      }
    }

    /** The "Add Space" button: a gap, no timers touched. */
    method AddSpaceButton()
      requires Valid()
      modifies this
      ensures Valid() && State() == OnAddSpaceButton(old(State()))
    {
      KeyedPreservesValid(State(), ".");
      morseSequence := morseSequence + " ";
    }

    /** The "Backspace" button: the last symbol dropped, no timers touched. */
    method BackspaceButton()
      requires Valid()
      modifies this
      ensures Valid() && State() == OnBackspaceButton(old(State()))
    {
      BackspacePreservesValid(State());
      morseSequence := Backspace(morseSequence);
    }

    /** The auto-advance timer elapsing (nothing happens if none is pending). */
    method FireAutoAdvance()
      requires Valid()
      modifies this
      ensures Valid() && State() == OnAutoAdvance(old(State()))
    {
      CallbacksPreserveValid(State(), currentWord);
      if autoAdvance.Some? {
        var timer := autoAdvance.value;
        if |timer.captured| > 0 && timer.captured[|timer.captured| - 1] != ' ' {
          morseSequence := morseSequence + " ";
          if timer.submitEnabled {
            autoSubmit := Some(SubmitTimer(timer.delay * 2, timer.captured));
          }
        }
        autoAdvance := None;
      }
    }

    /** The auto-submit timer elapsing: the text handed to `onSubmit`, if any. */
    method FireAutoSubmit() returns (submitted: Option<string>)
      requires Valid()
      modifies this
      ensures Valid()
      ensures (State(), submitted) == OnAutoSubmit(old(State()))
    {
      CallbacksPreserveValid(State(), currentWord);
      submitted := None;
      if autoSubmit.Some? {
        var convertedText := MorseToText(autoSubmit.value.captured);
        if |convertedText| > 0 {
          submitted := Some(convertedText);
        }
        autoSubmit := None;
      }
    }

    /** The early-match effect, run after the sequence, the word or the setting changes. */
    method CheckEarlyMatch() returns (submitted: Option<string>)
      ensures submitted == EarlyMatch(State())
    {
      submitted := None;
      if morseSequence != "" && currentWord != "" && autoSubmitEnabled {
        var convertedText := MorseToText(morseSequence);
        if ToLower(convertedText) == ToLower(currentWord) {
          submitted := Some(convertedText);
        }
      }
    }

    /** The `currentWord` prop arriving; a changed word runs `resetInput`. */
    method SetCurrentWord(word: string)
      requires Valid()
      modifies this
      ensures Valid() && State() == OnWordChange(old(State()), word)
    {
      CallbacksPreserveValid(State(), word);
      if word != currentWord {
        currentWord := word;
        ResetInput();
      }
    }

    method SetInputMode(mode: InputMode)
      requires Valid()
      modifies this
      ensures Valid() && State() == old(State()).(inputMode := mode)
    {
      inputMode := mode;
    }

    method SetAutoAdvanceEnabled(enabled: bool)
      requires Valid()
      modifies this
      ensures Valid() && State() == old(State()).(autoAdvanceEnabled := enabled)
    {
      autoAdvanceEnabled := enabled;
    }

    method SetAutoAdvanceDelay(delay: int)
      requires Valid()
      modifies this
      ensures Valid() && State() == old(State()).(autoAdvanceDelay := delay)
    {
      autoAdvanceDelay := delay;
    }

    method SetAutoSubmitEnabled(enabled: bool)
      requires Valid()
      modifies this
      ensures Valid() && State() == old(State()).(autoSubmitEnabled := enabled)
    {
      autoSubmitEnabled := enabled;
    }
  }
}
