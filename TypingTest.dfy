/**
 * The typing test's statistics: the practice word list, the timer baseline,
 * the list of (word, elapsed) records appended on each correct outcome, and
 * the last / average / best times derived from it.
 *
 * Elapsed times are whole milliseconds; the clock and the random choice of a
 * word are parameters (`now`, `pick`).
 */
module TypingTest {
  import opened Wrappers

  /** The practice words, in source order. */
  const Words: seq<string> := [
    "hello", "world", "morse", "code", "next", "react",
    "signal", "dash", "dot", "radio", "wireless", "telegraph",
    "communication", "transmission", "receiver", "sender",
    "message", "key", "operator", "station", "antenna", "wave",
    "frequency", "broadcast", "international", "distress", "call",
    "alphabet", "number", "practice", "learn", "skill", "master"
  ]

  /** One completed word and the time it took, in ms. */
  datatype WordTime = WordTime(word: string, time: int)

  /** `getRandomWord`, with the index `Math.floor(Math.random() * words.length)` as `pick`. */
  function RandomWord(pick: nat): (w: string)
    requires pick < |Words|
    ensures w in Words
  {
    Words[pick]
  }

  lemma WordListShape()
    ensures |Words| == 33
    ensures forall w | w in Words :: w != ""
  {
  }

  // ---------------------------------------------------------------------
  // The derived statistics

  /** The sum of the recorded times (the `reduce`). */
  function TotalTime(ts: seq<WordTime>): int
  {
    if ts == [] then 0 else TotalTime(ts[..|ts| - 1]) + ts[|ts| - 1].time
  }

  /** `calculateAverageTime`, without the rounding to two decimals. */
  function AverageTime(ts: seq<WordTime>): (avg: Option<real>)
    ensures avg.None? <==> ts == []
    ensures avg.Some? ==> avg.value * |ts| as real == TotalTime(ts) as real
  {
    if |ts| == 0 then None else Some(TotalTime(ts) as real / |ts| as real)
  }

  function Min(a: int, b: int): int {
    if a <= b then a else b
  }

  /** `calculateBestTime`: the least recorded time, which is one of the records. */
  function BestTime(ts: seq<WordTime>): (best: Option<int>)
    ensures best.None? <==> ts == []
    ensures best.Some? ==> exists i | 0 <= i < |ts| :: ts[i].time == best.value
    ensures best.Some? ==> forall i | 0 <= i < |ts| :: best.value <= ts[i].time
  {
    if |ts| == 0 then None
    else if |ts| == 1 then Some(ts[0].time)
    else
      var init := ts[..|ts| - 1];
      var rest := BestTime(init).value;
      assert forall i | 0 <= i < |ts| - 1 :: ts[i] == init[i];
      Some(Min(rest, ts[|ts| - 1].time))
  }

  /** Appending a record adds its time to the total. */
  lemma TotalAppend(ts: seq<WordTime>, r: WordTime)
    ensures TotalTime(ts + [r]) == TotalTime(ts) + r.time
  {
    assert (ts + [r])[..|ts|] == ts;
  }

  /** The total is at least the count times any lower bound of the times. */
  lemma {:induction false} TotalAtLeast(ts: seq<WordTime>, lo: int)
    requires forall i | 0 <= i < |ts| :: lo <= ts[i].time
    ensures |ts| * lo <= TotalTime(ts)
  {
    if ts != [] {
      TotalAtLeast(ts[..|ts| - 1], lo);
    }
  }

  /** The best time never exceeds the average. */
  lemma BestAtMostAverage(ts: seq<WordTime>)
    requires ts != []
    ensures BestTime(ts).value as real <= AverageTime(ts).value
  {
    var b := BestTime(ts).value;
    TotalAtLeast(ts, b);
    BelowQuotient(b, TotalTime(ts), |ts|);
  }

  lemma BelowQuotient(b: int, total: int, n: int)
    requires 0 < n && n * b <= total
    ensures b as real <= total as real / n as real
  {
    assert (n * b) as real == n as real * b as real;
  }

  /** Appending a record makes the best time the smaller of the old best and the new time. */
  lemma BestAfterAppend(ts: seq<WordTime>, r: WordTime)
    ensures BestTime(ts + [r]) == Some(if ts == [] then r.time else Min(BestTime(ts).value, r.time))
  {
    assert (ts + [r])[..|ts|] == ts;
  }

  /** Three words taking 2 s, 4 s and 3 s: average 3 s, best 2 s, the last 3 s. */
  lemma ThreeWordsExample(ts: seq<WordTime>)
    requires ts == [WordTime("hello", 2000), WordTime("world", 4000), WordTime("morse", 3000)]
    ensures AverageTime(ts) == Some(3000.0)
    ensures BestTime(ts) == Some(2000)
    ensures ts[|ts| - 1].time == 3000
  {
    TotalAppend([], ts[0]);
    TotalAppend([ts[0]], ts[1]);
    TotalAppend([ts[0], ts[1]], ts[2]);
    assert ts == [ts[0], ts[1]] + [ts[2]];
  }

  // ---------------------------------------------------------------------
  // The component's state, updated in place

  class Stats {
    /** When the current word was chosen, in ms (`null` before the first word). */
    var startTime: Option<int>
    var wordTimes: seq<WordTime>
    var lastWordTime: Option<int>

    constructor ()
      ensures startTime == None && wordTimes == [] && lastWordTime == None
    {
      startTime, wordTimes, lastWordTime := None, [], None;
    }

    /** The effect on `currentWord`: with no word, a list word is chosen and the baseline set. */
    method NewWordEffect(currentWord: string, pick: nat, now: int) returns (chosen: Option<string>)
      requires pick < |Words|
      modifies this
      ensures currentWord == "" ==> chosen == Some(Words[pick]) && startTime == Some(now)
      ensures currentWord != "" ==> chosen == None && startTime == old(startTime)
      ensures wordTimes == old(wordTimes) && lastWordTime == old(lastWordTime)
    {
      chosen := None;
      if currentWord == "" {
        var w := RandomWord(pick);
        chosen := Some(w);
        startTime := Some(now);
      }
    }

    /**
     * The effect on `isCorrect`: a correct outcome with a baseline set records
     * the time since the baseline, makes it the last time and restarts the baseline.
     */
    method RecordCompletion(isCorrect: Option<bool>, currentWord: string, now: int)
      modifies this
      ensures isCorrect == Some(true) && IsTruthy(old(startTime)) ==>
        && wordTimes == old(wordTimes) + [WordTime(currentWord, now - old(startTime).value)]
        && lastWordTime == Some(now - old(startTime).value)
        && startTime == Some(now)
      ensures !(isCorrect == Some(true) && IsTruthy(old(startTime))) ==>
        wordTimes == old(wordTimes) && lastWordTime == old(lastWordTime) && startTime == old(startTime)
    {
      if isCorrect == Some(true) && IsTruthy(startTime) {
        var elapsed := now - startTime.value;
        lastWordTime := Some(elapsed);
        wordTimes := wordTimes + [WordTime(currentWord, elapsed)];
        startTime := Some(now);
      }
    }

    /** The "Reset Stats & Get New Word" button; the caller also resets the Morse input. */
    method ResetStats(pick: nat, now: int) returns (newWord: string)
      requires pick < |Words|
      modifies this
      ensures wordTimes == [] && lastWordTime == None && startTime == Some(now)
      ensures newWord == Words[pick]
    {
      wordTimes := [];
      lastWordTime := None;
      startTime := Some(now);
      newWord := RandomWord(pick);
    }
  }
}
