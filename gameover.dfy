/**
 * The game-over scene: the high-score listing and the rank message chosen
 * from whether the level was cleared and how many seconds it took.
 */
module Gameover {
  import opened Wrappers
  import Decimal

  const SpecialForceText := "You are a special force or something"
  const SkilledSurvivorText := "You are a skilled survivor"
  const NoviceText := "You are just a novice"
  const DiedText := "You died"
  const ContinueText := "Press anywhere to play again!"
  const HighScoreTitle := "High Score"
  const NoHighScoreTitle := "No High Score"

  /** The messages a cleared level can earn, best first. */
  const ClearedRanks := [SpecialForceText, SkilledSurvivorText, NoviceText]

  /**
   * The rank message. A lost game is "You died" whatever the time; a cleared
   * one is ranked by its time, with thresholds at 15 and 30 seconds.
   */
  function RankText(clear: bool, elapsedTime: int): (text: string)
    ensures text == DiedText <==> !clear
    ensures text == SpecialForceText <==> clear && elapsedTime < 15
    ensures text == SkilledSurvivorText <==> clear && 15 <= elapsedTime < 30
    ensures text == NoviceText <==> clear && 30 <= elapsedTime
  {
    if clear then
      if elapsedTime < 15 then SpecialForceText
      else if elapsedTime < 30 then SkilledSurvivorText
      else NoviceText
    else DiedText
  }

  /** Position of a message among `ClearedRanks`; anything else ranks last. */
  function Standing(text: string): nat {
    if text == ClearedRanks[0] then 0
    else if text == ClearedRanks[1] then 1
    else if text == ClearedRanks[2] then 2
    else 3
  }

  /** A cleared level's message is one of `ClearedRanks`, and a slower clear never ranks better. */
  lemma RankMonotone(earlier: int, later: int)
    requires earlier <= later
    ensures RankText(true, earlier) in ClearedRanks && RankText(true, later) in ClearedRanks
    ensures Standing(RankText(true, earlier)) <= Standing(RankText(true, later))
  {
  }

  /** One line of the listing, `"\(i + 1): \(score)"` for the entry at index i. */
  function NumberedLine(number: int, score: string): (line: string)
    ensures FirstColon(line) == |Decimal.FromInt(number)|
    ensures line[FirstColon(line)..] == ": " + score
  {
    var digits := Decimal.FromInt(number);
    var line := digits + ": " + score;
    assert line[|digits|] == ':';
    assert FirstColon(line) == |digits|;
    assert line[|digits|..] == ": " + score;
    line
  }

  /** The listing lines of `scores`, numbered consecutively from `first`. */
  function NumberedFrom(first: int, scores: seq<string>): (lines: seq<string>)
    ensures |lines| == |scores|
    ensures forall i :: 0 <= i < |scores| ==> lines[i] == NumberedLine(first + i, scores[i])
    decreases |scores|
  {
    if scores == [] then [] else [NumberedLine(first, scores[0])] + NumberedFrom(first + 1, scores[1..])
  }

  /**
   * The label texts of the high-score listing: with a stored list, the
   * title and one line per entry in stored order, numbered from 1; without
   * one, only the "No High Score" title.
   */
  function HighScoreLabels(stored: Option<seq<string>>): (labels: seq<string>)
    ensures stored.None? ==> labels == [NoHighScoreTitle]
    ensures stored.Some? ==>
      |labels| == |stored.value| + 1 && labels[0] == HighScoreTitle &&
      forall i :: 0 <= i < |stored.value| ==> labels[i + 1] == NumberedLine(i + 1, stored.value[i])
  {
    match stored
    case None => [NoHighScoreTitle]
    case Some(scores) => [HighScoreTitle] + NumberedFrom(1, scores)
  }

  /** Index of the first ':' in `s`, or |s| when there is none. */
  function FirstColon(s: string): (k: nat)
    ensures k <= |s|
    ensures forall i :: 0 <= i < k ==> s[i] != ':'
    ensures k < |s| ==> s[k] == ':'
  {
    if s == [] || s[0] == ':' then 0 else 1 + FirstColon(s[1..])
  }

  /** Splits a listing line back into its number and its score. */
  function ParseNumberedLine(line: string): Option<(int, string)> {
    var k := FirstColon(line);
    if k + 2 <= |line| && line[k..k + 2] == ": " then
      match Decimal.ToInt(line[..k])
      case Some(n) => Some((n, line[k + 2..]))
      case None => None
    else None
  }

  /** A listing line gives back its number and its score, whatever the score contains. */
  lemma NumberedLineRoundTrip(number: int, score: string)
    ensures ParseNumberedLine(NumberedLine(number, score)) == Some((number, score))
  {
    var digits := Decimal.FromInt(number);
    var line := NumberedLine(number, score);
    assert line[..|digits|] == digits;
    assert line[|digits|..|digits| + 2] == ": ";
    assert line[|digits| + 2..] == score;
    Decimal.FromIntRoundTrip(number);
  }

  /**
   * The stored list can be read back from the listing, entry by entry and
   * in order, each with its position counted from 1.
   */
  lemma HighScoreListingDecodes(scores: seq<string>)
    ensures var labels := HighScoreLabels(Some(scores));
      forall i :: 0 <= i < |scores| ==> ParseNumberedLine(labels[i + 1]) == Some((i + 1, scores[i]))
  {
    forall i | 0 <= i < |scores|
      ensures ParseNumberedLine(HighScoreLabels(Some(scores))[i + 1]) == Some((i + 1, scores[i]))
    {
      NumberedLineRoundTrip(i + 1, scores[i]);
    }
  }

  class GameoverScene {
    const clear: bool
    const elapsedTime: int

    /** Captures the outcome of the level; both fields are fixed from here on. */
    constructor (clear: bool, elapsedTime: int)
      ensures this.clear == clear && this.elapsedTime == elapsedTime
    {
      this.clear := clear;
      this.elapsedTime := elapsedTime;
    }

    /**
     * The label texts the scene shows when presented, in the order they are
     * added: the high-score listing, the rank message, the prompt to replay.
     */
    method DidMove(stored: Option<seq<string>>) returns (labels: seq<string>)
      ensures |labels| >= 3 && labels[|labels| - 1] == ContinueText
      ensures labels[..|labels| - 2] == HighScoreLabels(stored)
      ensures labels[|labels| - 2] == RankText(clear, elapsedTime)
    {
      var listing := HighScoreLabels(stored);
      var rank := RankText(clear, elapsedTime);
      labels := listing + [rank, ContinueText];
      assert labels[..|labels| - 2] == listing;
    }
  }
}
