/** The part of the command-line front end that picks the unit names out of an input
    line already split into words: `extractTokens` and `extractUnitToken`. */
module Tokens {
  import opened Wrappers
  import opened Text

  /** Words joined by single spaces. */
  function Joined(words: seq<string>): string {
    if |words| == 0 then ""
    else if |words| == 1 then words[0]
    else words[0] + " " + Joined(words[1..])
  }

  /** The position of the connecting word ("to", "in", ...) in a line of four to six words:
      the number comes first, then the source unit's one or two words, then the
      connector, then the target unit's words up to the end. Five words hold a two-word
      source exactly when the second word contains "degree". */
  function ConnectorIndex(stringList: seq<string>): (k: nat)
    requires 4 <= |stringList| <= 6
    ensures 2 <= k <= 3 && |stringList| - 2 <= k + 1 <= |stringList| - 1
  {
    if |stringList| == 4 then 2
    else if |stringList| == 6 then 3
    else if Contains(stringList[1], "degree") then 3
    else 2
  }

  /** `extractUnitToken`: the source unit's name, or with `extractTargetUnit` the
      target's. Defined for every list of at least four words; for four to six words it
      is the words before or after the connector. */
  function ExtractUnitToken(stringList: seq<string>, extractTargetUnit: bool): (r: string)
    requires |stringList| >= 4
    ensures 4 <= |stringList| <= 6 && !extractTargetUnit ==>
              r == Joined(stringList[1..ConnectorIndex(stringList)])
    ensures 4 <= |stringList| <= 6 && extractTargetUnit ==>
              r == Joined(stringList[ConnectorIndex(stringList) + 1..])
  {
    JoinedPairs(stringList);
    var picked: Option<string> :=
      if |stringList| == 6 then
        Some(if extractTargetUnit then stringList[4] + " " + stringList[5]
             else stringList[1] + " " + stringList[2])
      else if |stringList| == 4 then
        Some(if extractTargetUnit then stringList[3] else stringList[1])
      else None;
    if picked.Some? then picked.value
    // five words (or more)
    else if extractTargetUnit then
      if Contains(stringList[1], "degree") then stringList[4] else stringList[3] + " " + stringList[4]
    else
      if Contains(stringList[1], "degree") then stringList[1] + " " + stringList[2] else stringList[1]
  }

  /** `extractTokens` without the number parsing: fails unless there are four to six
      words; otherwise the number's word, the source unit's words before the connector
      and the target unit's words after it, each joined by single spaces. */
  function ExtractTokens(stringList: seq<string>): (r: Result<(string, string, string)>)
    ensures r.Failure? <==> !(4 <= |stringList| <= 6)
    ensures r.Failure? ==> r.error == "The string should consist of 4-6 tokens"
    ensures r.Success? ==>
              var k := ConnectorIndex(stringList);
              r.value == (stringList[0], Joined(stringList[1..k]), Joined(stringList[k + 1..]))
  {
    if !(4 <= |stringList| <= 6) then Failure("The string should consist of 4-6 tokens")
    else
      var sourceUnitName := ExtractUnitToken(stringList, false);
      var targetUnitName := ExtractUnitToken(stringList, true);
      Success((stringList[0], sourceUnitName, targetUnitName))
  }

  /** Joining one or two consecutive words of a list. */
  lemma JoinedPairs(stringList: seq<string>)
    ensures forall i | 0 <= i < |stringList| :: Joined(stringList[i..i + 1]) == stringList[i]
    ensures forall i | 0 <= i < |stringList| - 1 ::
              Joined(stringList[i..i + 2]) == stringList[i] + " " + stringList[i + 1]
  {
    forall i | 0 <= i < |stringList| - 1
      ensures Joined(stringList[i..i + 2]) == stringList[i] + " " + stringList[i + 1]
    {
      assert stringList[i..i + 2][1..] == stringList[i + 1..i + 2];
    }
  }

  /** Four words: the units are the second and the fourth. */
  lemma FourWords(stringList: seq<string>)
    requires |stringList| == 4
    ensures ExtractTokens(stringList) == Success((stringList[0], stringList[1], stringList[3]))
  {
    JoinedPairs(stringList);
  }

  /** Six words: two words for each unit, around the connector. */
  lemma SixWords(stringList: seq<string>)
    requires |stringList| == 6
    ensures ExtractTokens(stringList)
              == Success((stringList[0], stringList[1] + " " + stringList[2], stringList[4] + " " + stringList[5]))
  {
    JoinedPairs(stringList);
  }

  /** Five words whose second contains "degree": a two-word source, a one-word target. */
  lemma FiveWordsWithDegree(stringList: seq<string>)
    requires |stringList| == 5 && Contains(stringList[1], "degree")
    ensures ExtractTokens(stringList)
              == Success((stringList[0], stringList[1] + " " + stringList[2], stringList[4]))
  {
    JoinedPairs(stringList);
  }

  /** Five words otherwise: a one-word source, a two-word target. */
  lemma FiveWordsWithoutDegree(stringList: seq<string>)
    requires |stringList| == 5 && !Contains(stringList[1], "degree")
    ensures ExtractTokens(stringList)
              == Success((stringList[0], stringList[1], stringList[3] + " " + stringList[4]))
  {
    JoinedPairs(stringList);
  }
}
