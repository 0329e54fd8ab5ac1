/**
 * The answer check of the op-previous-address page: the submitted text must contain one of
 * three known option phrases (JavaScript's `includes`, a substring test, not equality).
 */
module Answers {

  /** The three option phrases of the previous-address question. */
  const PreviousAddressOptions: seq<string> := [
    "I know the town or city of the other parents previous address",
    "I know the area of the other parents previous address",
    "I don't know about the other parents previous address"
  ]

  /** `needle` occurs in `hay` starting at index i. */
  ghost predicate OccursAt(hay: string, needle: string, i: int) {
    0 <= i && i + |needle| <= |hay| && hay[i..i + |needle|] == needle
  }

  /** `hay.includes(needle)`: scan for the first index where `needle` starts. */
  function Includes(hay: string, needle: string): (found: bool)
    ensures found <==> exists i :: OccursAt(hay, needle, i)
    decreases |hay|
  {
    if |hay| < |needle| then
      assert forall i :: !OccursAt(hay, needle, i);
      false
    else if needle <= hay then
      assert OccursAt(hay, needle, 0);
      true
    else
      var rest := Includes(hay[1..], needle);
      assert forall i :: OccursAt(hay[1..], needle, i) <==> OccursAt(hay, needle, i + 1);
      assert !OccursAt(hay, needle, 0);
      assert (exists i :: OccursAt(hay, needle, i)) ==> exists i :: OccursAt(hay[1..], needle, i) by {
        if i :| OccursAt(hay, needle, i) {
          assert OccursAt(hay[1..], needle, i - 1);
        }
      }
      rest
  }

  /** `previousAddressOptions.some(option => selectedOption.includes(option))`. */
  predicate MatchesPreviousAddressOption(selectedOption: string): (matched: bool)
    ensures matched <==> exists k, i :: 0 <= k < |PreviousAddressOptions| && OccursAt(selectedOption, PreviousAddressOptions[k], i)
  {
    exists k :: 0 <= k < |PreviousAddressOptions| && Includes(selectedOption, PreviousAddressOptions[k])
  }

  /** Each option phrase is accepted, also inside a longer answer: substring, not equality. */
  lemma OptionPhrasesAccepted(prefix: string, suffix: string)
    ensures forall k :: 0 <= k < |PreviousAddressOptions| ==>
      MatchesPreviousAddressOption(prefix + PreviousAddressOptions[k] + suffix)
  {
    forall k | 0 <= k < |PreviousAddressOptions|
      ensures MatchesPreviousAddressOption(prefix + PreviousAddressOptions[k] + suffix)
    {
      var o := PreviousAddressOptions[k];
      var hay := prefix + o + suffix;
      assert hay[|prefix|..|prefix| + |o|] == o;
      assert OccursAt(hay, o, |prefix|);
    }
  }

  /** An answer shorter than every phrase, such as "something else" or the empty answer, is not accepted. */
  lemma ShortAnswersRejected()
    ensures !MatchesPreviousAddressOption("something else")
    ensures !MatchesPreviousAddressOption("")
  {
  }
}
