/**
 _get_all_leetcode_questions: the part after the HTTP GET and the JSON decode,
 which walks the listing's stat_status_pairs and collects each entry's slug.
 */
module Listing {

  /** The "stat" object of a listing entry; only the slug is read. */
  datatype Stat = Stat(questionTitleSlug: string)

  /** One element of the listing's "stat_status_pairs" array. */
  datatype StatStatusPair = StatStatusPair(stat: Stat)

  /** The decoded body of the listing endpoint. */
  datatype ListingResponse = ListingResponse(statStatusPairs: seq<StatStatusPair>)

  /** The for loop of _get_all_leetcode_questions: one slug per listing entry, in listing order. */
  method CollectSlugs(response: ListingResponse) returns (questions: seq<string>)
    ensures |questions| == |response.statStatusPairs|
    ensures forall i :: 0 <= i < |questions| ==>
      questions[i] == response.statStatusPairs[i].stat.questionTitleSlug
  {
    questions := [];
    for i := 0 to |response.statStatusPairs|
      invariant |questions| == i
      invariant forall j :: 0 <= j < i ==> questions[j] == response.statStatusPairs[j].stat.questionTitleSlug
    {
      questions := questions + [response.statStatusPairs[i].stat.questionTitleSlug];
    }
  }
}
