/**
 * Fuzzy string matching as the assistant uses it: `process.extractOne(query,
 * choices)` of the fuzzywuzzy library, followed by a comparison of the score
 * against a confidence floor of 75.
 *
 * The similarity score itself is left abstract: every operation that matches
 * fuzzily takes the scoring function `sim` as a parameter (fuzzywuzzy scores
 * lie in 0..100; nothing here depends on that range).
 */
module Fuzzy {
  import opened Wrappers
  import opened PySeq

  /** A similarity score of a query against a candidate. */
  type Similarity = (string, string) -> int

  /** A fuzzy match is accepted only when its score is strictly above this. */
  const ConfidenceFloor := 75

  /** `extractOne`'s answer: the chosen candidate and its score. */
  datatype Match = Match(choice: string, score: int)

  /**
   * `process.extractOne(query, choices)`: `None` for an empty candidate list,
   * otherwise the first candidate with the highest score.
   */
  function ExtractOne(query: string, choices: seq<string>, sim: Similarity): (r: Option<Match>)
    ensures r.None? <==> choices == []
    ensures r.Some? ==> r.value.choice in choices && r.value.score == sim(query, r.value.choice)
    ensures r.Some? ==> forall c :: c in choices ==> sim(query, c) <= r.value.score
    ensures r.Some? ==> exists i :: 0 <= i < |choices| && choices[i] == r.value.choice
                                    && forall j :: 0 <= j < i ==> sim(query, choices[j]) < r.value.score
  {
    if choices == [] then None
    else
      var i := ArgMax(choices, c => sim(query, c) as real);
      assert forall c :: c in choices ==> sim(query, c) <= sim(query, choices[i]) by {
        forall c | c in choices ensures sim(query, c) <= sim(query, choices[i]) {
          var j :| 0 <= j < |choices| && choices[j] == c;
        }
      }
      Some(Match(choices[i], sim(query, choices[i])))
  }

  /** An `ExtractOne` answer is the first of the candidates of its score. */
  lemma ExtractOneIsFirst(query: string, choices: seq<string>, sim: Similarity)
    requires choices != []
    ensures var c := ExtractOne(query, choices, sim).value.choice;
            forall j :: 0 <= j < IndexOf(choices, c) ==> sim(query, choices[j]) < sim(query, c)
  {
    var m := ExtractOne(query, choices, sim).value;
    var i :| 0 <= i < |choices| && choices[i] == m.choice
             && forall j :: 0 <= j < i ==> sim(query, choices[j]) < m.score;
    assert IndexOf(choices, m.choice) <= i;
  }

  /**
   * The candidate `extractOne` picks, if its score clears the floor: of the
   * best-scoring candidates, the first one.
   */
  function Confident(query: string, choices: seq<string>, sim: Similarity): (r: Option<string>)
    ensures r.Some? ==> r.value in choices && sim(query, r.value) > ConfidenceFloor
    ensures r.Some? ==> forall c :: c in choices ==> sim(query, c) <= sim(query, r.value)
    ensures r.Some? ==> forall j :: 0 <= j < IndexOf(choices, r.value) ==> sim(query, choices[j]) < sim(query, r.value)
    ensures r.None? ==> forall c :: c in choices ==> sim(query, c) <= ConfidenceFloor
  {
    match ExtractOne(query, choices, sim)
    case None => None
    case Some(m) =>
      ExtractOneIsFirst(query, choices, sim);
      if m.score > ConfidenceFloor then Some(m.choice) else None
  }
}
