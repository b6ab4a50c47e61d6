/**
 * The learning model: for each user input, the responses given to it and the
 * feedback each one received, kept as two parallel lists; suggestions come
 * from those responses or, for an input never seen, from the knowledge base's
 * "General" category.
 */
module Learning {
  import opened Wrappers
  import opened PyText
  import opened Dicts
  import opened FactTables
  import opened Reinforcement
  import opened Knowledge

  const GeneralCategory := "General"
  const NotSureMessage := "I'm not sure. Would you like to teach me?"
  /** The feedback detail recorded with each interaction is this prefix followed by the response. */
  const ResponsePrefix := "Response: "

  /** `{"responses": [...], "feedback": [...]}` for one user input. */
  datatype Interaction = Interaction(responses: seq<string>, feedback: seq<real>)

  /** Each response has its feedback: the two lists have the same length. */
  ghost predicate Paired(data: Dict<Interaction>)
  {
    forall u :: u in data.items ==> |data.items[u].responses| == |data.items[u].feedback|
  }

  /** The lists recorded so far for `u`, or two empty lists. */
  function InteractionOf(data: Dict<Interaction>, u: string): Interaction
  {
    Get(data, u, Interaction([], []))
  }

  /** The table after one interaction: `r` and `f` are appended to `u`'s two lists. */
  function Learned(data: Dict<Interaction>, u: string, r: string, f: real): (d: Dict<Interaction>)
    requires data.Valid()
    ensures d.Valid()
  {
    var prior := InteractionOf(data, u);
    Put(data, u, Interaction(prior.responses + [r], prior.feedback + [f]))
  }

  /**
   * One interaction grows `u`'s two lists by one each, ending in `r` and `f`,
   * keeps them paired and non-empty, and leaves every other input alone.
   */
  lemma LearnedShape(data: Dict<Interaction>, u: string, r: string, f: real)
    requires data.Valid()
    ensures var d := Learned(data, u, r, f);
            && u in d.items
            && d.items[u].responses == InteractionOf(data, u).responses + [r]
            && d.items[u].feedback == InteractionOf(data, u).feedback + [f]
            && |d.items[u].responses| > 0
            && (forall v :: v != u ==> (v in d.items <==> v in data.items))
            && (forall v :: v != u && v in data.items ==> d.items[v] == data.items[v])
            && (Paired(data) ==> Paired(d))
  {
  }

  /** What `suggest_response` gives back. */
  datatype Suggestion =
    | Recalled(response: string)     // one of the responses given before
    | Looked(facts: seq<string>)     // the knowledge base's answer
    | Fallback(text: string)         // the "not sure" line

  class LearningModel {
    /** The model's own scorer, fed on every interaction. */
    const reinforcement: ReinforcementLearning
    const knowledgeBase: KnowledgeBase
    var learningData: Dict<Interaction>

    ghost predicate Valid()
      reads this, reinforcement, knowledgeBase, knowledgeBase.reinforcement
    {
      && learningData.Valid() && reinforcement.Valid() && knowledgeBase.Valid()
      && reinforcement != knowledgeBase.reinforcement
    }

    /** A model over the interactions, scores and facts loaded from disk. */
    constructor(stored: Dict<Interaction>, storedScores: Dict<ActionRecord>, storedFacts: FactTable, factScores: Dict<ActionRecord>)
      requires stored.Valid() && storedScores.Valid() && TableValid(storedFacts) && factScores.Valid()
      ensures Valid() && fresh(reinforcement) && fresh(knowledgeBase) && fresh(knowledgeBase.reinforcement)
      ensures learningData == stored && knowledgeBase.knowledge == storedFacts
      ensures reinforcement.learningData == storedScores && reinforcement.recentActions == []
    {
      learningData := stored;
      reinforcement := new ReinforcementLearning(storedScores, Reinforcement.DefaultHistoryLimit, DefaultDecayFactor, DefaultMinConfidence);
      knowledgeBase := new KnowledgeBase(storedFacts, factScores);
    }

    /**
     * `learn_from_interaction(user_input, ai_response, feedback)`: the
     * response and its feedback are appended to the input's lists, and the
     * scorer is fed the feedback for the input with the response as detail.
     */
    method LearnFromInteraction(userInput: string, aiResponse: string, feedback: real)
      requires Valid()
      modifies this, reinforcement
      ensures Valid()
      ensures learningData == Learned(old(learningData), userInput, aiResponse, feedback)
      ensures reinforcement.FedOnce(userInput, feedback, ResponsePrefix + aiResponse)
    {
      ghost var before := learningData;
      if userInput !in learningData.items {
        learningData := Put(learningData, userInput, Interaction([], []));
      }
      var entry := learningData.items[userInput];
      assert entry == InteractionOf(before, userInput);
      entry := entry.(responses := entry.responses + [aiResponse]);
      entry := entry.(feedback := entry.feedback + [feedback]);
      if userInput !in before.items {
        PutTwice(before, userInput, Interaction([], []), entry);
      }
      learningData := Put(learningData, userInput, entry);
      reinforcement.ProvideFeedback(userInput, feedback, ResponsePrefix + aiResponse);
    }

    /**
     * `suggest_response(user_input)`. A known input gets response number
     * `pick % count` of its recorded responses, and nothing changes. An
     * unknown one gets `get_fact("General", user_input)`; that list is empty
     * only when an empty list was stored, and lists built by `add_fact` never
     * are, so then the "not sure" line is never the answer.
     */
    method SuggestResponse(userInput: string, pick: nat) returns (s: Suggestion)
      requires Valid()
      requires userInput in learningData.items ==> |learningData.items[userInput].responses| > 0
      modifies knowledgeBase.reinforcement
      ensures Valid()
      ensures NoEmptyLists(knowledgeBase.knowledge) ==> !s.Fallback?
      ensures userInput in learningData.items ==>
                s.Recalled? && s.response in learningData.items[userInput].responses
                && unchanged(knowledgeBase.reinforcement)
      ensures userInput !in learningData.items ==>
                && (s.Looked? || s.Fallback?)
                && (Lookup(knowledgeBase.knowledge, GeneralCategory, userInput).Some? ==>
                      (if Lookup(knowledgeBase.knowledge, GeneralCategory, userInput).value != []
                       then s == Looked(Lookup(knowledgeBase.knowledge, GeneralCategory, userInput).value)
                       else s == Fallback(NotSureMessage))
                      && knowledgeBase.reinforcement.FedOnce(userInput, 1.0, DefaultDetails))
                && (Lookup(knowledgeBase.knowledge, GeneralCategory, userInput).None? ==>
                      s == Looked([NoInformationMessage]) && unchanged(knowledgeBase.reinforcement))
    {
      if userInput in learningData.items {
        var responses := learningData.items[userInput].responses;
        return Recalled(responses[pick % |responses|]);
      }
      var facts := knowledgeBase.GetFact(GeneralCategory, userInput);
      if facts != [] {
        s := Looked(facts);
      } else {
        s := Fallback(NotSureMessage);
      }
    }

    /** `improve_knowledge(key, value)`: the first 500 characters of `value` are filed under "General". */
    method ImproveKnowledge(key: string, value: string)
      requires Valid()
      modifies knowledgeBase
      ensures Valid()
      ensures knowledgeBase.knowledge
              == Append(old(knowledgeBase.knowledge), GeneralCategory, key, Truncate(value, MaxFactLength))
      ensures learningData == old(learningData)
    {
      knowledgeBase.AddFact(GeneralCategory, key, value);
    }

    /** `review_learning_data()`: the recorded interactions themselves. */
    function ReviewLearningData(): (d: Dict<Interaction>)
      reads this
      ensures d == learningData
    {
      learningData
    }
  }
}
