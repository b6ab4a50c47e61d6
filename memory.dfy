/**
 * The assistant's long-term memory (`category -> key -> [values]`) and its
 * bounded conversation history, with exact and fuzzy recall.
 */
module Memory {
  import opened Wrappers
  import opened PySeq
  import opened Dicts
  import opened Fuzzy
  import opened FactTables
  import opened Reinforcement

  /** One exchange of the conversation: what the user said and what the assistant answered. */
  datatype Turn = Turn(user: string, ai: string)

  const DefaultHistoryLimit: nat := 10
  /** `get_history`'s default `last_n`. */
  const DefaultRecentTurns := 5
  const NotRememberedMessage := "I don't remember that."

  /**
   * The fuzzy half of `recall`: the key most similar to the requested one,
   * across all categories, is accepted when it is not empty and scores above
   * the confidence floor; its values are taken from the first category that
   * holds it.
   */
  function FuzzyRecall(t: FactTable, key: string, sim: Similarity): (r: Reply<seq<string>>)
    requires TableValid(t) && AllKeys(t) != []
    ensures r.Data? ==>
              exists c, k :: Lookup(t, c, k) == Some(r.value)
                             && FirstCategoryWith(t, t.keys, k) == Some(c)
                             && k in AllKeys(t) && k != "" && sim(key, k) > ConfidenceFloor
                             && (forall k' :: k' in AllKeys(t) ==> sim(key, k') <= sim(key, k))
                             && forall j :: 0 <= j < IndexOf(AllKeys(t), k) ==> sim(key, AllKeys(t)[j]) < sim(key, k)
    ensures r.Message? ==>
              && r.text == NotRememberedMessage
              && ((forall k' :: k' in AllKeys(t) ==> sim(key, k') <= ConfidenceFloor)
                  || ExtractOne(key, AllKeys(t), sim).value.choice == "")
  {
    var m := ExtractOne(key, AllKeys(t), sim).value;
    if m.choice != "" && m.score > ConfidenceFloor then
      ExtractOneIsFirst(key, AllKeys(t), sim);
      AllKeysMembers(t, m.choice);
      assert forall c :: c in t.items <==> c in t.keys;
      var first := FirstCategoryWith(t, t.keys, m.choice).value;
      assert Lookup(t, first, m.choice) == Some(t.items[first].items[m.choice]);
      Data(t.items[first].items[m.choice])
    else
      Message(NotRememberedMessage)
  }

  /**
   * When the requested key is missing everywhere and some stored key is
   * similar enough, fuzzy recall answers with a stored list.
   */
  lemma FuzzyRecallFindsSimilarKey(t: FactTable, key: string, sim: Similarity, k: string)
    requires TableValid(t) && k in AllKeys(t)
    requires sim(key, k) > ConfidenceFloor
    requires "" !in AllKeys(t)
    ensures FuzzyRecall(t, key, sim).Data?
  {
    var m := ExtractOne(key, AllKeys(t), sim).value;
    assert m.score >= sim(key, k);
    assert m.choice != "";
  }

  class MemoryModule {
    const historyLimit: nat
    /** The memory's own scorer, fed on every exact recall. */
    const reinforcement: ReinforcementLearning
    var memory: FactTable
    /** `conversation_history`, a `deque(maxlen=history_limit)`. */
    var conversationHistory: seq<Turn>

    ghost predicate Valid()
      reads this, reinforcement
    {
      TableValid(memory) && |conversationHistory| <= historyLimit && reinforcement.Valid()
    }

    /**
     * A memory over the facts and turns loaded from disk: the history keeps
     * only the last `historyLimit` stored turns.
     */
    constructor(storedFacts: FactTable, storedTurns: seq<Turn>, historyLimit: nat, storedScores: Dict<ActionRecord>)
      requires TableValid(storedFacts) && storedScores.Valid()
      ensures Valid() && fresh(reinforcement)
      ensures memory == storedFacts && this.historyLimit == historyLimit
      ensures conversationHistory == Window(storedTurns, historyLimit)
      ensures reinforcement.learningData == storedScores && reinforcement.recentActions == []
    {
      this.historyLimit := historyLimit;
      memory := storedFacts;
      DequeAppendAllIsWindow([], storedTurns, historyLimit);
      assert [] + storedTurns == storedTurns;
      conversationHistory := DequeAppendAll([], storedTurns, historyLimit);
      reinforcement := new ReinforcementLearning(storedScores, Reinforcement.DefaultHistoryLimit, DefaultDecayFactor, DefaultMinConfidence);
    }

    /** `remember(category, key, value)`: `value` is appended to the list under `(category, key)`. */
    method Remember(category: string, key: string, value: string)
      requires Valid()
      modifies this
      ensures Valid()
      ensures memory == Append(old(memory), category, key, value)
      ensures conversationHistory == old(conversationHistory)
    {
      AppendInSteps(memory, category, key, value);
      if category !in memory.items {
        memory := Put(memory, category, Empty());
      }
      var facts := memory.items[category];
      if key !in facts.items {
        facts := Put(facts, key, []);
      }
      facts := Put(facts, key, facts.items[key] + [value]);
      memory := Put(memory, category, facts);
    }

    /**
     * `recall(category, key)`. An exact hit returns the stored list and feeds
     * the scorer a reward of 1 for `key`; a miss falls back to fuzzy recall
     * over every stored key and leaves the scorer alone. `extractOne` gives
     * no answer to unpack when nothing at all is stored, so a miss needs at
     * least one stored key.
     */
    method Recall(category: string, key: string, sim: Similarity) returns (r: Reply<seq<string>>)
      requires Valid()
      requires Lookup(memory, category, key).Some? || AllKeys(memory) != []
      modifies reinforcement
      ensures Valid()
      ensures Lookup(memory, category, key).Some? ==>
                r == Data(Lookup(memory, category, key).value)
                && reinforcement.FedOnce(key, 1.0, DefaultDetails)
      ensures Lookup(memory, category, key).None? ==>
                r == FuzzyRecall(memory, key, sim) && unchanged(reinforcement)
    {
      if category in memory.items && key in memory.items[category].items {
        reinforcement.ProvideFeedback(key, 1.0, DefaultDetails);
        return Data(memory.items[category].items[key]);
      }
      r := FuzzyRecall(memory, key, sim);
    }

    /** `add_to_history(user_input, response)`: the turn enters the window, evicting the oldest when full. */
    method AddToHistory(userInput: string, response: string)
      requires Valid()
      modifies this
      ensures Valid()
      ensures conversationHistory == Window(old(conversationHistory) + [Turn(userInput, response)], historyLimit)
      ensures memory == old(memory)
    {
      conversationHistory := DequeAppend(conversationHistory, Turn(userInput, response), historyLimit);
    }

    /** `get_history(last_n)`: the last `lastN` turns, oldest first. */
    function GetHistory(lastN: int): (turns: seq<Turn>)
      reads this
      ensures lastN >= 1 ==> |turns| == Min(lastN, |conversationHistory|)
      ensures |turns| <= |conversationHistory| && turns == conversationHistory[|conversationHistory| - |turns|..]
    {
      Suffix(conversationHistory, lastN)
    }
  }

  /** The turn just added is the one `get_history(1)` returns, whenever the history keeps anything. */
  lemma LatestTurnIsLast(history: seq<Turn>, t: Turn, limit: nat)
    requires 0 < limit
    ensures Suffix(Window(history + [t], limit), 1) == [t]
  {
    var w := Window(history + [t], limit);
    assert w[|w| - 1] == t;
  }
}
