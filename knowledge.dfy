/**
 * The knowledge base: facts filed under `category -> key`, each cut to 500
 * characters, and a search that cascades from substring matching to fuzzy
 * matching on categories, then on keys, then to an outside lookup.
 */
module Knowledge {
  import opened Wrappers
  import opened PyText
  import opened Dicts
  import opened Fuzzy
  import opened FactTables
  import opened Reinforcement

  /** Only the first 500 characters of a fact are stored. */
  const MaxFactLength: nat := 500
  const NoInformationMessage := "I don't have information on that."
  const StillNotFoundMessage := "Still couldn't find relevant information."

  /** The outside lookup used when nothing stored matches; an empty answer counts as none. */
  type Fetch = string -> string

  /** `any(q in v.lower() for v in values)`. */
  predicate AnyContains(values: seq<string>, q: string)
    decreases |values|
  {
    values != [] && (Contains(Lower(values[0]), q) || AnyContains(values[1..], q))
  }

  /** Tier 1 for one key: the lowered query occurs in the lowered key or in one of its lowered values. */
  predicate KeyMatches(key: string, values: seq<string>, q: string)
  {
    Contains(Lower(key), q) || AnyContains(values, q)
  }

  /** The keys among the first `n` of a category that match the query, with their values, in key order. */
  function MatchingKeys(facts: Facts, n: nat, q: string): (r: Facts)
    requires facts.Valid() && n <= |facts.keys|
    ensures r.Valid()
    ensures forall k :: k in r.items <==> k in facts.keys[..n] && KeyMatches(k, facts.items[k], q)
    ensures forall k :: k in r.items ==> r.items[k] == facts.items[k]
  {
    if n == 0 then Empty()
    else
      var prev := MatchingKeys(facts, n - 1, q);
      var k := facts.keys[n - 1];
      assert facts.keys[..n] == facts.keys[..n - 1] + [k];
      if KeyMatches(k, facts.items[k], q) then Put(prev, k, facts.items[k]) else prev
  }

  /**
   * What tier 1 gathers from one category: the whole category when its
   * lowered name contains the query, otherwise its matching keys, and
   * nothing when no key matches either.
   */
  function CategoryHits(c: string, facts: Facts, q: string): (r: Option<Facts>)
    requires facts.Valid()
    ensures Contains(Lower(c), q) ==> r == Some(facts)
    ensures r.Some? <==> Contains(Lower(c), q) || exists k :: k in facts.items && KeyMatches(k, facts.items[k], q)
    ensures r.Some? ==> forall k :: k in r.value.items ==> k in facts.items && r.value.items[k] == facts.items[k]
    ensures r.Some? ==> forall k :: k in facts.items && KeyMatches(k, facts.items[k], q) ==> k in r.value.items
  {
    if Contains(Lower(c), q) then Some(facts)
    else
      var m := MatchingKeys(facts, |facts.keys|, q);
      assert facts.keys[..|facts.keys|] == facts.keys;
      if m.keys == [] then
        assert forall k :: k !in m.items;
        None
      else
        assert m.keys[0] in m.items;
        Some(m)
  }

  /** Tier 1 over the first `n` categories, in category order. */
  function SubstringHits(t: FactTable, n: nat, q: string): (r: FactTable)
    requires TableValid(t) && n <= |t.keys|
    ensures TableValid(r)
    ensures forall c :: c in r.items <==> c in t.keys[..n] && CategoryHits(c, t.items[c], q).Some?
    ensures forall c :: c in r.items ==> r.items[c] == CategoryHits(c, t.items[c], q).value
  {
    if n == 0 then Empty()
    else
      var prev := SubstringHits(t, n - 1, q);
      var c := t.keys[n - 1];
      assert t.keys[..n] == t.keys[..n - 1] + [c];
      AddHits(prev, c, t.items[c], q)
  }

  /** Tier 1's results after one more category. */
  function AddHits(prev: FactTable, c: string, facts: Facts, q: string): (r: FactTable)
    requires TableValid(prev) && facts.Valid()
    ensures TableValid(r)
    ensures forall c' :: c' in r.items <==> c' in prev.items || (c' == c && CategoryHits(c, facts, q).Some?)
    ensures forall c' :: c' in r.items && c' != c ==> r.items[c'] == prev.items[c']
    ensures CategoryHits(c, facts, q).Some? ==> r.items[c] == CategoryHits(c, facts, q).value
  {
    match CategoryHits(c, facts, q)
    case None => prev
    case Some(f) => Put(prev, c, f)
  }

  /** The category tier 1 visits next is not among the results so far, since category names are distinct. */
  lemma NextCategoryIsNew(t: FactTable, i: nat, q: string)
    requires TableValid(t) && i < |t.keys|
    ensures t.keys[i] !in SubstringHits(t, i, q).items
  {
    assert forall j :: 0 <= j < i ==> t.keys[j] != t.keys[i];
  }

  /** Tier 1 over the whole table. */
  function AllSubstringHits(t: FactTable, q: string): FactTable
    requires TableValid(t)
  {
    SubstringHits(t, |t.keys|, q)
  }

  /** A key that matches the query is reported by tier 1 with all of its values. */
  lemma MatchingKeyIsReported(t: FactTable, q: string, c: string, k: string)
    requires TableValid(t) && Lookup(t, c, k).Some?
    requires KeyMatches(k, Lookup(t, c, k).value, q)
    ensures Lookup(AllSubstringHits(t, q), c, k) == Lookup(t, c, k)
  {
    assert t.keys[..|t.keys|] == t.keys;
    assert c in t.keys;
    var hit := CategoryHits(c, t.items[c], q);
    assert hit.Some? && k in hit.value.items;
  }

  /**
   * A fact just added is found again by a search for its key: tier 1 reports
   * the category with the key's whole list, which ends in the stored
   * (truncated) fact.
   */
  lemma SearchFindsAddedFact(t: FactTable, c: string, k: string, v: string)
    requires TableValid(t)
    ensures var t' := Append(t, c, k, Truncate(v, MaxFactLength));
            var hits := AllSubstringHits(t', Lower(k));
            && hits.keys != []
            && Lookup(hits, c, k) == Some(ValuesAt(t, c, k) + [Truncate(v, MaxFactLength)])
  {
    var t' := Append(t, c, k, Truncate(v, MaxFactLength));
    ContainsSelf(Lower(k));
    MatchingKeyIsReported(t', Lower(k), c, k);
    var hits := AllSubstringHits(t', Lower(k));
    assert c in hits.items;
    assert c in hits.keys;
  }

  /** `t.setdefault(c, {})[k] = vs`: the category is created empty when absent, then `k` is set in it. */
  function SetDefaultPut(t: FactTable, c: string, k: string, vs: seq<string>): (r: FactTable)
    requires TableValid(t)
    ensures TableValid(r)
    ensures Lookup(r, c, k) == Some(vs)
  {
    var cell := if c in t.items then t.items[c] else Empty();
    Put(t, c, Put(cell, k, vs))
  }

  /**
   * What tier 1's inner loop has gathered after the first `j` keys of
   * `category`, key by key: the whole category first when its name matches,
   * then each matching key set in the category's entry.
   */
  function Gathered(prev: FactTable, category: string, facts: Facts, q: string, j: nat): (r: FactTable)
    requires TableValid(prev) && facts.Valid() && j <= |facts.keys|
    ensures TableValid(r)
  {
    if j == 0 then
      if Contains(Lower(category), q) then Put(prev, category, facts) else prev
    else
      var before := Gathered(prev, category, facts, q, j - 1);
      var key := facts.keys[j - 1];
      if KeyMatches(key, facts.items[key], q) then SetDefaultPut(before, category, key, facts.items[key]) else before
  }

  /**
   * The same in closed form: the whole category when its name matches,
   * otherwise the keys matched so far, with no entry while there are none.
   */
  function Collected(prev: FactTable, category: string, facts: Facts, q: string, j: nat): FactTable
    requires TableValid(prev) && facts.Valid() && j <= |facts.keys|
  {
    if Contains(Lower(category), q) then Put(prev, category, facts)
    else
      var m := MatchingKeys(facts, j, q);
      if m.keys == [] then prev else Put(prev, category, m)
  }

  /** A matching key set in the category's entry gives the closed form one key further along. */
  lemma CollectMatched(prev: FactTable, category: string, facts: Facts, q: string, j: nat)
    requires TableValid(prev) && facts.Valid() && category !in prev.items && 0 < j <= |facts.keys|
    requires KeyMatches(facts.keys[j - 1], facts.items[facts.keys[j - 1]], q)
    ensures var key := facts.keys[j - 1];
            Collected(prev, category, facts, q, j) == SetDefaultPut(Collected(prev, category, facts, q, j - 1), category, key, facts.items[key])
  {
    var key := facts.keys[j - 1];
    var values := facts.items[key];
    var results := Collected(prev, category, facts, q, j - 1);
    var m := MatchingKeys(facts, j - 1, q);
    if Contains(Lower(category), q) {
      PutSame(facts, key);
      PutSame(results, category);
    } else {
      assert MatchingKeys(facts, j, q) == Put(m, key, values);
      if m.keys == [] {
        assert m.items == map[];
        assert m == Empty();
      } else {
        PutTwice(prev, category, m, Put(m, key, values));
      }
    }
  }

  /** A key that does not match leaves the closed form as it was. */
  lemma CollectUnmatched(prev: FactTable, category: string, facts: Facts, q: string, j: nat)
    requires TableValid(prev) && facts.Valid() && 0 < j <= |facts.keys|
    requires !KeyMatches(facts.keys[j - 1], facts.items[facts.keys[j - 1]], q)
    ensures Collected(prev, category, facts, q, j) == Collected(prev, category, facts, q, j - 1)
  {
    assert MatchingKeys(facts, j, q) == MatchingKeys(facts, j - 1, q);
  }

  /** Key by key, the inner loop builds the closed form. */
  lemma {:induction false} GatheredIsCollected(prev: FactTable, category: string, facts: Facts, q: string, j: nat)
    requires TableValid(prev) && facts.Valid() && category !in prev.items && j <= |facts.keys|
    ensures Gathered(prev, category, facts, q, j) == Collected(prev, category, facts, q, j)
  {
    if j > 0 {
      GatheredIsCollected(prev, category, facts, q, j - 1);
      var key := facts.keys[j - 1];
      if KeyMatches(key, facts.items[key], q) {
        CollectMatched(prev, category, facts, q, j);
      } else {
        CollectUnmatched(prev, category, facts, q, j);
      }
    } else {
      assert MatchingKeys(facts, 0, q).keys == [];
    }
  }

  /** After the last key, what was gathered is the category's hits added to `prev`. */
  lemma GatheredAll(prev: FactTable, category: string, facts: Facts, q: string)
    requires TableValid(prev) && facts.Valid() && category !in prev.items
    ensures Gathered(prev, category, facts, q, |facts.keys|) == AddHits(prev, category, facts, q)
  {
    GatheredIsCollected(prev, category, facts, q, |facts.keys|);
    assert facts.keys[..|facts.keys|] == facts.keys;
  }

  /** One pass of tier 1's outer loop: the hits of category `category` are added to `prev`. */
  method GatherCategory(prev: FactTable, category: string, facts: Facts, q: string) returns (results: FactTable)
    requires TableValid(prev) && facts.Valid() && category !in prev.items
    ensures results == AddHits(prev, category, facts, q)
  {
    results := prev;
    if Contains(Lower(category), q) {
      results := Put(results, category, facts);
    }
    var j := 0;
    while j < |facts.keys|
      invariant 0 <= j <= |facts.keys|
      invariant results == Gathered(prev, category, facts, q, j)
    {
      var key := facts.keys[j];
      var values := facts.items[key];
      if KeyMatches(key, values, q) {
        results := SetDefaultPut(results, category, key, values);
      }
      j := j + 1;
    }
    GatheredAll(prev, category, facts, q);
  }

  class KnowledgeBase {
    /** The knowledge base's own scorer, fed whenever a fact is read. */
    const reinforcement: ReinforcementLearning
    var knowledge: FactTable

    ghost predicate Valid()
      reads this, reinforcement
    {
      TableValid(knowledge) && reinforcement.Valid()
    }

    /** A knowledge base over the facts loaded from disk. */
    constructor(storedFacts: FactTable, storedScores: Dict<ActionRecord>)
      requires TableValid(storedFacts) && storedScores.Valid()
      ensures Valid() && fresh(reinforcement)
      ensures knowledge == storedFacts
      ensures reinforcement.learningData == storedScores && reinforcement.recentActions == []
    {
      knowledge := storedFacts;
      reinforcement := new ReinforcementLearning(storedScores, DefaultHistoryLimit, DefaultDecayFactor, DefaultMinConfidence);
    }

    /**
     * `add_fact(category, key, value)`: the first 500 characters of `value`
     * are appended under `(category, key)`, so a table whose facts are all
     * within 500 characters stays so.
     */
    method AddFact(category: string, key: string, value: string)
      requires Valid()
      modifies this
      ensures Valid()
      ensures knowledge == Append(old(knowledge), category, key, Truncate(value, MaxFactLength))
      ensures FactsWithin(old(knowledge), MaxFactLength) ==> FactsWithin(knowledge, MaxFactLength)
      ensures NoEmptyLists(old(knowledge)) ==> NoEmptyLists(knowledge)
    {
      ghost var before := knowledge;
      AppendInSteps(knowledge, category, key, Truncate(value, MaxFactLength));
      if category !in knowledge.items {
        knowledge := Put(knowledge, category, Empty());
      }
      var facts := knowledge.items[category];
      if key !in facts.items {
        facts := Put(facts, key, []);
      }
      facts := Put(facts, key, facts.items[key] + [Truncate(value, MaxFactLength)]);
      knowledge := Put(knowledge, category, facts);
      if FactsWithin(before, MaxFactLength) {
        AppendKeepsFactsWithin(before, category, key, Truncate(value, MaxFactLength), MaxFactLength);
      }
      if NoEmptyLists(before) {
        AppendKeepsNoEmptyLists(before, category, key, Truncate(value, MaxFactLength));
      }
    }

    /**
     * `get_fact(category, key)`: a hit returns the stored list and feeds the
     * scorer a reward of 1 for `key`; a miss returns the one-line apology and
     * feeds nothing.
     */
    method GetFact(category: string, key: string) returns (facts: seq<string>)
      requires Valid()
      modifies reinforcement
      ensures Valid()
      ensures Lookup(knowledge, category, key).Some? ==>
                facts == Lookup(knowledge, category, key).value
                && reinforcement.FedOnce(key, 1.0, DefaultDetails)
      ensures Lookup(knowledge, category, key).None? ==>
                facts == [NoInformationMessage] && unchanged(reinforcement)
    {
      if category in knowledge.items && key in knowledge.items[category].items {
        reinforcement.ProvideFeedback(key, 1.0, DefaultDetails);
        return knowledge.items[category].items[key];
      }
      return [NoInformationMessage];
    }

    /**
     * `search_knowledge(query)` on the lowered query `q`:
     *  1. the substring hits, when there are any;
     *  2. else the whole category `extractOne` finds among the category names, if it scores above 75;
     *  3. else `{c: {k: get_fact(c, k)}}` for the key `extractOne` finds among all keys, if it
     *     scores above 75, where `c` is the first category holding `k`;
     *  4. else the outside lookup's answer, or a fixed message when that answer is empty.
     * Only tier 3 feeds the scorer.
     */
    method SearchKnowledge(query: string, sim: Similarity, fetch: Fetch) returns (r: Reply<FactTable>)
      requires Valid()
      modifies reinforcement
      ensures Valid()
      ensures var q := Lower(query);
              var hits := AllSubstringHits(knowledge, q);
              && (hits.keys != [] ==> r == Data(hits) && unchanged(reinforcement))
              && (hits.keys == [] && Confident(q, knowledge.keys, sim).Some? ==>
                    var c := Confident(q, knowledge.keys, sim).value;
                    r == Data(Put(Empty(), c, knowledge.items[c])) && unchanged(reinforcement))
              && (hits.keys == [] && Confident(q, knowledge.keys, sim).None?
                  && Confident(q, AllKeys(knowledge), sim).Some? ==>
                    var k := Confident(q, AllKeys(knowledge), sim).value;
                    var c := FirstCategoryWith(knowledge, knowledge.keys, k);
                    && c.Some?
                    && r == Data(Put(Empty(), c.value, Put(Empty(), k, knowledge.items[c.value].items[k])))
                    && reinforcement.FedOnce(k, 1.0, DefaultDetails))
              && (hits.keys == [] && Confident(q, knowledge.keys, sim).None?
                  && Confident(q, AllKeys(knowledge), sim).None? ==>
                    r == Message(if fetch(q) != "" then fetch(q) else StillNotFoundMessage)
                    && unchanged(reinforcement))
    {
      var q := Lower(query);
      var results := CollectSubstringHits(q);
      if results.keys != [] {
        return Data(results);
      }

      var bestCategory := Confident(q, knowledge.keys, sim);
      if bestCategory.Some? {
        return Data(Put(Empty(), bestCategory.value, knowledge.items[bestCategory.value]));
      }

      var allKeys := AllKeys(knowledge);
      var bestKey := Confident(q, allKeys, sim);
      if bestKey.Some? {
        var k := bestKey.value;
        var category := FirstHolder(k);
        var facts := GetFact(category, k);
        return Data(Put(Empty(), category, Put(Empty(), k, facts)));
      }

      var answer := fetch(q);
      r := Message(if answer != "" then answer else StillNotFoundMessage);
    }

    /** Tier 1 of `search_knowledge`: the nested loops over categories and their keys. */
    method CollectSubstringHits(q: string) returns (results: FactTable)
      requires Valid()
      ensures results == AllSubstringHits(knowledge, q)
    {
      results := Empty();
      var i := 0;
      while i < |knowledge.keys|
        invariant 0 <= i <= |knowledge.keys|
        invariant results == SubstringHits(knowledge, i, q)
      {
        var category := knowledge.keys[i];
        NextCategoryIsNew(knowledge, i, q);
        results := GatherCategory(results, category, knowledge.items[category], q);
        i := i + 1;
      }
    }

    /** The loop of tier 3: the first category, in insertion order, that holds `k`. */
    method FirstHolder(k: string) returns (category: string)
      requires Valid() && k in AllKeys(knowledge)
      ensures FirstCategoryWith(knowledge, knowledge.keys, k) == Some(category)
    {
      AllKeysMembers(knowledge, k);
      assert forall c :: c in knowledge.items ==> c in knowledge.keys;
      assert FirstCategoryWith(knowledge, knowledge.keys, k).Some?;
      var n := 0;
      assert knowledge.keys[0..] == knowledge.keys;
      while k !in knowledge.items[knowledge.keys[n]].items
        invariant 0 <= n < |knowledge.keys|
          invariant FirstCategoryWith(knowledge, knowledge.keys[n..], k) == FirstCategoryWith(knowledge, knowledge.keys, k)
        decreases |knowledge.keys| - n
      {
        assert knowledge.keys[n..][1..] == knowledge.keys[n + 1..];
        n := n + 1;
      }
      category := knowledge.keys[n];
    }
  }
}
