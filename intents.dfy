/**
 * Intent recognition: a fixed table of intents and their trigger phrases, a
 * case-insensitive whole-word search for every phrase, and a single fuzzy
 * guess (or "unknown") when no phrase occurs.
 */
module Intents {
  import opened Wrappers
  import opened PyText
  import opened Fuzzy

  /** An intent label with its trigger phrases. */
  type IntentEntry = (string, seq<string>)

  const UnknownIntent := "unknown"

  /** The recognizer's table, in its insertion order. */
  const IntentTable: seq<IntentEntry> := [
    ("greeting", ["hello", "hi", "hey", "good morning", "good evening"]),
    ("farewell", ["bye", "goodbye", "see you", "later"]),
    ("music_play", ["play music", "start song", "play a track"]),
    ("music_stop", ["stop music", "pause song", "end track"]),
    ("movie_play", ["play movie", "start film", "watch movie"]),
    ("movie_stop", ["stop movie", "pause film", "end movie"]),
    ("game_launch", ["launch game", "start game", "play game"]),
    ("game_close", ["close game", "exit game", "stop game"]),
    ("reminder_set", ["set reminder", "remind me", "schedule task"]),
    ("query", ["what is", "how to", "tell me about"]),
    ("weather_check", ["what's the weather", "weather update", "check forecast"]),
    ("joke_telling", ["tell me a joke", "make me laugh", "say something funny"]),
    ("note_taking", ["take a note", "save this note", "remember this"]),
    ("alarm_set", ["set an alarm", "wake me up at", "schedule an alarm"]),
    ("news_check", ["what's the news", "latest headlines", "news update"]),
    ("time_check", ["what time is it", "current time", "tell me the time"]),
    ("date_check", ["what's today's date", "current date", "tell me the date"])
  ]

  /** A character of the regular-expression class `\w` (letters, digits, underscore; ASCII only here). */
  predicate IsWordChar(c: char)
  {
    'a' <= c <= 'z' || 'A' <= c <= 'Z' || '0' <= c <= '9' || c == '_'
  }

  /**
   * `kw` occurs in `text` at `i` with a word boundary on both sides: the
   * characters just outside the occurrence, where they exist, are not word
   * characters. For a phrase that begins and ends with a word character this
   * is what `\b` before and after it demands.
   */
  predicate WordAt(text: string, kw: string, i: int)
  {
    && OccursAt(text, kw, i)
    && (i == 0 || !IsWordChar(text[i - 1]))
    && (i + |kw| == |text| || !IsWordChar(text[i + |kw|]))
  }

  /** `re.search(rf"\b{kw}\b", text)` succeeds. */
  predicate WordMatch(text: string, kw: string)
  {
    exists i :: 0 <= i <= |text| - |kw| && WordAt(text, kw, i)
  }

  /** The phrase begins and ends with a word character, so `\b` around it is the test `WordAt` makes. */
  predicate WordBounded(kw: string)
  {
    |kw| > 0 && IsWordChar(kw[0]) && IsWordChar(kw[|kw| - 1])
  }

  /** Every trigger phrase of the table is word-bounded. */
  lemma TablePhrasesAreWordBounded()
    ensures forall i, j :: 0 <= i < |IntentTable| && 0 <= j < |IntentTable[i].1| ==> WordBounded(IntentTable[i].1[j])
  {
    forall i | 0 <= i < |IntentTable| ensures PhrasesBounded(IntentTable[i].1) {
      if i < 9 {
        EarlyPhrasesBounded(i);
      } else {
        LatePhrasesBounded(i);
      }
    }
  }

  /** Every phrase of the list is word-bounded. */
  predicate PhrasesBounded(kws: seq<string>)
  {
    forall j :: 0 <= j < |kws| ==> WordBounded(kws[j])
  }

  /** The phrases of the first nine intents are word-bounded. */
  lemma EarlyPhrasesBounded(i: nat)
    requires i < 9
    ensures PhrasesBounded(IntentTable[i].1)
  {
  }

  /** The phrases of the remaining intents are word-bounded. */
  lemma LatePhrasesBounded(i: nat)
    requires 9 <= i < |IntentTable|
    ensures PhrasesBounded(IntentTable[i].1)
  {
  }

  /** A phrase is not found inside a longer word: "hi" does not occur as a word in "this". */
  lemma NoMatchInsideWord()
    ensures !WordMatch("this", "hi")
    ensures WordMatch("hi there", "hi")
  {
    assert WordAt("hi there", "hi", 0);
    forall i | 0 <= i <= 2 ensures !WordAt("this", "hi", i) {
      if i == 1 {
        assert IsWordChar("this"[0]);
      }
    }
  }

  /** One label per phrase of `kws` that occurs as a word in `text`, in phrase order. */
  function PhraseHits(intent: string, kws: seq<string>, text: string): (hits: seq<string>)
    ensures |hits| <= |kws|
    ensures forall h :: h in hits ==> h == intent
    decreases |kws|
  {
    if kws == [] then []
    else PhraseHits(intent, kws[..|kws| - 1], text) + (if WordMatch(text, kws[|kws| - 1]) then [intent] else [])
  }

  /** The label is among the hits exactly when one of the phrases occurs as a word. */
  lemma {:induction false} PhraseHitsMembers(intent: string, kws: seq<string>, text: string)
    ensures intent in PhraseHits(intent, kws, text) <==> exists kw :: kw in kws && WordMatch(text, kw)
    decreases |kws|
  {
    if kws != [] {
      var init := kws[..|kws| - 1];
      PhraseHitsMembers(intent, init, text);
      assert forall kw :: kw in kws <==> kw in init || kw == kws[|kws| - 1];
    }
  }

  /** `detected_intents`: for each entry in table order, one label per matching phrase. */
  function Detected(table: seq<IntentEntry>, text: string): (labels: seq<string>)
    decreases |table|
  {
    if table == [] then []
    else Detected(table[..|table| - 1], text) + PhraseHits(table[|table| - 1].0, table[|table| - 1].1, text)
  }

  /** An intent is detected exactly when some phrase listed under it occurs as a word. */
  lemma {:induction false} DetectedMembers(table: seq<IntentEntry>, text: string, l: string)
    ensures l in Detected(table, text) <==>
              exists i, kw :: 0 <= i < |table| && table[i].0 == l && kw in table[i].1 && WordMatch(text, kw)
    decreases |table|
  {
    if table != [] {
      var init := table[..|table| - 1];
      var last := table[|table| - 1];
      DetectedMembers(init, text, l);
      if exists i, kw :: 0 <= i < |table| && table[i].0 == l && kw in table[i].1 && WordMatch(text, kw) {
        var i, kw :| 0 <= i < |table| && table[i].0 == l && kw in table[i].1 && WordMatch(text, kw);
        if i < |init| {
          assert init[i] == table[i];
        } else {
          PhraseHitsMembers(last.0, last.1, text);
          assert l in PhraseHits(last.0, last.1, text);
        }
      }
      if l in Detected(table, text) {
        if l in Detected(init, text) {
          var i, kw :| 0 <= i < |init| && init[i].0 == l && kw in init[i].1 && WordMatch(text, kw);
          assert table[i] == init[i];
        } else {
          assert l in PhraseHits(last.0, last.1, text);
          PhraseHitsMembers(last.0, last.1, text);
          var kw :| kw in last.1 && WordMatch(text, kw);
          assert table[|table| - 1].0 == l;
        }
      }
    }
  }

  /** `[kw for intent in table.values() for kw in intent]`. */
  function AllPhrases(table: seq<IntentEntry>): (kws: seq<string>)
    ensures forall kw :: kw in kws <==> exists i :: 0 <= i < |table| && kw in table[i].1
    decreases |table|
  {
    if table == [] then []
    else
      var rest := AllPhrases(table[1..]);
      assert forall i :: 1 <= i < |table| ==> table[i] == table[1..][i - 1];
      table[0].1 + rest
  }

  /** The first entry, in table order, that lists phrase `kw`. */
  function OwnerOf(table: seq<IntentEntry>, kw: string): (r: Option<string>)
    ensures r.Some? <==> exists i :: 0 <= i < |table| && kw in table[i].1
    ensures r.Some? ==> exists i :: 0 <= i < |table| && kw in table[i].1 && table[i].0 == r.value
                                    && forall j :: 0 <= j < i ==> kw !in table[j].1
    decreases |table|
  {
    if table == [] then None
    else if kw in table[0].1 then Some(table[0].0)
    else
      var r := OwnerOf(table[1..], kw);
      assert r.Some? <==> exists i :: 0 <= i < |table| && kw in table[i].1 by {
        if exists i :: 0 <= i < |table| && kw in table[i].1 {
          var i :| 0 <= i < |table| && kw in table[i].1;
          assert table[1..][i - 1] == table[i];
        }
      }
      if r.Some? then
        ghost var i :| 0 <= i < |table[1..]| && kw in table[1..][i].1 && table[1..][i].0 == r.value
                       && forall j :: 0 <= j < i ==> kw !in table[1..][j].1;
        assert table[i + 1] == table[1..][i];
        assert forall j :: 0 <= j < i + 1 ==> kw !in table[j].1 by {
          forall j | 0 <= j < i + 1 ensures kw !in table[j].1 {
            if j > 0 { assert table[j] == table[1..][j - 1]; }
          }
        }
        r
      else r
  }

  /**
   * What `recognize_intent(text)` returns: the detected labels when there
   * are any; otherwise the owner of the phrase `extractOne` finds among all
   * phrases, if it scores above 75; otherwise `["unknown"]`.
   */
  function Recognized(table: seq<IntentEntry>, text: string, sim: Similarity): (r: seq<string>)
    ensures |r| > 0
    ensures Detected(table, Lower(text)) == [] ==>
              && |r| == 1
              && (r == [UnknownIntent]
                  || exists kw :: Confident(Lower(text), AllPhrases(table), sim) == Some(kw) && OwnerOf(table, kw) == Some(r[0]))
    ensures Detected(table, Lower(text)) == [] && Confident(Lower(text), AllPhrases(table), sim).None? ==> r == [UnknownIntent]
    ensures Detected(table, Lower(text)) == [] && Confident(Lower(text), AllPhrases(table), sim).Some? ==>
              OwnerOf(table, Confident(Lower(text), AllPhrases(table), sim).value) == Some(r[0])
  {
    var t := Lower(text);
    var d := Detected(table, t);
    if d != [] then d
    else
      match Confident(t, AllPhrases(table), sim)
      case None => [UnknownIntent]
      case Some(kw) =>
        match OwnerOf(table, kw)
        case Some(l) => [l]
        case None => [UnknownIntent]
  }

  /** Recognition never comes back empty, and every intent it gives is an intent of the table or "unknown". */
  lemma RecognizedLabels(table: seq<IntentEntry>, text: string, sim: Similarity)
    ensures |Recognized(table, text, sim)| > 0
    ensures forall l :: l in Recognized(table, text, sim) ==>
              l == UnknownIntent || exists i :: 0 <= i < |table| && table[i].0 == l
  {
    var t := Lower(text);
    var d := Detected(table, t);
    forall l | l in d ensures exists i :: 0 <= i < |table| && table[i].0 == l {
      DetectedMembers(table, t, l);
    }
    if d == [] {
      var best := Confident(t, AllPhrases(table), sim);
      if best.Some? {
        var owner := OwnerOf(table, best.value);
        assert owner.Some?;
      }
    }
  }

  /** When some phrase occurs as a word, the answer is exactly the detected labels and no fuzzy guess is made. */
  lemma WordHitsWin(table: seq<IntentEntry>, text: string, sim: Similarity, i: nat, kw: string)
    requires i < |table| && kw in table[i].1 && WordMatch(Lower(text), kw)
    ensures Recognized(table, text, sim) == Detected(table, Lower(text))
    ensures table[i].0 in Recognized(table, text, sim)
  {
    DetectedMembers(table, Lower(text), table[i].0);
  }

  /** Recognition ignores case: lower-casing the input first changes nothing. */
  lemma RecognitionIgnoresCase(table: seq<IntentEntry>, text: string, sim: Similarity)
    ensures Recognized(table, Lower(text), sim) == Recognized(table, text, sim)
  {
    LowerIdempotent(text);
  }

  class IntentRecognizer {
    /** `self.intents`; never written after construction. */
    const intents: seq<IntentEntry>

    constructor()
      ensures intents == IntentTable
    {
      intents := IntentTable;
    }

    /**
     * `recognize_intent(text)`: the nested loops over entries and phrases,
     * then, when nothing was found, the fuzzy guess and the loop that finds
     * the guessed phrase's owner.
     */
    method RecognizeIntent(text: string, sim: Similarity) returns (labels: seq<string>)
      ensures labels == Recognized(intents, text, sim)
      ensures |labels| > 0
    {
      RecognizedLabels(intents, text, sim);
      var t := Lower(text);
      var detected := DetectIntents(t);
      if detected != [] {
        return detected;
      }
      var best := Confident(t, AllPhrases(intents), sim);
      if best.Some? {
        var kw := best.value;
        var n := 0;
        while n < |intents|
          invariant 0 <= n <= |intents|
          invariant OwnerOf(intents[n..], kw) == OwnerOf(intents, kw)
        {
          if kw in intents[n].1 {
            return [intents[n].0];
          }
          assert intents[n..][1..] == intents[n + 1..];
          n := n + 1;
        }
      }
      return [UnknownIntent];
    }

    /** The nested loops of `recognize_intent`: each entry in order, each of its phrases in order. */
    method DetectIntents(t: string) returns (detected: seq<string>)
      ensures detected == Detected(intents, t)
    {
      detected := [];
      var i := 0;
      while i < |intents|
        invariant 0 <= i <= |intents|
        invariant detected == Detected(intents[..i], t)
      {
        var (intent, keywords) := intents[i];
        var j := 0;
        while j < |keywords|
          invariant 0 <= j <= |keywords|
          invariant detected == Detected(intents[..i], t) + PhraseHits(intent, keywords[..j], t)
        {
          if WordMatch(t, keywords[j]) {
            detected := detected + [intent];
          }
          assert keywords[..j + 1][..j] == keywords[..j];
          assert PhraseHits(intent, keywords[..j + 1], t)
              == PhraseHits(intent, keywords[..j], t) + (if WordMatch(t, keywords[j]) then [intent] else []);
          j := j + 1;
        }
        assert keywords[..|keywords|] == keywords;
        assert intents[..i + 1][..i] == intents[..i];
        assert Detected(intents[..i + 1], t) == Detected(intents[..i], t) + PhraseHits(intent, keywords, t);
        i := i + 1;
      }
      assert intents[..|intents|] == intents;
    }
  }
}
