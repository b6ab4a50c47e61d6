/**
 * The response generator: a fixed table of answer templates per intent, the
 * `{name}` placeholder, and the generator that answers a text, rewards the
 * intent it answered and records the exchange in the conversation history.
 */
module Responses {
  import opened Wrappers
  import opened PyText
  import opened PySeq
  import opened Dicts
  import opened Fuzzy
  import opened FactTables
  import opened Reinforcement
  import opened Memory
  import opened Intents

  const NameField := "{name}"
  const DefaultUserName := "User"
  const NotSureMessage := "I'm not sure how to respond to that. Would you like me to learn this?"
  /** The feedback detail recorded with each answer is this prefix followed by the answer. */
  const GeneratedPrefix := "Generated response: "

  /** `self.responses`: the answer templates of each intent. */
  const ResponseTemplates: map<string, seq<string>> := map[
    "greeting" := ["Hello, {name}! How can I assist you?", "Hey {name}, what's up?", "Hi {name}! What can I do for you?"],
    "farewell" := ["Goodbye, {name}! Have a great day!", "See you later, {name}!", "Bye {name}, stay safe!"],
    "music_play" := ["Playing your favorite music!", "Starting playback now.", "Enjoy your music!"],
    "music_stop" := ["Stopping the music.", "Music playback paused.", "Music stopped."],
    "movie_play" := ["Starting the movie now!", "Enjoy your film!", "Playing your selected movie."],
    "movie_stop" := ["Pausing the movie.", "Movie playback stopped.", "Movie paused."],
    "game_launch" := ["Launching your game!", "Starting the game now!", "Game is loading.", "Have fun gaming!"],
    "game_close" := ["Closing the game.", "Game session ended.", "Game is now closed."],
    "reminder_set" := ["Reminder set successfully!", "I will remind you on time.", "Your reminder is scheduled."],
    "query" := ["Let me look that up for you.", "Here’s what I found.", "I can help with that. Let’s see..."],
    "weather_check" := ["Fetching the latest weather update.", "Here’s today’s weather forecast.", "Checking the weather now."],
    "joke_telling" := ["Why don’t scientists trust atoms? Because they make up everything!", "Want to hear a joke? You! Just kidding!", "Here's a joke: I told my wife she should embrace her mistakes. She gave me a hug."],
    "note_taking" := ["Note saved successfully!", "I’ve recorded your note.", "Your note has been stored."],
    "alarm_set" := ["Alarm set successfully!", "Your alarm is scheduled.", "I will wake you up on time."],
    "news_check" := ["Fetching the latest news for you.", "Here’s what’s happening in the world.", "Getting today’s headlines."],
    "time_check" := ["Checking the current time.", "The time is now displayed on your screen.", "Here’s the current time."],
    "date_check" := ["Today's date is displayed.", "Checking the current date.", "Here’s today’s date for you."]
  ]

  /** The intents that have templates. */
  const TemplateIntents: set<string> := {"greeting", "farewell", "music_play", "music_stop", "movie_play", "movie_stop", "game_launch", "game_close", "reminder_set", "query", "weather_check", "joke_telling", "note_taking", "alarm_set", "news_check", "time_check", "date_check"}

  /** Every intent has at least one template. */
  lemma TemplatesNonEmpty()
    ensures forall k :: k in ResponseTemplates ==> |ResponseTemplates[k]| > 0
  {
  }

  /** The templates are keyed by exactly the listed intents, and "unknown" is not one of them. */
  lemma TemplateKeys()
    ensures ResponseTemplates.Keys == TemplateIntents
    ensures UnknownIntent !in ResponseTemplates
  {
  }

  /** Each intent of the first half of the list is a recognizer intent. */
  lemma EarlyIntentsInTable(k: string)
    requires k in {"greeting", "farewell", "music_play", "music_stop", "movie_play", "movie_stop", "game_launch", "game_close", "reminder_set"}
    ensures exists i :: 0 <= i < |IntentTable| && IntentTable[i].0 == k
  {
    if k == "greeting" { assert IntentTable[0].0 == k; }
    else if k == "farewell" { assert IntentTable[1].0 == k; }
    else if k == "music_play" { assert IntentTable[2].0 == k; }
    else if k == "music_stop" { assert IntentTable[3].0 == k; }
    else if k == "movie_play" { assert IntentTable[4].0 == k; }
    else if k == "movie_stop" { assert IntentTable[5].0 == k; }
    else if k == "game_launch" { assert IntentTable[6].0 == k; }
    else if k == "game_close" { assert IntentTable[7].0 == k; }
    else { assert IntentTable[8].0 == k; }
  }

  /** Each intent of the second half of the list is a recognizer intent. */
  lemma LateIntentsInTable(k: string)
    requires k in {"query", "weather_check", "joke_telling", "note_taking", "alarm_set", "news_check", "time_check", "date_check"}
    ensures exists i :: 0 <= i < |IntentTable| && IntentTable[i].0 == k
  {
    if k == "query" { assert IntentTable[9].0 == k; }
    else if k == "weather_check" { assert IntentTable[10].0 == k; }
    else if k == "joke_telling" { assert IntentTable[11].0 == k; }
    else if k == "note_taking" { assert IntentTable[12].0 == k; }
    else if k == "alarm_set" { assert IntentTable[13].0 == k; }
    else if k == "news_check" { assert IntentTable[14].0 == k; }
    else if k == "time_check" { assert IntentTable[15].0 == k; }
    else { assert IntentTable[16].0 == k; }
  }

  /** Every intent of the recognizer's table has templates. */
  lemma TableIntentsHaveTemplates()
    ensures forall i :: 0 <= i < |IntentTable| ==> IntentTable[i].0 in TemplateIntents
  {
  }

  /** The template intents are exactly the recognizer's intents. */
  lemma TemplateIntentsAreTableIntents()
    ensures forall k :: k in TemplateIntents <==> exists i :: 0 <= i < |IntentTable| && IntentTable[i].0 == k
  {
    TableIntentsHaveTemplates();
    forall k | k in TemplateIntents
      ensures exists i :: 0 <= i < |IntentTable| && IntentTable[i].0 == k
    {
      if k in {"greeting", "farewell", "music_play", "music_stop", "movie_play", "movie_stop", "game_launch", "game_close", "reminder_set"} {
        EarlyIntentsInTable(k);
      } else {
        LateIntentsInTable(k);
      }
    }
  }

  /** A templates table of the generator's shape: the listed intents, each with at least one template. */
  predicate TemplatesShaped(templates: map<string, seq<string>>)
  {
    && templates.Keys == TemplateIntents
    && forall k :: k in templates ==> |templates[k]| > 0
  }

  /** The generator's own table has that shape. */
  lemma ResponseTemplatesShaped()
    ensures TemplatesShaped(ResponseTemplates)
  {
    TemplatesNonEmpty();
    TemplateKeys();
  }

  /**
   * Every occurrence of `pat` in `s`, scanning left to right without
   * overlaps, replaced by `rep`: the `.format(name=...)` the templates need.
   */
  function ReplaceAll(s: string, pat: string, rep: string): string
    requires |pat| > 0
    decreases |s|
  {
    if |s| < |pat| then s
    else if s[..|pat|] == pat then rep + ReplaceAll(s[|pat|..], pat, rep)
    else [s[0]] + ReplaceAll(s[1..], pat, rep)
  }

  /** A text without the placeholder comes back unchanged. */
  lemma {:induction false} ReplaceAbsent(s: string, pat: string, rep: string)
    requires |pat| > 0 && !Contains(s, pat)
    ensures ReplaceAll(s, pat, rep) == s
    decreases |s|
  {
    if |s| >= |pat| {
      assert !OccursAt(s, pat, 0);
      assert !Contains(s[1..], pat) by {
        forall i | 0 <= i <= |s[1..]| - |pat| ensures !OccursAt(s[1..], pat, i) {
          assert s[1..][i..i + |pat|] == s[i + 1..i + 1 + |pat|];
          assert !OccursAt(s, pat, i + 1);
        }
      }
      ReplaceAbsent(s[1..], pat, rep);
    }
  }

  /** Replacing the placeholder by itself changes nothing. */
  lemma {:induction false} ReplaceBySelf(s: string, pat: string)
    requires |pat| > 0
    ensures ReplaceAll(s, pat, pat) == s
    decreases |s|
  {
    if |s| >= |pat| {
      if s[..|pat|] == pat {
        ReplaceBySelf(s[|pat|..], pat);
        assert s == s[..|pat|] + s[|pat|..];
      } else {
        ReplaceBySelf(s[1..], pat);
        assert s == [s[0]] + s[1..];
      }
    }
  }

  /** A template with the user's name put in. */
  function Fill(template: string, userName: string): string
  {
    ReplaceAll(template, NameField, userName)
  }

  /** The answer for `intent` from `templates` with template choice `pick`, if the intent has templates. */
  function Respond(templates: map<string, seq<string>>, intent: string, userName: string, pick: nat): (r: Option<string>)
    requires intent in templates ==> |templates[intent]| > 0
    ensures r.Some? <==> intent in templates
    ensures r.Some? ==> exists t :: t in templates[intent] && r.value == Fill(t, userName)
  {
    if intent in templates then
      var t := templates[intent][pick % |templates[intent]|];
      Some(Fill(t, userName))
    else None
  }

  /** Every label recognition gives is either "unknown" or an intent with templates. */
  lemma RecognizedIntentsHaveTemplates(text: string, sim: Similarity)
    ensures forall l :: l in Recognized(IntentTable, text, sim) ==> l == UnknownIntent || l in ResponseTemplates
  {
    RecognizedLabels(IntentTable, text, sim);
    TableIntentsHaveTemplates();
    TemplateKeys();
  }

  /** A value used as a dictionary key: a string, or a list of strings. */
  datatype PyKey = Str(s: string) | Labels(labels: seq<string>)

  const UnhashableList := "TypeError: unhashable type: 'list'"
  const EmptyChoice := "IndexError: Cannot choose from an empty sequence"

  /**
   * `key in d` for a dictionary with string keys: a string is looked up; a
   * list cannot be hashed, so the test raises `TypeError`.
   */
  function DictHas(d: map<string, seq<string>>, key: PyKey): (r: Outcome<bool>)
    ensures r.Raised? <==> key.Labels?
    ensures r.Raised? ==> r.error == UnhashableList
    ensures r.Returned? ==> (r.value <==> key.s in d)
  {
    match key
    case Str(s) => Returned(s in d)
    case Labels(_) => Raised(UnhashableList)
  }

  /**
   * The answer part of `generate_response` as written, for whatever
   * `intent` holds: the membership test, then `random.choice` of the
   * templates (which raises on an empty list) with the name put in, or the
   * apology when the test says no.
   */
  function AnswerAsWritten(templates: map<string, seq<string>>, intent: PyKey, userName: string, pick: nat)
    : (r: Outcome<string>)
    ensures intent.Labels? ==> r == Raised(UnhashableList)
    ensures intent.Str? && intent.s !in templates ==> r == Returned(NotSureMessage)
    ensures intent.Str? && intent.s in templates && templates[intent.s] == [] ==> r == Raised(EmptyChoice)
  {
    match DictHas(templates, intent)
    case Raised(e) => Raised(e)
    case Returned(found) =>
      if !found then Returned(NotSureMessage)
      else if templates[intent.s] == [] then Raised(EmptyChoice)
      else Returned(Fill(templates[intent.s][pick % |templates[intent.s]|], userName))
  }

  /**
   * `generate_response` as written: `intent` is the whole list that
   * `recognize_intent` returns.
   */
  function GenerateResponseAsWritten(templates: map<string, seq<string>>, text: string, sim: Similarity, userName: string, pick: nat)
    : (r: Outcome<string>)
  {
    AnswerAsWritten(templates, Labels(Recognized(IntentTable, text, sim)), userName, pick)
  }

  /**
   * Looked up with a single label, as intended, the as-written answer is the
   * one `Respond` gives: the filled template for an intent with templates, the
   * apology for any other.
   */
  lemma StringKeyAnswers(templates: map<string, seq<string>>, intent: string, userName: string, pick: nat)
    requires intent in templates ==> |templates[intent]| > 0
    ensures DictHas(templates, Str(intent)) == Returned(intent in templates)
    ensures Respond(templates, intent, userName, pick).Some? ==>
              AnswerAsWritten(templates, Str(intent), userName, pick)
              == Returned(Respond(templates, intent, userName, pick).value)
    ensures Respond(templates, intent, userName, pick).None? ==>
              AnswerAsWritten(templates, Str(intent), userName, pick) == Returned(NotSureMessage)
  {
  }

  /**
   * As written, `generate_response` raises for every text and every template
   * table, even for a text whose single recognized intent has templates
   * (for instance "greeting").
   */
  lemma AsWrittenNeverAnswers(templates: map<string, seq<string>>, text: string, sim: Similarity, userName: string, pick: nat)
    ensures GenerateResponseAsWritten(templates, text, sim, userName, pick) == Raised(UnhashableList)
    ensures AnswerAsWritten(templates, Labels(["greeting"]), userName, pick).Raised?
  {
  }

  /** Looking the label "greeting" up by itself, as intended, finds an answer. */
  lemma GreetingIsAnswered(userName: string, pick: nat)
    ensures "greeting" in ResponseTemplates
    ensures Respond(ResponseTemplates, "greeting", userName, pick).Some?
  {
    ResponseTemplatesShaped();
  }

  class ResponseGenerator {
    /** The generator's own memory, whose history records each answered exchange. */
    const memory: MemoryModule
    /** The generator's own scorer, rewarded for each answered intent. */
    const reinforcement: ReinforcementLearning
    const recognizer: IntentRecognizer
    /** `self.responses`, set once to the template table. */
    const responses: map<string, seq<string>>

    ghost predicate Valid()
      reads this, memory, memory.reinforcement, reinforcement
    {
      && memory.Valid() && reinforcement.Valid()
      && reinforcement != memory.reinforcement
      && recognizer.intents == IntentTable
      && TemplatesShaped(responses)
    }

    /** A generator with a fresh memory, scorer and recognizer over the stored state. */
    constructor(storedFacts: FactTable, storedTurns: seq<Turn>, storedScores: Dict<ActionRecord>, memoryScores: Dict<ActionRecord>)
      requires TableValid(storedFacts) && storedScores.Valid() && memoryScores.Valid()
      ensures Valid() && fresh(memory) && fresh(reinforcement) && fresh(memory.reinforcement)
      ensures memory.memory == storedFacts && memory.conversationHistory == Window(storedTurns, Memory.DefaultHistoryLimit)
      ensures reinforcement.learningData == storedScores && reinforcement.recentActions == []
      ensures responses == ResponseTemplates
    {
      memory := new MemoryModule(storedFacts, storedTurns, Memory.DefaultHistoryLimit, memoryScores);
      reinforcement := new ReinforcementLearning(storedScores, Reinforcement.DefaultHistoryLimit, DefaultDecayFactor, DefaultMinConfidence);
      recognizer := new IntentRecognizer();
      responses := ResponseTemplates;
      ResponseTemplatesShaped();
    }

    /**
     * `generate_response(text, user_name)`, answering the first recognized
     * label. With templates for it: the answer is template number
     * `pick % count` with the name put in, the scorer gets one reward of 1
     * for the intent with the answer as detail, and the exchange enters the
     * history. Without: the fixed apology, and nothing changes.
     */
    method GenerateResponse(text: string, userName: string, sim: Similarity, pick: nat) returns (response: string)
      requires Valid()
      modifies reinforcement, memory
      ensures Valid()
      ensures var intent := Recognized(IntentTable, text, sim)[0];
              && (Respond(responses, intent, userName, pick).Some? ==>
                    && response == Respond(responses, intent, userName, pick).value
                    && reinforcement.FedOnce(intent, 1.0, GeneratedPrefix + response)
                    && memory.conversationHistory
                       == Window(old(memory.conversationHistory) + [Turn(text, response)], memory.historyLimit)
                    && memory.memory == old(memory.memory))
              && (Respond(responses, intent, userName, pick).None? ==>
                    response == NotSureMessage && unchanged(reinforcement) && unchanged(memory))
    {
      var labels := recognizer.RecognizeIntent(text, sim);
      var intent := labels[0];
      if intent in responses {
        var templates := responses[intent];
        response := Fill(templates[pick % |templates|], userName);
        reinforcement.ProvideFeedback(intent, 1.0, GeneratedPrefix + response);
        memory.AddToHistory(text, response);
      } else {
        response := NotSureMessage;
      }
    }
  }
}
