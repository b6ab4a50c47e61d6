# A verified model of the avsais assistant's learning core

avsais is a personal voice assistant written in Python. Its core is an
adaptive intent-and-knowledge engine with these parts:

- an **intent recognizer**: a fixed table of phrases, whole-word matching, and a fuzzy fallback;
- a **response generator** that answers from per-intent templates;
- a **reinforcement scorer** that keeps, for each action, a count, a decayed reward sum and a detail history, plus a bounded window of recent (action, reward) pairs;
- a **memory module**: a `category -> key -> [values]` store with exact and fuzzy recall, and a bounded conversation history;
- a **knowledge base** whose search escalates from substring hits, to fuzzy category and key matches, to an outside lookup;
- a **learning model** that records the responses and feedback for each user input.

The same project models the assistant's bookkeeping stores:

- reminders, with natural-language relative times and recurring reminders;
- the daily diary and its e-mail;
- the conversation log and its search;
- the system event log;
- the log manager's 30-day retention clean-up;
- the text helpers.

The Dafny model follows the source's own shape. Objects whose methods update
fields in place are classes:

- `ReinforcementLearning`, `MemoryModule`, `KnowledgeBase`, `ResponseGenerator`, `LearningModel`;
- `ReminderManager`, `DailyDiary`, `ConversationLog`, `SystemLogger`.

Each of these methods is proved against a specification function of the old
state. Pure computations are functions with lemmas:

- scoring, suggestion and pruning;
- parsing relative times;
- searching, filtering and text cleaning.

The loops of the source (intent detection, the knowledge search's nested
loops, the reminder check, conversation retrieval, log clean-up) are `while`
loops with invariants.

The following are parameters rather than modelled:

- the clock: minutes for reminders, seconds for log retention, date strings for the diary and logs;
- rendering and parsing of timestamps;
- the random draw, as an index `pick`;
- the fuzzy similarity score, as `sim`;
- the web lookup, as `fetch`;
- the disk.

Python dictionaries keep insertion order, and `max` and `extractOne` both
depend on it. So every dictionary is modelled as a key order together with a
map (`Dicts.Dict`).

Two behaviours of the scorer are easy to misread, and the model follows the code in both:

- **Order of reward and decay.** `provide_feedback` (`reinforcement_learning.py:32-36`) adds the new reward to the sum first and then multiplies the whole sum by the decay factor. So the newest reward is already decayed once (`Reinforcement.NewRewardIsDecayed`); the decay is not applied to the old sum alone before the add.
- **Prune boundary.** `remove_low_relevance_actions` (`reinforcement_learning.py:79-80`) keeps every action whose sum is `>=` the threshold, so an action exactly at the threshold stays; only sums strictly below it are removed.

## Model

| member | source | states |
|---|---|---|
| Reinforcement.Fed | modules/nlp/reinforcement_learning.py:31-36 | Definition of one report applied to a record: count plus one, the reward added before the sum is multiplied by the decay, the detail appended. `Feedback` and the lemmas below state its effect. |
| Reinforcement.Feedback | modules/nlp/reinforcement_learning.py:28-36 | One report changes only the reported action's record: its count goes up by one, the reward is added and the new sum is decayed, and the detail is appended. A new action is created at the end of the key order. Every other action keeps its record. |
| Reinforcement.FeedbackCountsReports | modules/nlp/reinforcement_learning.py:28-33 | After k reports about an action, its count has grown by exactly k. Its history has gained exactly the k details, in the order they were given. |
| Reinforcement.NewActionAfterReports | modules/nlp/reinforcement_learning.py:28-33 | An action first seen in k reports has count k, and its history is exactly their details. |
| Reinforcement.NewRewardIsDecayed | modules/nlp/reinforcement_learning.py:32-36 | The new sum is `old * d + reward * d`: the decay is applied after the add, so even the newest reward is scaled. |
| Reinforcement.ZeroRewardsScaleSum | modules/nlp/reinforcement_learning.py:32-36 | n reports of reward 0 multiply the decayed sum by d to the power n. |
| Reinforcement.ZeroRewardsShrinkSum | modules/nlp/reinforcement_learning.py:35-36 | For 0 < d < 1, reports of reward 0 move a non-zero sum strictly towards 0 and never flip its sign. Older reinforcement loses weight. |
| Reinforcement.RecentRewards | modules/nlp/reinforcement_learning.py:53-54 | The action's recent rewards are empty exactly when no pair in the window names the action. This is the `action in dict(recent_actions)` test. |
| Reinforcement.RecentWeight | modules/nlp/reinforcement_learning.py:55 | The recency weight (the action's pairs over the window size) lies in (0, 1]. |
| Reinforcement.ActionScore | modules/nlp/reinforcement_learning.py:48-49 | An unknown action, or one with count 0, scores 0. |
| Reinforcement.BaseScore | modules/nlp/reinforcement_learning.py:51 | Definition of the all-time average, the decayed sum over the count. |
| Reinforcement.RecentAverage | modules/nlp/reinforcement_learning.py:56 | Definition of the average of the action's rewards in the recent window. |
| Reinforcement.ScoreWithoutRecent | modules/nlp/reinforcement_learning.py:51-58 | Unweighted, or with no recent pair for the action, the score is the all-time average: decayed sum over count. |
| Reinforcement.WeightedScoreBetween | modules/nlp/reinforcement_learning.py:53-56 | A weighted score lies between the all-time average and the recent average. |
| Reinforcement.FullWindowScoreIsRecentAverage | modules/nlp/reinforcement_learning.py:53-56 | When every pair of a full window is the action's, the score is exactly its recent average. |
| Reinforcement.SuggestBestAction | modules/nlp/reinforcement_learning.py:60-73 | The "no data" message comes back exactly when the table is empty. Otherwise the answer is a stored action whose score is maximal and at least the confidence floor, together with that score. No action before it in insertion order reaches that score, so of equal best scores the first one wins, as `max` picks it. The "not confident" message comes back only when every action scores below the floor. |
| PySeq.ArgMax | modules/nlp/reinforcement_learning.py:67 | `max(..., key=...)` gives a maximal element, and no earlier element reaches its key: the first of equal maxima wins. |
| Reinforcement.RelevantKeys | modules/nlp/reinforcement_learning.py:79-80 | The surviving keys: a key is listed exactly when it was listed and its sum is at least the threshold, and no key is listed twice when none was before. |
| Reinforcement.RelevantKeysInOrder | modules/nlp/reinforcement_learning.py:79-80 | The surviving keys come in the order the table listed them. |
| Reinforcement.KeepRelevant | modules/nlp/reinforcement_learning.py:79-80 | After the prune, exactly the actions whose sum is at least the threshold remain, with their records untouched. The key order is `RelevantKeys` of the old order, so the survivors keep their relative order, as a dict comprehension keeps insertion order. |
| Reinforcement.ActionHistory | modules/nlp/reinforcement_learning.py:83-89 | The stored detail history, or the one-message list for an unknown action. |
| Reinforcement.HistoryAfterFeedback | modules/nlp/reinforcement_learning.py:28-33 | After a report, the action's history is its earlier history (empty for a new action, not the "no history" message) followed by the report's detail. |
| Reinforcement.ReinforcementLearning.constructor | modules/nlp/reinforcement_learning.py:6-12 | The scorer starts with the loaded table, its parameters, and an empty recent window. |
| Reinforcement.ReinforcementLearning.FedOnce | modules/nlp/reinforcement_learning.py:28-39 | Definition of the effect of one report: the table becomes `Feedback(old table, ...)`, and the pair enters the bounded window. The contracts of the methods that report feedback are stated with it. |
| Reinforcement.ReinforcementLearning.ProvideFeedback | modules/nlp/reinforcement_learning.py:24-39 | The table becomes `Feedback(old table, ...)`. The (action, reward) pair enters the window, evicting the oldest pair when the window is full. |
| PySeq.DequeAppend | modules/nlp/reinforcement_learning.py:39 | Appending to a bounded deque leaves the last `maxlen` elements of the old contents plus the new one. |
| PySeq.DequeAppendAllIsWindow | modules/nlp/memory.py:12 | A deque of `maxlen` n fed a sequence one element at a time holds the last n elements of everything it has seen, oldest first. |
| PySeq.Suffix | modules/nlp/memory.py:54 | `s[-n:]` is a suffix of `s`: of length min(n, size) for n >= 1, the whole list for n = 0, and the list without its first -n elements for negative n. |
| PySeq.Window | modules/nlp/memory.py:12 | What a `deque(maxlen=n)` built from `s` holds: the last min(size, n) elements of `s`. |
| Reinforcement.ReinforcementLearning.RemoveLowRelevanceActions | modules/nlp/reinforcement_learning.py:75-81 | The table becomes `KeepRelevant(old table, threshold)`, and the recent window is untouched. |
| Fuzzy.ExtractOne | modules/nlp/intent_recognizer.py:39 | Gives None exactly for an empty candidate list. Otherwise it gives a candidate with the highest score, and no earlier candidate reaches that score. |
| Fuzzy.ExtractOneIsFirst | modules/nlp/intent_recognizer.py:39 | Every candidate before the first position of the chosen one scores strictly less than it. |
| Fuzzy.Confident | modules/nlp/knowledge_base.py:55-56 | A candidate is accepted only if it scores above 75 and no candidate scores higher, and no candidate before its first position reaches its score: of equal best scores, the first one wins. None means no candidate scores above 75. |
| FactTables.Append | modules/nlp/memory.py:26-31 | Create-or-append: the list under (category, key) gains the value at its end. A missing category is created at the end of the order. Every other list is unchanged. |
| FactTables.AppendInSteps | modules/nlp/knowledge_base.py:25-29 | Creating the category, then the key, then appending is the same as `Append`. |
| FactTables.AllKeysMembers | modules/nlp/knowledge_base.py:59 | A key is in the flattened key list exactly when some category holds it. |
| FactTables.FirstCategoryWith | modules/nlp/knowledge_base.py:62-64 | The first category, in insertion order, that holds the key. None only when no category holds it. |
| FactTables.AppendKeepsFactsWithin | modules/nlp/knowledge_base.py:29 | Appending a fact of at most n characters keeps every stored fact within n characters. |
| FactTables.AppendKeepsNoEmptyLists | modules/nlp/knowledge_base.py:27-29 | Appending keeps every stored list non-empty. |
| Memory.FuzzyRecall | modules/nlp/memory.py:39-47 | A fuzzy answer is the list of a non-empty stored key that scores above 75 and highest overall, with no key before its first position in the flattened key list reaching its score (of equal best scores, the first wins), taken from the first category holding it. The "don't remember" line comes back only when no key scores above 75 or the best key is empty. |
| Memory.FuzzyRecallFindsSimilarKey | modules/nlp/memory.py:39-45 | When some stored key scores above 75 (and no key is empty), fuzzy recall answers with stored data. |
| Memory.MemoryModule.constructor | modules/nlp/memory.py:8-13 | The history starts as the last `history_limit` of the stored turns. The memory starts as the loaded table. |
| Memory.MemoryModule.Remember | modules/nlp/memory.py:26-32 | The memory becomes `Append(old, category, key, value)`, and the history is unchanged. |
| Memory.MemoryModule.Recall | modules/nlp/memory.py:34-47 | An exact hit returns the stored list and feeds the scorer exactly one reward of 1 for the key. A miss returns `FuzzyRecall` and leaves the scorer unchanged. |
| Memory.MemoryModule.AddToHistory | modules/nlp/memory.py:49-51 | The history becomes the last `history_limit` turns of the old history plus the new turn. The memory is unchanged. |
| Memory.MemoryModule.GetHistory | modules/nlp/memory.py:53-54 | The last `last_n` turns, oldest first: a suffix of the history of length min(n, size). |
| Memory.LatestTurnIsLast | modules/nlp/memory.py:49-54 | With a positive limit, the turn just added is what `get_history(1)` returns. |
| Knowledge.MatchingKeys | modules/nlp/knowledge_base.py:46-48 | Exactly the keys that match the query, either in the lowered key or in a lowered value, with their lists, in key order. |
| Knowledge.CategoryHits | modules/nlp/knowledge_base.py:43-48 | A category whose lowered name contains the query is reported whole. Otherwise only its matching keys are reported. It is reported at all exactly when one of the two holds. |
| Knowledge.SubstringHits | modules/nlp/knowledge_base.py:43-48 | The first tier reports exactly the categories with hits, in category order, each with `CategoryHits`. |
| Knowledge.AllSubstringHits | modules/nlp/knowledge_base.py:40-48 | Definition of the first tier over every category. `MatchingKeyIsReported` and `SearchFindsAddedFact` state what it reports. |
| Knowledge.MatchingKeyIsReported | modules/nlp/knowledge_base.py:46-51 | A key that matches the query is reported with its whole list. |
| Knowledge.SearchFindsAddedFact | modules/nlp/knowledge_base.py:38-51 | After `add_fact(c, k, v)`, a search for k has first-tier hits and reports (c, k) with the old list plus the truncated v. |
| Knowledge.AddHits | modules/nlp/knowledge_base.py:43-48 | Adding one category's hits creates that category's entry exactly when it has hits, with `CategoryHits` as its value. Every other category is unchanged. |
| Knowledge.SetDefaultPut | modules/nlp/knowledge_base.py:48 | `setdefault(c, {})[k] = vs` keeps the table well formed and leaves `vs` under (c, k). |
| Knowledge.Gathered | modules/nlp/knowledge_base.py:44-48 | What the inner loop has built, key by key, stays a well-formed table. |
| Knowledge.CollectMatched | modules/nlp/knowledge_base.py:46-48 | Setting a matching key in the category's entry extends the matching keys gathered so far by that key. |
| Knowledge.CollectUnmatched | modules/nlp/knowledge_base.py:46-47 | A key that does not match changes nothing. |
| Knowledge.GatheredIsCollected | modules/nlp/knowledge_base.py:44-48 | Key by key, the loop's writes give the whole category when its name matches. Otherwise they give the keys matched so far, with no entry while there are none. |
| Knowledge.GatheredAll | modules/nlp/knowledge_base.py:44-48 | After the last key, what the loop built is exactly that category's hits added to the earlier results. |
| Knowledge.GatherCategory | modules/nlp/knowledge_base.py:44-48 | One pass of the outer loop adds exactly that category's hits. |
| PyText.Lower | modules/utils/helper_functions.py:45 | `s.lower()` keeps the length and lower-cases each character on its own. |
| PyText.Contains | modules/nlp/knowledge_base.py:44 | Definition of `needle in hay` for strings: some position where the needle occurs. |
| PyText.Truncate | modules/nlp/knowledge_base.py:29 | `value[:500]` is a prefix of at most 500 characters. It is the whole value when the value is no longer than that. |
| Knowledge.KnowledgeBase.constructor | modules/nlp/knowledge_base.py:8-12 | The store starts as the loaded table, with a fresh scorer. |
| Knowledge.KnowledgeBase.AddFact | modules/nlp/knowledge_base.py:24-30 | The store becomes `Append(old, category, key, value[:500])`. It keeps "every fact within 500 characters" and "no empty list". |
| Knowledge.KnowledgeBase.GetFact | modules/nlp/knowledge_base.py:32-36 | A hit returns the list and feeds the scorer one reward of 1 for the key. A miss returns the one-line apology and feeds nothing. |
| Knowledge.KnowledgeBase.SearchKnowledge | modules/nlp/knowledge_base.py:38-69 | The tiers run in order, each only when the earlier ones found nothing: substring hits; the best category if it scores above 75; the best key, under its first category, if it scores above 75 (this tier alone feeds the scorer); the outside answer or the fixed message. |
| Knowledge.KnowledgeBase.CollectSubstringHits | modules/nlp/knowledge_base.py:40-48 | The nested loops compute exactly the first tier's hits over the whole store. |
| Knowledge.KnowledgeBase.FirstHolder | modules/nlp/knowledge_base.py:62-63 | The loop finds the first category, in insertion order, that holds the key. |
| Intents.TablePhrasesAreWordBounded | modules/nlp/intent_recognizer.py:7-25 | Every trigger phrase starts and ends with a word character, so `\b...\b` is a whole-word test. |
| Intents.EarlyPhrasesBounded | modules/nlp/intent_recognizer.py:8-16 | The phrases of the first nine intents are word-bounded. |
| Intents.LatePhrasesBounded | modules/nlp/intent_recognizer.py:17-24 | The phrases of the remaining intents are word-bounded. |
| Intents.Recognized | modules/nlp/intent_recognizer.py:27-47 | Recognition always gives at least one label. Without a whole-word hit it gives exactly one label: the first entry listing the phrase `extractOne` picks when that scores above 75, and "unknown" when nothing does. |
| Intents.WordMatch | modules/nlp/intent_recognizer.py:33 | Definition of `re.search(rf"\b{kw}\b", text)`: the phrase occurs with no word character right before or after it. `NoMatchInsideWord` shows it on examples. |
| Intents.NoMatchInsideWord | modules/nlp/intent_recognizer.py:33 | "hi" is not found inside "this", and it is found in "hi there". |
| Intents.PhraseHits | modules/nlp/intent_recognizer.py:32-34 | At most one label per phrase, and every label is the entry's own. |
| Intents.PhraseHitsMembers | modules/nlp/intent_recognizer.py:32-34 | The label is among an entry's hits exactly when one of its phrases occurs as a whole word. |
| Intents.Detected | modules/nlp/intent_recognizer.py:29-34 | Definition of `detected_intents`: one label per matching phrase, in table order. `DetectedMembers` states which labels appear. |
| Intents.DetectedMembers | modules/nlp/intent_recognizer.py:31-34 | An intent is detected exactly when some phrase listed under it occurs as a whole word. |
| Intents.AllPhrases | modules/nlp/intent_recognizer.py:38 | The flattened phrase list holds exactly the phrases of all entries. |
| Intents.OwnerOf | modules/nlp/intent_recognizer.py:41-43 | The first entry, in table order, listing the phrase. None only when no entry lists it. |
| Intents.RecognizedLabels | modules/nlp/intent_recognizer.py:27-47 | Recognition never comes back empty. Every label is a table intent or "unknown". |
| Intents.WordHitsWin | modules/nlp/intent_recognizer.py:36-47 | When any phrase occurs as a word, the answer is exactly the detected labels (it includes that phrase's intent), and no fuzzy guess is made. |
| Intents.RecognitionIgnoresCase | modules/nlp/intent_recognizer.py:28 | Lower-casing the input first changes nothing. |
| Intents.IntentRecognizer.constructor | modules/nlp/intent_recognizer.py:6-25 | The recognizer holds the fixed intent table. |
| Intents.IntentRecognizer.RecognizeIntent | modules/nlp/intent_recognizer.py:27-47 | The loops compute `Recognized`: the detected labels; else the fuzzy guess's owner if it scores above 75; else ["unknown"]. The result is never empty. |
| Intents.IntentRecognizer.DetectIntents | modules/nlp/intent_recognizer.py:29-34 | The nested loops give one label per matching phrase, in table order. |
| Responses.TemplatesNonEmpty | modules/nlp/response_generator.py:11-29 | Every intent of the template table has at least one template, so the random pick always has a template to choose. |
| Responses.TemplateKeys | modules/nlp/response_generator.py:11-29 | The template table is keyed by exactly the seventeen listed intents. "unknown" is not one of them. |
| Responses.TableIntentsHaveTemplates | modules/nlp/response_generator.py:11-29 | Every intent of the recognizer's table has templates. |
| Responses.EarlyIntentsInTable | modules/nlp/response_generator.py:12-20 | Each of the first nine template intents is an intent of the recognizer's table. |
| Responses.LateIntentsInTable | modules/nlp/response_generator.py:21-28 | Each of the remaining template intents is an intent of the recognizer's table. |
| Responses.TemplateIntentsAreTableIntents | modules/nlp/response_generator.py:11-29 | An intent has templates exactly when it is an intent of the recognizer's table. |
| Responses.ResponseTemplatesShaped | modules/nlp/response_generator.py:11-29 | The generator's table has the shape the generator relies on: the listed intents, each with at least one template. |
| Responses.ReplaceAbsent | modules/nlp/response_generator.py:38 | A template without `{name}` is unchanged by filling in the name. |
| Responses.ReplaceBySelf | modules/nlp/response_generator.py:38 | Filling `{name}` with the text "{name}" gives the template back. |
| Responses.ReplaceAll | modules/nlp/response_generator.py:38 | Definition of replacing each `{name}`, left to right without overlaps. `ReplaceAbsent` and `ReplaceBySelf` state its properties. |
| Responses.Fill | modules/nlp/response_generator.py:38 | Definition of `.format(name=user_name)` for templates whose only field is `{name}`. |
| Responses.Respond | modules/nlp/response_generator.py:37-38 | An answer exists exactly for intents with templates in the given table. The answer is one of that intent's templates with the name filled in. |
| Responses.RecognizedIntentsHaveTemplates | modules/nlp/response_generator.py:35-37 | Every recognized label is "unknown" or has templates. |
| Responses.DictHas | modules/nlp/response_generator.py:37 | `key in d`: for a string key, true exactly when the dict has it; a list key cannot be hashed and raises `TypeError`. |
| Responses.AnswerAsWritten | modules/nlp/response_generator.py:37-38 | The answer step as written, for whatever `intent` holds: a list raises `TypeError`, a string without templates gives the apology, a string with an empty template list raises `IndexError` from `random.choice`. |
| Responses.GenerateResponseAsWritten | modules/nlp/response_generator.py:34-43 | Definition of `generate_response` as written: the answer step applied to the whole list of recognized labels. `AsWrittenNeverAnswers` states what it gives. |
| Responses.StringKeyAnswers | modules/nlp/response_generator.py:37-43 | With a single label as the key, the as-written answer step agrees with `Respond`: the filled template when the label has templates, the apology otherwise. |
| Responses.AsWrittenNeverAnswers | modules/nlp/response_generator.py:34-43 | As written, every text raises `TypeError` with any template table, even one whose single recognized label is "greeting", which has templates. |
| Responses.GreetingIsAnswered | modules/nlp/response_generator.py:37-38 | Looked up by itself, as intended, the label "greeting" has templates and is answered. |
| Responses.ResponseGenerator.constructor | modules/nlp/response_generator.py:10-32 | The generator owns a fresh memory, a fresh scorer (distinct from the memory's), the recognizer and the template table. |
| Responses.ResponseGenerator.GenerateResponse | modules/nlp/response_generator.py:34-43 | For the first recognized label, when it has templates: the answer is a filled template; the scorer gets one reward of 1 for the intent with "Generated response: ..." as detail; the exchange enters the bounded history. Otherwise: the fixed apology, and neither scorer nor memory changes. |
| Learning.Learned | modules/database/learning_model.py:31-35 | The table stays well formed after one interaction. `LearnedShape` states the two lists it grows. |
| Learning.LearnedShape | modules/database/learning_model.py:31-35 | One interaction grows the input's response and feedback lists by one each, ending in the new pair. It keeps the two lists the same length and leaves every other input alone. |
| Learning.LearningModel.constructor | modules/database/learning_model.py:11-15 | The model starts with the loaded interactions, a fresh scorer and a fresh knowledge base. |
| Learning.LearningModel.LearnFromInteraction | modules/database/learning_model.py:29-39 | The table becomes `Learned(old, input, response, feedback)`. The scorer is fed the feedback for the input exactly once, with "Response: ..." as detail. |
| Learning.LearningModel.SuggestResponse | modules/database/learning_model.py:41-47 | A known input gets one of its recorded responses and changes nothing. An unknown one gets the knowledge base's "General" answer, or the apology list when that is missing; the "not sure" line comes only for an empty stored list, so never when all lists are non-empty. |
| Learning.LearningModel.ImproveKnowledge | modules/database/learning_model.py:49-52 | The knowledge base gains `value[:500]` under ("General", key). The interactions are unchanged. |
| Learning.LearningModel.ReviewLearningData | modules/database/learning_model.py:54-56 | Returns the stored interactions themselves. |
| Reminders.DigitRun | modules/automation/reminders.py:30 | `\d+` takes the longest digit prefix: all digits, and the next character is not one. |
| Reminders.UnitPrefix | modules/automation/reminders.py:30 | The first unit word of the alternation that starts the text. None means no unit word starts it. |
| Reminders.UnitRecognised | modules/automation/reminders.py:30 | Each of the five unit words, whatever follows, is read as itself and not as an earlier alternative. |
| Reminders.MatchRelative | modules/automation/reminders.py:30-32 | A match always carries one of the five accepted units. `RelativeRecognised` states when it matches. |
| Reminders.RelativeRecognised | modules/automation/reminders.py:30-32 | "in N unit..." with any digits N, any unit and any tail matches, with N's value and that unit. |
| Reminders.UnitMinutes | modules/automation/reminders.py:33-42 | Definition of each unit's length in minutes: 1, 60, 1440, 10080, and four weeks (40320) for "months". `HoursExample` and `MonthsExample` show it on examples. |
| Reminders.ParseTimeInput | modules/automation/reminders.py:27-43 | A match gives the timestamp N units after now, where a month is four weeks. Any other text is returned unchanged. |
| Reminders.HoursExample | modules/automation/reminders.py:35-36 | "in 2 hours" is 120 minutes ahead. |
| Reminders.MonthsExample | modules/automation/reminders.py:41-42 | "in 1 months" is 40320 minutes, four weeks, ahead. |
| Reminders.SingularUnitKept | modules/automation/reminders.py:30-43 | "in 1 minute" does not match and is kept as given. |
| Reminders.Due | modules/automation/reminders.py:65 | The triggered reminders are exactly the stored ones whose time is the current minute. |
| Reminders.Recurs | modules/automation/reminders.py:83 | Definition of the truthiness test `if reminder["recurring"]`: a value that is present and not the empty string. |
| Reminders.RecurrenceStep | modules/automation/reminders.py:85-90 | Definition of how far a recurring reminder moves: a day for "daily", a week for "weekly", four weeks for "monthly", and nothing for any other value. |
| Reminders.Fire | modules/automation/reminders.py:69-94 | Definition of one turn of the intended loop: a reminder not due is kept, a due recurring one is moved on by its step, a due one-off is dropped. |
| Reminders.Rescheduled | modules/automation/reminders.py:68-94 | Definition of the whole intended loop: `Fire` applied to each reminder in list order. `RescheduledShape` and `NothingDueKeepsAll` state its effect. |
| Reminders.RescheduledSplits | modules/automation/reminders.py:69-94 | Checking two stretches of the list gives the result of each, in order. |
| Reminders.RescheduledInPlace | modules/automation/reminders.py:69-94 | A reminder is handled where it stands: what it becomes (kept, moved on, or nothing) lies between the results of the reminders before and after it. So reminders not due keep their relative order, and a moved reminder keeps its place. |
| Reminders.Checked | modules/automation/reminders.py:64-96 | Definition of the intended `check_reminders`: nothing changes when nothing is due, otherwise the list is rescheduled. |
| Reminders.NothingDueKeepsAll | modules/automation/reminders.py:67-94 | With nothing due, the loop keeps the list as it is. |
| Reminders.RescheduledShape | modules/automation/reminders.py:68-96 | The list shrinks by exactly the number of due one-off reminders, and every reminder not due stays. Each new element is an old undue reminder, or a due recurring one moved to its next time. |
| Reminders.ReminderManager.constructor | modules/automation/reminders.py:11-13 | The manager starts with the loaded reminders. |
| Reminders.ReminderManager.AddReminder | modules/automation/reminders.py:45-58 | Exactly one reminder, carrying the parsed time, is appended. The confirmation names that time, the message and the priority. |
| Reminders.ReminderManager.CheckReminders | modules/automation/reminders.py:60-97 | The list becomes `Checked(old, now)`: due one-off reminders are dropped and due recurring ones move on in place. `RescheduledInPlace` gives the order, and `RescheduledShape` says its length drops by exactly the number of due one-off reminders. |
| Reminders.AliasedDue | modules/automation/reminders.py:65-70 | The triggered list as the loop sees it: due reminders already visited appear with their updated values. |
| Reminders.DuePositions | modules/automation/reminders.py:65 | The positions listed are in range and hold reminders due now. |
| Reminders.CheckedAsWrittenFrom | modules/automation/reminders.py:69-94 | Definition of the as-written loop from position i on: the value-equality test against the triggered list, whose earlier due entries already carry their new times, and the re-parsed time for the move. |
| Reminders.CheckedAsWritten | modules/automation/reminders.py:60-96 | Definition of `check_reminders` as written, with the value-equality test against the triggered list. `LaterTwinIsMovedTwice` shows where it departs from `Checked`. |
| Reminders.AsWrittenMovesOn | modules/automation/reminders.py:70-92 | One turn of the as-written loop on a reminder it takes for due and recurring emits that reminder moved on. |
| Reminders.LaterTwinIsMovedTwice | modules/automation/reminders.py:65-92 | As written, take two equal daily reminders, one due now and one due tomorrow. The second is also moved, to the day after tomorrow. |
| Reminders.LaterTwinKeepsItsTime | modules/automation/reminders.py:60-97 | As intended, the same two reminders both end up due tomorrow. |
| Diary.Added | modules/automation/daily_diary.py:28-31 | The date's list gains the entry at its end and is created when missing. Other dates keep theirs. |
| Diary.JoinAppend | modules/automation/daily_diary.py:52 | Joining a list with one more entry is the old join, a newline, and the entry. |
| Diary.DiaryEmail | modules/automation/daily_diary.py:43-54 | The sentinel comes back exactly when nothing was written today. Otherwise the subject is "Daily Diary Entry - " and the date. |
| Diary.EmailAfterAdding | modules/automation/daily_diary.py:43-54 | After an entry is added, today's e-mail exists and its body ends with the entry: the entry alone, or the earlier body, a newline and the entry. |
| Diary.DailyDiary.constructor | modules/automation/daily_diary.py:8-10 | The diary starts with the loaded entries. |
| Diary.DailyDiary.AddEntry | modules/automation/daily_diary.py:24-33 | The entries become `Added(old, today, content)`. The confirmation names the date. |
| Diary.DailyDiary.GetEntries | modules/automation/daily_diary.py:35-41 | The list for the date, or for today when the date is missing or empty. The sentinel list comes back when that date has none. |
| Conversation.SelectedAsWritten | modules/database/conversation_log.py:38-41 | Definition of the selection test as written, grouped `(keyword and A) or B`: a missing keyword raises when `.lower()` is called. |
| Conversation.Selected | modules/database/conversation_log.py:38-41 | Definition of the selection test as intended: a given keyword in either text, or a given date in the timestamp. |
| Conversation.RetrievedAsWritten | modules/database/conversation_log.py:36-41 | Definition of the search loop as written over a whole log: the first raising entry ends it. `DateOnlySearchRaises` and `RetrievalAgreesWithKeyword` state its behaviour. |
| Conversation.SelectionAgreesWithKeyword | modules/database/conversation_log.py:38-41 | With a non-empty keyword, the test as written and as intended agree on every entry. |
| Conversation.AsWrittenKeywordQuirks | modules/database/conversation_log.py:38 | As written, an empty keyword selects every entry and a missing keyword raises. As intended, both fall back to the date. |
| Conversation.DateOnlySearchRaises | modules/database/conversation_log.py:37-38 | As written, a search by date alone raises on every non-empty log. |
| Conversation.Matching | modules/database/conversation_log.py:36-41 | The intended result never has more entries than the log. |
| Conversation.MatchingMembers | modules/database/conversation_log.py:37-41 | An entry is in the result exactly when it is in the log and selected. |
| Conversation.MatchingSplits | modules/database/conversation_log.py:37-41 | The search over two stretches of log is the first's result followed by the second's: log order is kept. |
| Conversation.RetrievalAgreesWithKeyword | modules/database/conversation_log.py:34-42 | With a non-empty keyword, the written search never raises and returns exactly the intended result. |
| Conversation.ConversationLog.constructor | modules/database/conversation_log.py:9-10 | The log starts with the loaded entries. |
| Conversation.ConversationLog.LogConversation | modules/database/conversation_log.py:24-32 | Exactly one entry is appended. |
| Conversation.ConversationLog.RetrieveConversation | modules/database/conversation_log.py:34-42 | The intended matches, in log order, or the sentinel exactly when there are none. |
| SystemLogs.RecentAfterLogging | modules/system/system_logs.py:18-31 | After logging e, the last 1 event is [e]. For n >= 2, the last n events are the last n-1 events from before, followed by e. |
| SystemLogs.SystemLogger.constructor | modules/system/system_logs.py:8-9 | The logger starts with the loaded events. |
| SystemLogs.SystemLogger.LogEvent | modules/system/system_logs.py:18-27 | Exactly one event is appended. |
| SystemLogs.SystemLogger.GetRecentLogs | modules/system/system_logs.py:29-31 | `log[-n:]` is a suffix of the log. It has min(n, size) events for n >= 1, the whole log for n == 0, and the log minus its first -n events for n < 0. |
| SystemLogs.SystemLogger.ClearLogs | modules/system/system_logs.py:33-38 | The log is emptied. |
| LogManager.IsRecent | modules/system/log_manager.py:35-41 | Definition of the retention test: an entry without a timestamp, or with one that does not parse, is kept; otherwise it is kept when at most 30 days old. `RetentionBoundary` states the boundary. |
| LogManager.RetentionBoundary | modules/system/log_manager.py:35-41 | An entry exactly 30 days old is kept and one a second older is dropped. Entries with a missing or unreadable timestamp are kept. |
| LogManager.Kept | modules/system/log_manager.py:28 | The filter never lengthens a log. |
| LogManager.KeptMembers | modules/system/log_manager.py:28 | An entry survives exactly when it was in the log and is recent. |
| LogManager.KeptSplits | modules/system/log_manager.py:28 | Filtering two stretches gives the survivors of each, in order. |
| LogManager.KeptIdempotent | modules/system/log_manager.py:28 | A second clean-up at the same time removes nothing more. |
| LogManager.CleanedDisk | modules/system/log_manager.py:20-31 | Only the listed files that exist are rewritten: an undecodable one becomes empty and the others keep their recent entries. Every other file is untouched. |
| LogManager.Removals | modules/system/log_manager.py:33 | At most one report line per listed file. |
| LogManager.LogFilesDistinct | modules/system/log_manager.py:5-11 | No log file is listed twice. |
| LogManager.CleanupLogs | modules/system/log_manager.py:18-33 | The disk becomes `CleanedDisk(old disk)`. The report lists, for each existing log file in order, how many entries it lost. |
| Helpers.WordRun | modules/utils/helper_functions.py:40 | The longest whitespace-free prefix, followed by whitespace or the end. |
| Helpers.Words | modules/utils/helper_functions.py:40 | `split()` yields only non-empty words without whitespace. |
| Helpers.WordsOfJoin | modules/utils/helper_functions.py:40 | Splitting words joined by single spaces gives back the words. |
| Helpers.CleanText | modules/utils/helper_functions.py:38-40 | Definition: the words of the lowered text joined by single spaces. `CleanTextWords`, `CleanTextIdempotent` and `CleanTextSingleSpaced` state its properties. |
| Helpers.CleanTextWords | modules/utils/helper_functions.py:38-40 | The cleaned text splits into exactly the words of the lower-cased input. |
| Helpers.CleanTextIdempotent | modules/utils/helper_functions.py:38-40 | Cleaning a cleaned text changes nothing. |
| PyText.Join | modules/utils/helper_functions.py:40 | `sep.join(parts)` is empty for no parts and the part itself for one part. `WordsOfJoin` and `JoinIsSingleSpaced` state more. |
| Helpers.JoinIsSingleSpaced | modules/utils/helper_functions.py:40 | Non-empty words without whitespace, joined by spaces, never start or end with a space and never hold two in a row. |
| Helpers.CleanTextSingleSpaced | modules/utils/helper_functions.py:38-40 | The cleaned text has no leading, trailing or repeated whitespace. |
| Helpers.ValidateInput | modules/utils/helper_functions.py:43-45 | True exactly when some choice equals the text, ignoring case. |
| Helpers.ValidateIgnoresCase | modules/utils/helper_functions.py:43-45 | When a choice is the text, every text with the same lowering, in any case, is accepted: the choice itself and its lower-cased form among them. |
| Helpers.GetRandomChoice | modules/utils/helper_functions.py:33-35 | None exactly for an empty list. Otherwise the result is an element of the list. |

## Left out

- Persistence: each `load_*`/`save_*` JSON file, `load_json` and `save_json`. Constructors take the loaded state as arguments. The disk is not modelled apart from the log manager's map of files.
- Effects outside the program are not modelled:
  - printing;
  - text-to-speech, including the repeated announcement of high-priority reminders;
  - e-mail sending: the diary's e-mail is returned as a value, and reminder e-mail alerts are not modelled;
  - voice recording of diary entries;
  - the background reminder-checking thread.
- The outside lookup is a parameter, `fetch`; the web scraper itself is not part of this model. The fuzzywuzzy score is a parameter, `sim`; only `extractOne`'s choice of the best candidate is modelled.
- The clock, `random.choice` and timestamp rendering are parameters:
  - the clock is `now` or `today`;
  - `random.choice` is `pick`, taken modulo the list length;
  - `strftime` and `strptime` become `fmt` and `parse`.
- The reminder lemmas that compare times assume reading a rendered minute back gives that minute.
- Reminders.ReminderManager.CheckReminders: the intended version moves a recurring reminder from `now`, not from its re-parsed time. The two agree because a due reminder's time is the text of `now`.
- Datetime overflow for very large counts is not modelled.
- `get_current_timestamp` and `generate_unique_id` (SHA-256) are not modelled. They are thin wrappers over the clock and a hash function.
- `ensure_directory_exists` touches the file system and is not modelled.
- PyText.Lower lower-cases ASCII letters only. Python's `str.lower()` is Unicode-aware. The same holds for `\w` in intent matching, and for the Unicode digits `\d` accepts in relative times.
- Memory.MemoryModule.Recall requires a stored key when there is no exact hit, because `extractOne` on an empty list gives `None` and the source then fails to unpack it.
- Memory: the memory file also stores `conversation_history` as a top-level entry, which then shows up among the fuzzy candidates. The model keeps the history apart from the fact table.
- Learning.LearningModel.SuggestResponse requires a known input to have at least one recorded response: `random.choice([])` raises. `learn_from_interaction` never leaves the list empty.
- Responses.ResponseGenerator.GenerateResponse answers for the first recognized label. The source's test with the whole list always raises; see Findings.
- Conversation.ConversationLog.RetrieveConversation models the intended selection. The selection as written is `Conversation.SelectedAsWritten` and `Conversation.RetrievedAsWritten`; see Findings.
- Aliasing: results that the source returns by reference are values here, so a caller mutating them is not modelled. This covers the search results, `review_learning_data` and the diary lists.
- LogManager.LogEntry keeps only an optional string timestamp and treats the rest of the record as opaque text. Entries that are not objects, timestamps that are not strings, and files whose JSON is not a list are not modelled.
- LogManager.CleanupLogs uses one `now` for the whole clean-up; the source reads the clock again for each entry.
- Reminders: `recurring` is modelled as an optional string. Values other than "daily", "weekly" and "monthly" keep the reminder at the same time, as in the source.

## Findings

| source | as written | input that shows it | evidently intended | confidence | as-written member | corrected member |
|---|---|---|---|---|---|---|
| modules/nlp/response_generator.py:37 | `intent in self.responses` tests a list (the recognized labels) against a dict, which raises `TypeError: unhashable type: 'list'` | any text, e.g. `generate_response("hello")` | look up the recognized label (the first one) among the templates | not executed | Responses.AsWrittenNeverAnswers | Responses.ResponseGenerator.GenerateResponse |
| modules/database/conversation_log.py:38 | `keyword and A or B` groups as `(keyword and A) or B`: a missing keyword calls `None.lower()`, and an empty keyword selects every entry | `retrieve_conversation(date="2024-01-01")` on a non-empty log raises `AttributeError` | `(keyword and (A or B)) or (date and date in timestamp)` | not executed | Conversation.DateOnlySearchRaises | Conversation.ConversationLog.RetrieveConversation |
| modules/automation/reminders.py:70 | `reminder in triggered` compares by value with the due reminders, which the loop has already moved on in place. A later reminder equal to a moved one is treated as due and moved too | two daily reminders with the same message, one due now and one due tomorrow: the second ends up due the day after tomorrow | treat as due only the reminders due at the current minute | not executed | Reminders.LaterTwinIsMovedTwice | Reminders.ReminderManager.CheckReminders |
