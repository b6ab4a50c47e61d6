/**
 * The conversation log: an append-only list of timestamped exchanges, and
 * the search that picks exchanges by a keyword in either side or by a date
 * in the timestamp. The timestamp ("%Y-%m-%d %H:%M:%S") is a parameter.
 */
module Conversation {
  import opened Wrappers
  import opened PyText

  const NoMatchMessage := "No matching conversations found."
  const NoneHasNoLower := "AttributeError: 'NoneType' object has no attribute 'lower'"

  /** `{"timestamp": ..., "user": ..., "ai": ...}`. */
  datatype Entry = Entry(timestamp: string, user: string, ai: string)

  /** Python truthiness of an optional string. */
  predicate Given(s: Option<string>)
  {
    s.Some? && s.value != ""
  }

  /** The keyword occurs in the user's or the assistant's text, ignoring case. */
  predicate Mentions(e: Entry, keyword: string)
  {
    Contains(Lower(e.user), Lower(keyword)) || Contains(Lower(e.ai), Lower(keyword))
  }

  /**
   * The selection test as written: `keyword and A or B` groups as
   * `(keyword and A) or B`, so the assistant-side test runs even without a
   * keyword, and calling `.lower()` on a missing keyword raises.
   */
  function SelectedAsWritten(e: Entry, keyword: Option<string>, date: Option<string>): Outcome<bool>
  {
    if Given(keyword) && Contains(Lower(e.user), Lower(keyword.value)) then Returned(true)
    else if keyword.None? then Raised(NoneHasNoLower)
    else if Contains(Lower(e.ai), Lower(keyword.value)) then Returned(true)
    else Returned(Given(date) && Contains(e.timestamp, date.value))
  }

  /**
   * The selection test as intended: a given keyword in either text, or else
   * a given date in the timestamp.
   */
  predicate Selected(e: Entry, keyword: Option<string>, date: Option<string>)
  {
    (Given(keyword) && Mentions(e, keyword.value)) || (Given(date) && Contains(e.timestamp, date.value))
  }

  /** With a non-empty keyword, the test as written and as intended agree. */
  lemma SelectionAgreesWithKeyword(e: Entry, keyword: string, date: Option<string>)
    requires keyword != ""
    ensures SelectedAsWritten(e, Some(keyword), date) == Returned(Selected(e, Some(keyword), date))
  {
  }

  /**
   * As written, an empty keyword selects every entry (the empty string is in
   * every text), and a search by date alone raises on any entry; as
   * intended both fall back to the date.
   */
  lemma AsWrittenKeywordQuirks(e: Entry, date: Option<string>)
    ensures SelectedAsWritten(e, Some(""), date) == Returned(true)
    ensures SelectedAsWritten(e, None, date).Raised?
    ensures Selected(e, Some(""), date) == Selected(e, None, date) == (Given(date) && Contains(e.timestamp, date.value))
  {
    EmptyInEverything(Lower(e.ai));
  }

  /** The search as written over a whole log: the first raising entry ends it. */
  function RetrievedAsWritten(log: seq<Entry>, keyword: Option<string>, date: Option<string>): Outcome<seq<Entry>>
    decreases |log|
  {
    if log == [] then Returned([])
    else match SelectedAsWritten(log[0], keyword, date)
      case Raised(err) => Raised(err)
      case Returned(b) =>
        match RetrievedAsWritten(log[1..], keyword, date)
        case Raised(err) => Raised(err)
        case Returned(rest) => Returned((if b then [log[0]] else []) + rest)
  }

  /** A search by date alone, as written, raises on every non-empty log. */
  lemma {:induction false} DateOnlySearchRaises(log: seq<Entry>, date: Option<string>)
    requires log != []
    ensures RetrievedAsWritten(log, None, date) == Raised(NoneHasNoLower)
  {
  }

  /** The entries of `log` the intended test selects, in log order. */
  function Matching(log: seq<Entry>, keyword: Option<string>, date: Option<string>): (r: seq<Entry>)
    ensures |r| <= |log|
    decreases |log|
  {
    if log == [] then []
    else
      var last := log[|log| - 1];
      Matching(log[..|log| - 1], keyword, date) + (if Selected(last, keyword, date) then [last] else [])
  }

  /** An entry is in the result exactly when it is in the log and selected. */
  lemma {:induction false} MatchingMembers(log: seq<Entry>, keyword: Option<string>, date: Option<string>)
    ensures forall e :: e in Matching(log, keyword, date) <==> e in log && Selected(e, keyword, date)
    decreases |log|
  {
    if log != [] {
      var init := log[..|log| - 1];
      MatchingMembers(init, keyword, date);
      assert log == init + [log[|log| - 1]];
    }
  }

  /**
   * Searching two stretches of log one after the other gives the results of
   * the first followed by those of the second: the result keeps log order,
   * and each logged exchange is reported at most once.
   */
  lemma {:induction false} MatchingSplits(a: seq<Entry>, b: seq<Entry>, keyword: Option<string>, date: Option<string>)
    ensures Matching(a + b, keyword, date) == Matching(a, keyword, date) + Matching(b, keyword, date)
    decreases |b|
  {
    if b == [] {
      assert a + b == a;
    } else {
      var init := b[..|b| - 1];
      var last := b[|b| - 1];
      var verdict := if Selected(last, keyword, date) then [last] else [];
      assert (a + b)[..|a + b| - 1] == a + init;
      assert (a + b)[|a + b| - 1] == last;
      calc {
        Matching(a + b, keyword, date);
        Matching(a + init, keyword, date) + verdict;
        { MatchingSplits(a, init, keyword, date); }
        Matching(a, keyword, date) + Matching(init, keyword, date) + verdict;
        Matching(a, keyword, date) + (Matching(init, keyword, date) + verdict);
        Matching(a, keyword, date) + Matching(b, keyword, date);
      }
    }
  }

  /** Searching from the front: the first entry's verdict, then the rest of the log. */
  lemma MatchingCons(log: seq<Entry>, keyword: Option<string>, date: Option<string>)
    requires log != []
    ensures Matching(log, keyword, date)
            == (if Selected(log[0], keyword, date) then [log[0]] else []) + Matching(log[1..], keyword, date)
  {
    assert [log[0]][..0] == [];
    MatchingSplits([log[0]], log[1..], keyword, date);
    assert [log[0]] + log[1..] == log;
  }

  /** With a non-empty keyword, the intended search reports what the written one does. */
  lemma {:induction false} RetrievalAgreesWithKeyword(log: seq<Entry>, keyword: string, date: Option<string>)
    requires keyword != ""
    ensures RetrievedAsWritten(log, Some(keyword), date) == Returned(Matching(log, Some(keyword), date))
    decreases |log|
  {
    if log != [] {
      SelectionAgreesWithKeyword(log[0], keyword, date);
      RetrievalAgreesWithKeyword(log[1..], keyword, date);
      MatchingCons(log, Some(keyword), date);
    }
  }

  class ConversationLog {
    var logData: seq<Entry>

    /** A log over the exchanges loaded from disk. */
    constructor(stored: seq<Entry>)
      ensures logData == stored
    {
      logData := stored;
    }

    /** `log_conversation(user_input, ai_response)` at `timestamp`: one entry at the end. */
    method LogConversation(userInput: string, aiResponse: string, timestamp: string)
      modifies this
      ensures logData == old(logData) + [Entry(timestamp, userInput, aiResponse)]
    {
      logData := logData + [Entry(timestamp, userInput, aiResponse)];
    }

    /**
     * `retrieve_conversation(keyword, date)` with the selection as intended:
     * the selected entries in log order, or the sentinel when there are none.
     */
    method RetrieveConversation(keyword: Option<string>, date: Option<string>) returns (r: Reply<seq<Entry>>)
      ensures Matching(logData, keyword, date) == [] ==> r == Message(NoMatchMessage)
      ensures Matching(logData, keyword, date) != [] ==> r == Data(Matching(logData, keyword, date))
    {
      var results: seq<Entry> := [];
      var i := 0;
      while i < |logData|
        invariant 0 <= i <= |logData|
        invariant results == Matching(logData[..i], keyword, date)
      {
        var entry := logData[i];
        if Selected(entry, keyword, date) {
          results := results + [entry];
        }
        assert logData[..i + 1][..i] == logData[..i];
        i := i + 1;
      }
      assert logData[..i] == logData;
      if results != [] {
        r := Data(results);
      } else {
        r := Message(NoMatchMessage);
      }
    }
  }
}
