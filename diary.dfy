/**
 * The daily diary: entries filed under the date they were written
 * ("%Y-%m-%d"), in the order they were written, and the e-mail that carries
 * today's entries. Today's date is a parameter.
 */
module Diary {
  import opened Wrappers
  import opened PyText
  import opened Dicts

  const NoEntriesMessage := "No entries found for this date."
  const NothingToSendMessage := "No entries found for today to send."
  const SubjectPrefix := "Daily Diary Entry - "

  /** The e-mail `send_diary_to_email` hands to the mail client. */
  datatype Email = Email(subject: string, body: string)

  /** The diary after `content` is written on `date`. */
  function Added(entries: Dict<seq<string>>, date: string, content: string): (r: Dict<seq<string>>)
    requires entries.Valid()
    ensures r.Valid()
    ensures date in r.items && r.items[date] == Get(entries, date, []) + [content]
    ensures forall d :: d != date ==> (d in r.items <==> d in entries.items)
    ensures forall d :: d != date && d in entries.items ==> r.items[d] == entries.items[d]
  {
    Put(entries, date, Get(entries, date, []) + [content])
  }

  /** `"sep".join(parts + [last])` is the join of `parts`, the separator and `last`. */
  lemma {:induction false} JoinAppend(parts: seq<string>, last: string, sep: string)
    requires parts != []
    ensures Join(parts + [last], sep) == Join(parts, sep) + sep + last
    decreases |parts|
  {
    if |parts| == 1 {
      assert (parts + [last])[1..] == [last];
    } else {
      assert (parts + [last])[1..] == parts[1..] + [last];
      JoinAppend(parts[1..], last, sep);
    }
  }

  /** The e-mail for `today`, or the sentinel when nothing was written today. */
  function DiaryEmail(entries: Dict<seq<string>>, today: string): (r: Reply<Email>)
    ensures r.Message? <==> today !in entries.items
    ensures r.Message? ==> r.text == NothingToSendMessage
    ensures r.Data? ==> r.value.subject == SubjectPrefix + today
  {
    if today !in entries.items then Message(NothingToSendMessage)
    else Data(Email(SubjectPrefix + today, Join(entries.items[today], "\n")))
  }

  /**
   * Writing an entry makes today's e-mail end with it: the body is the new
   * entry alone, or the earlier body, a newline and the new entry.
   */
  lemma EmailAfterAdding(entries: Dict<seq<string>>, today: string, content: string)
    requires entries.Valid()
    ensures var r := DiaryEmail(Added(entries, today, content), today);
            && r.Data?
            && (today !in entries.items || entries.items[today] == [] ==> r.value.body == content)
            && (today in entries.items && entries.items[today] != [] ==>
                  r.value.body == DiaryEmail(entries, today).value.body + "\n" + content)
  {
    if today in entries.items && entries.items[today] != [] {
      JoinAppend(entries.items[today], content, "\n");
    } else {
      assert Get(entries, today, []) + [content] == [content];
    }
  }

  class DailyDiary {
    var entries: Dict<seq<string>>

    ghost predicate Valid()
      reads this
    {
      entries.Valid()
    }

    /** A diary over the entries loaded from disk. */
    constructor(stored: Dict<seq<string>>)
      requires stored.Valid()
      ensures Valid() && entries == stored
    {
      entries := stored;
    }

    /**
     * `add_entry(content)` on `today`: the entry goes at the end of today's
     * list, which is created when missing; other dates keep theirs.
     */
    method AddEntry(content: string, today: string) returns (confirmation: string)
      requires Valid()
      modifies this
      ensures Valid()
      ensures entries == Added(old(entries), today, content)
      ensures confirmation == "Diary entry added for " + today + "."
    {
      if today !in entries.items {
        entries := Put(entries, today, []);
      }
      var list := entries.items[today];
      if today !in old(entries).items {
        PutTwice(old(entries), today, [], list + [content]);
      }
      entries := Put(entries, today, list + [content]);
      confirmation := "Diary entry added for " + today + ".";
    }

    /**
     * `get_entries(date)`: the list for `date`, or for `today` when no date
     * (or an empty one) is given; the sentinel list when that date has none.
     */
    function GetEntries(date: Option<string>, today: string): (r: seq<string>)
      reads this
      ensures var d := if date.None? || date.value == "" then today else date.value;
              && (d in entries.items ==> r == entries.items[d])
              && (d !in entries.items ==> r == [NoEntriesMessage])
    {
      var d := if date.None? || date.value == "" then today else date.value;
      Get(entries, d, [NoEntriesMessage])
    }
  }
}
