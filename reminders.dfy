/**
 * Reminders: relative times such as "in 3 hours", the reminder list, and the
 * once-a-minute check that fires due reminders, dropping one-off reminders
 * and moving recurring ones to their next time.
 *
 * The clock is a parameter: `now` counts whole minutes, and `fmt` renders a
 * minute as the "%Y-%m-%d %H:%M" text that reminders store. Because that text
 * has minute resolution, reading back the text of a minute gives the minute.
 */
module Reminders {
  import opened Wrappers

  /** Renders a minute as "%Y-%m-%d %H:%M". */
  type Format = int -> string
  /** Reads "%Y-%m-%d %H:%M" text back as a minute. */
  type Parse = string -> int

  const MinutesPerHour := 60
  const MinutesPerDay := 1440
  const MinutesPerWeek := 10080
  /** A "month" is four weeks. */
  const MinutesPerMonth := 40320

  const DefaultPriority := "normal"

  /** One stored reminder. `recurring` is `None` for a one-off reminder. */
  datatype Reminder = Reminder(message: string, time: string, priority: string,
                               recurring: Option<string>, emailAlert: bool)

  /** Python truthiness of the `recurring` field. */
  predicate Recurs(r: Reminder)
  {
    r.recurring.Some? && r.recurring.value != ""
  }

  /** How far a recurring reminder moves: a day, a week, four weeks, or not at all for any other value. */
  function RecurrenceStep(recurring: string): int
  {
    if recurring == "daily" then MinutesPerDay
    else if recurring == "weekly" then MinutesPerWeek
    else if recurring == "monthly" then MinutesPerMonth
    else 0
  }

  // ----- parse_time_input -----

  predicate IsDigit(c: char) { '0' <= c <= '9' }

  /** The longest run of digits at the start of `s` (what `\d+` takes, since a space must follow). */
  function DigitRun(s: string): (d: string)
    ensures |d| <= |s| && d == s[..|d|]
    ensures forall i :: 0 <= i < |d| ==> IsDigit(d[i])
    ensures |d| < |s| ==> !IsDigit(s[|d|])
    decreases |s|
  {
    if s != [] && IsDigit(s[0]) then [s[0]] + DigitRun(s[1..]) else []
  }

  /** `int(ds)` for a string of decimal digits. */
  function DigitsValue(ds: string): nat
    decreases |ds|
  {
    if ds == [] then 0
    else DigitsValue(ds[..|ds| - 1]) * 10 + DigitValue(ds[|ds| - 1])
  }

  function DigitValue(c: char): nat
  {
    if IsDigit(c) then c as int - '0' as int else 0
  }

  /** The unit words the pattern accepts, in the order its alternation tries them. */
  const Units: seq<string> := ["minutes", "hours", "days", "weeks", "months"]

  function UnitMinutes(unit: string): nat
  {
    if unit == "minutes" then 1
    else if unit == "hours" then MinutesPerHour
    else if unit == "days" then MinutesPerDay
    else if unit == "weeks" then MinutesPerWeek
    else MinutesPerMonth
  }

  predicate StartsWith(s: string, prefix: string)
  {
    |prefix| <= |s| && s[..|prefix|] == prefix
  }

  /** The first unit word that starts `s`. */
  function UnitPrefix(s: string, units: seq<string>): (r: Option<string>)
    ensures r.Some? ==> r.value in units && StartsWith(s, r.value)
    ensures r.None? ==> forall u :: u in units ==> !StartsWith(s, u)
    decreases |units|
  {
    if units == [] then None
    else if StartsWith(s, units[0]) then Some(units[0])
    else UnitPrefix(s, units[1..])
  }

  /** `(\d+) (unit)` at the start of `s`: the number and the unit. */
  function MatchCount(s: string): (r: Option<(nat, string)>)
    ensures r.Some? ==> r.value.1 in Units
  {
    var digits := DigitRun(s);
    var rest := s[|digits|..];
    if digits == [] || rest == [] || rest[0] != ' ' then None
    else
      match UnitPrefix(rest[1..], Units)
      case None => None
      case Some(unit) => Some((DigitsValue(digits), unit))
  }

  /**
   * `re.match(r"in (\d+) (minutes|hours|days|weeks|months)", s)`: the
   * number and the unit, when `s` starts with that pattern (anything may
   * follow it).
   */
  function MatchRelative(s: string): (r: Option<(nat, string)>)
    ensures r.Some? ==> r.value.1 in Units
  {
    if StartsWith(s, "in ") then MatchCount(s[3..]) else None
  }

  /**
   * `parse_time_input(time_input)`: "in N unit..." becomes the text of the
   * minute N units after `now`; any other input is kept as given.
   */
  function ParseTimeInput(now: int, input: string, fmt: Format): (t: string)
    ensures MatchRelative(input).None? ==> t == input
    ensures MatchRelative(input).Some? ==>
              t == fmt(now + MatchRelative(input).value.0 * UnitMinutes(MatchRelative(input).value.1))
  {
    match MatchRelative(input)
    case None => input
    case Some((n, unit)) => fmt(now + n * UnitMinutes(unit))
  }

  /** A digit run followed by something other than a digit is read back in full. */
  lemma {:induction false} DigitRunOfDigits(ds: string, tail: string)
    requires forall i :: 0 <= i < |ds| ==> IsDigit(ds[i])
    requires tail == [] || !IsDigit(tail[0])
    ensures DigitRun(ds + tail) == ds
    decreases |ds|
  {
    if ds != [] {
      assert (ds + tail)[1..] == ds[1..] + tail;
      DigitRunOfDigits(ds[1..], tail);
    } else {
      assert ds + tail == tail;
    }
  }

  /** Text that differs from a word at some position within both does not start with it. */
  lemma CharDiffers(s: string, u: string, i: nat)
    requires i < |s| && i < |u| && s[i] != u[i]
    ensures !StartsWith(s, u)
  {
  }

  /** Each unit word, whatever follows it, is read as itself and not as an earlier unit. */
  lemma UnitRecognised(unit: string, tail: string)
    requires unit in Units
    ensures UnitPrefix(unit + tail, Units) == Some(unit)
  {
    var s := unit + tail;
    assert s[..|unit|] == unit;
    assert s[0] == unit[0] && s[1] == unit[1];
    if unit != "minutes" {
      if unit == "months" {
        CharDiffers(s, "minutes", 1);
      } else {
        CharDiffers(s, "minutes", 0);
      }
      assert Units[1..] == ["hours", "days", "weeks", "months"];
      if unit != "hours" {
        CharDiffers(s, "hours", 0);
        assert Units[1..][1..] == ["days", "weeks", "months"];
        if unit != "days" {
          CharDiffers(s, "days", 0);
          assert Units[1..][1..][1..] == ["weeks", "months"];
          if unit != "weeks" {
            CharDiffers(s, "weeks", 0);
            assert Units[1..][1..][1..][1..] == ["months"];
          }
        }
      }
    }
  }

  /** Once the digits are read, a space and a unit word complete the match. */
  lemma CountAfterDigits(s: string, ds: string, unit: string, tail: string)
    requires |ds| > 0 && DigitRun(s) == ds
    requires unit in Units
    requires s[|ds|..] == " " + (unit + tail)
    ensures MatchCount(s) == Some((DigitsValue(ds), unit))
  {
    var rest := s[|ds|..];
    assert rest[1..] == unit + tail;
    UnitRecognised(unit, tail);
    assert UnitPrefix(rest[1..], Units) == Some(unit);
  }

  /** Digits, a space and a unit word are read as the digits' value and that unit. */
  lemma CountRecognised(ds: string, unit: string, tail: string)
    requires |ds| > 0 && forall i :: 0 <= i < |ds| ==> IsDigit(ds[i])
    requires unit in Units
    ensures MatchCount(ds + (" " + (unit + tail))) == Some((DigitsValue(ds), unit))
  {
    var after := " " + (unit + tail);
    DigitRunOfDigits(ds, after);
    assert (ds + after)[|ds|..] == after;
    CountAfterDigits(ds + after, ds, unit, tail);
  }

  /**
   * "in N unit" with any digits N, any of the five units and any tail is
   * recognised, with N's value and that unit.
   */
  lemma RelativeRecognised(ds: string, unit: string, tail: string)
    requires |ds| > 0 && forall i :: 0 <= i < |ds| ==> IsDigit(ds[i])
    requires unit in Units
    ensures MatchRelative("in " + (ds + (" " + (unit + tail)))) == Some((DigitsValue(ds), unit))
  {
    var rest := ds + (" " + (unit + tail));
    var s := "in " + rest;
    assert s[..3] == "in ";
    assert s[3..] == rest;
    CountRecognised(ds, unit, tail);
  }

  /** "in 2 hours" is 120 minutes ahead. */
  lemma HoursExample(now: int, fmt: Format)
    ensures ParseTimeInput(now, "in 2 hours", fmt) == fmt(now + 120)
  {
    RelativeRecognised("2", "hours", "");
    assert "in " + ("2" + (" " + ("hours" + ""))) == "in 2 hours";
    assert DigitsValue("2") == 2 by { assert "2"[..0] == []; }
  }

  /** "in 1 months" is four weeks ahead: a month counts as 40320 minutes. */
  lemma MonthsExample(now: int, fmt: Format)
    ensures ParseTimeInput(now, "in 1 months", fmt) == fmt(now + 40320)
  {
    RelativeRecognised("1", "months", "");
    assert "in " + ("1" + (" " + ("months" + ""))) == "in 1 months";
    assert DigitsValue("1") == 1 by { assert "1"[..0] == []; }
  }

  /** A singular unit is not recognised, and the text is kept as given. */
  lemma SingularUnitKept(now: int, fmt: Format)
    ensures ParseTimeInput(now, "in 1 minute", fmt) == "in 1 minute"
  {
    var s := "in 1 minute";
    assert s[..3] == "in ";
    var t := s[3..];
    assert t == "1 minute";
    assert DigitRun(t[1..]) == [] by { assert t[1..] == " minute"; }
    assert DigitRun(t) == "1";
    var m := t[2..];
    assert m == "minute";
    assert !StartsWith(m, "minutes");
    CharDiffers(m, "hours", 0);
    CharDiffers(m, "days", 0);
    CharDiffers(m, "weeks", 0);
    CharDiffers(m, "months", 1);
    assert UnitPrefix(m, Units).None?;
  }

  // ----- check_reminders, as intended -----

  /** The reminders due at `current`, in list order. */
  function Due(rs: seq<Reminder>, current: string): (due: seq<Reminder>)
    ensures forall r :: r in due <==> r in rs && r.time == current
    decreases |rs|
  {
    if rs == [] then []
    else Due(rs[..|rs| - 1], current) + (if rs[|rs| - 1].time == current then [rs[|rs| - 1]] else [])
  }

  /** What one reminder becomes: kept if not due; if due, moved on when recurring and dropped otherwise. */
  function Fire(r: Reminder, current: string, now: int, fmt: Format): seq<Reminder>
  {
    if r.time != current then [r]
    else if Recurs(r) then [r.(time := fmt(now + RecurrenceStep(r.recurring.value)))]
    else []
  }

  /** The loop of `check_reminders` over `rs`, in order. */
  function Rescheduled(rs: seq<Reminder>, current: string, now: int, fmt: Format): seq<Reminder>
    decreases |rs|
  {
    if rs == [] then []
    else Rescheduled(rs[..|rs| - 1], current, now, fmt) + Fire(rs[|rs| - 1], current, now, fmt)
  }

  /** The reminder list after `check_reminders` at minute `now`. */
  function Checked(rs: seq<Reminder>, now: int, fmt: Format): seq<Reminder>
  {
    var current := fmt(now);
    if Due(rs, current) == [] then rs else Rescheduled(rs, current, now, fmt)
  }

  /** When nothing is due, rescheduling keeps the list as it is. */
  lemma {:induction false} NothingDueKeepsAll(rs: seq<Reminder>, current: string, now: int, fmt: Format)
    requires forall r :: r in rs ==> r.time != current
    ensures Rescheduled(rs, current, now, fmt) == rs
    decreases |rs|
  {
    if rs != [] {
      NothingDueKeepsAll(rs[..|rs| - 1], current, now, fmt);
      assert rs == rs[..|rs| - 1] + [rs[|rs| - 1]];
    }
  }

  /** Checking two stretches of the list handles each on its own and keeps them in order. */
  lemma {:induction false} RescheduledSplits(a: seq<Reminder>, b: seq<Reminder>, current: string, now: int, fmt: Format)
    ensures Rescheduled(a + b, current, now, fmt) == Rescheduled(a, current, now, fmt) + Rescheduled(b, current, now, fmt)
    decreases |b|
  {
    if b == [] {
      assert a + b == a;
    } else {
      var init := b[..|b| - 1];
      var last := b[|b| - 1];
      var fired := Fire(last, current, now, fmt);
      assert (a + b)[..|a + b| - 1] == a + init;
      assert (a + b)[|a + b| - 1] == last;
      calc {
        Rescheduled(a + b, current, now, fmt);
        Rescheduled(a + init, current, now, fmt) + fired;
        { RescheduledSplits(a, init, current, now, fmt); }
        Rescheduled(a, current, now, fmt) + Rescheduled(init, current, now, fmt) + fired;
        Rescheduled(a, current, now, fmt) + (Rescheduled(init, current, now, fmt) + fired);
        Rescheduled(a, current, now, fmt) + Rescheduled(b, current, now, fmt);
      }
    }
  }

  /**
   * Each reminder is handled where it stands: what it becomes (kept, moved
   * on, or nothing) sits between what the reminders before it and after it
   * become, so reminders not due keep their relative order and a moved one
   * keeps its place.
   */
  lemma RescheduledInPlace(before: seq<Reminder>, r: Reminder, after: seq<Reminder>, current: string, now: int, fmt: Format)
    ensures Rescheduled(before + [r] + after, current, now, fmt)
            == Rescheduled(before, current, now, fmt) + Fire(r, current, now, fmt) + Rescheduled(after, current, now, fmt)
  {
    RescheduledSplits(before + [r], after, current, now, fmt);
    RescheduledSplits(before, [r], current, now, fmt);
    assert [r][..0] == [];
    assert Rescheduled([r], current, now, fmt) == Fire(r, current, now, fmt);
  }

  /** The number of due one-off reminders. */
  function DroppedCount(rs: seq<Reminder>, current: string): nat
    decreases |rs|
  {
    if rs == [] then 0
    else
      var r := rs[|rs| - 1];
      DroppedCount(rs[..|rs| - 1], current) + (if r.time == current && !Recurs(r) then 1 else 0)
  }

  /**
   * Checking keeps every reminder that is not due and moves on every due
   * recurring one: the list shrinks by exactly the number of due one-off
   * reminders, every reminder not due is still there, and everything in the
   * new list is either an old reminder that was not due or a due recurring
   * one with its new time.
   */
  lemma {:induction false} RescheduledShape(rs: seq<Reminder>, current: string, now: int, fmt: Format)
    ensures |Rescheduled(rs, current, now, fmt)| == |rs| - DroppedCount(rs, current)
    ensures forall r :: r in rs && r.time != current ==> r in Rescheduled(rs, current, now, fmt)
    ensures forall r' :: r' in Rescheduled(rs, current, now, fmt) ==>
              (r' in rs && r'.time != current)
              || exists r :: r in rs && r.time == current && Recurs(r)
                             && r' == r.(time := fmt(now + RecurrenceStep(r.recurring.value)))
    decreases |rs|
  {
    if rs != [] {
      var init := rs[..|rs| - 1];
      var last := rs[|rs| - 1];
      RescheduledShape(init, current, now, fmt);
      assert forall r :: r in rs <==> r in init || r == last;
    }
  }

  class ReminderManager {
    var reminders: seq<Reminder>

    /** A manager over the reminders loaded from disk. */
    constructor(stored: seq<Reminder>)
      ensures reminders == stored
    {
      reminders := stored;
    }

    /**
     * `add_reminder(message, reminder_time, priority, recurring, email_alert)`:
     * one reminder, with the parsed time, goes at the end of the list, and the
     * confirmation names its time, message and priority.
     */
    method AddReminder(message: string, reminderTime: string, priority: string,
                       recurring: Option<string>, emailAlert: bool, now: int, fmt: Format)
      returns (confirmation: string)
      modifies this
      ensures reminders == old(reminders) + [Reminder(message, ParseTimeInput(now, reminderTime, fmt), priority, recurring, emailAlert)]
      ensures confirmation == "Reminder set for " + ParseTimeInput(now, reminderTime, fmt) + ": " + message
                              + " (Priority: " + priority + ")"
    {
      var time := ParseTimeInput(now, reminderTime, fmt);
      reminders := reminders + [Reminder(message, time, priority, recurring, emailAlert)];
      confirmation := "Reminder set for " + time + ": " + message + " (Priority: " + priority + ")";
    }

    /**
     * `check_reminders()` at minute `now`: when some reminder is due, due
     * one-off reminders are dropped, due recurring ones move to their next
     * time in place, and the rest stay as they are, in order.
     */
    method CheckReminders(now: int, fmt: Format)
      modifies this
      ensures reminders == Checked(old(reminders), now, fmt)
      ensures |reminders| == |old(reminders)| - DroppedCount(old(reminders), fmt(now))
    {
      var current := fmt(now);
      var triggered := Due(reminders, current);
      if triggered != [] {
        var remaining: seq<Reminder> := [];
        var i := 0;
        while i < |reminders|
          invariant 0 <= i <= |reminders|
          invariant remaining == Rescheduled(reminders[..i], current, now, fmt)
        {
          var reminder := reminders[i];
          if reminder.time == current {
            if Recurs(reminder) {
              var next := now + RecurrenceStep(reminder.recurring.value);
              remaining := remaining + [reminder.(time := fmt(next))];
            }
          } else {
            remaining := remaining + [reminder];
          }
          assert reminders[..i + 1][..i] == reminders[..i];
          i := i + 1;
        }
        assert reminders[..i] == reminders;
        RescheduledShape(reminders, current, now, fmt);
        reminders := remaining;
      } else {
        assert forall r :: r in reminders ==> r.time != current;
        NothingDueKeepsAll(reminders, current, now, fmt);
        RescheduledShape(reminders, current, now, fmt);
      }
    }
  }

  // ----- check_reminders, as written -----

  /**
   * The loop of `check_reminders` as written, from position `i` on. The
   * test `reminder in triggered` compares by value against the due
   * reminders, and those are the very dictionaries the loop has already
   * moved on in place: `updated` holds the values of positions `..i` after
   * their turn, so a due reminder at an earlier position is compared with
   * its new time. Rescheduling reads the stored time back with `parse`.
   */
  function CheckedAsWrittenFrom(rs: seq<Reminder>, due: seq<nat>, i: nat, updated: seq<Reminder>,
                                fmt: Format, parse: Parse): seq<Reminder>
    requires i <= |rs| && |updated| == i
    requires forall k :: 0 <= k < |due| ==> due[k] < |rs|
    decreases |rs| - i
  {
    if i == |rs| then []
    else
      var r := rs[i];
      if r in AliasedDue(rs, due, i, updated) then
        if Recurs(r) then
          var moved := r.(time := fmt(parse(r.time) + RecurrenceStep(r.recurring.value)));
          [moved] + CheckedAsWrittenFrom(rs, due, i + 1, updated + [moved], fmt, parse)
        else CheckedAsWrittenFrom(rs, due, i + 1, updated + [r], fmt, parse)
      else [r] + CheckedAsWrittenFrom(rs, due, i + 1, updated + [r], fmt, parse)
  }

  /**
   * The list `triggered` as the loop sees it at position `i`: the due
   * reminders before `i` with their values after their turn, the others as
   * they were.
   */
  function AliasedDue(rs: seq<Reminder>, due: seq<nat>, i: nat, updated: seq<Reminder>): (view: seq<Reminder>)
    requires i <= |rs| && |updated| == i
    requires forall k :: 0 <= k < |due| ==> due[k] < |rs|
    ensures |view| == |due|
    ensures forall k :: 0 <= k < |due| ==> view[k] == if due[k] < i then updated[due[k]] else rs[due[k]]
  {
    seq(|due|, k requires 0 <= k < |due| => if due[k] < i then updated[due[k]] else rs[due[k]])
  }

  /** The positions of the reminders due at `current`. */
  function DuePositions(rs: seq<Reminder>, current: string, from: nat): (ps: seq<nat>)
    requires from <= |rs|
    ensures forall k :: 0 <= k < |ps| ==> from <= ps[k] < |rs| && rs[ps[k]].time == current
    decreases |rs| - from
  {
    if from == |rs| then []
    else (if rs[from].time == current then [from] else []) + DuePositions(rs, current, from + 1)
  }

  /** `check_reminders()` as written. */
  function CheckedAsWritten(rs: seq<Reminder>, now: int, fmt: Format, parse: Parse): seq<Reminder>
  {
    var due := DuePositions(rs, fmt(now), 0);
    if due == [] then rs else CheckedAsWrittenFrom(rs, due, 0, [], fmt, parse)
  }

  /** A daily reminder due at `now`, and its twin due a day later. */
  function DueTwin(now: int, fmt: Format, message: string): Reminder
  {
    Reminder(message, fmt(now), DefaultPriority, Some("daily"), false)
  }

  function LaterTwin(now: int, fmt: Format, message: string): Reminder
  {
    DueTwin(now, fmt, message).(time := fmt(now + MinutesPerDay))
  }

  /** One turn of the as-written loop on a reminder it takes for due and recurring. */
  lemma AsWrittenMovesOn(rs: seq<Reminder>, due: seq<nat>, i: nat, updated: seq<Reminder>,
                         fmt: Format, parse: Parse, moved: Reminder)
    requires i < |rs| && |updated| == i
    requires forall k :: 0 <= k < |due| ==> due[k] < |rs|
    requires rs[i] in AliasedDue(rs, due, i, updated) && Recurs(rs[i])
    requires moved == rs[i].(time := fmt(parse(rs[i].time) + RecurrenceStep(rs[i].recurring.value)))
    ensures CheckedAsWrittenFrom(rs, due, i, updated, fmt, parse)
            == [moved] + CheckedAsWrittenFrom(rs, due, i + 1, updated + [moved], fmt, parse)
  {
  }

  /**
   * Two daily reminders with the same message, one due now and one due a
   * day later: as written, moving the first makes it equal to the second,
   * so the second is taken for a due reminder and moved a further day.
   */
  lemma LaterTwinIsMovedTwice(now: int, fmt: Format, parse: Parse, message: string)
    requires forall m :: parse(fmt(m)) == m
    ensures var b := LaterTwin(now, fmt, message);
            CheckedAsWritten([DueTwin(now, fmt, message), b], now, fmt, parse)
            == [b, b.(time := fmt(now + 2 * MinutesPerDay))]
  {
    var a := DueTwin(now, fmt, message);
    var b := LaterTwin(now, fmt, message);
    var c := b.(time := fmt(now + 2 * MinutesPerDay));
    var rs := [a, b];
    assert fmt(now + MinutesPerDay) != fmt(now) by {
      assert parse(fmt(now + MinutesPerDay)) != parse(fmt(now));
    }
    assert DuePositions(rs, fmt(now), 2) == [];
    assert DuePositions(rs, fmt(now), 1) == [];
    var due := DuePositions(rs, fmt(now), 0);
    assert due == [0];
    // position 0: `a` is due, and moving it on gives `b`
    assert AliasedDue(rs, due, 0, [])[0] == a;
    assert parse(a.time) == now;
    AsWrittenMovesOn(rs, due, 0, [], fmt, parse, b);
    // position 1: the moved `a` now equals `b`, so `b` counts as due
    assert AliasedDue(rs, due, 1, [b])[0] == b;
    assert parse(b.time) == now + MinutesPerDay;
    AsWrittenMovesOn(rs, due, 1, [b], fmt, parse, c);
  }

  /** As intended, the same two reminders end up both due a day later. */
  lemma LaterTwinKeepsItsTime(now: int, fmt: Format, parse: Parse, message: string)
    requires forall m :: parse(fmt(m)) == m
    ensures var b := LaterTwin(now, fmt, message);
            Checked([DueTwin(now, fmt, message), b], now, fmt) == [b, b]
  {
    var a := DueTwin(now, fmt, message);
    var b := LaterTwin(now, fmt, message);
    var rs := [a, b];
    assert fmt(now + MinutesPerDay) != fmt(now) by {
      assert parse(fmt(now + MinutesPerDay)) != parse(fmt(now));
    }
    assert rs[..1] == [a];
    assert a in Due(rs, fmt(now));
    assert Rescheduled(rs, fmt(now), now, fmt) == Rescheduled(rs[..1], fmt(now), now, fmt) + [b];
    assert Rescheduled(rs[..1], fmt(now), now, fmt) == Rescheduled([], fmt(now), now, fmt) + [b];
  }
}
