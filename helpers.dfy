/**
 * The assistant's small string helpers: normalising a text to lower-case
 * words separated by single spaces, checking an answer against a list of
 * choices regardless of case, and picking one element of a list. The random
 * pick is a parameter.
 */
module Helpers {
  import opened Wrappers
  import opened PyText

  /** The text holds no whitespace character. */
  predicate Unspaced(w: string)
  {
    forall i :: 0 <= i < |w| ==> !IsSpace(w[i])
  }

  /** The longest run of non-whitespace characters at the start of `s`. */
  function WordRun(s: string): (w: string)
    ensures |w| <= |s| && w == s[..|w|]
    ensures Unspaced(w)
    ensures |w| < |s| ==> IsSpace(s[|w|])
    decreases |s|
  {
    if s != [] && !IsSpace(s[0]) then [s[0]] + WordRun(s[1..]) else []
  }

  /** `s.split()`: the maximal runs of non-whitespace characters, in order. */
  function Words(s: string): (ws: seq<string>)
    ensures forall i :: 0 <= i < |ws| ==> ws[i] != [] && Unspaced(ws[i])
    decreases |s|
  {
    if s == [] then []
    else if IsSpace(s[0]) then Words(s[1..])
    else
      var w := WordRun(s);
      [w] + Words(s[|w|..])
  }

  /** `clean_text(text)`: the words of the lower-cased text joined by single spaces. */
  function CleanText(text: string): string
  {
    Join(Words(Lower(text)), " ")
  }

  /** A word followed by whitespace or nothing is read back whole. */
  lemma {:induction false} WordRunOfWord(w: string, tail: string)
    requires Unspaced(w)
    requires tail == [] || IsSpace(tail[0])
    ensures WordRun(w + tail) == w
    decreases |w|
  {
    if w != [] {
      assert (w + tail)[1..] == w[1..] + tail;
      WordRunOfWord(w[1..], tail);
    } else {
      assert w + tail == tail;
    }
  }

  /** Splitting the join of words by single spaces gives the words back. */
  lemma {:induction false} WordsOfJoin(ws: seq<string>)
    requires forall i :: 0 <= i < |ws| ==> ws[i] != [] && Unspaced(ws[i])
    ensures Words(Join(ws, " ")) == ws
    decreases |ws|
  {
    if |ws| == 1 {
      WordRunOfWord(ws[0], []);
      assert ws[0] + [] == ws[0];
      assert ws[0][|ws[0]|..] == [];
    } else if |ws| > 1 {
      var rest := Join(ws[1..], " ");
      var s := ws[0] + " " + rest;
      assert s == ws[0] + (" " + rest);
      WordRunOfWord(ws[0], " " + rest);
      assert s[|ws[0]|..] == " " + rest;
      assert (" " + rest)[1..] == rest;
      WordsOfJoin(ws[1..]);
      assert [ws[0]] + ws[1..] == ws;
    }
  }

  /** Every character of the text is already lower-case. */
  predicate LowerCased(s: string)
  {
    forall i :: 0 <= i < |s| ==> LowerChar(s[i]) == s[i]
  }

  /** The words of a lower-cased text are lower-cased. */
  lemma {:induction false} WordsOfLowerCased(s: string)
    requires LowerCased(s)
    ensures forall i :: 0 <= i < |Words(s)| ==> LowerCased(Words(s)[i])
    decreases |s|
  {
    if s != [] {
      if IsSpace(s[0]) {
        WordsOfLowerCased(s[1..]);
      } else {
        var w := WordRun(s);
        WordsOfLowerCased(s[|w|..]);
        assert forall i :: 0 <= i < |w| ==> w[i] == s[i];
      }
    }
  }

  /** Joining lower-cased words with spaces gives a lower-cased text. */
  lemma {:induction false} JoinOfLowerCased(ws: seq<string>)
    requires forall i :: 0 <= i < |ws| ==> LowerCased(ws[i])
    ensures LowerCased(Join(ws, " "))
    decreases |ws|
  {
    if |ws| > 1 {
      JoinOfLowerCased(ws[1..]);
      var rest := Join(ws[1..], " ");
      var s := ws[0] + " " + rest;
      forall i | 0 <= i < |s| ensures LowerChar(s[i]) == s[i] {
        if i < |ws[0]| {
          assert s[i] == ws[0][i];
        } else if i > |ws[0]| {
          assert s[i] == rest[i - |ws[0]| - 1];
        }
      }
    }
  }

  /** Lower-casing an already lower-cased text changes nothing. */
  lemma LowerOfLowerCased(s: string)
    requires LowerCased(s)
    ensures Lower(s) == s
  {
  }

  /**
   * `clean_text` keeps the words of the lower-cased input, in order: the
   * result splits back into exactly those words.
   */
  lemma CleanTextWords(text: string)
    ensures Words(CleanText(text)) == Words(Lower(text))
  {
    WordsOfJoin(Words(Lower(text)));
  }

  /** Cleaning a cleaned text changes nothing. */
  lemma CleanTextIdempotent(text: string)
    ensures CleanText(CleanText(text)) == CleanText(text)
  {
    var ws := Words(Lower(text));
    LowerIdempotent(text);
    WordsOfLowerCased(Lower(text));
    JoinOfLowerCased(ws);
    LowerOfLowerCased(Join(ws, " "));
    WordsOfJoin(ws);
  }

  /**
   * The join of non-empty words without whitespace by single spaces: its only
   * whitespace characters are single spaces with a non-space on each side, so
   * it neither starts nor ends with a space and never holds two in a row.
   */
  predicate SingleSpaced(s: string)
  {
    forall i :: 0 <= i < |s| && IsSpace(s[i]) ==>
      s[i] == ' ' && 0 < i < |s| - 1 && !IsSpace(s[i - 1]) && !IsSpace(s[i + 1])
  }

  lemma {:induction false} JoinIsSingleSpaced(ws: seq<string>)
    requires forall i :: 0 <= i < |ws| ==> ws[i] != [] && Unspaced(ws[i])
    ensures SingleSpaced(Join(ws, " "))
    ensures |ws| > 0 ==> |Join(ws, " ")| > 0 && Join(ws, " ")[0] == ws[0][0]
    decreases |ws|
  {
    if |ws| > 1 {
      JoinIsSingleSpaced(ws[1..]);
      var rest := Join(ws[1..], " ");
      var s := ws[0] + " " + rest;
      assert |rest| > 0 && rest[0] == ws[1][0];
      assert forall j :: 0 <= j < |ws[0]| ==> s[j] == ws[0][j];
      forall i | 0 <= i < |s| && IsSpace(s[i])
        ensures s[i] == ' ' && 0 < i < |s| - 1 && !IsSpace(s[i - 1]) && !IsSpace(s[i + 1])
      {
        if i > |ws[0]| {
          assert s[i] == rest[i - |ws[0]| - 1];
          if i > |ws[0]| + 1 {
            assert s[i - 1] == rest[i - |ws[0]| - 2];
          }
          assert s[i + 1] == rest[i - |ws[0]|];
        } else if i == |ws[0]| {
          assert s[i - 1] == ws[0][|ws[0]| - 1];
          assert s[i + 1] == rest[0];
        }
      }
    }
  }

  /** `clean_text` output is single-spaced: no leading, trailing or doubled whitespace. */
  lemma CleanTextSingleSpaced(text: string)
    ensures SingleSpaced(CleanText(text))
  {
    JoinIsSingleSpaced(Words(Lower(text)));
  }

  /** `validate_input(text, valid_choices)`: some choice equals the text ignoring case. */
  function ValidateInput(text: string, validChoices: seq<string>): (ok: bool)
    ensures ok <==> exists i :: 0 <= i < |validChoices| && Lower(validChoices[i]) == Lower(text)
  {
    var lowered := seq(|validChoices|, i requires 0 <= i < |validChoices| => Lower(validChoices[i]));
    assert forall i :: 0 <= i < |validChoices| ==> lowered[i] == Lower(validChoices[i]);
    Lower(text) in lowered
  }

  /**
   * An answer is accepted whatever its case when one of the choices is that
   * answer: every text with the same lowering as the choice, the choice and
   * its lower-cased form among them, is accepted.
   */
  lemma ValidateIgnoresCase(text: string, validChoices: seq<string>)
    requires text in validChoices
    ensures forall t :: Lower(t) == Lower(text) ==> ValidateInput(t, validChoices)
    ensures ValidateInput(text, validChoices)
    ensures ValidateInput(Lower(text), validChoices)
  {
    var i :| 0 <= i < |validChoices| && validChoices[i] == text;
    LowerIdempotent(text);
  }

  /** `get_random_choice(choices)` with `pick` standing for the random draw. */
  function GetRandomChoice<T>(choices: seq<T>, pick: nat): (r: Option<T>)
    ensures r.None? <==> choices == []
    ensures r.Some? ==> r.value in choices
  {
    if choices == [] then None else Some(choices[pick % |choices|])
  }
}
