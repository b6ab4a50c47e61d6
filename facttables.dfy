/**
 * The nested `category -> key -> [facts]` dictionaries that the memory module
 * and the knowledge base both keep, with create-or-append writes and the
 * flattened key list their fuzzy lookups search.
 */
module FactTables {
  import opened Wrappers
  import opened Dicts

  /** `key -> [facts]` inside one category. */
  type Facts = Dict<seq<string>>

  /** `category -> key -> [facts]`. */
  type FactTable = Dict<Facts>

  ghost predicate TableValid(t: FactTable)
  {
    t.Valid() && forall c :: c in t.items ==> t.items[c].Valid()
  }

  /** `t[c][k]` when both levels exist. */
  function Lookup(t: FactTable, c: string, k: string): Option<seq<string>>
  {
    if c in t.items && k in t.items[c].items then Some(t.items[c].items[k]) else None
  }

  /** The facts stored under `(c, k)`, or none. */
  function ValuesAt(t: FactTable, c: string, k: string): seq<string>
  {
    match Lookup(t, c, k)
    case Some(vs) => vs
    case None => []
  }

  /**
   * `t.setdefault(c, {}).setdefault(k, []).append(v)`: the list under `(c, k)`
   * gains `v` at its end (category and key are created when absent, at the end
   * of their orders); every other list is unchanged.
   */
  function Append(t: FactTable, c: string, k: string, v: string): (r: FactTable)
    requires TableValid(t)
    ensures TableValid(r)
    ensures Lookup(r, c, k) == Some(ValuesAt(t, c, k) + [v])
    ensures forall c', k' :: (c' != c || k' != k) ==> Lookup(r, c', k') == Lookup(t, c', k')
    ensures forall c' :: c' in r.items <==> c' in t.items || c' == c
    ensures c in t.items ==> r.keys == t.keys
    ensures c !in t.items ==> r.keys == t.keys + [c]
  {
    var facts := if c in t.items then t.items[c] else Empty();
    Put(t, c, Put(facts, k, ValuesAt(t, c, k) + [v]))
  }

  /**
   * `Append` done the way the source does it: create the category, then the
   * key, then append to the list.
   */
  lemma AppendInSteps(t: FactTable, c: string, k: string, v: string)
    requires TableValid(t)
    ensures var t1 := if c in t.items then t else Put(t, c, Empty());
            var f := t1.items[c];
            var f1 := if k in f.items then f else Put(f, k, []);
            Put(t1, c, Put(f1, k, f1.items[k] + [v])) == Append(t, c, k, v)
  {
    var t1 := if c in t.items then t else Put(t, c, Empty());
    var f := if c in t.items then t.items[c] else Empty();
    assert t1.items[c] == f;
    var f1 := if k in f.items then f else Put(f, k, []);
    var g := Put(f, k, ValuesAt(t, c, k) + [v]);
    assert Put(f1, k, f1.items[k] + [v]) == g by {
      if k !in f.items {
        assert ValuesAt(t, c, k) + [v] == f1.items[k] + [v];
        PutTwice(f, k, [], f1.items[k] + [v]);
      }
    }
    assert Put(t1, c, g) == Put(t, c, g) by {
      if c !in t.items {
        PutTwice(t, c, Empty(), g);
      }
    }
  }

  /** `[k for cat in t.values() for k in cat]` over the categories `cats`. */
  function KeysIn(t: FactTable, cats: seq<string>): (ks: seq<string>)
    requires forall c :: c in cats ==> c in t.items
    decreases |cats|
  {
    if cats == [] then [] else t.items[cats[0]].keys + KeysIn(t, cats[1..])
  }

  /** Every key of every category, categories in order and keys in order within each. */
  function AllKeys(t: FactTable): seq<string>
    requires t.Valid()
  {
    KeysIn(t, t.keys)
  }

  lemma {:induction false} KeysInMembers(t: FactTable, cats: seq<string>, k: string)
    requires TableValid(t)
    requires forall c :: c in cats ==> c in t.items
    ensures k in KeysIn(t, cats) <==> exists c :: c in cats && k in t.items[c].items
    decreases |cats|
  {
    if cats != [] {
      KeysInMembers(t, cats[1..], k);
      assert k in t.items[cats[0]].keys <==> k in t.items[cats[0]].items;
      if k in KeysIn(t, cats) {
        if k in t.items[cats[0]].keys {
          assert cats[0] in cats && k in t.items[cats[0]].items;
        } else {
          var c :| c in cats[1..] && k in t.items[c].items;
          assert c in cats;
        }
      }
      if exists c :: c in cats && k in t.items[c].items {
        var c :| c in cats && k in t.items[c].items;
        if c != cats[0] {
          assert c in cats[1..];
        }
      }
    }
  }

  /** A key is in the flattened list exactly when some category holds it. */
  lemma AllKeysMembers(t: FactTable, k: string)
    requires TableValid(t)
    ensures k in AllKeys(t) <==> exists c :: c in t.items && k in t.items[c].items
  {
    KeysInMembers(t, t.keys, k);
    forall c | c in t.items ensures c in t.keys { }
  }

  /**
   * `for category in t: if k in t[category]: ...`: the first category, in
   * insertion order, that holds key `k`.
   */
  function FirstCategoryWith(t: FactTable, cats: seq<string>, k: string): (r: Option<string>)
    requires forall c :: c in cats ==> c in t.items
    ensures r.Some? ==> r.value in cats && k in t.items[r.value].items
    ensures r.Some? ==> exists i :: 0 <= i < |cats| && cats[i] == r.value
                                    && forall j :: 0 <= j < i ==> k !in t.items[cats[j]].items
    ensures r.None? <==> forall c :: c in cats ==> k !in t.items[c].items
    decreases |cats|
  {
    if cats == [] then None
    else if k in t.items[cats[0]].items then Some(cats[0])
    else
      var r := FirstCategoryWith(t, cats[1..], k);
      if r.Some? then
        ghost var i :| 0 <= i < |cats[1..]| && cats[1..][i] == r.value
                       && forall j :: 0 <= j < i ==> k !in t.items[cats[1..][j]].items;
        assert cats[i + 1] == r.value;
        assert forall j :: 0 <= j < i + 1 ==> k !in t.items[cats[j]].items by {
          forall j | 0 <= j < i + 1 ensures k !in t.items[cats[j]].items {
            if j > 0 { assert cats[j] == cats[1..][j - 1]; }
          }
        }
        r
      else r
  }

  /** Every fact stored in the table has at most `n` characters. */
  ghost predicate FactsWithin(t: FactTable, n: nat)
  {
    forall c, k :: Lookup(t, c, k).Some? ==> forall v :: v in Lookup(t, c, k).value ==> |v| <= n
  }

  /** Appending a fact of at most `n` characters keeps every fact within `n` characters. */
  lemma AppendKeepsFactsWithin(t: FactTable, c: string, k: string, v: string, n: nat)
    requires TableValid(t) && FactsWithin(t, n) && |v| <= n
    ensures FactsWithin(Append(t, c, k, v), n)
  {
    var r := Append(t, c, k, v);
    forall c', k' | Lookup(r, c', k').Some?
      ensures forall x :: x in Lookup(r, c', k').value ==> |x| <= n
    {
      if c' == c && k' == k {
        assert Lookup(r, c', k').value == ValuesAt(t, c, k) + [v];
        assert forall x :: x in ValuesAt(t, c, k) ==> |x| <= n;
      } else {
        assert Lookup(r, c', k') == Lookup(t, c', k');
      }
    }
  }

  /** No key holds an empty list: every list the table holds was created by an append. */
  ghost predicate NoEmptyLists(t: FactTable)
  {
    forall c, k :: Lookup(t, c, k).Some? ==> Lookup(t, c, k).value != []
  }

  /** Appending keeps every list non-empty. */
  lemma AppendKeepsNoEmptyLists(t: FactTable, c: string, k: string, v: string)
    requires TableValid(t) && NoEmptyLists(t)
    ensures NoEmptyLists(Append(t, c, k, v))
  {
    var r := Append(t, c, k, v);
    forall c', k' | Lookup(r, c', k').Some? ensures Lookup(r, c', k').value != [] {
      if c' != c || k' != k {
        assert Lookup(r, c', k') == Lookup(t, c', k');
      }
    }
  }
}
