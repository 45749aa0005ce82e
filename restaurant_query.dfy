/**
 * The fetch request of the restaurant list: the search predicate
 * "name CONTAINS[c] text OR location CONTAINS[c] text", applied only for a
 * non-empty search text, and the ascending sort on `name`.
 *
 * Records are managed objects, so they are referred to by identity (`Id`);
 * `objects` maps each identity to the object's current attribute values.
 * The string collation is an abstract total preorder `le` and the case
 * folding an abstract character map `fold`; sortedness and the permutation
 * property hold for any choice of either. The exact result sequences (and so
 * the delete lemmas) depend on the sort keeping equal names in store order.
 */
module RestaurantQuery {
  import opened Text

  /** Store-assigned identity of a managed restaurant object. */
  type Id = nat

  /** The attributes of a restaurant record the list controller reads or writes. */
  datatype Restaurant = Restaurant(name: string, location: string, phone: string, isFavorite: bool)

  ghost predicate NoDuplicates(ids: seq<Id>) {
    forall i, j :: 0 <= i < j < |ids| ==> ids[i] != ids[j]
  }

  ghost predicate AllKnown(ids: seq<Id>, objects: map<Id, Restaurant>) {
    forall id :: id in ids ==> id in objects
  }

  /** A string order usable as a sort key: total and transitive (equal names may tie). */
  ghost predicate TotalPreorder(le: (string, string) -> bool) {
    && (forall a, b :: le(a, b) || le(b, a))
    && (forall a, b, c :: le(a, b) && le(b, c) ==> le(a, c))
  }

  /** Two object maps agree on everything the fetch request looks at (identity, name, location). */
  ghost predicate SameSearchKeys(o1: map<Id, Restaurant>, o2: map<Id, Restaurant>) {
    && o1.Keys == o2.Keys
    && forall id :: id in o1 ==> o1[id].name == o2[id].name && o1[id].location == o2[id].location
  }

  // ---------------------------------------------------------------- predicate

  /** The search predicate on one record: name or location contains the text, ignoring case. */
  predicate Matches(r: Restaurant, text: string, fold: char -> char) {
    ContainsFolded(r.name, text, fold) || ContainsFolded(r.location, text, fold)
  }

  /** The search predicate on an identity: the object exists and its record matches. */
  predicate IsMatch(objects: map<Id, Restaurant>, id: Id, text: string, fold: char -> char) {
    id in objects && Matches(objects[id], text, fold)
  }

  /** The empty search text matches every record, so "no predicate" and "predicate on empty text" agree. */
  lemma EmptyTextMatchesEverything(r: Restaurant, fold: char -> char)
    ensures Matches(r, "", fold)
  {
    ContainsEmpty(Folded(r.name, fold));
  }

  /** The stored identities that satisfy the search predicate, in store order. */
  function Filter(ids: seq<Id>, objects: map<Id, Restaurant>, text: string, fold: char -> char): seq<Id>
  {
    if ids == [] then []
    else (if IsMatch(objects, ids[0], text, fold) then [ids[0]] else []) + Filter(ids[1..], objects, text, fold)
  }

  /** The filter keeps the matching stored identities, each as often as it is stored, and drops the rest. */
  lemma {:induction false} FilterCount(ids: seq<Id>, objects: map<Id, Restaurant>, text: string, fold: char -> char)
    ensures forall id ::
      multiset(Filter(ids, objects, text, fold))[id] == if IsMatch(objects, id, text, fold) then multiset(ids)[id] else 0
  {
    if ids != [] {
      assert ids == [ids[0]] + ids[1..];
      FilterCount(ids[1..], objects, text, fold);
    }
  }

  lemma FilterMembers(ids: seq<Id>, objects: map<Id, Restaurant>, text: string, fold: char -> char)
    ensures forall id :: id in Filter(ids, objects, text, fold) <==> id in ids && IsMatch(objects, id, text, fold)
    ensures multiset(Filter(ids, objects, text, fold)) <= multiset(ids)
  {
    FilterCount(ids, objects, text, fold);
    forall id ensures id in Filter(ids, objects, text, fold) <==> id in ids && IsMatch(objects, id, text, fold) {
      assert id in Filter(ids, objects, text, fold) <==> id in multiset(Filter(ids, objects, text, fold));
      assert id in ids <==> id in multiset(ids);
    }
  }

  // ---------------------------------------------------------------- sort

  /** The sort key: the object's name (absent objects sort as the empty name). */
  function NameOf(objects: map<Id, Restaurant>, id: Id): string {
    if id in objects then objects[id].name else ""
  }

  ghost predicate SortedByName(ids: seq<Id>, objects: map<Id, Restaurant>, le: (string, string) -> bool) {
    forall i, j :: 0 <= i < j < |ids| ==> le(NameOf(objects, ids[i]), NameOf(objects, ids[j]))
  }

  /** Inserts `x` before the first element whose name is not below it. */
  function InsertByName(x: Id, l: seq<Id>, objects: map<Id, Restaurant>, le: (string, string) -> bool): seq<Id>
  {
    if l == [] then [x]
    else if le(NameOf(objects, x), NameOf(objects, l[0])) then [x] + l
    else [l[0]] + InsertByName(x, l[1..], objects, le)
  }

  /** Insertion sort by name, ascending. */
  function SortByName(ids: seq<Id>, objects: map<Id, Restaurant>, le: (string, string) -> bool): seq<Id>
  {
    if ids == [] then [] else InsertByName(ids[0], SortByName(ids[1..], objects, le), objects, le)
  }

  lemma {:induction false} InsertCount(x: Id, l: seq<Id>, objects: map<Id, Restaurant>, le: (string, string) -> bool)
    ensures multiset(InsertByName(x, l, objects, le)) == multiset(l) + multiset{x}
  {
    if l != [] && !le(NameOf(objects, x), NameOf(objects, l[0])) {
      assert l == [l[0]] + l[1..];
      InsertCount(x, l[1..], objects, le);
    }
  }

  /** Sorting neither adds, drops nor duplicates an identity. */
  lemma {:induction false} SortCount(ids: seq<Id>, objects: map<Id, Restaurant>, le: (string, string) -> bool)
    ensures multiset(SortByName(ids, objects, le)) == multiset(ids)
  {
    if ids != [] {
      assert ids == [ids[0]] + ids[1..];
      SortCount(ids[1..], objects, le);
      InsertCount(ids[0], SortByName(ids[1..], objects, le), objects, le);
    }
  }

  lemma {:induction false} InsertKeepsSorted(x: Id, l: seq<Id>, objects: map<Id, Restaurant>, le: (string, string) -> bool)
    requires TotalPreorder(le) && SortedByName(l, objects, le)
    ensures SortedByName(InsertByName(x, l, objects, le), objects, le)
  {
    if l == [] {
    } else if le(NameOf(objects, x), NameOf(objects, l[0])) {
    } else {
      var tail := InsertByName(x, l[1..], objects, le);
      InsertKeepsSorted(x, l[1..], objects, le);
      InsertCount(x, l[1..], objects, le);
      assert le(NameOf(objects, l[0]), NameOf(objects, x));
      forall k | 0 <= k < |tail| ensures le(NameOf(objects, l[0]), NameOf(objects, tail[k])) {
        assert tail[k] in multiset(tail);
        assert tail[k] == x || tail[k] in l[1..];
      }
    }
  }

  lemma {:induction false} SortIsSorted(ids: seq<Id>, objects: map<Id, Restaurant>, le: (string, string) -> bool)
    requires TotalPreorder(le)
    ensures SortedByName(SortByName(ids, objects, le), objects, le)
  {
    if ids != [] {
      SortIsSorted(ids[1..], objects, le);
      InsertKeepsSorted(ids[0], SortByName(ids[1..], objects, le), objects, le);
    }
  }

  // ---------------------------------------------------------------- the fetch

  /**
   * The fetch request's result: with an empty search text no predicate is set and
   * every stored object is returned; otherwise only the matching ones. Either way
   * the result is sorted ascending by name.
   */
  function Query(store: seq<Id>, objects: map<Id, Restaurant>, text: string,
                 fold: char -> char, le: (string, string) -> bool): seq<Id>
  {
    SortByName(if text == "" then store else Filter(store, objects, text, fold), objects, le)
  }

  /** With an empty search text the fetch returns every stored object, sorted by name. */
  lemma QueryWithoutPredicate(store: seq<Id>, objects: map<Id, Restaurant>,
                              fold: char -> char, le: (string, string) -> bool)
    requires TotalPreorder(le)
    ensures multiset(Query(store, objects, "", fold, le)) == multiset(store)
    ensures SortedByName(Query(store, objects, "", fold, le), objects, le)
  {
    SortIsSorted(store, objects, le);
    SortCount(store, objects, le);
  }

  /**
   * Soundness and completeness of the search: an identity is fetched exactly when it
   * is stored and, for a non-empty text, its name or location contains the text.
   */
  lemma QuerySelectsMatches(store: seq<Id>, objects: map<Id, Restaurant>, text: string,
                            fold: char -> char, le: (string, string) -> bool, id: Id)
    requires text != ""
    ensures id in Query(store, objects, text, fold, le) <==>
      id in store && id in objects && Matches(objects[id], text, fold)
  {
    var matching := Filter(store, objects, text, fold);
    FilterMembers(store, objects, text, fold);
    var fetched := Query(store, objects, text, fold, le);
    SortCount(matching, objects, le);
    assert multiset(fetched) == multiset(matching);
    assert id in fetched <==> id in multiset(fetched);
    assert id in matching <==> id in multiset(matching);
  }

  /** The fetched sequence is sorted by name and is a permutation of the records selected by the predicate. */
  lemma QuerySortedPermutation(store: seq<Id>, objects: map<Id, Restaurant>, text: string,
                               fold: char -> char, le: (string, string) -> bool)
    requires TotalPreorder(le)
    ensures SortedByName(Query(store, objects, text, fold, le), objects, le)
    ensures multiset(Query(store, objects, text, fold, le)) ==
      multiset(if text == "" then store else Filter(store, objects, text, fold))
  {
    SortIsSorted(if text == "" then store else Filter(store, objects, text, fold), objects, le);
    SortCount(if text == "" then store else Filter(store, objects, text, fold), objects, le);
  }

  /** The fetched identities are distinct whenever the stored ones are. */
  lemma QueryNoDuplicates(store: seq<Id>, objects: map<Id, Restaurant>, text: string,
                          fold: char -> char, le: (string, string) -> bool)
    requires NoDuplicates(store)
    ensures NoDuplicates(Query(store, objects, text, fold, le))
  {
    if text != "" {
      FilterNoDuplicates(store, objects, text, fold);
    }
    SortNoDuplicates(if text == "" then store else Filter(store, objects, text, fold), objects, le);
  }

  lemma {:induction false} FilterNoDuplicates(ids: seq<Id>, objects: map<Id, Restaurant>, text: string, fold: char -> char)
    requires NoDuplicates(ids)
    ensures NoDuplicates(Filter(ids, objects, text, fold))
  {
    if ids != [] {
      FilterNoDuplicates(ids[1..], objects, text, fold);
      FilterMembers(ids[1..], objects, text, fold);
      assert ids[0] !in ids[1..];
    }
  }

  lemma {:induction false} InsertNoDuplicates(x: Id, l: seq<Id>, objects: map<Id, Restaurant>, le: (string, string) -> bool)
    requires NoDuplicates(l) && x !in l
    ensures NoDuplicates(InsertByName(x, l, objects, le))
  {
    if l != [] && !le(NameOf(objects, x), NameOf(objects, l[0])) {
      var tail := InsertByName(x, l[1..], objects, le);
      InsertNoDuplicates(x, l[1..], objects, le);
      InsertCount(x, l[1..], objects, le);
      assert l[0] !in multiset(tail);
    }
  }

  lemma {:induction false} SortNoDuplicates(ids: seq<Id>, objects: map<Id, Restaurant>, le: (string, string) -> bool)
    requires NoDuplicates(ids)
    ensures NoDuplicates(SortByName(ids, objects, le))
  {
    if ids != [] {
      SortNoDuplicates(ids[1..], objects, le);
      SortCount(ids[1..], objects, le);
      assert ids[0] !in multiset(SortByName(ids[1..], objects, le));
      InsertNoDuplicates(ids[0], SortByName(ids[1..], objects, le), objects, le);
    }
  }

  // ---------------------------------------------------------------- deletion

  /** `l` without the identity `t`; the other identities keep their relative order. */
  function RemoveId(l: seq<Id>, t: Id): seq<Id>
  {
    if l == [] then [] else (if l[0] == t then [] else [l[0]]) + RemoveId(l[1..], t)
  }

  /** Exactly the occurrences of `t` are dropped. */
  lemma {:induction false} RemoveIdCount(l: seq<Id>, t: Id)
    ensures multiset(RemoveId(l, t)) == multiset(l)[t := 0]
  {
    if l != [] {
      RemoveIdCount(l[1..], t);
      assert l == [l[0]] + l[1..];
    }
  }

  lemma RemoveIdMembers(l: seq<Id>, t: Id)
    ensures forall id :: id in RemoveId(l, t) <==> id in l && id != t
  {
    RemoveIdCount(l, t);
    forall id ensures id in RemoveId(l, t) <==> id in l && id != t {
      assert id in RemoveId(l, t) <==> id in multiset(RemoveId(l, t));
      assert id in l <==> id in multiset(l);
    }
  }

  /** In a sequence without duplicates, removing the identity at position `k` cuts out exactly that position. */
  lemma {:induction false} RemoveIdCutsPosition(l: seq<Id>, k: nat)
    requires NoDuplicates(l) && k < |l|
    ensures RemoveId(l, l[k]) == l[..k] + l[k + 1..]
  {
    if k == 0 {
      RemoveAbsent(l[1..], l[0]);
    } else {
      RemoveIdCutsPosition(l[1..], k - 1);
      assert l[1..][..k - 1] + l[1..][k..] == l[1..k] + l[k + 1..];
      assert l[..k] == [l[0]] + l[1..k];
    }
  }

  lemma {:induction false} RemoveAbsent(l: seq<Id>, t: Id)
    requires t !in l
    ensures RemoveId(l, t) == l
  {
    if l != [] {
      RemoveAbsent(l[1..], t);
    }
  }

  /** Removal from a sequence that starts with a known element. */
  lemma RemoveIdCons(x: Id, l: seq<Id>, t: Id)
    ensures RemoveId([x] + l, t) == if x == t then RemoveId(l, t) else [x] + RemoveId(l, t)
  {
    assert ([x] + l)[0] == x && ([x] + l)[1..] == l;
  }

  lemma {:induction false} FilterAfterRemove(ids: seq<Id>, objects: map<Id, Restaurant>, text: string, fold: char -> char, t: Id)
    ensures Filter(RemoveId(ids, t), objects, text, fold) == RemoveId(Filter(ids, objects, text, fold), t)
  {
    if ids != [] {
      var x, rest := ids[0], ids[1..];
      assert ids == [x] + rest;
      FilterAfterRemove(rest, objects, text, fold, t);
      RemoveIdCons(x, rest, t);
      var kept := Filter(rest, objects, text, fold);
      if IsMatch(objects, x, text, fold) {
        assert Filter(ids, objects, text, fold) == [x] + kept;
        RemoveIdCons(x, kept, t);
        if x != t {
          var removed := RemoveId(rest, t);
          assert ([x] + removed)[0] == x && ([x] + removed)[1..] == removed;
        }
      } else {
        assert Filter(ids, objects, text, fold) == kept;
        if x != t {
          var removed := RemoveId(rest, t);
          assert ([x] + removed)[0] == x && ([x] + removed)[1..] == removed;
        }
      }
    }
  }

  lemma {:induction false} RemoveInserted(x: Id, l: seq<Id>, objects: map<Id, Restaurant>, le: (string, string) -> bool)
    ensures RemoveId(InsertByName(x, l, objects, le), x) == RemoveId(l, x)
  {
    if l != [] && !le(NameOf(objects, x), NameOf(objects, l[0])) {
      RemoveInserted(x, l[1..], objects, le);
    }
  }

  /** Inserting `x` before an element whose name is not below it puts `x` in front of what follows that element. */
  lemma InsertInFront(x: Id, l: seq<Id>, head: Id, t: Id, objects: map<Id, Restaurant>, le: (string, string) -> bool)
    requires TotalPreorder(le) && SortedByName([head] + l, objects, le)
    requires le(NameOf(objects, x), NameOf(objects, head))
    ensures InsertByName(x, RemoveId(l, t), objects, le) == [x] + RemoveId(l, t)
  {
    var m := RemoveId(l, t);
    if m != [] {
      RemoveIdMembers(l, t);
      assert m[0] in l;
      var j :| 0 <= j < |l| && l[j] == m[0];
      var hl := [head] + l;
      assert hl[0] == head && hl[j + 1] == m[0] && j + 1 < |hl|;
      assert le(NameOf(objects, hl[0]), NameOf(objects, hl[j + 1]));
      assert le(NameOf(objects, head), NameOf(objects, m[0]));
      assert le(NameOf(objects, x), NameOf(objects, m[0]));
    }
  }

  lemma SortedTail(l: seq<Id>, objects: map<Id, Restaurant>, le: (string, string) -> bool)
    requires l != [] && SortedByName(l, objects, le)
    ensures SortedByName(l[1..], objects, le)
  {
    forall i, j | 0 <= i < j < |l| - 1
      ensures le(NameOf(objects, l[1..][i]), NameOf(objects, l[1..][j]))
    {
      assert l[1..][i] == l[i + 1] && l[1..][j] == l[j + 1];
    }
  }

  lemma {:induction false} InsertAfterRemove(x: Id, l: seq<Id>, t: Id, objects: map<Id, Restaurant>, le: (string, string) -> bool)
    requires TotalPreorder(le) && SortedByName(l, objects, le) && x != t
    ensures InsertByName(x, RemoveId(l, t), objects, le) == RemoveId(InsertByName(x, l, objects, le), t)
  {
    if l != [] {
      var y, rest := l[0], l[1..];
      assert l == [y] + rest;
      RemoveIdCons(y, rest, t);
      var removed := RemoveId(rest, t);
      assert ([y] + removed)[0] == y && ([y] + removed)[1..] == removed;
      if le(NameOf(objects, x), NameOf(objects, y)) {
        InsertInFront(x, rest, y, t, objects, le);
        assert InsertByName(x, l, objects, le) == [x] + l;
        RemoveIdCons(x, l, t);
      } else {
        SortedTail(l, objects, le);
        InsertAfterRemove(x, rest, t, objects, le);
        assert InsertByName(x, l, objects, le) == [y] + InsertByName(x, rest, objects, le);
        RemoveIdCons(y, InsertByName(x, rest, objects, le), t);
      }
    }
  }

  lemma {:induction false} SortAfterRemove(ids: seq<Id>, t: Id, objects: map<Id, Restaurant>, le: (string, string) -> bool)
    requires TotalPreorder(le)
    ensures SortByName(RemoveId(ids, t), objects, le) == RemoveId(SortByName(ids, objects, le), t)
  {
    if ids != [] {
      var x := ids[0];
      assert ids == [x] + ids[1..];
      RemoveIdCons(x, ids[1..], t);
      SortAfterRemove(ids[1..], t, objects, le);
      if x == t {
        RemoveInserted(x, SortByName(ids[1..], objects, le), objects, le);
      } else {
        var rest := RemoveId(ids[1..], t);
        assert ([x] + rest)[0] == x && ([x] + rest)[1..] == rest;
        SortIsSorted(ids[1..], objects, le);
        InsertAfterRemove(x, SortByName(ids[1..], objects, le), t, objects, le);
      }
    }
  }

  /**
   * Deleting an object from the store removes exactly that identity from the fetch
   * result and leaves every other fetched identity in its relative order.
   */
  lemma QueryAfterDelete(store: seq<Id>, objects: map<Id, Restaurant>, text: string,
                         fold: char -> char, le: (string, string) -> bool, t: Id)
    requires TotalPreorder(le)
    ensures Query(RemoveId(store, t), objects, text, fold, le) == RemoveId(Query(store, objects, text, fold, le), t)
  {
    if text == "" {
      SortAfterRemove(store, t, objects, le);
    } else {
      FilterAfterRemove(store, objects, text, fold, t);
      SortAfterRemove(Filter(store, objects, text, fold), t, objects, le);
    }
  }

  /**
   * Deleting the object at a row of the fetch result: the new result is the old one
   * without that row, the other rows in their order.
   */
  lemma DeleteFetchedRow(store: seq<Id>, objects: map<Id, Restaurant>, text: string,
                         fold: char -> char, le: (string, string) -> bool, listed: seq<Id>, row: nat)
    requires TotalPreorder(le) && NoDuplicates(store)
    requires listed == Query(store, objects, text, fold, le) && row < |listed|
    ensures Query(RemoveId(store, listed[row]), objects, text, fold, le) == listed[..row] + listed[row + 1..]
  {
    QueryAfterDelete(store, objects, text, fold, le, listed[row]);
    QueryNoDuplicates(store, objects, text, fold, le);
    RemoveIdCutsPosition(listed, row);
  }

  // ---------------------------------------------------------------- frame

  lemma {:induction false} FilterSameKeys(ids: seq<Id>, o1: map<Id, Restaurant>, o2: map<Id, Restaurant>, text: string, fold: char -> char)
    requires SameSearchKeys(o1, o2)
    ensures Filter(ids, o1, text, fold) == Filter(ids, o2, text, fold)
  {
    if ids != [] {
      FilterSameKeys(ids[1..], o1, o2, text, fold);
    }
  }

  lemma {:induction false} InsertSameKeys(x: Id, l: seq<Id>, o1: map<Id, Restaurant>, o2: map<Id, Restaurant>, le: (string, string) -> bool)
    requires SameSearchKeys(o1, o2)
    ensures InsertByName(x, l, o1, le) == InsertByName(x, l, o2, le)
  {
    if l != [] {
      InsertSameKeys(x, l[1..], o1, o2, le);
    }
  }

  lemma {:induction false} SortSameKeys(ids: seq<Id>, o1: map<Id, Restaurant>, o2: map<Id, Restaurant>, le: (string, string) -> bool)
    requires SameSearchKeys(o1, o2)
    ensures SortByName(ids, o1, le) == SortByName(ids, o2, le)
  {
    if ids != [] {
      SortSameKeys(ids[1..], o1, o2, le);
      InsertSameKeys(ids[0], SortByName(ids[1..], o1, le), o1, o2, le);
    }
  }

  /** Changing anything but names and locations (the favourite flag, say) leaves the fetch result unchanged. */
  lemma QueryIgnoresOtherAttributes(store: seq<Id>, o1: map<Id, Restaurant>, o2: map<Id, Restaurant>, text: string,
                                    fold: char -> char, le: (string, string) -> bool)
    requires SameSearchKeys(o1, o2)
    ensures Query(store, o1, text, fold, le) == Query(store, o2, text, fold, le)
  {
    FilterSameKeys(store, o1, o2, text, fold);
    SortSameKeys(if text == "" then store else Filter(store, o1, text, fold), o1, o2, le);
  }

  /** Everything fetched is stored. */
  lemma QueryFromStore(store: seq<Id>, objects: map<Id, Restaurant>, text: string,
                       fold: char -> char, le: (string, string) -> bool)
    ensures forall id :: id in Query(store, objects, text, fold, le) ==> id in store
  {
    var selected := if text == "" then store else Filter(store, objects, text, fold);
    FilterMembers(store, objects, text, fold);
    SortCount(selected, objects, le);
    forall id | id in Query(store, objects, text, fold, le) ensures id in store {
      assert id in multiset(Query(store, objects, text, fold, le));
      assert id in multiset(selected);
    }
  }

  /** Deleting keeps the store free of duplicates. */
  lemma {:induction false} RemoveIdNoDuplicates(l: seq<Id>, t: Id)
    requires NoDuplicates(l)
    ensures NoDuplicates(RemoveId(l, t))
  {
    if l != [] {
      assert l == [l[0]] + l[1..];
      RemoveIdNoDuplicates(l[1..], t);
      RemoveIdMembers(l[1..], t);
      RemoveIdCons(l[0], l[1..], t);
      assert l[0] !in l[1..];
    }
  }
}
