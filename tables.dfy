/** The identifier tables the client builds from the data package (Client.py,
    on_package "DataPackage"). A Python dict is modelled by the list of its items
    in insertion order, because the inversion comprehension depends on that order
    when two names share an id. */
module Tables {

  /** The items() of a name -> id dict. */
  type Table = seq<(string, int)>

  predicate NamesDistinct(t: Table)
  {
    forall p, q :: 0 <= p < q < |t| ==> t[p].0 != t[q].0
  }

  predicate IdsDistinct(t: Table)
  {
    forall p, q :: 0 <= p < q < |t| ==> t[p].1 != t[q].1
  }

  /** dict(t): the name -> id map, a later item overriding an earlier one with the same name. */
  function ToMap(t: Table): map<string, int>
  {
    if t == [] then map[]
    else ToMap(t[..|t| - 1])[t[|t| - 1].0 := t[|t| - 1].1]
  }

  /** {v: k for k, v in t}: the id -> name map, the last name of a repeated id winning. */
  function Inverse(t: Table): map<int, string>
  {
    if t == [] then map[]
    else Inverse(t[..|t| - 1])[t[|t| - 1].1 := t[|t| - 1].0]
  }

  /** The items of t whose id is in ids, in t's order. */
  function KeepIds(t: Table, ids: set<int>): Table
  {
    if t == [] then []
    else KeepIds(t[..|t| - 1], ids) + (if t[|t| - 1].1 in ids then [t[|t| - 1]] else [])
  }

  /** dict(t) has exactly t's names as keys, and maps each name to the id of its last item. */
  lemma {:induction false} ToMapEntries(t: Table)
    ensures forall n :: n in ToMap(t) <==> exists k :: 0 <= k < |t| && t[k].0 == n
    ensures forall k :: 0 <= k < |t| && (forall j :: k < j < |t| ==> t[j].0 != t[k].0) ==>
      ToMap(t)[t[k].0] == t[k].1
  {
    if t != [] {
      var init := t[..|t| - 1];
      ToMapEntries(init);
      assert forall k :: 0 <= k < |init| ==> init[k] == t[k];
    }
  }

  /** The inverse has exactly t's ids as keys, and maps each id to the name of its last item. */
  lemma {:induction false} InverseEntries(t: Table)
    ensures forall i :: i in Inverse(t) <==> exists k :: 0 <= k < |t| && t[k].1 == i
    ensures forall k :: 0 <= k < |t| && (forall j :: k < j < |t| ==> t[j].1 != t[k].1) ==>
      Inverse(t)[t[k].1] == t[k].0
  {
    if t != [] {
      var init := t[..|t| - 1];
      InverseEntries(init);
      assert forall k :: 0 <= k < |init| ==> init[k] == t[k];
    }
  }

  /** With distinct names, every item is an entry of dict(t). */
  lemma ToMapOfDistinct(t: Table)
    requires NamesDistinct(t)
    ensures forall k :: 0 <= k < |t| ==> t[k].0 in ToMap(t) && ToMap(t)[t[k].0] == t[k].1
  {
    ToMapEntries(t);
  }

  /** With distinct names and distinct ids, the id -> name map is the inverse of the
      name -> id map in both directions. */
  lemma InverseRoundTrip(t: Table)
    requires NamesDistinct(t) && IdsDistinct(t)
    ensures forall n :: n in ToMap(t) ==> ToMap(t)[n] in Inverse(t) && Inverse(t)[ToMap(t)[n]] == n
    ensures forall i :: i in Inverse(t) ==> Inverse(t)[i] in ToMap(t) && ToMap(t)[Inverse(t)[i]] == i
  {
    ToMapEntries(t);
    InverseEntries(t);
  }

  /** KeepIds keeps exactly the items whose id is in ids. */
  lemma {:induction false} KeepIdsMembers(t: Table, ids: set<int>)
    ensures forall e :: e in KeepIds(t, ids) <==> e in t && e.1 in ids
  {
    if t != [] {
      var init := t[..|t| - 1];
      KeepIdsMembers(init, ids);
      assert t == init + [t[|t| - 1]];
    }
  }

  /** Appending an item whose name is new keeps names distinct. */
  lemma AppendNewName(t: Table, e: (string, int))
    requires NamesDistinct(t) && forall k :: 0 <= k < |t| ==> t[k].0 != e.0
    ensures NamesDistinct(t + [e])
  {
  }

  /** Appending an item whose id is new keeps ids distinct. */
  lemma AppendNewId(t: Table, e: (string, int))
    requires IdsDistinct(t) && forall k :: 0 <= k < |t| ==> t[k].1 != e.1
    ensures IdsDistinct(t + [e])
  {
  }

  /** Filtering keeps names distinct. */
  lemma {:induction false} KeepIdsNames(t: Table, ids: set<int>)
    requires NamesDistinct(t)
    ensures NamesDistinct(KeepIds(t, ids))
  {
    if t != [] {
      var init := t[..|t| - 1];
      var last := t[|t| - 1];
      KeepIdsNames(init, ids);
      KeepIdsMembers(init, ids);
      if last.1 in ids {
        var kept := KeepIds(init, ids);
        forall k | 0 <= k < |kept| ensures kept[k].0 != last.0 {
          assert kept[k] in init;
        }
        AppendNewName(kept, last);
      }
    }
  }

  /** Filtering keeps ids distinct. */
  lemma {:induction false} KeepIdsIds(t: Table, ids: set<int>)
    requires IdsDistinct(t)
    ensures IdsDistinct(KeepIds(t, ids))
  {
    if t != [] {
      var init := t[..|t| - 1];
      var last := t[|t| - 1];
      KeepIdsIds(init, ids);
      KeepIdsMembers(init, ids);
      if last.1 in ids {
        var kept := KeepIds(init, ids);
        forall k | 0 <= k < |kept| ensures kept[k].1 != last.1 {
          assert kept[k] in init;
        }
        AppendNewId(kept, last);
      }
    }
  }

  /** KeepIds keeps exactly the items whose id is in ids, and keeps names and ids distinct. */
  lemma KeepIdsItems(t: Table, ids: set<int>)
    ensures forall e :: e in KeepIds(t, ids) <==> e in t && e.1 in ids
    ensures NamesDistinct(t) ==> NamesDistinct(KeepIds(t, ids))
    ensures IdsDistinct(t) ==> IdsDistinct(KeepIds(t, ids))
  {
    KeepIdsMembers(t, ids);
    if NamesDistinct(t) {
      KeepIdsNames(t, ids);
    }
    if IdsDistinct(t) {
      KeepIdsIds(t, ids);
    }
  }

  /** The filtered location dict holds exactly the payload entries whose id is in ids. */
  lemma KeepIdsMap(t: Table, ids: set<int>)
    requires NamesDistinct(t)
    ensures forall n :: n in ToMap(KeepIds(t, ids)) <==> n in ToMap(t) && ToMap(t)[n] in ids
    ensures forall n :: n in ToMap(KeepIds(t, ids)) ==> ToMap(KeepIds(t, ids))[n] == ToMap(t)[n]
  {
    var kept := KeepIds(t, ids);
    KeepIdsItems(t, ids);
    ToMapEntries(t);
    ToMapEntries(kept);
    ToMapOfDistinct(t);
    ToMapOfDistinct(kept);
    forall n | n in ToMap(kept)
      ensures n in ToMap(t) && ToMap(t)[n] in ids && ToMap(kept)[n] == ToMap(t)[n]
    {
      var k :| 0 <= k < |kept| && kept[k].0 == n;
      assert kept[k] in t;
    }
    forall n | n in ToMap(t) && ToMap(t)[n] in ids
      ensures n in ToMap(kept)
    {
      var k :| 0 <= k < |t| && t[k].0 == n;
      assert t[k] in kept;
    }
  }

  /** Every id of the filtered inverse is one of the session's ids. */
  lemma KeepIdsInverse(t: Table, ids: set<int>)
    ensures Inverse(KeepIds(t, ids)).Keys <= ids
  {
    var kept := KeepIds(t, ids);
    KeepIdsItems(t, ids);
    InverseEntries(kept);
    forall i | i in Inverse(kept)
      ensures i in ids
    {
      var k :| 0 <= k < |kept| && kept[k].1 == i;
      assert kept[k] in kept;
    }
  }
}
