/** The received-item ledger of receive_item (Client.py): the full-resend list of
    received items is replayed against previous_received, and only items not yet
    recorded are applied. */
module Ledger {

  /** An item grant as the server sends it; compared by value, like the tuple it is. */
  datatype NetworkItem = NetworkItem(item: int, location: int, player: int, flags: int)

  predicate Distinct(s: seq<NetworkItem>)
  {
    forall p, q :: 0 <= p < q < |s| ==> s[p] != s[q]
  }

  /** previous_received after the loop of receive_item has gone over `received`. */
  function Recorded(previous: seq<NetworkItem>, received: seq<NetworkItem>): seq<NetworkItem>
  {
    if received == [] then previous
    else
      var before := Recorded(previous, received[..|received| - 1]);
      var x := received[|received| - 1];
      if x in before then before else before + [x]
  }

  /** The cell names appended to acquired_keys, one per newly recorded item. */
  function CellNames(itemNames: map<int, string>, recorded: seq<NetworkItem>): (names: seq<string>)
    requires forall k :: 0 <= k < |recorded| ==> recorded[k].item in itemNames
    ensures |names| == |recorded|
  {
    if recorded == [] then []
    else CellNames(itemNames, recorded[..|recorded| - 1]) + [itemNames[recorded[|recorded| - 1].item]]
  }

  /** Each recorded item's cell name is its entry in the id -> name table. */
  lemma {:induction false} CellNamesAt(itemNames: map<int, string>, recorded: seq<NetworkItem>)
    requires forall k :: 0 <= k < |recorded| ==> recorded[k].item in itemNames
    ensures forall k :: 0 <= k < |recorded| ==> CellNames(itemNames, recorded)[k] == itemNames[recorded[k].item]
  {
    if recorded != [] {
      var init := recorded[..|recorded| - 1];
      CellNamesAt(itemNames, init);
    }
  }

  /** The ledger only grows: the old ledger is a prefix of the new one, and at most one
      entry is added per received item. */
  lemma {:induction false} RecordedExtends(previous: seq<NetworkItem>, received: seq<NetworkItem>)
    ensures |previous| <= |Recorded(previous, received)| <= |previous| + |received|
    ensures Recorded(previous, received)[..|previous|] == previous
  {
    if received != [] {
      RecordedExtends(previous, received[..|received| - 1]);
    }
  }

  /** After the loop, an item is recorded iff it was recorded before or was received. */
  lemma {:induction false} RecordedMembers(previous: seq<NetworkItem>, received: seq<NetworkItem>)
    ensures forall x :: x in Recorded(previous, received) <==> x in previous || x in received
  {
    if received != [] {
      var init := received[..|received| - 1];
      RecordedMembers(previous, init);
      assert received == init + [received[|received| - 1]];
    }
  }

  /** Each newly recorded entry is a received item that was not recorded before, and no
      item is recorded twice by one pass; a ledger without duplicates keeps none. */
  lemma {:induction false} RecordedNew(previous: seq<NetworkItem>, received: seq<NetworkItem>)
    ensures |previous| <= |Recorded(previous, received)|
    ensures forall k :: |previous| <= k < |Recorded(previous, received)| ==>
      Recorded(previous, received)[k] !in previous && Recorded(previous, received)[k] in received
    ensures Distinct(Recorded(previous, received)[|previous|..])
    ensures Distinct(previous) ==> Distinct(Recorded(previous, received))
  {
    if received != [] {
      var init := received[..|received| - 1];
      var x := received[|received| - 1];
      RecordedNew(previous, init);
      RecordedExtends(previous, init);
      var before := Recorded(previous, init);
      if x !in before {
        assert Recorded(previous, received) == before + [x];
        assert x !in previous by {
          assert before[..|previous|] == previous;
        }
        assert (before + [x])[|previous|..] == before[|previous|..] + [x];
        assert forall y :: y in before[|previous|..] ==> y in before;
      }
    }
  }

  /** When every received item is recorded already or has an item-table entry, every
      entry a pass appends has one. */
  lemma RecordedKeys(itemNames: map<int, string>, previous: seq<NetworkItem>, received: seq<NetworkItem>)
    requires forall k :: 0 <= k < |received| ==> received[k] in previous || received[k].item in itemNames
    ensures |previous| <= |Recorded(previous, received)|
    ensures forall k :: |previous| <= k < |Recorded(previous, received)| ==>
      Recorded(previous, received)[k].item in itemNames
  {
    RecordedNew(previous, received);
  }

  /** The cell names one pass of receive_item appends to acquired_keys. */
  function NewNames(itemNames: map<int, string>, previous: seq<NetworkItem>, received: seq<NetworkItem>): seq<string>
    requires forall k :: 0 <= k < |received| ==> received[k] in previous || received[k].item in itemNames
  {
    RecordedKeys(itemNames, previous, received);
    CellNames(itemNames, Recorded(previous, received)[|previous|..])
  }

  /** The ledger after part of the received list is a prefix of the ledger after all of it. */
  lemma {:induction false} RecordedPrefix(previous: seq<NetworkItem>, received: seq<NetworkItem>, i: nat)
    requires i <= |received|
    ensures Recorded(previous, received[..i]) <= Recorded(previous, received)
  {
    if i < |received| {
      var init := received[..|received| - 1];
      assert init[..i] == received[..i];
      RecordedPrefix(previous, init, i);
      RecordedExtends(previous, init);
    } else {
      assert received[..i] == received;
    }
  }

  /** The cell names of a prefix of the entries are the prefix of their cell names. */
  lemma {:induction false} CellNamesPrefix(itemNames: map<int, string>, recorded: seq<NetworkItem>, j: nat)
    requires forall k :: 0 <= k < |recorded| ==> recorded[k].item in itemNames
    requires j <= |recorded|
    ensures CellNames(itemNames, recorded[..j]) == CellNames(itemNames, recorded)[..j]
  {
    if j < |recorded| {
      var init := recorded[..|recorded| - 1];
      assert init[..j] == recorded[..j];
      CellNamesPrefix(itemNames, init, j);
    } else {
      assert recorded[..j] == recorded;
    }
  }

  /** One iteration of the receive_item loop on the ledger. */
  lemma RecordStep(previous: seq<NetworkItem>, received: seq<NetworkItem>, i: nat)
    requires i < |received|
    ensures Recorded(previous, received[..i + 1]) ==
      if received[i] in Recorded(previous, received[..i]) then Recorded(previous, received[..i])
      else Recorded(previous, received[..i]) + [received[i]]
  {
    assert received[..i + 1][..i] == received[..i];
  }

  /** Recording one more item adds its cell name at the end. */
  lemma NamesStep(itemNames: map<int, string>, recorded: seq<NetworkItem>, x: NetworkItem)
    requires forall k :: 0 <= k < |recorded| ==> recorded[k].item in itemNames
    requires x.item in itemNames
    ensures CellNames(itemNames, recorded + [x]) == CellNames(itemNames, recorded) + [itemNames[x.item]]
  {
    assert (recorded + [x])[..|recorded|] == recorded;
  }

  /** One iteration adds the item's cell name when the item is not yet recorded, and
      nothing otherwise. */
  lemma NewNamesStep(itemNames: map<int, string>, previous: seq<NetworkItem>, received: seq<NetworkItem>, i: nat)
    requires i < |received|
    requires forall k :: 0 <= k < |received| ==> received[k] in previous || received[k].item in itemNames
    ensures received[i] in Recorded(previous, received[..i]) ==>
      NewNames(itemNames, previous, received[..i + 1]) == NewNames(itemNames, previous, received[..i])
    ensures received[i] !in Recorded(previous, received[..i]) ==>
      && received[i].item in itemNames
      && NewNames(itemNames, previous, received[..i + 1]) ==
           NewNames(itemNames, previous, received[..i]) + [itemNames[received[i].item]]
  {
    var x := received[i];
    var before := Recorded(previous, received[..i]);
    RecordStep(previous, received, i);
    RecordedExtends(previous, received[..i]);
    RecordedKeys(itemNames, previous, received[..i]);
    if x !in before {
      assert x !in previous by {
        assert before[..|previous|] == previous;
      }
      var entries := before[|previous|..];
      assert (before + [x])[|previous|..] == entries + [x];
      NamesStep(itemNames, entries, x);
    }
  }

  /** The cell names added by part of the received list are a prefix of those added
      by all of it. */
  lemma NewNamesPrefix(itemNames: map<int, string>, previous: seq<NetworkItem>, received: seq<NetworkItem>, i: nat)
    requires i <= |received|
    requires forall k :: 0 <= k < |received| ==> received[k] in previous || received[k].item in itemNames
    ensures NewNames(itemNames, previous, received[..i]) <= NewNames(itemNames, previous, received)
  {
    var part := Recorded(previous, received[..i]);
    var all := Recorded(previous, received);
    RecordedPrefix(previous, received, i);
    RecordedKeys(itemNames, previous, received[..i]);
    RecordedKeys(itemNames, previous, received);
    var entries := all[|previous|..];
    var j := |part| - |previous|;
    assert part[|previous|..] == entries[..j];
    CellNamesPrefix(itemNames, entries, j);
  }

  /** Replaying items that are all recorded changes nothing. */
  lemma {:induction false} RecordedStable(previous: seq<NetworkItem>, received: seq<NetworkItem>)
    requires forall x :: x in received ==> x in previous
    ensures Recorded(previous, received) == previous
  {
    if received != [] {
      RecordedStable(previous, received[..|received| - 1]);
    }
  }

  /** A second pass over the same received list finds every item recorded, so it
      acquires no cell name. */
  lemma ReplayAddsNothing(itemNames: map<int, string>, previous: seq<NetworkItem>, received: seq<NetworkItem>)
    ensures forall k :: 0 <= k < |received| ==> received[k] in Recorded(previous, received)
    ensures NewNames(itemNames, Recorded(previous, received), received) == []
  {
    RecordedIdempotent(previous, received);
    RecordedMembers(previous, received);
    var again := Recorded(previous, received);
    assert Recorded(again, received)[|again|..] == [];
  }

  /** Replaying the same received list a second time adds nothing to the ledger. */
  lemma RecordedIdempotent(previous: seq<NetworkItem>, received: seq<NetworkItem>)
    ensures Recorded(Recorded(previous, received), received) == Recorded(previous, received)
  {
    RecordedMembers(previous, received);
    RecordedStable(Recorded(previous, received), received);
  }
}
