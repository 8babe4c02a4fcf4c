/** The session state of the APBingo client (Client.py, BingoContext): the tables
    built from the Connected and DataPackage packets, the received-item ledger, the
    acquired cells, the location checks found and those still missing. Coroutines the
    client hands to asyncio.create_task are recorded in `tasks`, in creation order;
    the bodies of those coroutines are the methods ReceiveItems, EndGoal and
    SendChecks, each run as one atomic step. Messages given to send_msgs are recorded
    in `sent`. */
module Client {
  import opened Board
  import opened Tables
  import opened Ledger
  import opened Reports

  datatype Option<T> = None | Some(value: T)

  /** The status the client reports when it goals. */
  datatype ClientStatus = ClientGoal

  /** The commands the client sends. */
  datatype Message =
    | GetDataPackage(games: seq<string>)
    | StatusUpdate(status: ClientStatus)
    | LocationChecks(locations: seq<int>)

  /** The coroutines the client schedules. */
  datatype Task =
    | SendMsgs(messages: seq<Message>)
    | EndGoalTask
    | SendChecksTask
    | ReceiveItemTask

  const GAME: string := "APBingo"

  /** Receive items from other worlds, the starting inventory and own items. */
  const ITEMS_HANDLING: int := 7

  /** set(missing_locations + checked_locations). */
  function LocationUniverse(missing: seq<int>, checked: seq<int>): (ids: set<int>)
    ensures forall x :: x in ids <==> x in missing || x in checked
  {
    set x | x in missing + checked
  }

  /** The coroutines one pass of bingo_check creates: end_goal when at least the
      required number of lines is complete, then send_checks in every case. */
  function PassTasks(lineCount: nat, requiredBingo: int): (created: seq<Task>)
    ensures EndGoalTask in created <==> lineCount >= requiredBingo
    ensures |created| >= 1 && created[|created| - 1] == SendChecksTask
    ensures multiset(created)[SendChecksTask] == 1
  {
    (if lineCount >= requiredBingo then [EndGoalTask] else []) + [SendChecksTask]
  }

  /** What the passes of bingo_check append to found_checks when the names of `added`
      are acquired one after the other, on top of `acquired`, with a pass after each. */
  function PassReports(locations: map<string, int>, acquired: seq<string>, added: seq<string>): seq<int>
  {
    if added == [] then []
    else
      PassReports(locations, acquired, added[..|added| - 1])
      + Report(locations, Lines(AcquiredSet(acquired + added)))
  }

  /** The coroutines the same passes create. */
  function PassTasksAll(requiredBingo: int, acquired: seq<string>, added: seq<string>): seq<Task>
  {
    if added == [] then []
    else
      PassTasksAll(requiredBingo, acquired, added[..|added| - 1])
      + PassTasks(|Lines(AcquiredSet(acquired + added))|, requiredBingo)
  }

  /** Once the required number of lines is complete, every later pass requests the goal
      again: the goal request is not one-shot. */
  lemma {:induction false} GoalReissued(requiredBingo: int, acquired: seq<string>, added: seq<string>)
    requires |Lines(AcquiredSet(acquired))| >= requiredBingo
    ensures multiset(PassTasksAll(requiredBingo, acquired, added))[EndGoalTask] == |added|
  {
    if added != [] {
      var init := added[..|added| - 1];
      GoalReissued(requiredBingo, acquired, init);
      LinesMonotone(AcquiredSet(acquired), AcquiredSet(acquired + added), LINE_COUNT);
    }
  }

  /** Once a line is complete, every later pass reports both its reward locations
      again: reports are not exactly-once. */
  lemma {:induction false} ReportReissued(locations: map<string, int>, acquired: seq<string>, added: seq<string>, k: nat)
    requires k < LINE_COUNT && Complete(k, AcquiredSet(acquired))
    ensures LABELS[k] + "-0" in locations ==>
      multiset(PassReports(locations, acquired, added))[locations[LABELS[k] + "-0"]] >= |added|
    ensures LABELS[k] + "-1" in locations ==>
      multiset(PassReports(locations, acquired, added))[locations[LABELS[k] + "-1"]] >= |added|
  {
    if added != [] {
      var init := added[..|added| - 1];
      var now := AcquiredSet(acquired + added);
      ReportReissued(locations, acquired, init, k);
      assert AcquiredSet(acquired) <= now;
      assert Complete(k, now);
      if LABELS[k] + "-0" in locations {
        ReportContents(locations, now, locations[LABELS[k] + "-0"]);
      }
      if LABELS[k] + "-1" in locations {
        ReportContents(locations, now, locations[LABELS[k] + "-1"]);
      }
    }
  }

  /** Once all twelve lines are complete, every later pass reports the bonus location
      again. */
  lemma {:induction false} BonusReissued(locations: map<string, int>, acquired: seq<string>, added: seq<string>)
    requires |Lines(AcquiredSet(acquired))| == LINE_COUNT && ALL_BINGO in locations
    ensures multiset(PassReports(locations, acquired, added))[locations[ALL_BINGO]] >= |added|
  {
    if added != [] {
      var init := added[..|added| - 1];
      var now := AcquiredSet(acquired + added);
      BonusReissued(locations, acquired, init);
      assert AcquiredSet(acquired) <= now;
      LinesMonotone(AcquiredSet(acquired), now, LINE_COUNT);
      LinesShape(now);
      ReportContents(locations, now, locations[ALL_BINGO]);
    }
  }

  /** The last pass of a replay reports both reward locations, where the session has
      them, of every line complete once all the names are acquired. */
  lemma LastPassReports(locations: map<string, int>, acquired: seq<string>, added: seq<string>, k: nat)
    requires added != [] && k < LINE_COUNT && Complete(k, AcquiredSet(acquired + added))
    ensures LABELS[k] + "-0" in locations ==> locations[LABELS[k] + "-0"] in PassReports(locations, acquired, added)
    ensures LABELS[k] + "-1" in locations ==> locations[LABELS[k] + "-1"] in PassReports(locations, acquired, added)
  {
    var now := AcquiredSet(acquired + added);
    var last := Report(locations, Lines(now));
    assert PassReports(locations, acquired, added) == PassReports(locations, acquired, added[..|added| - 1]) + last;
    if LABELS[k] + "-0" in locations {
      ReportContents(locations, now, locations[LABELS[k] + "-0"]);
    }
    if LABELS[k] + "-1" in locations {
      ReportContents(locations, now, locations[LABELS[k] + "-1"]);
    }
  }

  /** The replay after the data package, for a player holding row A: the pass that
      acquires the last of its cells reports both reward locations of "Bingo (A1-A5)"
      that the session has. */
  lemma RowAReplay(locations: map<string, int>, added: seq<string>)
    requires AcquiredSet(added) == {"A1", "A2", "A3", "A4", "A5"}
    requires "Bingo (A1-A5)-0" in locations && "Bingo (A1-A5)-1" in locations
    ensures locations["Bingo (A1-A5)-0"] in PassReports(locations, [], added)
    ensures locations["Bingo (A1-A5)-1"] in PassReports(locations, [], added)
  {
    assert [] + added == added;
    var s := AcquiredSet(added);
    assert Cell(0, 0) == "A1" && Cell(0, 1) == "A2" && Cell(0, 2) == "A3" && Cell(0, 3) == "A4" && Cell(0, 4) == "A5";
    assert forall col :: 0 <= col < 5 ==> Cell(0, col) in s;
    CompleteRow(0, s);
    assert LABELS[0] + "-0" == "Bingo (A1-A5)-0" && LABELS[0] + "-1" == "Bingo (A1-A5)-1";
    LastPassReports(locations, [], added, 0);
  }

  /** The acquired set partway through a pass completes all twelve lines only if the set
      at the end of the pass does. */
  lemma BonusLater(itemNames: map<int, string>, previous: seq<NetworkItem>, received: seq<NetworkItem>,
                   i: nat, acquired: seq<string>)
    requires i <= |received|
    requires forall k :: 0 <= k < |received| ==> received[k] in previous || received[k].item in itemNames
    ensures |Lines(AcquiredSet(acquired + NewNames(itemNames, previous, received[..i])))| == LINE_COUNT ==>
      |Lines(AcquiredSet(acquired + NewNames(itemNames, previous, received)))| == LINE_COUNT
  {
    var part := NewNames(itemNames, previous, received[..i]);
    var all := NewNames(itemNames, previous, received);
    NewNamesPrefix(itemNames, previous, received, i);
    var small := AcquiredSet(acquired + part);
    var large := AcquiredSet(acquired + all);
    assert small <= large by {
      forall n | n in acquired + part ensures n in acquired + all {
        var t :| 0 <= t < |acquired + part| && (acquired + part)[t] == n;
        assert (acquired + all)[t] == n;
      }
    }
    LinesMonotone(small, large, LINE_COUNT);
    LinesShape(large);
  }

  /** Concatenation is associative. */
  lemma AppendAssoc<T>(a: seq<T>, b: seq<T>, c: seq<T>)
    ensures a + b + c == a + (b + c)
  {
  }

  /** Acquiring one more name adds one pass. */
  lemma PassOne(locations: map<string, int>, requiredBingo: int, acquired: seq<string>, added: seq<string>, name: string)
    ensures PassReports(locations, acquired, added + [name]) ==
      PassReports(locations, acquired, added) + Report(locations, Lines(AcquiredSet(acquired + added + [name])))
    ensures PassTasksAll(requiredBingo, acquired, added + [name]) ==
      PassTasksAll(requiredBingo, acquired, added) + PassTasks(|Lines(AcquiredSet(acquired + added + [name]))|, requiredBingo)
  {
    assert (added + [name])[..|added|] == added;
    assert acquired + (added + [name]) == acquired + added + [name];
  }

  /** The same step, behind what earlier passes appended. */
  lemma PassStep(locations: map<string, int>, requiredBingo: int, acquired: seq<string>, added: seq<string>, name: string,
                 reports: seq<int>, created: seq<Task>)
    ensures reports + PassReports(locations, acquired, added) + Report(locations, Lines(AcquiredSet(acquired + added + [name]))) ==
      reports + PassReports(locations, acquired, added + [name])
    ensures created + PassTasksAll(requiredBingo, acquired, added) + PassTasks(|Lines(AcquiredSet(acquired + added + [name]))|, requiredBingo) ==
      created + PassTasksAll(requiredBingo, acquired, added + [name])
  {
    PassOne(locations, requiredBingo, acquired, added, name);
    AppendAssoc(reports, PassReports(locations, acquired, added), Report(locations, Lines(AcquiredSet(acquired + added + [name]))));
    AppendAssoc(created, PassTasksAll(requiredBingo, acquired, added), PassTasks(|Lines(AcquiredSet(acquired + added + [name]))|, requiredBingo));
  }

  /** The state once the receive_item loop has gone over the first i received items,
      starting from ledger p0, acquired keys a0, found checks f0 and tasks t0: the ledger
      records them, and the cell name of each newly recorded one has been acquired with a
      bingo_check pass after it. */
  predicate Replayed(itemNames: map<int, string>, locations: map<string, int>, requiredBingo: int,
                     items: seq<NetworkItem>, i: nat,
                     p0: seq<NetworkItem>, a0: seq<string>, f0: seq<int>, t0: seq<Task>,
                     previous: seq<NetworkItem>, acquired: seq<string>, found: seq<int>, created: seq<Task>)
  {
    && i <= |items|
    && (forall k :: 0 <= k < |items| ==> items[k] in p0 || items[k].item in itemNames)
    && previous == Recorded(p0, items[..i])
    && acquired == a0 + NewNames(itemNames, p0, items[..i])
    && found == f0 + PassReports(locations, a0, NewNames(itemNames, p0, items[..i]))
    && created == t0 + PassTasksAll(requiredBingo, a0, NewNames(itemNames, p0, items[..i]))
  }

  /** An iteration that meets an item already in the ledger changes nothing. */
  lemma ReplaySkip(itemNames: map<int, string>, locations: map<string, int>, requiredBingo: int,
                   items: seq<NetworkItem>, i: nat,
                   p0: seq<NetworkItem>, a0: seq<string>, f0: seq<int>, t0: seq<Task>,
                   previous: seq<NetworkItem>, acquired: seq<string>, found: seq<int>, created: seq<Task>)
    requires i < |items|
    requires Replayed(itemNames, locations, requiredBingo, items, i, p0, a0, f0, t0, previous, acquired, found, created)
    requires items[i] in previous
    ensures Replayed(itemNames, locations, requiredBingo, items, i + 1, p0, a0, f0, t0, previous, acquired, found, created)
  {
    RecordStep(p0, items, i);
    NewNamesStep(itemNames, p0, items, i);
  }

  /** An iteration that meets an item not yet in the ledger records it, acquires its
      cell name and runs one bingo_check pass. */
  lemma ReplayApply(itemNames: map<int, string>, locations: map<string, int>, requiredBingo: int,
                    items: seq<NetworkItem>, i: nat,
                    p0: seq<NetworkItem>, a0: seq<string>, f0: seq<int>, t0: seq<Task>,
                    previous: seq<NetworkItem>, acquired: seq<string>, found: seq<int>, created: seq<Task>)
    requires i < |items|
    requires Replayed(itemNames, locations, requiredBingo, items, i, p0, a0, f0, t0, previous, acquired, found, created)
    requires items[i] !in previous
    ensures items[i].item in itemNames
    ensures var next := acquired + [itemNames[items[i].item]];
      Replayed(itemNames, locations, requiredBingo, items, i + 1, p0, a0, f0, t0,
        previous + [items[i]], next,
        found + Report(locations, Lines(AcquiredSet(next))),
        created + PassTasks(|Lines(AcquiredSet(next))|, requiredBingo))
    ensures NewNames(itemNames, p0, items) != []
    ensures |Lines(AcquiredSet(acquired + [itemNames[items[i].item]]))| == LINE_COUNT ==>
      |Lines(AcquiredSet(a0 + NewNames(itemNames, p0, items)))| == LINE_COUNT
  {
    var added := NewNames(itemNames, p0, items[..i]);
    RecordStep(p0, items, i);
    NewNamesStep(itemNames, p0, items, i);
    var name := itemNames[items[i].item];
    AppendAssoc(a0, added, [name]);
    PassStep(locations, requiredBingo, a0, added, name, f0, t0);
    BonusLater(itemNames, p0, items, i + 1, a0);
    NewNamesPrefix(itemNames, p0, items, i + 1);
  }

  class BingoContext {
    const game: string
    const itemsHandling: int
    var previousReceived: seq<NetworkItem>
    var boardLocations: seq<string>
    var locationIds: Option<set<int>>
    var locationNameToId: Option<map<string, int>>
    var locationIdToName: Option<map<int, string>>
    var itemNameToId: Option<map<string, int>>
    var itemIdToName: Option<map<int, string>>
    var foundChecks: seq<int>
    var missingChecks: seq<int>
    var prevFound: seq<int>
    var seedName: Option<string>
    var requiredBingo: Option<int>
    var acquiredKeys: seq<string>
    var tasks: seq<Task>
    var sent: seq<Message>

    /** The tables exist in the order the packets build them, and the ledger holds
        each item at most once. */
    ghost predicate Valid()
      reads this`locationIds, this`requiredBingo, this`itemIdToName, this`locationNameToId,
        this`previousReceived
    {
      && (locationIds.Some? ==> requiredBingo.Some?)
      && (itemIdToName.Some? ==> locationNameToId.Some? && requiredBingo.Some?)
      && Distinct(previousReceived)
    }

    constructor ()
      ensures Valid()
      ensures game == GAME && itemsHandling == ITEMS_HANDLING
      ensures previousReceived == [] && boardLocations == [] && acquiredKeys == []
      ensures locationIds == None && locationNameToId == None && locationIdToName == None
      ensures itemNameToId == None && itemIdToName == None
      ensures foundChecks == [] && missingChecks == [] && prevFound == []
      ensures seedName == None && requiredBingo == None
      ensures tasks == [] && sent == []
    {
      game := GAME;
      itemsHandling := ITEMS_HANDLING;
      previousReceived := [];
      boardLocations := [];
      locationIds := None;
      locationNameToId := None;
      locationIdToName := None;
      itemNameToId := None;
      itemIdToName := None;
      foundChecks := [];
      missingChecks := [];
      prevFound := [];
      seedName := None;
      requiredBingo := None;
      acquiredKeys := [];
      tasks := [];
      sent := [];
    }

    /** receive_item does nothing while this is false (`not self.item_ap_id_to_name`). */
    predicate ItemMapBuilt()
      reads this`itemIdToName
    {
      itemIdToName.Some? && itemIdToName.value != map[]
    }

    /** The dictionary lookups of receive_item and bingo_check succeed: every item still
        to be applied has a cell name, and if the pass applies an item and ends with all
        twelve lines complete the bonus location is known. */
    ghost predicate Receivable(items: seq<NetworkItem>)
      reads this`itemIdToName, this`previousReceived, this`locationNameToId, this`acquiredKeys
    {
      ItemMapBuilt() ==>
        && (forall k :: 0 <= k < |items| ==> items[k] in previousReceived || items[k].item in itemIdToName.value)
        && locationNameToId.Some?
        && ((NewNames(itemIdToName.value, previousReceived, items) != [] &&
             |Lines(AcquiredSet(acquiredKeys + NewNames(itemIdToName.value, previousReceived, items)))| == LINE_COUNT) ==>
              ALL_BINGO in locationNameToId.value)
    }

    /** on_package "Connected": the session's checks, the location universe and the
        slot data; a data package request is scheduled. */
    method OnConnected(missing: seq<int>, checked: seq<int>, requiredBingoCount: int, boardLocations: seq<string>)
      requires Valid()
      modifies this`missingChecks, this`prevFound, this`locationIds, this`requiredBingo,
        this`boardLocations, this`tasks
      ensures Valid()
      ensures missingChecks == missing && prevFound == checked
      ensures locationIds == Some(LocationUniverse(missing, checked))
      ensures requiredBingo == Some(requiredBingoCount) && this.boardLocations == boardLocations
      ensures tasks == old(tasks) + [SendMsgs([GetDataPackage([GAME])])]
    {
      missingChecks := missing;
      prevFound := checked;
      locationIds := Some(LocationUniverse(missing, checked));
      requiredBingo := Some(requiredBingoCount);
      this.boardLocations := boardLocations;
      tasks := tasks + [SendMsgs([GetDataPackage([GAME])])];
    }

    /** on_package "ReceivedItems": a receive_item pass is scheduled. */
    method OnReceivedItems()
      modifies this`tasks
      ensures tasks == old(tasks) + [ReceiveItemTask]
    {
      tasks := tasks + [ReceiveItemTask];
    }

    /** on_package "RoomInfo": the seed name is stored. */
    method OnRoomInfo(seed: string)
      modifies this`seedName
      ensures seedName == Some(seed)
    {
      seedName := Some(seed);
    }

    /** on_package "DataPackage": ignored until Connected has given a non-empty location
        universe; otherwise the ledger is reset, the name -> id tables are built (the
        location table filtered to the universe) with their inverses, and a
        receive_item pass is scheduled to replay every received item. */
    method OnDataPackage(locationTable: Table, itemTable: Table)
      requires Valid()
      requires NamesDistinct(locationTable) && NamesDistinct(itemTable)
      modifies this`previousReceived, this`locationNameToId, this`locationIdToName,
        this`itemNameToId, this`itemIdToName, this`tasks
      ensures Valid()
      ensures old(locationIds).None? || old(locationIds).value == {} ==> unchanged(this)
      ensures old(locationIds).Some? && old(locationIds).value != {} ==>
        && previousReceived == []
        && locationNameToId == Some(ToMap(KeepIds(locationTable, locationIds.value)))
        && locationIdToName == Some(Inverse(KeepIds(locationTable, locationIds.value)))
        && itemNameToId == Some(ToMap(itemTable))
        && itemIdToName == Some(Inverse(itemTable))
        && tasks == old(tasks) + [ReceiveItemTask]
    {
      if locationIds.None? || locationIds.value == {} {
        return;
      }
      previousReceived := [];
      var filtered := KeepIds(locationTable, locationIds.value);
      locationNameToId := Some(ToMap(filtered));
      locationIdToName := Some(Inverse(filtered));
      itemNameToId := Some(ToMap(itemTable));
      itemIdToName := Some(Inverse(itemTable));
      tasks := tasks + [ReceiveItemTask];
    }

    /** Replayed, on the fields of this context. */
    ghost predicate ReplayedHere(items: seq<NetworkItem>, i: nat, p0: seq<NetworkItem>, a0: seq<string>, f0: seq<int>, t0: seq<Task>)
      reads this`itemIdToName, this`locationNameToId, this`requiredBingo, this`previousReceived,
        this`acquiredKeys, this`foundChecks, this`tasks
    {
      && itemIdToName.Some? && locationNameToId.Some? && requiredBingo.Some?
      && Replayed(itemIdToName.value, locationNameToId.value, requiredBingo.value, items, i, p0, a0, f0, t0,
           previousReceived, acquiredKeys, foundChecks, tasks)
    }

    /** receive_item: nothing happens until the item map is built; otherwise each
        received item not yet in the ledger is recorded, its cell name is acquired and a
        bingo_check pass is run. */
    method ReceiveItems(itemsReceived: seq<NetworkItem>)
      requires Valid() && Receivable(itemsReceived)
      modifies this`previousReceived, this`acquiredKeys, this`foundChecks, this`tasks
      ensures Valid()
      ensures !old(ItemMapBuilt()) ==> unchanged(this)
      ensures old(ItemMapBuilt()) ==>
        var added := NewNames(itemIdToName.value, old(previousReceived), itemsReceived);
        && previousReceived == Recorded(old(previousReceived), itemsReceived)
        && acquiredKeys == old(acquiredKeys) + added
        && foundChecks == old(foundChecks) + PassReports(locationNameToId.value, old(acquiredKeys), added)
        && tasks == old(tasks) + PassTasksAll(requiredBingo.value, old(acquiredKeys), added)
    {
      if itemIdToName.None? || itemIdToName.value == map[] {
        return;
      }
      ghost var p0, a0, f0, t0 := previousReceived, acquiredKeys, foundChecks, tasks;
      assert itemsReceived[..0] == [] && p0[|p0|..] == [];
      for i := 0 to |itemsReceived|
        invariant Valid() && ItemMapBuilt()
        invariant ReplayedHere(itemsReceived, i, p0, a0, f0, t0)
        invariant (NewNames(itemIdToName.value, p0, itemsReceived) != [] &&
                   |Lines(AcquiredSet(a0 + NewNames(itemIdToName.value, p0, itemsReceived)))| == LINE_COUNT) ==>
          ALL_BINGO in locationNameToId.value
      {
        ReplayOne(itemsReceived, i, p0, a0, f0, t0);
      }
      assert itemsReceived[..|itemsReceived|] == itemsReceived;
    }

    /** One iteration of the receive_item loop: the i-th received item is applied when
        it is not yet in the ledger. */
    method ReplayOne(items: seq<NetworkItem>, i: nat, ghost p0: seq<NetworkItem>, ghost a0: seq<string>,
                     ghost f0: seq<int>, ghost t0: seq<Task>)
      requires Valid() && ItemMapBuilt() && i < |items|
      requires ReplayedHere(items, i, p0, a0, f0, t0)
      requires (NewNames(itemIdToName.value, p0, items) != [] &&
                |Lines(AcquiredSet(a0 + NewNames(itemIdToName.value, p0, items)))| == LINE_COUNT) ==>
        ALL_BINGO in locationNameToId.value
      modifies this`previousReceived, this`acquiredKeys, this`foundChecks, this`tasks
      ensures Valid() && ReplayedHere(items, i + 1, p0, a0, f0, t0)
    {
      var networkItem := items[i];
      if networkItem !in previousReceived {
        ReplayApply(itemIdToName.value, locationNameToId.value, requiredBingo.value, items, i, p0, a0, f0, t0,
          previousReceived, acquiredKeys, foundChecks, tasks);
        ApplyItem(networkItem);
      } else {
        ReplaySkip(itemIdToName.value, locationNameToId.value, requiredBingo.value, items, i, p0, a0, f0, t0,
          previousReceived, acquiredKeys, foundChecks, tasks);
      }
    }

    /** The body of the receive_item loop for an item not yet in the ledger: it is
        recorded, its cell name is acquired, and a bingo_check pass is run. */
    method ApplyItem(networkItem: NetworkItem)
      requires Valid() && ItemMapBuilt() && networkItem !in previousReceived
      requires networkItem.item in itemIdToName.value
      requires |Lines(AcquiredSet(acquiredKeys + [itemIdToName.value[networkItem.item]]))| == LINE_COUNT ==>
        ALL_BINGO in locationNameToId.value
      modifies this`previousReceived, this`acquiredKeys, this`foundChecks, this`tasks
      ensures Valid()
      ensures previousReceived == old(previousReceived) + [networkItem]
      ensures acquiredKeys == old(acquiredKeys) + [itemIdToName.value[networkItem.item]]
      ensures foundChecks == old(foundChecks) + Report(locationNameToId.value, Lines(AcquiredSet(acquiredKeys)))
      ensures tasks == old(tasks) + PassTasks(|Lines(AcquiredSet(acquiredKeys))|, requiredBingo.value)
    {
      previousReceived := previousReceived + [networkItem];
      var itemName := itemIdToName.value[networkItem.item];
      acquiredKeys := acquiredKeys + [itemName];
      BingoCheck();
    }

    /** bingo_check: one pass over the board. It appends the bonus id when all twelve
        lines are complete and the reward ids of every completed line, schedules
        end_goal when the required count is reached, and schedules send_checks. */
    method BingoCheck()
      requires Valid() && locationNameToId.Some? && requiredBingo.Some?
      requires |Lines(AcquiredSet(acquiredKeys))| == LINE_COUNT ==> ALL_BINGO in locationNameToId.value
      modifies this`foundChecks, this`tasks
      ensures foundChecks == old(foundChecks) + Report(locationNameToId.value, Lines(AcquiredSet(acquiredKeys)))
      ensures tasks == old(tasks) + PassTasks(|Lines(AcquiredSet(acquiredKeys))|, requiredBingo.value)
    {
      var achieved := AchievedBingos(acquiredKeys);
      var locations := locationNameToId.value;
      ghost var f0, t0 := foundChecks, tasks;
      ghost var bonus: seq<int> := if |achieved| == LINE_COUNT then [locations[ALL_BINGO]] else [];
      ghost var goal: seq<Task> := if |achieved| >= requiredBingo.value then [EndGoalTask] else [];
      if |achieved| == LINE_COUNT {
        foundChecks := foundChecks + [locations[ALL_BINGO]];
      }
      assert foundChecks == f0 + bonus;
      if |achieved| >= requiredBingo.value {
        tasks := tasks + [EndGoalTask];
      }
      assert tasks == t0 + goal;
      var ids := LineLocationIds(locations, achieved);
      foundChecks := foundChecks + ids;
      AppendAssoc(f0, bonus, ids);
      assert Report(locations, achieved) == bonus + ids;
      tasks := tasks + [SendChecksTask];
      AppendAssoc(t0, goal, [SendChecksTask]);
    }

    /** end_goal: the goal status is sent. */
    method EndGoal()
      modifies this`sent
      ensures sent == old(sent) + [StatusUpdate(ClientGoal)]
    {
      sent := sent + [StatusUpdate(ClientGoal)];
    }

    /** send_checks: the found checks are sent, moved into prev_found and out of
        missing_checks, and the queue is cleared. */
    method SendChecks()
      modifies this`sent, this`prevFound, this`missingChecks, this`foundChecks
      ensures sent == old(sent) + [LocationChecks(old(foundChecks))]
      ensures prevFound == old(prevFound) + old(foundChecks)
      ensures missingChecks == Without(old(missingChecks), old(foundChecks))
      ensures foundChecks == []
    {
      sent := sent + [LocationChecks(foundChecks)];
      RemoveFoundChecks();
      foundChecks := [];
    }

    /** remove_found_checks: the found checks are appended to prev_found and filtered
        out of missing_checks. */
    method RemoveFoundChecks()
      modifies this`prevFound, this`missingChecks
      ensures prevFound == old(prevFound) + foundChecks
      ensures missingChecks == Without(old(missingChecks), foundChecks)
    {
      prevFound := prevFound + foundChecks;
      missingChecks := Without(missingChecks, foundChecks);
    }
  }

  /** A receive_item pass whose items are all in the ledger applies nothing, so it
      performs no lookup and is accepted whatever the board and the bonus location. */
  lemma ReplayOnlyRecorded(c: BingoContext, items: seq<NetworkItem>)
    requires c.locationNameToId.Some?
    requires forall k :: 0 <= k < |items| ==> items[k] in c.previousReceived
    ensures c.ItemMapBuilt() ==> NewNames(c.itemIdToName.value, c.previousReceived, items) == []
    ensures c.Receivable(items)
  {
    RecordedStable(c.previousReceived, items);
  }
}
