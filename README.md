# APBingo client session state

A model of the session-state logic of the APBingo client (`BingoContext` in
`Client.py`). A player's bingo board has 25 cells, "A1" to "E5". An item grant names
one cell. The client keeps four things:

- a ledger of the grants it has already applied;
- the cell names acquired so far;
- the location checks it has found but not yet sent;
- the tables the session's data package provides.

Each grant not yet in the ledger triggers a bingo check. The check finds the complete
rows, columns and diagonals. It queues the reward locations of those lines and the
bonus location "Bingo (ALL)" when all twelve lines are complete. It requests the goal
once the required number of lines is reached.

The project has five modules:

- `Board` (`board.dfy`) is the line evaluator of `bingo_check`. `Lines` is its
  specification. `AchievedBingos` is the evaluator's loop, proved equal to `Lines` of
  `set(acquired_keys)`.
- `Tables` (`tables.dfy`) models the dictionaries of the data package. A dictionary
  is the list of its items in insertion order (`ToMap`, `Inverse`, `KeepIds`). The
  inversion comprehension depends on that order when two names share an id.
- `Ledger` (`ledger.dfy`) covers the grant ledger of `receive_item`. `Recorded` is
  the ledger after one pass over the full-resend list of received items. `NewNames`
  is the cell names that pass acquires.
- `Reports` (`reports.dfy`) covers what one bingo check appends to `found_checks`
  (`Report`) and the `missing_checks` filter (`Without`).
- `Client` (`client.dfy`) holds the class `BingoContext`. It has the fields of
  `__init__`, and one method per packet handler and per coroutine body:
  - `OnConnected`, `OnReceivedItems`, `OnRoomInfo` and `OnDataPackage` are the packet
    handlers;
  - `ReceiveItems`, `BingoCheck`, `EndGoal`, `SendChecks` and `RemoveFoundChecks` are
    the coroutine bodies.

  `PassReports` and `PassTasksAll` specify what a whole `receive_item` pass appends.

Coroutines the client hands to `asyncio.create_task` are recorded, in creation order,
in the `tasks` field. Their bodies are the methods `ReceiveItems`, `EndGoal` and
`SendChecks`, each run as one atomic step. Messages passed to `send_msgs` are recorded
in the `sent` field. The received-item list lives in the transport state of the
unseen base class, so `ReceiveItems` takes it as a parameter.

Goals and rewards are repeated, as in the code. Every pass of `bingo_check` appends
again the reward ids of every line already complete. It appends the bonus id again
whenever all twelve lines are complete. It schedules `end_goal` again whenever the
required count is met. `ReportReissued` (both reward ids of a complete line),
`BonusReissued` (the bonus id on a full board) and `GoalReissued` (the goal request)
prove this for every later pass. Neither reports nor goal requests are deduplicated, and the bonus depends
only on all twelve lines being complete (Client.py:157-170).

## Model

| member | source | states |
|---|---|---|
| Board.LabelsDistinct | Client.py:140-154 | the twelve line labels are pairwise distinct |
| Board.RowLabelIs | Client.py:141-143 | the label formatted for row r is the r-th label |
| Board.ColumnLabelIs | Client.py:146-148 | the label formatted for column c is the (5+c)-th label |
| Board.CompletedAmongMembers | Client.py:140-154 | among the first n lines, a label is listed iff that line is complete, and nothing from a later line is listed |
| Board.LineReported | Client.py:140-154 | a line's label is in the result iff all five cells of the line are acquired |
| Board.CompleteRow | Client.py:141-142 | proof step for RowLine, unfolding the line definition: row line r is complete iff the cells r1..r5 are acquired |
| Board.CompleteColumn | Client.py:146-147 | proof step for ColumnLine, unfolding the line definition: column line c is complete iff the cells Ac..Ec are acquired |
| Board.CompleteDiagonals | Client.py:151-154 | proof step for MainDiagonalLine and AntiDiagonalLine, unfolding the line definition: the main diagonal is complete iff rows[i]columns[i] are all acquired; the anti-diagonal iff rows[i]columns[4-i] are |
| Board.RowLine | Client.py:141-143 | "Bingo (R1-R5)" is reported iff all of R1..R5 are in the acquired set |
| Board.ColumnLine | Client.py:146-148 | "Bingo (Ac-Ec)" is reported iff all of Ac..Ec are in the acquired set |
| Board.MainDiagonalLine | Client.py:151-152 | "Bingo (A1-E5)" is reported iff A1, B2, C3, D4 and E5 are acquired |
| Board.AntiDiagonalLine | Client.py:153-154 | "Bingo (E1-A5)" is reported iff A5, B4, C3, D2 and E1 are acquired |
| Board.LinesShape | Client.py:138-154 | the list has at most 12 entries, all of them line labels, with no duplicates, in board order: rows, then columns, then the main diagonal, then the anti-diagonal |
| Board.CompletedAmongOrdered | Client.py:138-154 | the first n lines contribute at most n labels, each from those lines, in strictly increasing board position |
| Board.EmptyBoard | Client.py:135-154 | an empty board completes no line |
| Board.NoneComplete | Client.py:138-154 | when none of the first n lines is complete, nothing is appended for them |
| Board.DuplicateKeyIgnored | Client.py:135 | a repeated entry in acquired_keys changes no line, because the check works on the set |
| Board.LinesMonotone | Client.py:135-154 | acquiring more cells never removes a completed line and never lowers the count |
| Board.AllAmongComplete | Client.py:138-154 | the first n lines contribute n labels iff all of them are complete |
| Board.FullBoard | Client.py:135-157 | the count is 12 iff all 25 cells are acquired |
| Board.SingleLine | Client.py:138-154 | when exactly one line is complete, the list is that line's label alone |
| Board.RowAExample | Client.py:141-143 | the cells A1..A5 give exactly ["Bingo (A1-A5)"] |
| Board.MainDiagonalExample | Client.py:151-152 | the cells A1, B2, C3, D4, E5 give exactly ["Bingo (A1-E5)"] |
| Board.AchievedBingos | Client.py:128-154 | the loops over rows, columns and diagonals build exactly the specified list from set(acquired_keys) |
| Tables.ToMapEntries | Client.py:97-101 | dict(items) has exactly the item names as keys; a name maps to the id of its last item |
| Tables.InverseEntries | Client.py:102-104 | the inverted dict has exactly the item ids as keys; an id maps to the name of its last item |
| Tables.ToMapOfDistinct | Client.py:97-101 | with distinct names every item is an entry of the dict |
| Tables.InverseRoundTrip | Client.py:102-104 | with distinct names and ids, the id-to-name map and the name-to-id map are inverse in both directions |
| Tables.KeepIdsMembers | Client.py:98-101 | the filter keeps exactly the items whose id is a session location id |
| Tables.KeepIdsNames | Client.py:98-101 | the filter keeps names distinct |
| Tables.KeepIdsIds | Client.py:98-101 | the filter keeps ids distinct |
| Tables.KeepIdsItems | Client.py:98-101 | the filter keeps exactly the session's items and preserves distinct names and distinct ids |
| Tables.KeepIdsMap | Client.py:98-101 | the filtered location map holds exactly the payload entries whose id is a session location id, with their ids |
| Tables.KeepIdsInverse | Client.py:98-102 | every id of the filtered id-to-name map is a session location id |
| Ledger.CellNames | Client.py:122-124 | one cell name is acquired per newly recorded item |
| Ledger.CellNamesAt | Client.py:122-124 | each acquired name is the item table's entry for that item |
| Ledger.RecordedExtends | Client.py:119-121 | the ledger only grows, keeps the old ledger as its prefix, and gains at most one entry per received item |
| Ledger.RecordedMembers | Client.py:119-121 | after a pass, an item is in the ledger iff it was in it before or was received |
| Ledger.RecordedNew | Client.py:119-121 | every new entry was received and was not in the ledger; the pass adds no item twice; a ledger without repeats keeps none |
| Ledger.RecordedKeys | Client.py:119-122 | when every received item is recorded or has an item-table entry, every new entry has one |
| Ledger.RecordedPrefix | Client.py:119-121 | the ledger after part of the received list is a prefix of the ledger after all of it |
| Ledger.CellNamesPrefix | Client.py:122-124 | the names of a prefix of the entries are the prefix of the names |
| Ledger.NewNamesStep | Client.py:119-124 | one iteration acquires the item's cell name iff the item is not yet recorded, and acquires nothing otherwise |
| Ledger.NewNamesPrefix | Client.py:119-124 | the names acquired over part of the received list are a prefix of those acquired over all of it |
| Ledger.RecordedStable | Client.py:119-121 | replaying items that are all recorded leaves the ledger unchanged |
| Ledger.ReplayAddsNothing | Client.py:119-124 | a second pass over the same received list finds every item recorded and acquires no name |
| Ledger.RecordedIdempotent | Client.py:119-121 | a second pass over the same received list leaves the ledger unchanged |
| Reports.RewardNamesAt | Client.py:163-166 | bingo_locs holds "label-0" then "label-1" for each completed line, in line order |
| Reports.ResolveMembers | Client.py:168-170 | an id is appended iff it is the id of one of the names that is a key; names that are not keys are skipped |
| Reports.ResolveConcat | Client.py:168-170 | the lookups keep the order of the names |
| Reports.ResolveAllPresent | Client.py:168-170 | when every name is a key, each name yields exactly its own id |
| Reports.ResolveRewards | Client.py:163-170 | an id is among the reward ids iff one of the line's two reward locations has that id |
| Reports.ReportContents | Client.py:157-170 | an id is appended by a pass iff it is the "Bingo (ALL)" id on a board with all 12 lines complete, or a reward id of a complete line |
| Reports.ReportLength | Client.py:157-170 | a pass appends at most the bonus and two ids per completed line, so at most 25 ids |
| Reports.WithoutMembers | Client.py:186 | an id stays missing iff it was missing and was not found |
| Reports.WithoutConcat | Client.py:186 | the filter keeps the order of missing_checks |
| Reports.WithoutNothingFound | Client.py:186 | when no missing id was found, missing_checks is unchanged |
| Reports.LineLocationIds | Client.py:163-170 | the bingo_locs loop and the lookup loop build exactly the reward ids of the completed lines |
| Client.LocationUniverse | Client.py:71 | location_ids holds exactly the missing and the checked locations |
| Client.PassTasks | Client.py:160-172 | a pass schedules end_goal iff at least the required number of lines is complete, and always schedules send_checks exactly once, last |
| Client.GoalReissued | Client.py:160-161 | once the required count is met, every subsequent pass schedules end_goal again |
| Client.ReportReissued | Client.py:163-170 | once a line is complete, every subsequent pass appends each of its two reward ids again, where the session has them |
| Client.BonusReissued | Client.py:157-158 | once all twelve lines are complete, every subsequent pass appends the "Bingo (ALL)" id again |
| Client.LastPassReports | Client.py:119-125 | the last pass of a replay appends both reward ids, where present, of every line complete at its end |
| Client.RowAReplay | Client.py:119-125 | replaying grants for A1..A5 appends both reward ids of "Bingo (A1-A5)" |
| Client.BonusLater | Client.py:119-158 | an acquired set partway through a pass has 12 lines only if the set at its end has, so ruling out the bonus lookup's KeyError for the end set rules it out on every pass |
| Client.ReplayOnlyRecorded | Client.py:119-125 | a pass whose received items are all in the ledger acquires no name and is accepted whatever the board and the bonus location, as the loop then runs no lookup |
| Client.ReplaySkip | Client.py:119-120 | an iteration over an item already in the ledger changes nothing |
| Client.ReplayApply | Client.py:119-125 | an iteration over a new item records it, acquires its name, and appends one pass's report and tasks |
| Client.BingoContext.constructor | Client.py:36-57 | the initial state: game "APBingo", items handling 7, empty lists, no tables, no seed name, no required count |
| Client.BingoContext.OnConnected | Client.py:67-75 | missing and checked locations are stored, location_ids is their union, the required count and the board are stored, and a data package request is scheduled |
| Client.BingoContext.OnReceivedItems | Client.py:84-86 | a receive_item pass is scheduled |
| Client.BingoContext.OnRoomInfo | Client.py:88-89 | the seed name is stored |
| Client.BingoContext.OnDataPackage | Client.py:91-107 | ignored while location_ids is None or empty; otherwise it resets the ledger, filters the location table to the session, builds both name-to-id maps and their inverses, and schedules a receive_item pass |
| Client.BingoContext.ReceiveItems | Client.py:113-125 | without an item map nothing changes; otherwise the ledger becomes Recorded over the received list, the new cell names are appended, and the found checks and tasks gain one pass each |
| Client.BingoContext.ReplayOne | Client.py:119-125 | one loop iteration keeps the ledger, acquired keys, found checks and tasks equal to those of the received items so far |
| Client.BingoContext.ApplyItem | Client.py:120-125 | a new item is appended to the ledger, its cell name to acquired_keys, and one bingo_check pass runs |
| Client.BingoContext.BingoCheck | Client.py:128-172 | found_checks gains exactly the pass's report, and tasks gain end_goal when the required count is met, then send_checks |
| Client.BingoContext.EndGoal | Client.py:174-176 | the goal status update is sent |
| Client.BingoContext.SendChecks | Client.py:178-182 | the found checks are sent, moved into prev_found and out of missing_checks, and found_checks is emptied |
| Client.BingoContext.RemoveFoundChecks | Client.py:184-186 | prev_found becomes the old list followed by found_checks, and missing_checks loses every found id, order kept |

## Left out

- asyncio: the lock, the queue and task interleaving (Client.py:55-56, 114). Each coroutine body is one atomic method, and a created task is only recorded in `tasks`. `send_checks` awaits the send before it clears `found_checks`, so with real interleaving, ids appended during that await would be cleared unsent. The model does not capture that race.
- SendChecks: the outgoing message refers to the `found_checks` list object itself. The model records a copy taken at send time.
- Transport: `server_auth`, `send_msgs` and the `CommonContext` base class are not modelled; `send_msgs` payloads are recorded in `sent`. `items_received` is kept by the base class, so it is a parameter of `ReceiveItems`.
- GUI calls (`run_bingo_board`, `update_bingo_board`, `highlight_square`) are foreign calls with no state the model can see. The three-second sleep and the busy-wait for the seed name in the Connected handler are not modelled either.
- The `LocationInfo` branch pushes onto a queue nothing in the file reads (Client.py:109-111). `slot_data` is kept only through the two values the client reads from it. The `player` field is not modelled.
- `launch`, argument parsing, colorama, the command processor and `get_bingo_info` are process setup and logging.
- Client.BingoContext.ReceiveItems: a pass that would raise `KeyError` is excluded by a precondition, as a missing item id at Client.py:122 or a missing "Bingo (ALL)" at Client.py:158 would. This is `Receivable`: every item the pass applies has an item-table entry, and when the pass applies at least one item and ends with all twelve lines complete, "Bingo (ALL)" is a key. The bonus lookup runs only after an applied item, and a board full partway through a pass is full at its end (`BonusLater`), so `Receivable` holds exactly when no lookup of the pass fails; `ReplayOnlyRecorded` covers a pass that applies nothing.
- Client.BingoContext.BingoCheck: the `KeyError` of the "Bingo (ALL)" lookup on a full board is excluded by a precondition.
- Client.BingoContext.OnConnected: the required count is taken as an `int`. The `int(...)` conversion at Client.py:160 is not modelled.
- NetworkItem: the tuple is compared by value, as Client.py:120 does. Only its `item` field is read.
