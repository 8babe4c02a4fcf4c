/** The line evaluator of the APBingo client: which of the twelve lines of the
    5x5 board (five rows, five columns, two diagonals) are complete for a set of
    acquired cell names "A1".."E5" (Client.py, bingo_check). */
module Board {

  /** Row letters and column digits, in the order the client scans them. */
  const ROWS: string := "ABCDE"
  const COLUMNS: string := "12345"

  /** The number of lines on the board. */
  const LINE_COUNT: nat := 12

  /** The labels of the twelve lines, in the order the evaluator reports them:
      rows A..E, columns 1..5, the main diagonal, the anti-diagonal. */
  const LABELS: seq<string> := [
    "Bingo (A1-A5)", "Bingo (B1-B5)", "Bingo (C1-C5)", "Bingo (D1-D5)", "Bingo (E1-E5)",
    "Bingo (A1-E1)", "Bingo (A2-E2)", "Bingo (A3-E3)", "Bingo (A4-E4)", "Bingo (A5-E5)",
    "Bingo (A1-E5)", "Bingo (E1-A5)"
  ]

  /** The name of the cell in row `row` and column `col`, as the client formats it. */
  function Cell(row: nat, col: nat): string
    requires row < 5 && col < 5
  {
    [ROWS[row], COLUMNS[col]]
  }

  /** The label the client formats for a row and for a column. */
  function RowLabel(row: nat): string
    requires row < 5
  {
    "Bingo (" + [ROWS[row]] + "1-" + [ROWS[row]] + "5)"
  }

  function ColumnLabel(col: nat): string
    requires col < 5
  {
    "Bingo (A" + [COLUMNS[col]] + "-E" + [COLUMNS[col]] + ")"
  }

  /** The i-th cells of the main diagonal (A1..E5) and of the anti-diagonal (A5..E1). */
  function MainDiagonalCell(i: nat): string
    requires i < 5
  {
    Cell(i, i)
  }

  function AntiDiagonalCell(i: nat): string
    requires i < 5
  {
    Cell(i, 4 - i)
  }

  /** The m-th cell of line k (k indexes LABELS). */
  function LineCell(k: nat, m: nat): string
    requires k < LINE_COUNT && m < 5
  {
    if k < 5 then Cell(k, m)
    else if k < 10 then Cell(m, k - 5)
    else if k == 10 then MainDiagonalCell(m)
    else AntiDiagonalCell(m)
  }

  /** Line k is complete when all five of its cells are acquired. */
  predicate Complete(k: nat, acquired: set<string>)
    requires k < LINE_COUNT
  {
    forall m :: 0 <= m < 5 ==> LineCell(k, m) in acquired
  }

  /** The labels of the complete lines among the first n lines, in board order. */
  function CompletedAmong(acquired: set<string>, n: nat): seq<string>
    requires n <= LINE_COUNT
  {
    if n == 0 then []
    else CompletedAmong(acquired, n - 1) + (if Complete(n - 1, acquired) then [LABELS[n - 1]] else [])
  }

  /** set(acquired_keys). */
  function AcquiredSet(keys: seq<string>): set<string>
  {
    set key | key in keys
  }

  /** The list of completed line labels that bingo_check builds (achieved_bingos). */
  function Lines(acquired: set<string>): seq<string>
  {
    CompletedAmong(acquired, LINE_COUNT)
  }

  /** The position of a label in LABELS, or LINE_COUNT when it is not one. */
  function Rank(tag: string): (r: nat)
    ensures r <= LINE_COUNT
    ensures r < LINE_COUNT ==> LABELS[r] == tag
    ensures r == LINE_COUNT ==> tag !in LABELS
  {
    RankFrom(tag, 0)
  }

  function RankFrom(tag: string, k: nat): (r: nat)
    requires k <= LINE_COUNT
    ensures k <= r <= LINE_COUNT
    ensures r < LINE_COUNT ==> LABELS[r] == tag
    ensures r == LINE_COUNT ==> forall j :: k <= j < LINE_COUNT ==> LABELS[j] != tag
    decreases LINE_COUNT - k
  {
    if k == LINE_COUNT then LINE_COUNT
    else if LABELS[k] == tag then k
    else RankFrom(tag, k + 1)
  }

  predicate NoDuplicates<T(==)>(s: seq<T>)
  {
    forall p, q :: 0 <= p < q < |s| ==> s[p] != s[q]
  }

  lemma LabelsDistinct()
    ensures NoDuplicates(LABELS)
  {
  }

  /** The formatted row and column labels are the entries of LABELS. */
  lemma RowLabelIs(row: nat)
    requires row < 5
    ensures RowLabel(row) == LABELS[row]
  {
  }

  lemma ColumnLabelIs(col: nat)
    requires col < 5
    ensures ColumnLabel(col) == LABELS[5 + col]
  {
  }

  /** The label of a line among the first n lines is reported iff that line is complete;
      nothing else is reported. */
  lemma {:induction false} CompletedAmongMembers(acquired: set<string>, n: nat)
    requires n <= LINE_COUNT
    ensures forall k :: 0 <= k < n ==> (LABELS[k] in CompletedAmong(acquired, n) <==> Complete(k, acquired))
    ensures forall tag :: tag in CompletedAmong(acquired, n) ==> Rank(tag) < n
  {
    LabelsDistinct();
    if n > 0 {
      CompletedAmongMembers(acquired, n - 1);
      forall tag | tag in CompletedAmong(acquired, n)
        ensures Rank(tag) < n
      {
        if tag !in CompletedAmong(acquired, n - 1) {
          assert tag == LABELS[n - 1];
          RankOfLabel(n - 1);
        }
      }
      forall k | 0 <= k < n
        ensures LABELS[k] in CompletedAmong(acquired, n) <==> Complete(k, acquired)
      {
        if k < n - 1 {
          RankOfLabel(k);
          assert LABELS[k] != LABELS[n - 1];
        }
      }
    }
  }

  lemma RankOfLabel(k: nat)
    requires k < LINE_COUNT
    ensures Rank(LABELS[k]) == k
  {
    LabelsDistinct();
  }

  /** A line's label is in the result iff the line is complete. */
  lemma LineReported(k: nat, acquired: set<string>)
    requires k < LINE_COUNT
    ensures LABELS[k] in Lines(acquired) <==> Complete(k, acquired)
  {
    CompletedAmongMembers(acquired, LINE_COUNT);
  }

  /** Rows and columns are complete when their five cells are acquired. */
  lemma CompleteRow(row: nat, acquired: set<string>)
    requires row < 5
    ensures Complete(row, acquired) <==> forall col :: 0 <= col < 5 ==> Cell(row, col) in acquired
  {
    assert forall m :: 0 <= m < 5 ==> LineCell(row, m) == Cell(row, m);
  }

  lemma CompleteColumn(col: nat, acquired: set<string>)
    requires col < 5
    ensures Complete(5 + col, acquired) <==> forall row :: 0 <= row < 5 ==> Cell(row, col) in acquired
  {
    assert forall m :: 0 <= m < 5 ==> LineCell(5 + col, m) == Cell(m, col);
  }

  lemma CompleteDiagonals(acquired: set<string>)
    ensures Complete(10, acquired) <==> forall i :: 0 <= i < 5 ==> MainDiagonalCell(i) in acquired
    ensures Complete(11, acquired) <==> forall i :: 0 <= i < 5 ==> AntiDiagonalCell(i) in acquired
  {
    assert forall m :: 0 <= m < 5 ==> LineCell(10, m) == MainDiagonalCell(m);
    assert forall m :: 0 <= m < 5 ==> LineCell(11, m) == AntiDiagonalCell(m);
  }

  /** "Bingo (R1-R5)" is reported iff all five cells of row R are acquired. */
  lemma RowLine(row: nat, acquired: set<string>)
    requires row < 5
    ensures RowLabel(row) in Lines(acquired) <==> forall col :: 0 <= col < 5 ==> Cell(row, col) in acquired
  {
    RowLabelIs(row);
    LineReported(row, acquired);
    CompleteRow(row, acquired);
  }

  /** "Bingo (Ac-Ec)" is reported iff all five cells of column c are acquired. */
  lemma ColumnLine(col: nat, acquired: set<string>)
    requires col < 5
    ensures ColumnLabel(col) in Lines(acquired) <==> forall row :: 0 <= row < 5 ==> Cell(row, col) in acquired
  {
    ColumnLabelIs(col);
    LineReported(5 + col, acquired);
    CompleteColumn(col, acquired);
  }

  /** The main diagonal is reported iff A1, B2, C3, D4 and E5 are acquired. */
  lemma MainDiagonalLine(acquired: set<string>)
    ensures "Bingo (A1-E5)" in Lines(acquired) <==>
      "A1" in acquired && "B2" in acquired && "C3" in acquired && "D4" in acquired && "E5" in acquired
  {
    LineReported(10, acquired);
    assert LineCell(10, 0) == "A1" && LineCell(10, 1) == "B2" && LineCell(10, 2) == "C3";
    assert LineCell(10, 3) == "D4" && LineCell(10, 4) == "E5";
  }

  /** The anti-diagonal is reported iff A5, B4, C3, D2 and E1 are acquired. */
  lemma AntiDiagonalLine(acquired: set<string>)
    ensures "Bingo (E1-A5)" in Lines(acquired) <==>
      "A5" in acquired && "B4" in acquired && "C3" in acquired && "D2" in acquired && "E1" in acquired
  {
    LineReported(11, acquired);
    assert LineCell(11, 0) == "A5" && LineCell(11, 1) == "B4" && LineCell(11, 2) == "C3";
    assert LineCell(11, 3) == "D2" && LineCell(11, 4) == "E1";
  }

  /** The result lists line labels only, at most twelve, in board order (rows, then
      columns, then the main and the anti-diagonal), hence without duplicates. */
  lemma LinesShape(acquired: set<string>)
    ensures |Lines(acquired)| <= LINE_COUNT
    ensures forall p :: 0 <= p < |Lines(acquired)| ==> Lines(acquired)[p] in LABELS
    ensures forall p, q :: 0 <= p < q < |Lines(acquired)| ==> Rank(Lines(acquired)[p]) < Rank(Lines(acquired)[q])
    ensures NoDuplicates(Lines(acquired))
  {
    CompletedAmongOrdered(acquired, LINE_COUNT);
  }

  lemma {:induction false} CompletedAmongOrdered(acquired: set<string>, n: nat)
    requires n <= LINE_COUNT
    ensures |CompletedAmong(acquired, n)| <= n
    ensures forall p :: 0 <= p < |CompletedAmong(acquired, n)| ==> Rank(CompletedAmong(acquired, n)[p]) < n
    ensures forall p, q :: 0 <= p < q < |CompletedAmong(acquired, n)| ==>
      Rank(CompletedAmong(acquired, n)[p]) < Rank(CompletedAmong(acquired, n)[q])
  {
    if n > 0 {
      CompletedAmongOrdered(acquired, n - 1);
      RankOfLabel(n - 1);
    }
  }

  /** An empty board completes no line. */
  lemma EmptyBoard()
    ensures Lines({}) == []
  {
    var empty: set<string> := {};
    forall k | 0 <= k < LINE_COUNT
      ensures !Complete(k, empty)
    {
      assert LineCell(k, 0) !in empty;
    }
    NoneComplete(empty, LINE_COUNT);
  }

  lemma {:induction false} NoneComplete(acquired: set<string>, n: nat)
    requires n <= LINE_COUNT
    requires forall k :: 0 <= k < n ==> !Complete(k, acquired)
    ensures CompletedAmong(acquired, n) == []
  {
    if n > 0 {
      NoneComplete(acquired, n - 1);
    }
  }

  /** A repeated entry of acquired_keys does not change the completed lines. */
  lemma DuplicateKeyIgnored(keys: seq<string>, key: string)
    requires key in keys
    ensures Lines(AcquiredSet(keys + [key])) == Lines(AcquiredSet(keys))
  {
    assert AcquiredSet(keys + [key]) == AcquiredSet(keys);
  }

  /** Acquiring more cells never loses a completed line. */
  lemma {:induction false} LinesMonotone(smaller: set<string>, larger: set<string>, n: nat)
    requires smaller <= larger && n <= LINE_COUNT
    ensures |CompletedAmong(smaller, n)| <= |CompletedAmong(larger, n)|
    ensures forall tag :: tag in CompletedAmong(smaller, n) ==> tag in CompletedAmong(larger, n)
  {
    if n > 0 {
      LinesMonotone(smaller, larger, n - 1);
    }
  }

  /** The number of complete lines among the first n is n exactly when all of them are complete. */
  lemma {:induction false} AllAmongComplete(acquired: set<string>, n: nat)
    requires n <= LINE_COUNT
    ensures |CompletedAmong(acquired, n)| == n <==> forall k :: 0 <= k < n ==> Complete(k, acquired)
  {
    if n > 0 {
      AllAmongComplete(acquired, n - 1);
      CompletedAmongOrdered(acquired, n - 1);
    }
  }

  /** All twelve lines are complete iff all 25 cells are acquired. */
  lemma FullBoard(acquired: set<string>)
    ensures |Lines(acquired)| == LINE_COUNT <==> forall row, col :: 0 <= row < 5 && 0 <= col < 5 ==> Cell(row, col) in acquired
  {
    AllAmongComplete(acquired, LINE_COUNT);
    if forall k :: 0 <= k < LINE_COUNT ==> Complete(k, acquired) {
      forall row, col | 0 <= row < 5 && 0 <= col < 5
        ensures Cell(row, col) in acquired
      {
        CompleteRow(row, acquired);
      }
    }
  }

  /** When line k0 is the only complete line, it is the only label reported. */
  lemma {:induction false} SingleLine(acquired: set<string>, k0: nat, n: nat)
    requires k0 < LINE_COUNT && n <= LINE_COUNT
    requires Complete(k0, acquired)
    requires forall k :: 0 <= k < LINE_COUNT && k != k0 ==> !Complete(k, acquired)
    ensures CompletedAmong(acquired, n) == if k0 < n then [LABELS[k0]] else []
  {
    if n > 0 {
      SingleLine(acquired, k0, n - 1);
    }
  }

  /** A finished row A completes that row and nothing else. */
  lemma RowAExample()
    ensures Lines({"A1", "A2", "A3", "A4", "A5"}) == ["Bingo (A1-A5)"]
  {
    var s: set<string> := {"A1", "A2", "A3", "A4", "A5"};
    assert Complete(0, s) by {
      assert forall m :: 0 <= m < 5 ==> LineCell(0, m) == [ROWS[0], COLUMNS[m]];
    }
    forall k | 0 <= k < LINE_COUNT && k != 0
      ensures !Complete(k, s)
    {
      if k < 5 {
        assert LineCell(k, 0)[0] != 'A';
      } else {
        assert LineCell(k, 1)[0] == 'B';
      }
    }
    SingleLine(s, 0, LINE_COUNT);
  }

  /** The main diagonal alone completes that diagonal and nothing else. */
  lemma MainDiagonalExample()
    ensures Lines({"A1", "B2", "C3", "D4", "E5"}) == ["Bingo (A1-E5)"]
  {
    var s: set<string> := {"A1", "B2", "C3", "D4", "E5"};
    assert Complete(10, s) by {
      assert LineCell(10, 0) == "A1" && LineCell(10, 1) == "B2" && LineCell(10, 2) == "C3";
      assert LineCell(10, 3) == "D4" && LineCell(10, 4) == "E5";
    }
    forall k | 0 <= k < LINE_COUNT && k != 10
      ensures !Complete(k, s)
    {
      if k == 0 {
        assert LineCell(k, 1) == "A2";
      } else if k < 5 {
        assert LineCell(k, 0)[1] == '1' && LineCell(k, 0) != "A1";
      } else if k == 5 {
        assert LineCell(k, 1) == "B1";
      } else if k < 10 {
        assert LineCell(k, 0)[0] == 'A' && LineCell(k, 0) != "A1";
      } else {
        assert LineCell(k, 0) == "A5";
      }
    }
    SingleLine(s, 10, LINE_COUNT);
  }

  /** The scan of bingo_check: rows, then columns, then the two diagonals, each
      appended when all its cells are in set(acquired_keys). */
  method AchievedBingos(acquiredKeys: seq<string>) returns (achieved: seq<string>)
    ensures achieved == Lines(AcquiredSet(acquiredKeys))
  {
    var acquiredSet := set key | key in acquiredKeys;
    achieved := [];
    for row := 0 to 5
      invariant achieved == CompletedAmong(acquiredSet, row)
    {
      RowLabelIs(row);
      CompleteRow(row, acquiredSet);
      if forall col :: 0 <= col < 5 ==> Cell(row, col) in acquiredSet {
        achieved := achieved + [RowLabel(row)];
      }
    }
    for col := 0 to 5
      invariant achieved == CompletedAmong(acquiredSet, 5 + col)
    {
      ColumnLabelIs(col);
      CompleteColumn(col, acquiredSet);
      if forall row :: 0 <= row < 5 ==> Cell(row, col) in acquiredSet {
        achieved := achieved + [ColumnLabel(col)];
      }
    }
    CompleteDiagonals(acquiredSet);
    if forall i :: 0 <= i < 5 ==> MainDiagonalCell(i) in acquiredSet {
      achieved := achieved + ["Bingo (A1-E5)"];
    }
    assert achieved == CompletedAmong(acquiredSet, 11);
    if forall i :: 0 <= i < 5 ==> AntiDiagonalCell(i) in acquiredSet {
      achieved := achieved + ["Bingo (E1-A5)"];
    }
  }
}
