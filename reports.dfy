/** The location reports of bingo_check and the check bookkeeping of
    remove_found_checks (Client.py). */
module Reports {
  import opened Board

  /** The location of the bonus for completing all twelve lines. */
  const ALL_BINGO: string := "Bingo (ALL)"

  /** bingo_locs: the two reward location names "<label>-0" and "<label>-1" of each
      completed line, in the order of the lines. */
  function RewardNames(lines: seq<string>): seq<string>
  {
    if lines == [] then []
    else RewardNames(lines[..|lines| - 1]) + [lines[|lines| - 1] + "-0", lines[|lines| - 1] + "-1"]
  }

  /** The ids of those names that are keys of the location map, in order; a name that
      is not a key is skipped. */
  function Resolve(locations: map<string, int>, names: seq<string>): seq<int>
  {
    if names == [] then []
    else
      Resolve(locations, names[..|names| - 1])
      + (if names[|names| - 1] in locations then [locations[names[|names| - 1]]] else [])
  }

  /** What one pass of bingo_check appends to found_checks for the completed lines
      `lines`: the bonus id when all twelve are complete, then the reward ids. The
      bonus lookup raises when the bonus location is missing; callers exclude that. */
  function Report(locations: map<string, int>, lines: seq<string>): seq<int>
  {
    (if |lines| == LINE_COUNT && ALL_BINGO in locations then [locations[ALL_BINGO]] else [])
    + Resolve(locations, RewardNames(lines))
  }

  /** x is the id of one of the two reward locations of the line labelled `line`. */
  predicate RewardOf(locations: map<string, int>, line: string, x: int)
  {
    (line + "-0" in locations && locations[line + "-0"] == x)
    || (line + "-1" in locations && locations[line + "-1"] == x)
  }

  /** [item for item in missing if item not in found]. */
  function Without(missing: seq<int>, found: seq<int>): seq<int>
  {
    if missing == [] then []
    else
      Without(missing[..|missing| - 1], found)
      + (if missing[|missing| - 1] in found then [] else [missing[|missing| - 1]])
  }

  /** bingo_locs holds the "-0" and "-1" names of each line, side by side. */
  lemma {:induction false} RewardNamesAt(lines: seq<string>)
    ensures |RewardNames(lines)| == 2 * |lines|
    ensures forall k :: 0 <= k < |lines| ==>
      RewardNames(lines)[2 * k] == lines[k] + "-0" && RewardNames(lines)[2 * k + 1] == lines[k] + "-1"
  {
    if lines != [] {
      var init := lines[..|lines| - 1];
      RewardNamesAt(init);
      forall k | 0 <= k < |lines|
        ensures RewardNames(lines)[2 * k] == lines[k] + "-0" && RewardNames(lines)[2 * k + 1] == lines[k] + "-1"
      {
        if k < |init| {
          assert lines[k] == init[k];
        }
      }
    }
  }

  /** An id is resolved iff some given name is a key mapping to it; at most one id per name. */
  lemma {:induction false} ResolveMembers(locations: map<string, int>, names: seq<string>)
    ensures |Resolve(locations, names)| <= |names|
    ensures forall x :: x in Resolve(locations, names) <==>
      exists k :: 0 <= k < |names| && names[k] in locations && locations[names[k]] == x
  {
    if names != [] {
      var init := names[..|names| - 1];
      ResolveMembers(locations, init);
      assert forall k :: 0 <= k < |init| ==> init[k] == names[k];
    }
  }

  /** Resolving keeps the order of the names: it distributes over concatenation. */
  lemma {:induction false} ResolveConcat(locations: map<string, int>, a: seq<string>, b: seq<string>)
    ensures Resolve(locations, a + b) == Resolve(locations, a) + Resolve(locations, b)
  {
    if b != [] {
      var init := b[..|b| - 1];
      ResolveConcat(locations, a, init);
      assert (a + b)[..|a + b| - 1] == a + init;
    } else {
      assert a + b == a;
    }
  }

  /** When every name is a key, each name yields exactly its id. */
  lemma {:induction false} ResolveAllPresent(locations: map<string, int>, names: seq<string>)
    requires forall k :: 0 <= k < |names| ==> names[k] in locations
    ensures |Resolve(locations, names)| == |names|
    ensures forall k :: 0 <= k < |names| ==> Resolve(locations, names)[k] == locations[names[k]]
  {
    if names != [] {
      var init := names[..|names| - 1];
      ResolveAllPresent(locations, init);
    }
  }

  /** An id is among the resolved reward names iff it belongs to one of the lines. */
  lemma ResolveRewards(locations: map<string, int>, lines: seq<string>, x: int)
    ensures x in Resolve(locations, RewardNames(lines)) <==>
      exists p :: 0 <= p < |lines| && RewardOf(locations, lines[p], x)
  {
    var names := RewardNames(lines);
    RewardNamesAt(lines);
    ResolveMembers(locations, names);
    if x in Resolve(locations, names) {
      var j :| 0 <= j < |names| && names[j] in locations && locations[names[j]] == x;
      var p := j / 2;
      if j % 2 == 0 {
        assert j == 2 * p;
        assert RewardOf(locations, lines[p], x);
      } else {
        assert j == 2 * p + 1;
        assert RewardOf(locations, lines[p], x);
      }
    }
    if exists p :: 0 <= p < |lines| && RewardOf(locations, lines[p], x) {
      var p :| 0 <= p < |lines| && RewardOf(locations, lines[p], x);
      if lines[p] + "-0" in locations && locations[lines[p] + "-0"] == x {
        assert names[2 * p] == lines[p] + "-0";
      } else {
        assert names[2 * p + 1] == lines[p] + "-1";
      }
    }
  }

  /** An id is in a pass's report iff it is the all-lines bonus on a full board, or a
      reward location of a completed line. */
  lemma ReportContents(locations: map<string, int>, acquired: set<string>, x: int)
    ensures x in Report(locations, Lines(acquired)) <==>
      (|Lines(acquired)| == LINE_COUNT && ALL_BINGO in locations && x == locations[ALL_BINGO])
      || exists k :: 0 <= k < LINE_COUNT && Complete(k, acquired) && RewardOf(locations, LABELS[k], x)
  {
    var lines := Lines(acquired);
    ResolveRewards(locations, lines, x);
    LinesShape(acquired);
    CompletedAmongMembers(acquired, LINE_COUNT);
    if exists p :: 0 <= p < |lines| && RewardOf(locations, lines[p], x) {
      var p :| 0 <= p < |lines| && RewardOf(locations, lines[p], x);
      var k := Rank(lines[p]);
      assert lines[p] in lines;
      assert Complete(k, acquired) && RewardOf(locations, LABELS[k], x);
    }
    if exists k :: 0 <= k < LINE_COUNT && Complete(k, acquired) && RewardOf(locations, LABELS[k], x) {
      var k :| 0 <= k < LINE_COUNT && Complete(k, acquired) && RewardOf(locations, LABELS[k], x);
      assert LABELS[k] in lines;
      var p :| 0 <= p < |lines| && lines[p] == LABELS[k];
      assert RewardOf(locations, lines[p], x);
    }
  }

  /** A pass reports at most the bonus and two ids per completed line. */
  lemma ReportLength(locations: map<string, int>, acquired: set<string>)
    ensures |Report(locations, Lines(acquired))| <= 1 + 2 * |Lines(acquired)| <= 25
  {
    RewardNamesAt(Lines(acquired));
    ResolveMembers(locations, RewardNames(Lines(acquired)));
    LinesShape(acquired);
  }

  /** An id stays missing iff it was missing and was not found. */
  lemma {:induction false} WithoutMembers(missing: seq<int>, found: seq<int>)
    ensures forall x :: x in Without(missing, found) <==> x in missing && x !in found
  {
    if missing != [] {
      var init := missing[..|missing| - 1];
      WithoutMembers(init, found);
      assert missing == init + [missing[|missing| - 1]];
    }
  }

  /** The filter keeps the order of missing_checks: it distributes over concatenation. */
  lemma {:induction false} WithoutConcat(a: seq<int>, b: seq<int>, found: seq<int>)
    ensures Without(a + b, found) == Without(a, found) + Without(b, found)
  {
    if b != [] {
      var init := b[..|b| - 1];
      WithoutConcat(a, init, found);
      assert (a + b)[..|a + b| - 1] == a + init;
    } else {
      assert a + b == a;
    }
  }

  /** Nothing is removed when no missing id was found. */
  lemma {:induction false} WithoutNothingFound(missing: seq<int>, found: seq<int>)
    requires forall k :: 0 <= k < |missing| ==> missing[k] !in found
    ensures Without(missing, found) == missing
  {
    if missing != [] {
      WithoutNothingFound(missing[..|missing| - 1], found);
    }
  }

  /** The loops of bingo_check that build bingo_locs and look each name up. */
  method LineLocationIds(locations: map<string, int>, achieved: seq<string>) returns (ids: seq<int>)
    ensures ids == Resolve(locations, RewardNames(achieved))
  {
    var bingoLocs: seq<string> := [];
    for k := 0 to |achieved|
      invariant bingoLocs == RewardNames(achieved[..k])
    {
      assert achieved[..k + 1][..k] == achieved[..k];
      bingoLocs := bingoLocs + [achieved[k] + "-0"];
      bingoLocs := bingoLocs + [achieved[k] + "-1"];
    }
    assert achieved[..|achieved|] == achieved;
    ids := [];
    for k := 0 to |bingoLocs|
      invariant ids == Resolve(locations, bingoLocs[..k])
    {
      assert bingoLocs[..k + 1][..k] == bingoLocs[..k];
      if bingoLocs[k] in locations {
        ids := ids + [locations[bingoLocs[k]]];
      }
    }
    assert bingoLocs[..|bingoLocs|] == bingoLocs;
  }
}
