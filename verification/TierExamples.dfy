/** What goes wrong in a tier when calls overlap carelessly. */
module TierExamples {
  import opened Neutral
  import opened MonitoredTiers
  import opened TierCalls
  import opened TierRestore

  lemma OneNode(bucket: map<string, int>, items: map<int, string>, n: string, h: int)
    ensures NewIds(bucket, [n]) == if n in bucket then [] else [n]
    ensures Noted(bucket, [n], [h]) == bucket[n := h] && Created(items, [n], [h]) == items[h := n]
  {
    assert [n][1..] == [] && [n][..0] == [] && [h][..0] == [];
    assert NewIds(bucket, [n]) == (if n !in bucket then [n] + NewIds(bucket, []) else NewIds(bucket, []));
  }

  ghost predicate Goes(before: Tier, move: Move, after: Tier) {
    Enabled(before, move) && Moved(before, move) == after
  }

  /** One more move of an example. */
  lemma Then(moves: seq<Move>, before: Tier, move: Move, after: Tier)
    requires Reached(IDLE, moves) == Some(before) && Goes(before, move, after)
    ensures Reached(IDLE, moves + [move]) == Some(after)
  {
    Onward(IDLE, moves, before, move);
  }

  const X := ["x"]
  const Y := ["y"]

  // ------------------------------------------------------------------ the first add

  const CREATING := IDLE.(calls := map[0 := Creating(X, 0)])
  const MADE := Tier(None, None, [], map[0 := map[]], 1, 0, map[0 := Made(X, 0)])
  const ASKED := Tier(Some(0), None, [], map[0 := map[]], 1, 0, map[0 := Asking(X, 0)])
  const GRANTED := ASKED.(server := map[0 := map[1 := "x"]], calls := map[0 := Granted(X, [1])])

  const UNTIL_ASKED := [] + [BeginAdd(0, X)] + [Answer(0, [])] + [Resume(0)]
  const UNTIL_GRANTED := UNTIL_ASKED + [Answer(0, [1])]

  lemma FirstSteps()
    ensures Goes(IDLE, BeginAdd(0, X), CREATING) && Goes(CREATING, Answer(0, []), MADE)
    ensures Goes(MADE, Resume(0), ASKED) && Goes(ASKED, Answer(0, [1]), GRANTED)
  {
    OneNode(map[], map[], "x", 1);
    assert Moved(CREATING, Answer(0, [])) == MADE;
    assert Moved(MADE, Resume(0)) == ASKED;
    assert Moved(ASKED, Answer(0, [1])) == GRANTED;
  }

  lemma FirstAsks()
    ensures Reached(IDLE, UNTIL_ASKED) == Some(ASKED) && Reached(IDLE, UNTIL_GRANTED) == Some(GRANTED)
  {
    FirstSteps();
    Then([], IDLE, BeginAdd(0, X), CREATING);
    Then([] + [BeginAdd(0, X)], CREATING, Answer(0, []), MADE);
    Then([] + [BeginAdd(0, X)] + [Answer(0, [])], MADE, Resume(0), ASKED);
    Then(UNTIL_ASKED, ASKED, Answer(0, [1]), GRANTED);
  }

  // ------------------------------------------------------------------ one node, two calls

  const TWO_ASKED := ASKED.(calls := map[0 := Asking(X, 0), 1 := Asking(X, 0)])
  const ONE_GRANTED := TWO_ASKED.(server := map[0 := map[1 := "x"]],
                                  calls := map[0 := Granted(X, [1]), 1 := Asking(X, 0)])
  const TWO_GRANTED := TWO_ASKED.(server := map[0 := map[1 := "x", 2 := "x"]],
                                  calls := map[0 := Granted(X, [1]), 1 := Granted(X, [2])])
  const ONE_FILED := TWO_GRANTED.(bucket := Some(0), buckets := [map["x" := 1]], calls := map[1 := Granted(X, [2])])
  const LEAKING := ONE_FILED.(buckets := [map["x" := 2]], calls := map[])

  const OVERLAP :=
    UNTIL_ASKED + [BeginAdd(1, X)] + [Answer(0, [1])] + [Answer(1, [2])] + [Resume(0)] + [Resume(1)]

  lemma OverlapAsks()
    ensures Goes(ASKED, BeginAdd(1, X), TWO_ASKED) && Goes(TWO_ASKED, Answer(0, [1]), ONE_GRANTED)
  {
    OneNode(map[], map[], "x", 1);
    assert Moved(ASKED, BeginAdd(1, X)) == TWO_ASKED;
    assert Moved(TWO_ASKED, Answer(0, [1])) == ONE_GRANTED;
  }

  lemma OverlapFiles()
    ensures Goes(ONE_GRANTED, Answer(1, [2]), TWO_GRANTED)
    ensures Goes(TWO_GRANTED, Resume(0), ONE_FILED)
  {
    OneNode(map[], map[1 := "x"], "x", 2);
    OneNode(map[], map[], "x", 1);
    assert Moved(ONE_GRANTED, Answer(1, [2])) == TWO_GRANTED;
    assert Moved(TWO_GRANTED, Resume(0)) == ONE_FILED;
  }

  lemma OverlapOverwrites()
    ensures Goes(ONE_FILED, Resume(1), LEAKING)
  {
    OneNode(map["x" := 1], map[], "x", 2);
    var after := Moved(ONE_FILED, Resume(1));
    assert Contents(ONE_FILED) == map["x" := 1] && map["x" := 1]["x" := 2] == map["x" := 2];
    assert after.buckets == [map["x" := 2]] && after.calls == map[];
  }

  /** Two clients register one tag: both calls find it missing, the server makes two items and the bucket keeps one. */
  lemma OverlapLeaksItem()
    ensures Reached(IDLE, OVERLAP) == Some(LEAKING) && Quiet(LEAKING) && !True(LEAKING)
  {
    FirstAsks();
    OverlapAsks();
    OverlapFiles();
    OverlapOverwrites();
    var m := UNTIL_ASKED;
    Then(m, ASKED, BeginAdd(1, X), TWO_ASKED);
    m := m + [BeginAdd(1, X)];
    Then(m, TWO_ASKED, Answer(0, [1]), ONE_GRANTED);
    m := m + [Answer(0, [1])];
    Then(m, ONE_GRANTED, Answer(1, [2]), TWO_GRANTED);
    m := m + [Answer(1, [2])];
    Then(m, TWO_GRANTED, Resume(0), ONE_FILED);
    Then(m + [Resume(0)], ONE_FILED, Resume(1), LEAKING);
    assert LEAKING.server[0][1] == "x" && Bucket(AsTiers(LEAKING, 0, map[]), 0) == map["x" := 2];
  }

  // ------------------------------------------------------------------ two nodes, two subscriptions

  const TWO_CREATING := IDLE.(calls := map[0 := Creating(X, 0), 1 := Creating(Y, 0)])
  const ONE_MADE := TWO_CREATING.(server := map[0 := map[]], made := 1,
                                  calls := map[0 := Made(X, 0), 1 := Creating(Y, 0)])
  const TWO_MADE := ONE_MADE.(server := map[0 := map[], 1 := map[]], made := 2,
                              calls := map[0 := Made(X, 0), 1 := Made(Y, 1)])
  const FIRST_KEPT := TWO_MADE.(sub := Some(0), calls := map[0 := Asking(X, 0), 1 := Made(Y, 1)])
  const SECOND_KEPT := TWO_MADE.(sub := Some(1), calls := map[0 := Asking(X, 0), 1 := Asking(Y, 1)])

  const CREATE_TWICE :=
    [] + [BeginAdd(0, X)] + [BeginAdd(1, Y)] + [Answer(0, [])] + [Answer(1, [])] + [Resume(0)] + [Resume(1)]

  lemma CreateTwiceSteps()
    ensures Goes(CREATING, BeginAdd(1, Y), TWO_CREATING) && Goes(TWO_CREATING, Answer(0, []), ONE_MADE)
    ensures Goes(ONE_MADE, Answer(1, []), TWO_MADE) && Goes(TWO_MADE, Resume(0), FIRST_KEPT)
    ensures Goes(FIRST_KEPT, Resume(1), SECOND_KEPT)
  {
    OneNode(map[], map[], "x", 1);
    OneNode(map[], map[], "y", 1);
    assert Moved(CREATING, BeginAdd(1, Y)) == TWO_CREATING;
    assert Moved(TWO_CREATING, Answer(0, [])) == ONE_MADE;
    assert Moved(ONE_MADE, Answer(1, [])) == TWO_MADE;
    assert Moved(TWO_MADE, Resume(0)) == FIRST_KEPT;
    assert Moved(FIRST_KEPT, Resume(1)) == SECOND_KEPT;
  }

  /** Two clients register different tags in a tier without a subscription: two are made and the tier keeps the last;
      the item of the first tag is then asked for in one that no removal reaches. */
  lemma SecondCreateOrphans()
    ensures Reached(IDLE, CREATE_TWICE) == Some(SECOND_KEPT) && Doomed(SECOND_KEPT)
  {
    FirstSteps();
    CreateTwiceSteps();
    var m := [] + [BeginAdd(0, X)];
    Then([], IDLE, BeginAdd(0, X), CREATING);
    Then(m, CREATING, BeginAdd(1, Y), TWO_CREATING);
    m := m + [BeginAdd(1, Y)];
    Then(m, TWO_CREATING, Answer(0, []), ONE_MADE);
    m := m + [Answer(0, [])];
    Then(m, ONE_MADE, Answer(1, []), TWO_MADE);
    m := m + [Answer(1, [])];
    Then(m, TWO_MADE, Resume(0), FIRST_KEPT);
    Then(m + [Resume(0)], FIRST_KEPT, Resume(1), SECOND_KEPT);
    assert TwoSources(SECOND_KEPT, At(0), At(1));
  }

  // ------------------------------------------------------------------ a loss with an answer in hand

  const LOST := Tier(None, None, [], map[], 1, 1, map[0 := Granted(X, [1])])
  const DEAD_HANDLE := LOST.(bucket := Some(0), buckets := [map["x" := 1]], calls := map[])
  const AGAIN := DEAD_HANDLE.(calls := map[1 := Creating(X, 1)])
  const REMADE := DEAD_HANDLE.(server := map[1 := map[]], made := 2, calls := map[1 := Made(X, 1)])
  const SKIPPED := REMADE.(sub := Some(1), calls := map[])

  const LATE := UNTIL_GRANTED + [Lose] + [Resume(0)] + [BeginAdd(1, X)] + [Answer(1, [])] + [Resume(1)]

  lemma LateSteps()
    ensures Goes(GRANTED, Lose, LOST) && Goes(LOST, Resume(0), DEAD_HANDLE)
    ensures Goes(DEAD_HANDLE, BeginAdd(1, X), AGAIN) && Goes(AGAIN, Answer(1, []), REMADE)
    ensures Goes(REMADE, Resume(1), SKIPPED)
  {
    OneNode(map[], map[], "x", 1);
    OneNode(map["x" := 1], map[], "x", 1);
    assert Moved(LOST, Resume(0)) == DEAD_HANDLE;
    assert Moved(DEAD_HANDLE, BeginAdd(1, X)) == AGAIN;
    assert Moved(AGAIN, Answer(1, [])) == REMADE;
    assert Moved(REMADE, Resume(1)) == SKIPPED;
  }

  /** An add files its handle after the loss; the reconnect takes the node for monitored and skips it. */
  lemma LateAnswerIsSkipped()
    ensures Reached(IDLE, LATE) == Some(SKIPPED) && Quiet(SKIPPED) && !True(SKIPPED)
    ensures "x" in Contents(SKIPPED) && SKIPPED.server == map[1 := map[]]
  {
    FirstAsks();
    LateSteps();
    var m := UNTIL_GRANTED;
    Then(m, GRANTED, Lose, LOST);
    m := m + [Lose];
    Then(m, LOST, Resume(0), DEAD_HANDLE);
    m := m + [Resume(0)];
    Then(m, DEAD_HANDLE, BeginAdd(1, X), AGAIN);
    m := m + [BeginAdd(1, X)];
    Then(m, AGAIN, Answer(1, []), REMADE);
    Then(m + [Answer(1, [])], REMADE, Resume(1), SKIPPED);
    assert Bucket(AsTiers(SKIPPED, 0, map[]), 0) == map["x" := 1];
  }

  // ------------------------------------------------------------------ an add during a removal

  const FILED := GRANTED.(bucket := Some(0), buckets := [map["x" := 1]], calls := map[])
  const DROPPING := FILED.(buckets := [map[]], server := map[0 := map[]], calls := map[1 := Dropping(0, 0)])
  const JOINED := DROPPING.(calls := map[1 := Dropping(0, 0), 2 := Asking(Y, 0)])
  const JOINED_GRANTED := JOINED.(server := map[0 := map[3 := "y"]],
                                  calls := map[1 := Dropping(0, 0), 2 := Granted(Y, [3])])
  const CUT := JOINED_GRANTED.(bucket := None, server := map[], calls := map[1 := Deleting, 2 := Granted(Y, [3])])
  const REFILED := CUT.(bucket := Some(1), buckets := [map[], map["y" := 3]], calls := map[1 := Deleting])
  const BARE := REFILED.(sub := None, calls := map[])

  const JOIN := UNTIL_GRANTED + [Resume(0)] + [BeginRemove(1, X)] + [BeginAdd(2, Y)] + [Answer(2, [3])] + [Resume(1)]
      + [Resume(2)] + [Resume(1)]

  lemma JoinSteps()
    ensures Goes(GRANTED, Resume(0), FILED) && Goes(FILED, BeginRemove(1, X), DROPPING)
    ensures Goes(DROPPING, BeginAdd(2, Y), JOINED)
  {
    OneNode(map[], map[], "x", 1);
    OneNode(map[], map[], "y", 3);
    assert Moved(GRANTED, Resume(0)) == FILED;
    assert "x" in X && "x" in Contents(FILED) && Removes(FILED, X);
    assert ToSet(X) == {"x"} && Contents(FILED) - {"x"} == map[] && Handles(Contents(FILED), {"x"}) == {1};
    assert Moved(FILED, BeginRemove(1, X)) == DROPPING;
    assert Moved(DROPPING, BeginAdd(2, Y)) == JOINED;
  }

  lemma JoinEnds()
    ensures Goes(JOINED, Answer(2, [3]), JOINED_GRANTED) && Goes(JOINED_GRANTED, Resume(1), CUT)
  {
    OneNode(map[], map[], "y", 3);
    assert Moved(JOINED, Answer(2, [3])) == JOINED_GRANTED;
    assert Moved(JOINED_GRANTED, Resume(1)) == CUT;
  }

  lemma CutEnds()
    ensures Goes(CUT, Resume(2), REFILED) && Goes(REFILED, Resume(1), BARE)
  {
    OneNode(map[], map[], "y", 3);
    assert Moved(CUT, Resume(2)) == REFILED;
    assert Moved(REFILED, Resume(1)) == BARE;
  }

  /** A removal empties the bucket, an add joins the subscription, and the removal deletes it: the node is filed and
      nothing monitors it. */
  lemma RemovalCutsOff()
    ensures Reached(IDLE, JOIN) == Some(BARE) && Quiet(BARE) && !True(BARE)
    ensures "y" in Contents(BARE) && BARE.server == map[]
  {
    FirstAsks();
    JoinSteps();
    JoinEnds();
    CutEnds();
    var m := UNTIL_GRANTED;
    Then(m, GRANTED, Resume(0), FILED);
    m := m + [Resume(0)];
    Then(m, FILED, BeginRemove(1, X), DROPPING);
    m := m + [BeginRemove(1, X)];
    Then(m, DROPPING, BeginAdd(2, Y), JOINED);
    m := m + [BeginAdd(2, Y)];
    Then(m, JOINED, Answer(2, [3]), JOINED_GRANTED);
    m := m + [Answer(2, [3])];
    Then(m, JOINED_GRANTED, Resume(1), CUT);
    m := m + [Resume(1)];
    Then(m, CUT, Resume(2), REFILED);
    Then(m + [Resume(2)], REFILED, Resume(1), BARE);
    assert Bucket(AsTiers(BARE, 0, map[]), 0) == map["y" := 3];
  }
}
