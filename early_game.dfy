/** The earlier GameManager: a smaller round state machine over the registry of shells, with
    no score and no difficulty. Its coroutines run here as ordinary methods, and their "wait"
    loops as loops; every Random.Range draw is a parameter. */
module EarlyGame {
  import opened Motion
  import opened Shuffle
  import opened EarlyShell

  datatype GameState = LOSE | WIN | SELECTING | SHUFFLING | SHOW | START

  class GameManager {
    const shells: seq<Shell>

    var currentState: GameState
    var numberOfSwitches: int
    var luckyShell: Shell?

    /** The current place of every registered shell, in registry order. */
    ghost function Positions(): seq<Vec2>
      reads shells
    {
      seq(|shells|, k reads shells requires 0 <= k < |shells| => shells[k].position)
    }

    /** The properties of every registered shell, in registry order. */
    ghost function AttrsOf(): seq<Attributes>
      reads shells
    {
      seq(|shells|, k reads shells requires 0 <= k < |shells| => shells[k].Attrs())
    }

    /** Every registered shell is at rest and can move. */
    ghost predicate AtRest()
      reads shells
    {
      forall k :: 0 <= k < |shells| ==> !shells[k].isMoving && shells[k].moveSpeed > 0.0
    }

    /** No shell is registered twice. */
    ghost predicate Distinct()
    {
      forall i, j :: 0 <= i < |shells| && 0 <= j < |shells| && i != j ==> shells[i] != shells[j]
    }

    /** Once a round has started, the lucky shell is a registered shell holding the prize. */
    ghost predicate Lucky()
      reads this, shells
    {
      currentState != START ==> luckyShell != null && luckyShell in shells && luckyShell.isWinner
    }

    /** The registry a round begins and ends with: distinct shells with a positive speed, at
        rest, in pairwise different columns, and the swap count in its inspector range. */
    ghost predicate Valid()
      reads this, shells
    {
      |shells| >= 1
      && Distinct()
      && (forall k :: 0 <= k < |shells| ==> !shells[k].isMoving && shells[k].moveSpeed > 0.0)
      && Spread(Positions())
      && 1 <= numberOfSwitches <= 100
      && Lucky()
    }

    /** The manager after its Start: at START, with the swap count it was given. */
    constructor (shells: seq<Shell>, numberOfSwitches: int)
      requires |shells| >= 1
      requires forall i, j :: 0 <= i < |shells| && 0 <= j < |shells| && i != j ==> shells[i] != shells[j]
      requires forall k :: 0 <= k < |shells| ==> !shells[k].isMoving && shells[k].moveSpeed > 0.0
      requires forall i, j :: 0 <= i < |shells| && 0 <= j < |shells| && i != j ==> shells[i].position.x != shells[j].position.x
      requires 1 <= numberOfSwitches <= 100
      ensures Valid()
      ensures this.shells == shells && this.numberOfSwitches == numberOfSwitches
      ensures currentState == START && luckyShell == null
    {
      this.shells := shells;
      this.numberOfSwitches := numberOfSwitches;
      currentState := START;
      luckyShell := null;
      new;
      assert forall k :: 0 <= k < |shells| ==> Positions()[k] == shells[k].position;
    }

    /** One pass of the swap loop after the draws: shells a and b are sent to each other's place,
        and the physics ticks run until both are at rest there. */
    method SwapAndWait(a: Shell, b: Shell, dt: real)
      requires a != b && !a.isMoving && !b.isMoving
      requires a.position.x != b.position.x
      requires StepLength(a.moveSpeed, dt) > 0.0 && StepLength(b.moveSpeed, dt) > 0.0
      modifies a`position, a`startMove, a`newLocation, a`isMoving
      modifies b`position, b`startMove, b`newLocation, b`isMoving
      ensures a.position == old(b.position) && b.position == old(a.position)
      ensures !a.isMoving && !b.isMoving
    {
      a.SwapShellLocation(b);
      while a.isMoving || b.isMoving
        invariant a.startMove == old(a.position) && a.newLocation == old(b.position)
        invariant b.startMove == old(b.position) && b.newLocation == old(a.position)
        invariant !a.isMoving ==> a.position == a.newLocation
        invariant !b.isMoving ==> b.position == b.newLocation
        modifies a`position, a`isMoving, b`position, b`isMoving
        decreases a.TicksLeft(dt) + b.TicksLeft(dt)
      {
        a.Update(dt);
        b.Update(dt);
      }
    }

    /** One swap of the shuffle on the registry: the two shells of sw trade places and every
        shell is at rest again afterwards. */
    method ShuffleStep(sw: Swap, dt: real, ghost start: seq<Vec2>, ghost done: seq<Swap>)
      requires 0 <= sw.first < |shells| && 0 <= sw.second < |shells| && sw.first != sw.second
      requires Distinct() && AtRest() && dt > 0.0
      requires |start| == |shells| && Spread(start) && SwapsInRange(done, |shells|) && Positions() == ApplySwaps(start, done)
      modifies shells
      ensures SwapsInRange(done + [sw], |shells|) && Positions() == ApplySwaps(start, done + [sw])
      ensures AtRest() && AttrsOf() == old(AttrsOf())
    {
      var a, b := shells[sw.first], shells[sw.second];
      ApplySwapsKeepsSpread(start, done);
      assert a.position.x != b.position.x by {
        assert Positions()[sw.first] == a.position && Positions()[sw.second] == b.position;
      }
      StepPositive(a.moveSpeed, dt);
      StepPositive(b.moveSpeed, dt);
      ghost var before := Positions();
      ghost var attrs := AttrsOf();
      SwapAndWait(a, b, dt);
      assert AttrsOf() == attrs;
      assert Positions() == SwapAt(before, sw);
      ApplySwapsSnoc(start, done, sw);
    }

    /** One pass of the swap loop: the draws of the next swap, then that swap on the registry. */
    method ShufflePass(draws: seq<int>, c: nat, left: nat, dt: real,
                       ghost start: seq<Vec2>, ghost plan: seq<Swap>, ghost done: seq<Swap>, ghost rest: seq<Swap>)
        returns (next: nat, left': nat, ghost done': seq<Swap>, ghost rest': seq<Swap>)
      requires left > 0 && InRange(draws, |shells|) && dt > 0.0
      requires DrawSwaps(draws, c, left) == Some(rest) && plan == done + rest
      requires Distinct() && AtRest()
      requires |start| == |shells| && Spread(start) && SwapsInRange(done, |shells|) && Positions() == ApplySwaps(start, done)
      modifies shells
      ensures left' == left - 1 && DrawSwaps(draws, next, left') == Some(rest')
      ensures plan == done' + rest'
      ensures SwapsInRange(done', |shells|) && Positions() == ApplySwaps(start, done')
      ensures AtRest() && AttrsOf() == old(AttrsOf())
    {
      var sw;
      sw, next, left', rest' := DrawPair(draws, c, left, rest);
      PlanStep(plan, done, sw, rest');
      ShuffleStep(sw, dt, start, done);
      done' := done + [sw];
    }

    /** The for loop of the shuffle: count swaps, drawn pass by pass from the stream. */
    method SwapLoop(draws: seq<int>, count: nat, dt: real)
      requires DrawSwaps(draws, 0, count).Some? && InRange(draws, |shells|) && dt > 0.0
      requires Distinct() && AtRest() && Spread(Positions())
      modifies shells
      ensures SwapsInRange(DrawSwaps(draws, 0, count).value, |shells|)
      ensures Positions() == ApplySwaps(old(Positions()), DrawSwaps(draws, 0, count).value)
      ensures Spread(Positions())
      ensures forall k :: 0 <= k < |shells| ==> !shells[k].isMoving && shells[k].Attrs() == old(shells[k].Attrs())
    {
      ghost var plan := DrawSwaps(draws, 0, count).value;
      DrawnSwapsInRange(draws, 0, count, |shells|);
      ghost var start := Positions();
      ghost var attrs := AttrsOf();
      ghost var done: seq<Swap> := [];
      ghost var rest: seq<Swap> := plan;
      var c := 0;
      var left := count;
      while left > 0
        invariant 0 <= left <= count
        invariant DrawSwaps(draws, c, left) == Some(rest)
        decreases left
        invariant plan == done + rest
        invariant SwapsInRange(done, |shells|) && Positions() == ApplySwaps(start, done)
        invariant AtRest() && AttrsOf() == attrs
      {
        c, left, done, rest := ShufflePass(draws, c, left, dt, start, plan, done, rest);
      }
      assert done == plan;
      ApplySwapsKeepsSpread(start, done);
      assert forall k :: 0 <= k < |shells| ==> shells[k].Attrs() == attrs[k];
    }

    /** Moving the shells keeps the registry valid, so long as they come to rest in different
        columns and everything else about them and the manager stays as it was. */
    twostate lemma MovedStillValid()
      requires old(Valid())
      requires unchanged(this`luckyShell, this`numberOfSwitches)
      requires (currentState == START) == (old(currentState) == START)
      requires forall k :: 0 <= k < |shells| ==> !shells[k].isMoving && shells[k].Attrs() == old(shells[k].Attrs())
      requires Spread(Positions())
      ensures Valid()
    {
    }

    /** The shuffle: from SHOW only, numberOfSwitches swaps of two distinct shells drawn from the
        stream, each started after the previous one has come to rest, then SELECTING. The shells
        end on the plan's permutation of their places and keep everything else. */
    method PerformGame(draws: seq<int>, dt: real)
      requires Valid()
      requires currentState == SHOW ==>
        dt > 0.0 && InRange(draws, |shells|) && DrawSwaps(draws, 0, numberOfSwitches).Some?
      modifies this`currentState, shells
      ensures Valid()
      ensures old(currentState) != SHOW ==> currentState == old(currentState)
      ensures old(currentState) == SHOW ==> currentState == SELECTING
      ensures old(currentState) == SHOW ==>
        var plan := DrawSwaps(draws, 0, numberOfSwitches).value;
        SwapsInRange(plan, |shells|) && Positions() == ApplySwaps(old(Positions()), plan)
      ensures old(currentState) != SHOW ==> Positions() == old(Positions())
      ensures forall k :: 0 <= k < |shells| ==> shells[k].Attrs() == old(shells[k].Attrs())
    {
      if currentState == SHOW {
        ghost var before := Positions();
        currentState := SHUFFLING;
        assert Positions() == before;
        SwapLoop(draws, numberOfSwitches, dt);
        currentState := SELECTING;
        MovedStillValid();
      }
    }

    /** The draw of the lucky shell: the shell at the drawn index gets the prize, and is
        returned. */
    method DetermineLuckyShell(index: int) returns (s: Shell)
      requires 0 <= index < |shells|
      modifies shells[index]
      ensures s == shells[index] && s.Kin() == old(s.Kin()) && s.Attrs() == old(s.Attrs()).(isWinner := true)
    {
      s := shells[index];
      s.isWinner := true;
    }

    /** Starts a round, from START only: the draw of the lucky shell, then SHOW. The showing of
        the lucky shell is ShowLuckyShell. */
    method StartGame(luckyIndex: int)
      requires Valid() && 0 <= luckyIndex < |shells|
      modifies this`currentState, this`luckyShell, shells
      ensures Valid() && Positions() == old(Positions())
      ensures old(currentState) != START ==>
        currentState == old(currentState) && luckyShell == old(luckyShell)
      ensures old(currentState) == START ==> currentState == SHOW && luckyShell == shells[luckyIndex]
      ensures forall k :: 0 <= k < |shells| ==>
        shells[k].Kin() == old(shells[k].Kin())
        && shells[k].Attrs() == old(shells[k].Attrs()).(isWinner := shells[k].isWinner)
        && shells[k].isWinner == (old(shells[k].isWinner) || (old(currentState) == START && k == luckyIndex))
    {
      if currentState == START {
        ghost var before := Positions();
        luckyShell := DetermineLuckyShell(luckyIndex);
        currentState := SHOW;
        assert Positions() == before;
      }
    }

    /** The coroutine that shows the lucky shell: its colours flash six times, which leaves
        them as they were, and then, if the round is still in SHOW, the shuffle runs. */
    method ShowLuckyShell(draws: seq<int>, dt: real)
      requires Valid() && luckyShell != null && luckyShell in shells
      requires currentState == SHOW ==>
        dt > 0.0 && InRange(draws, |shells|) && DrawSwaps(draws, 0, numberOfSwitches).Some?
      modifies this`currentState, shells
      ensures Valid()
      ensures luckyShell.colorToggles == old(luckyShell.colorToggles) + 6
      ensures luckyShell.toggled == old(luckyShell.toggled)
      ensures old(currentState) == SHOW ==> currentState == SELECTING
      ensures old(currentState) == SHOW ==>
        var plan := DrawSwaps(draws, 0, numberOfSwitches).value;
        SwapsInRange(plan, |shells|) && Positions() == ApplySwaps(old(Positions()), plan)
      ensures old(currentState) != SHOW ==> currentState == old(currentState) && Positions() == old(Positions())
      ensures old(currentState) != SHOW ==> forall k :: 0 <= k < |shells| ==> shells[k].Kin() == old(shells[k].Kin())
      ensures forall k :: 0 <= k < |shells| ==>
        shells[k].Attrs() == if shells[k] == luckyShell then old(shells[k].Attrs()).(colorToggles := old(shells[k].colorToggles) + 6)
                             else old(shells[k].Attrs())
    {
      var s: Shell := luckyShell;
      ghost var before := Positions();
      for i := 0 to 6
        invariant s.colorToggles == old(s.colorToggles) + i
        invariant s.toggled == (old(s.toggled) != (i % 2 == 1))
        modifies s`colorToggles, s`toggled
      {
        s.ToggleShellColors();
      }
      assert Positions() == before;
      if currentState == SHOW {
        PerformGame(draws, dt);
      }
    }

    /** The coroutine that settles a round on the player's pick, in SELECTING only: WIN when
        the pick holds the prize, LOSE otherwise, and then ResetGame. */
    method ConcludeGame(selected: Shell) returns (won: bool)
      requires Valid()
      modifies this`currentState, shells
      ensures Valid()
      ensures old(currentState) != SELECTING ==>
        !won && currentState == old(currentState)
        && forall k :: 0 <= k < |shells| ==> shells[k].Kin() == old(shells[k].Kin()) && shells[k].Attrs() == old(shells[k].Attrs())
      ensures old(currentState) == SELECTING ==>
        (won <==> old(selected.isWinner)) && currentState == START
        && forall k :: 0 <= k < |shells| ==>
          shells[k].Kin() == old(shells[k].Kin())
          && shells[k].Attrs() == old(shells[k].Attrs()).(resetRequests := old(shells[k].resetRequests) + 1)
    {
      won := false;
      if currentState == SELECTING {
        won := selected.isWinner;
        if won {
          currentState := WIN;
        } else {
          currentState := LOSE;
        }
        ResetGame();
      }
    }

    /** Back to START, with a reset requested on every shell; not while the player is being
        shown the lucky shell or is choosing. */
    method ResetGame()
      requires Valid()
      modifies this`currentState, shells
      ensures Valid()
      ensures old(currentState) == SELECTING || old(currentState) == SHOW ==>
        currentState == old(currentState)
        && forall k :: 0 <= k < |shells| ==> shells[k].Kin() == old(shells[k].Kin()) && shells[k].Attrs() == old(shells[k].Attrs())
      ensures old(currentState) != SELECTING && old(currentState) != SHOW ==>
        currentState == START
        && forall k :: 0 <= k < |shells| ==>
          shells[k].Kin() == old(shells[k].Kin())
          && shells[k].Attrs() == old(shells[k].Attrs()).(resetRequests := old(shells[k].resetRequests) + 1)
    {
      if currentState != SELECTING && currentState != SHOW {
        ghost var before := Positions();
        for i := 0 to |shells|
          invariant forall k :: 0 <= k < i ==>
            shells[k].Kin() == old(shells[k].Kin())
            && shells[k].Attrs() == old(shells[k].Attrs()).(resetRequests := old(shells[k].resetRequests) + 1)
          invariant forall k :: i <= k < |shells| ==> shells[k].Kin() == old(shells[k].Kin()) && shells[k].Attrs() == old(shells[k].Attrs())
          invariant currentState == old(currentState)
        {
          shells[i].ResetShell();
        }
        currentState := START;
        assert Positions() == before;
      }
    }
  }
}
