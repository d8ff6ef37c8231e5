/** The later GameManager: the round state machine over the registry of shells, the score, the
    swap count and the difficulty rule. The engine's coroutines run here as ordinary methods,
    and their "wait until done" loops as loops; every Random.Range draw is a parameter. */
module StandardGame {
  import opened Motion
  import opened Shuffle
  import opened StandardGameState
  import opened StandardShell

  /** A shell's speed after a difficulty step: raised by the drawn increment and kept inside the
      inspector range [1, 100]. */
  function NewMoveSpeed(speed: real, inc: real): (r: real)
    ensures 1.0 <= r <= 100.0
    ensures 1.0 <= speed + inc <= 100.0 ==> r == speed + inc
    ensures speed + inc > 100.0 ==> r == 100.0
    ensures speed <= 100.0 && inc >= 0.0 ==> speed <= r
  {
    Clamp(speed + inc, 1.0, 100.0)
  }

  /** A shell's arc height after a difficulty step: its size grows by the drawn increment up to
      5, and the per-shell coin (1 or not) makes it dip below the line or rise above it. */
  function NewArcHeight(arc: real, inc: real, coin: int): (r: real)
    ensures -5.0 <= r <= 5.0
    ensures inc >= 0.0 && coin == 1 ==> r <= 0.0
    ensures inc >= 0.0 && coin != 1 ==> r >= 0.0
    ensures inc >= 0.0 ==> Abs(r) == (if Abs(arc) + inc <= 5.0 then Abs(arc) + inc else 5.0)
  {
    var size := Clamp(Abs(arc) + inc, -5.0, 5.0);
    if coin == 1 then -size else size
  }

  /** The swap count after a difficulty step: one more, up to 100. */
  function NextSwitchCount(n: int): (r: int)
    ensures 1 <= r <= 100
    ensures 0 <= n < 100 ==> r == n + 1
    ensures n >= 100 ==> r == 100
  {
    if n + 1 < 1 then 1 else if n + 1 > 100 then 100 else n + 1
  }

  /** One shell's properties after a difficulty step: a new speed and arc height, nothing
      else touched. */
  function Harder(a: Attributes, speedInc: real, arcInc: real, coin: int): (r: Attributes)
    ensures 1.0 <= r.moveSpeed <= 100.0 && -5.0 <= r.arcHeight <= 5.0
    ensures r.(moveSpeed := a.moveSpeed, arcHeight := a.arcHeight) == a
  {
    a.(moveSpeed := NewMoveSpeed(a.moveSpeed, speedInc), arcHeight := NewArcHeight(a.arcHeight, arcInc, coin))
  }

  /** One shell's properties once a round has started on properties a: the difficulty step
      if one was due, and then, on the lucky shell alone, MarkAsLucky. */
  function Started(a: Attributes, due: bool, speedInc: real, arcInc: real, coin: int, lucky: bool): (r: Attributes)
    ensures lucky ==> r.isWinner
    ensures lucky && !a.isWinner ==> r.goldPileActive
    ensures !lucky ==> r.isWinner == a.isWinner && r.goldPileActive == a.goldPileActive
    ensures !due ==> r.moveSpeed == a.moveSpeed && r.arcHeight == a.arcHeight
    ensures r.chestOpen == a.chestOpen && r.spotIntensity == a.spotIntensity
    ensures r.(isWinner := a.isWinner, goldPileActive := a.goldPileActive) == (if due then Harder(a, speedInc, arcInc, coin) else a)
  {
    var d := if due then Harder(a, speedInc, arcInc, coin) else a;
    if lucky then d.(isWinner := true, goldPileActive := d.goldPileActive || !d.isWinner) else d
  }

  /** One shell's properties after the reveal of a verdict: on the revealed shell alone, the
      chest has been opened and closed again and the spot light is off. */
  function Shown(a: Attributes, revealed: bool): (r: Attributes)
    ensures revealed ==> !r.chestOpen && r.spotIntensity == 0.0
    ensures !revealed ==> r == a
    ensures r.(chestOpen := a.chestOpen, spotIntensity := a.spotIntensity) == a
  {
    if revealed then a.(chestOpen := false, spotIntensity := 0.0) else a
  }

  /** A difficulty step is due every turnDifficulty won rounds: on a positive score that is a
      multiple of it. (The score is never negative, so C#'s remainder agrees with Dafny's.) */
  function DifficultyDue(score: int, turnDifficulty: int): (r: bool)
    requires turnDifficulty >= 1
    // no step before turnDifficulty rounds have been won
    ensures 0 <= score < turnDifficulty ==> !r
    // with a threshold of 1 every won round brings one
    ensures turnDifficulty == 1 ==> (r <==> score != 0)
  {
    score != 0 && score % turnDifficulty == 0
  }

  /** The steps recur every turnDifficulty won rounds: turnDifficulty more wins than a score
      on which a step was due (or than none) bring the next one, and no earlier. */
  lemma DifficultyRecurs(score: int, turnDifficulty: int)
    requires turnDifficulty >= 1 && score >= 0
    ensures DifficultyDue(score + turnDifficulty, turnDifficulty) <==> (score == 0 || DifficultyDue(score, turnDifficulty))
  {
    ModUnique(score + turnDifficulty, turnDifficulty, score / turnDifficulty + 1, score % turnDifficulty);
  }

  /** The remainder is the only r in [0, d) with a == d * q + r for some q. */
  lemma ModUnique(a: int, d: int, q: int, r: int)
    requires d >= 1 && 0 <= r < d && a == d * q + r
    ensures a % d == r
  {
    var q' := a / d;
    var r' := a % d;
    var k := q - q';
    assert d * q == d * q' + d * k;
    assert d * k == r' - r;
    if k >= 1 {
      MulAtLeast(d, k);
    } else if k <= -1 {
      MulAtLeast(d, -k);
    }
  }

  lemma MulAtLeast(d: int, k: int)
    requires d >= 1 && k >= 1
    ensures d * k >= d
  {
    assert d * k == d * (k - 1) + d;
  }

  class GameManager {
    const shells: seq<Shell>
    const statics: Statics
    const turnDifficulty: int
    const origNumberOfSwitches: int

    var currentState: GameState
    var luckyShell: Shell?
    var gameScore: int
    var numberOfSwitches: int

    /** The current place of every registered shell, in registry order. */
    ghost function Positions(): seq<Vec2>
      reads shells
    {
      seq(|shells|, k reads shells requires 0 <= k < |shells| => shells[k].position)
    }

    /** The place every registered shell started from. */
    function Origins(): seq<Vec2>
    {
      seq(|shells|, k requires 0 <= k < |shells| => shells[k].origLocation)
    }

    /** The properties of every registered shell, in registry order. */
    ghost function AttrsOf(): seq<Attributes>
      reads shells
    {
      seq(|shells|, k reads shells requires 0 <= k < |shells| => shells[k].Attrs())
    }

    /** Every registered shell is at rest and can move. */
    ghost predicate AtRest()
      reads shells
    {
      forall k :: 0 <= k < |shells| ==> !shells[k].isMoving && shells[k].moveSpeed >= 1.0
    }

    /** No shell is registered twice. */
    ghost predicate Distinct()
    {
      forall i, j :: 0 <= i < |shells| && 0 <= j < |shells| && i != j ==> shells[i] != shells[j]
    }

    /** Exactly one registered shell holds the prize while a round is under way, and it is the
        lucky shell; between rounds none does. */
    ghost predicate OneWinner()
      reads this, shells
    {
      if InRound(currentState) then
        luckyShell != null && luckyShell in shells
        && forall k :: 0 <= k < |shells| ==> (shells[k].isWinner <==> shells[k] == luckyShell)
      else
        forall k :: 0 <= k < |shells| ==> !shells[k].isWinner
    }

    /** The registry and the counters a round begins and ends with: distinct shells sharing one
        set of statics, in their inspector ranges, at rest, in pairwise different columns. */
    ghost predicate Valid()
      reads this, shells, statics
    {
      |shells| >= 1
      && Distinct()
      && statics.Tuned()
      && (forall k :: 0 <= k < |shells| ==> shells[k].statics == statics && shells[k].Tuned() && !shells[k].isMoving)
      && Spread(Origins()) && Spread(Positions())
      && 1 <= numberOfSwitches <= 100 && 1 <= origNumberOfSwitches <= 100
      && 1 <= turnDifficulty <= 10 && gameScore >= 0
      && OneWinner()
    }

    /** The manager after its Start: at the beginning, with no score, remembering the swap count
        it was given. The shells are as their own Start left them. */
    constructor (shells: seq<Shell>, statics: Statics, numberOfSwitches: int, turnDifficulty: int)
      requires |shells| >= 1
      requires forall i, j :: 0 <= i < |shells| && 0 <= j < |shells| && i != j ==> shells[i] != shells[j]
      requires statics.Tuned()
      requires forall k :: 0 <= k < |shells| ==>
        shells[k].statics == statics && shells[k].Tuned() && !shells[k].isMoving && !shells[k].isWinner
        && shells[k].position == shells[k].origLocation
      requires Spread(seq(|shells|, k requires 0 <= k < |shells| => shells[k].origLocation))
      requires 1 <= numberOfSwitches <= 100 && 1 <= turnDifficulty <= 10
      ensures Valid()
      ensures this.shells == shells && this.statics == statics
      ensures currentState == BEGINNING && gameScore == 0 && luckyShell == null
      ensures this.numberOfSwitches == numberOfSwitches && origNumberOfSwitches == numberOfSwitches
      ensures this.turnDifficulty == turnDifficulty
    {
      this.shells := shells;
      this.statics := statics;
      this.turnDifficulty := turnDifficulty;
      this.numberOfSwitches := numberOfSwitches;
      origNumberOfSwitches := numberOfSwitches;
      currentState := BEGINNING;
      gameScore := 0;
      luckyShell := null;
      new;
      assert Positions() == Origins();
    }

    /** Plays a shell's chest animation to the end: open until the spot light snaps to its
        peak, then close until the scene light snaps back to its original level. */
    method Reveal(s: Shell)
      requires s.statics == statics && 0.001 <= s.lightTransitionSpeed <= 1.0
      modifies s`chestOpen, s`spotIntensity, statics`sceneIntensity
      ensures !s.chestOpen && s.spotIntensity == 0.0 && statics.sceneIntensity == statics.origSceneIntensity
      ensures s.Attrs() == Shown(old(s.Attrs()), true)
    {
      var isOpen := s.AnimateOpenChest();
      while !isOpen
        invariant s.chestOpen
        invariant !isOpen ==> Abs(SpotMax - s.spotIntensity) >= 0.1
        decreases if isOpen then 0 else (Abs(SpotMax - s.spotIntensity) * 10000.0).Floor + 1
      {
        FadeProgress(s.spotIntensity, SpotMax, s.lightTransitionSpeed);
        isOpen := s.AnimateOpenChest();
      }
      var closed := s.AnimateCloseChest();
      while !closed
        invariant !s.chestOpen
        invariant !closed ==> Abs(statics.origSceneIntensity - statics.sceneIntensity) >= 0.1
        invariant closed ==> s.spotIntensity == 0.0 && statics.sceneIntensity == statics.origSceneIntensity
        decreases if closed then 0 else (Abs(statics.origSceneIntensity - statics.sceneIntensity) * 10000.0).Floor + 1
      {
        FadeProgress(statics.sceneIntensity, statics.origSceneIntensity, s.lightTransitionSpeed);
        closed := s.AnimateCloseChest();
      }
    }

    /** One pass of the swap loop after the draws: shells a and b are sent to each other's place,
        and the physics ticks run until both are at rest there. */
    method SwapAndWait(a: Shell, b: Shell, dt: real)
      requires a != b && !a.isMoving && !b.isMoving
      requires a.position.x != b.position.x
      requires StepLength(a.moveSpeed, dt) > 0.0 && StepLength(b.moveSpeed, dt) > 0.0
      modifies a`position, a`startMove, a`newLocation, a`isMoving
      modifies b`position, b`startMove, b`newLocation, b`isMoving
      ensures a.position == old(b.position) && b.position == old(a.position)
      ensures !a.isMoving && !b.isMoving
    {
      a.SwapShellLocation(b);
      while a.isMoving || b.isMoving
        invariant a.startMove == old(a.position) && a.newLocation == old(b.position)
        invariant b.startMove == old(b.position) && b.newLocation == old(a.position)
        invariant !a.isMoving ==> a.position == a.newLocation
        invariant !b.isMoving ==> b.position == b.newLocation
        modifies a`position, a`isMoving, b`position, b`isMoving
        decreases a.TicksLeft(dt) + b.TicksLeft(dt)
      {
        a.FixedUpdate(dt);
        b.FixedUpdate(dt);
      }
    }

    /** One swap of the shuffle on the registry: the two shells of sw trade places and every
        shell is at rest again afterwards. */
    method ShuffleStep(sw: Swap, dt: real, ghost start: seq<Vec2>, ghost done: seq<Swap>)
      requires 0 <= sw.first < |shells| && 0 <= sw.second < |shells| && sw.first != sw.second
      requires Distinct() && AtRest() && dt > 0.0
      requires |start| == |shells| && Spread(start) && SwapsInRange(done, |shells|) && Positions() == ApplySwaps(start, done)
      modifies shells
      ensures SwapsInRange(done + [sw], |shells|) && Positions() == ApplySwaps(start, done + [sw])
      ensures AtRest() && AttrsOf() == old(AttrsOf())
    {
      var a, b := shells[sw.first], shells[sw.second];
      ApplySwapsKeepsSpread(start, done);
      assert a.position.x != b.position.x by {
        assert Positions()[sw.first] == a.position && Positions()[sw.second] == b.position;
      }
      StepPositive(a.moveSpeed, dt);
      StepPositive(b.moveSpeed, dt);
      ghost var before := Positions();
      ghost var attrs := AttrsOf();
      SwapAndWait(a, b, dt);
      assert AttrsOf() == attrs;
      assert Positions() == SwapAt(before, sw);
      ApplySwapsSnoc(start, done, sw);
    }

    /** One pass of the swap loop: the draws of the next swap, then that swap on the registry. */
    method ShufflePass(draws: seq<int>, c: nat, left: nat, dt: real,
                       ghost start: seq<Vec2>, ghost plan: seq<Swap>, ghost done: seq<Swap>, ghost rest: seq<Swap>)
        returns (next: nat, left': nat, ghost done': seq<Swap>, ghost rest': seq<Swap>)
      requires left > 0 && InRange(draws, |shells|) && dt > 0.0
      requires DrawSwaps(draws, c, left) == Some(rest) && plan == done + rest
      requires Distinct() && AtRest()
      requires |start| == |shells| && Spread(start) && SwapsInRange(done, |shells|) && Positions() == ApplySwaps(start, done)
      modifies shells
      ensures left' == left - 1 && DrawSwaps(draws, next, left') == Some(rest')
      ensures plan == done' + rest'
      ensures SwapsInRange(done', |shells|) && Positions() == ApplySwaps(start, done')
      ensures AtRest() && AttrsOf() == old(AttrsOf())
    {
      var sw;
      sw, next, left', rest' := DrawPair(draws, c, left, rest);
      PlanStep(plan, done, sw, rest');
      ShuffleStep(sw, dt, start, done);
      done' := done + [sw];
    }

    /** The for loop of the shuffle: count swaps, drawn pass by pass from the stream. */
    method SwapLoop(draws: seq<int>, count: nat, dt: real)
      requires DrawSwaps(draws, 0, count).Some? && InRange(draws, |shells|) && dt > 0.0
      requires Distinct() && AtRest() && Spread(Positions())
      modifies shells
      ensures SwapsInRange(DrawSwaps(draws, 0, count).value, |shells|)
      ensures Positions() == ApplySwaps(old(Positions()), DrawSwaps(draws, 0, count).value)
      ensures Spread(Positions())
      ensures forall k :: 0 <= k < |shells| ==> !shells[k].isMoving && shells[k].Attrs() == old(shells[k].Attrs())
    {
      ghost var plan := DrawSwaps(draws, 0, count).value;
      DrawnSwapsInRange(draws, 0, count, |shells|);
      ghost var start := Positions();
      ghost var attrs := AttrsOf();
      ghost var done: seq<Swap> := [];
      ghost var rest: seq<Swap> := plan;
      var c := 0;
      var left := count;
      while left > 0
        invariant 0 <= left <= count
        invariant DrawSwaps(draws, c, left) == Some(rest)
        decreases left
        invariant plan == done + rest
        invariant SwapsInRange(done, |shells|) && Positions() == ApplySwaps(start, done)
        invariant AtRest() && AttrsOf() == attrs
      {
        c, left, done, rest := ShufflePass(draws, c, left, dt, start, plan, done, rest);
      }
      assert done == plan;
      ApplySwapsKeepsSpread(start, done);
      assert forall k :: 0 <= k < |shells| ==> shells[k].Attrs() == attrs[k];
    }

    /** Moving the shells keeps the registry valid, so long as they come to rest in different
        columns and everything else about them and the manager stays as it was. */
    twostate lemma MovedStillValid()
      requires old(Valid())
      requires unchanged(this`luckyShell, this`gameScore, this`numberOfSwitches, statics)
      requires InRound(currentState) == InRound(old(currentState))
      requires forall k :: 0 <= k < |shells| ==> !shells[k].isMoving && shells[k].Attrs() == old(shells[k].Attrs())
      requires Spread(Positions())
      ensures Valid()
    {
    }

    /** The shuffle: from SHOW only, numberOfSwitches swaps of two distinct shells drawn from the
        stream, each started after the previous one has come to rest, then SELECTING. The shells
        end on the plan's permutation of their places and keep everything else. */
    method PerformGame(draws: seq<int>, dt: real)
      requires Valid()
      requires currentState == SHOW ==>
        dt > 0.0 && InRange(draws, |shells|) && DrawSwaps(draws, 0, numberOfSwitches).Some?
      modifies this`currentState, shells
      ensures Valid()
      ensures old(currentState) != SHOW ==> currentState == old(currentState)
      ensures old(currentState) == SHOW ==> currentState == SELECTING
      ensures old(currentState) == SHOW ==>
        var plan := DrawSwaps(draws, 0, numberOfSwitches).value;
        SwapsInRange(plan, |shells|) && Positions() == ApplySwaps(old(Positions()), plan)
      ensures old(currentState) != SHOW ==> Positions() == old(Positions())
      ensures forall k :: 0 <= k < |shells| ==> shells[k].Attrs() == old(shells[k].Attrs())
    {
      if currentState == SHOW {
        ghost var before := Positions();
        currentState := SHUFFLING;
        assert Positions() == before;
        SwapLoop(draws, numberOfSwitches, dt);
        currentState := SELECTING;
        MovedStillValid();
      }
    }

    /** The draw of the lucky shell: the shell at the drawn index gets the prize, and is
        returned. */
    method DetermineLuckyShell(index: int) returns (s: Shell)
      requires 0 <= index < |shells|
      modifies shells[index]
      ensures s == shells[index] && s.isWinner
      ensures s.Kin() == old(s.Kin())
      ensures s.Attrs() == old(s.Attrs()).(isWinner := true, goldPileActive := old(s.goldPileActive) || !old(s.isWinner))
    {
      s := shells[index];
      s.MarkAsLucky();
    }

    /** A difficulty step: every shell is sped up by the drawn speed increment and its arc
        grown by the drawn arc increment, the per-shell coin choosing the side of the arc;
        and one more swap per round. */
    method IncreaseDifficulty(speedInc: real, arcInc: real, coins: seq<int>)
      requires Valid() && |coins| == |shells|
      modifies shells, this`numberOfSwitches
      ensures Valid() && Positions() == old(Positions())
      ensures numberOfSwitches == NextSwitchCount(old(numberOfSwitches))
      ensures forall k :: 0 <= k < |shells| ==>
        shells[k].Kin() == old(shells[k].Kin()) && shells[k].Attrs() == Harder(old(shells[k].Attrs()), speedInc, arcInc, coins[k])
    {
      ghost var before := Positions();
      HardenAll(speedInc, arcInc, coins);
      numberOfSwitches := NextSwitchCount(numberOfSwitches);
      assert Positions() == before;
    }

    /** The loop of IncreaseDifficulty: every shell one difficulty step harder. */
    method HardenAll(speedInc: real, arcInc: real, coins: seq<int>)
      requires Distinct() && |coins| == |shells|
      modifies shells
      ensures forall k :: 0 <= k < |shells| ==>
        shells[k].Kin() == old(shells[k].Kin()) && shells[k].Attrs() == Harder(old(shells[k].Attrs()), speedInc, arcInc, coins[k])
    {
      for i := 0 to |shells|
        invariant forall k :: 0 <= k < i ==>
          shells[k].Kin() == old(shells[k].Kin()) && shells[k].Attrs() == Harder(old(shells[k].Attrs()), speedInc, arcInc, coins[k])
        invariant forall k :: i <= k < |shells| ==> shells[k].Kin() == old(shells[k].Kin()) && shells[k].Attrs() == old(shells[k].Attrs())
      {
        var s := shells[i];
        s.moveSpeed := NewMoveSpeed(s.moveSpeed, speedInc);
        s.arcHeight := NewArcHeight(s.arcHeight, arcInc, coins[i]);
      }
    }

    /** Starts a round, from the beginning or between rounds only: a difficulty step every
        turnDifficulty won rounds, then the draw of the lucky shell, then SHOW. The showing of
        the lucky shell is ShowLuckyShell. */
    method StartGame(luckyIndex: int, speedInc: real, arcInc: real, coins: seq<int>)
      requires Valid() && 0 <= luckyIndex < |shells| && |coins| == |shells|
      modifies this`currentState, this`luckyShell, this`numberOfSwitches, shells
      ensures Valid()
      ensures Positions() == old(Positions())
      ensures InRound(old(currentState)) ==>
        currentState == old(currentState) && luckyShell == old(luckyShell) && numberOfSwitches == old(numberOfSwitches)
        && forall k :: 0 <= k < |shells| ==> shells[k].Kin() == old(shells[k].Kin()) && shells[k].Attrs() == old(shells[k].Attrs())
      ensures !InRound(old(currentState)) ==> currentState == SHOW && luckyShell == shells[luckyIndex]
      ensures !InRound(old(currentState)) ==>
        numberOfSwitches == if DifficultyDue(gameScore, turnDifficulty) then NextSwitchCount(old(numberOfSwitches)) else old(numberOfSwitches)
      ensures !InRound(old(currentState)) ==> forall k :: 0 <= k < |shells| ==>
        shells[k].Kin() == old(shells[k].Kin())
        && shells[k].Attrs() == Started(old(shells[k].Attrs()), DifficultyDue(gameScore, turnDifficulty), speedInc, arcInc, coins[k], k == luckyIndex)
    {
      if !InRound(currentState) {
        BeginRound(luckyIndex, speedInc, arcInc, coins);
      }
    }

    /** The body of StartGame once its guard has passed. */
    method BeginRound(luckyIndex: int, speedInc: real, arcInc: real, coins: seq<int>)
      requires Valid() && !InRound(currentState) && 0 <= luckyIndex < |shells| && |coins| == |shells|
      modifies this`currentState, this`luckyShell, this`numberOfSwitches, shells
      ensures Valid()
      ensures Positions() == old(Positions())
      ensures currentState == SHOW && luckyShell == shells[luckyIndex]
      ensures numberOfSwitches == if DifficultyDue(gameScore, turnDifficulty) then NextSwitchCount(old(numberOfSwitches)) else old(numberOfSwitches)
      ensures forall k :: 0 <= k < |shells| ==>
        shells[k].Kin() == old(shells[k].Kin())
        && shells[k].Attrs() == Started(old(shells[k].Attrs()), DifficultyDue(gameScore, turnDifficulty), speedInc, arcInc, coins[k], k == luckyIndex)
    {
      ghost var before := Positions();
      if DifficultyDue(gameScore, turnDifficulty) {
        IncreaseDifficulty(speedInc, arcInc, coins);
      }
      Announce(luckyIndex);
      assert Positions() == before;
    }

    /** The end of StartGame: the draw of the lucky shell, then SHOW. */
    method Announce(luckyIndex: int)
      requires Valid() && !InRound(currentState) && 0 <= luckyIndex < |shells|
      modifies this`currentState, this`luckyShell, shells[luckyIndex]
      ensures Valid()
      ensures Positions() == old(Positions())
      ensures currentState == SHOW && luckyShell == shells[luckyIndex]
      ensures forall k :: 0 <= k < |shells| ==>
        shells[k].Kin() == old(shells[k].Kin())
        && shells[k].Attrs() == if k == luckyIndex then old(shells[k].Attrs()).(isWinner := true, goldPileActive := old(shells[k].goldPileActive) || !old(shells[k].isWinner))
                                else old(shells[k].Attrs())
    {
      ghost var before := Positions();
      luckyShell := DetermineLuckyShell(luckyIndex);
      currentState := SHOW;
      assert Positions() == before;
    }

    /** The coroutine that shows the lucky shell: its chest is opened and closed again, and
        then, if the round is still in SHOW, the shuffle runs. */
    method ShowLuckyShell(draws: seq<int>, dt: real)
      requires Valid() && luckyShell != null && luckyShell in shells
      requires currentState == SHOW ==>
        dt > 0.0 && InRange(draws, |shells|) && DrawSwaps(draws, 0, numberOfSwitches).Some?
      modifies this`currentState, shells, statics`sceneIntensity
      ensures Valid()
      ensures !luckyShell.chestOpen && luckyShell.spotIntensity == 0.0
      ensures statics.sceneIntensity == statics.origSceneIntensity
      ensures old(currentState) == SHOW ==> currentState == SELECTING
      ensures old(currentState) == SHOW ==>
        var plan := DrawSwaps(draws, 0, numberOfSwitches).value;
        SwapsInRange(plan, |shells|) && Positions() == ApplySwaps(old(Positions()), plan)
      ensures old(currentState) != SHOW ==> currentState == old(currentState) && Positions() == old(Positions())
      ensures old(currentState) != SHOW ==> forall k :: 0 <= k < |shells| ==> shells[k].Kin() == old(shells[k].Kin())
      ensures forall k :: 0 <= k < |shells| ==> shells[k].Attrs() == Shown(old(shells[k].Attrs()), shells[k] == luckyShell)
    {
      ghost var before := Positions();
      Reveal(luckyShell);
      assert Positions() == before;
      assert forall k :: 0 <= k < |shells| ==> shells[k].Attrs() == Shown(old(shells[k].Attrs()), shells[k] == luckyShell);
      if currentState == SHOW {
        PerformGame(draws, dt);
      }
    }

    /** Every registered shell goes back to its original place with no prize and no
        highlight; after a lost round also to the saved speed and arc height. */
    method ResetAll(state: GameState)
      requires Distinct()
      modifies shells
      ensures forall k :: 0 <= k < |shells| ==>
        shells[k].Kin() == old(shells[k].Kin()).(position := shells[k].origLocation)
        && shells[k].Attrs() == shells[k].ResetAttrs(old(shells[k].Attrs()), state)
    {
      for i := 0 to |shells|
        invariant forall k :: 0 <= k < i ==>
          shells[k].Kin() == old(shells[k].Kin()).(position := shells[k].origLocation)
          && shells[k].Attrs() == shells[k].ResetAttrs(old(shells[k].Attrs()), state)
        invariant forall k :: i <= k < |shells| ==> shells[k].Kin() == old(shells[k].Kin()) && shells[k].Attrs() == old(shells[k].Attrs())
      {
        shells[i].ResetShell(state);
      }
    }

    /** The verdict on the selected shell: a win scores a point, a loss ends the run, setting
        the score and the swap count back; either way the lucky shell's chest is shown. */
    method Judge(selected: Shell) returns (won: bool)
      requires Valid() && currentState == SELECTING && selected in shells
      modifies this`currentState, this`gameScore, this`numberOfSwitches, shells, statics`sceneIntensity
      ensures Valid()
      ensures won <==> selected == luckyShell
      ensures won ==> currentState == WIN && gameScore == old(gameScore) + 1 && numberOfSwitches == old(numberOfSwitches)
      ensures !won ==> currentState == LOSE && gameScore == 0 && numberOfSwitches == origNumberOfSwitches
      ensures !luckyShell.chestOpen && luckyShell.spotIntensity == 0.0
      ensures statics.sceneIntensity == statics.origSceneIntensity
      ensures forall k :: 0 <= k < |shells| ==>
        shells[k].Kin() == old(shells[k].Kin()) && shells[k].Attrs() == Shown(old(shells[k].Attrs()), shells[k] == luckyShell)
    {
      ghost var before := Positions();
      won := selected.isWinner;
      if won {
        currentState := WIN;
        gameScore := gameScore + 1;
        Reveal(selected);
      } else {
        currentState := LOSE;
        Reveal(luckyShell);
        gameScore := 0;
        numberOfSwitches := origNumberOfSwitches;
      }
      assert Positions() == before;
    }

    /** The end of ConcludeGame after the verdict: every shell reset, then a lost run back to
        the beginning and a won round on to LOADING. */
    method ResetRound()
      requires Valid() && (currentState == WIN || currentState == LOSE)
      modifies this`currentState, shells
      ensures Valid()
      ensures old(currentState) == LOSE ==> currentState == BEGINNING
      ensures old(currentState) == WIN ==> currentState == LOADING
      ensures Positions() == Origins()
      ensures forall k :: 0 <= k < |shells| ==>
        shells[k].Kin() == old(shells[k].Kin()).(position := shells[k].origLocation)
        && shells[k].Attrs() == shells[k].ResetAttrs(old(shells[k].Attrs()), old(currentState))
    {
      ResetAll(currentState);
      if currentState == LOSE {
        currentState := BEGINNING;
      } else if currentState == WIN {
        currentState := LOADING;
      }
      assert Positions() == Origins();
    }

    /** The coroutine that settles a round on the player's pick, in SELECTING only: the
        verdict, then every shell reset; a lost run starts over from the beginning, a won
        round goes straight on to the next one through StartGame. */
    method ConcludeGame(selected: Shell, luckyIndex: int, speedInc: real, arcInc: real, coins: seq<int>)
        returns (won: bool)
      requires Valid() && selected in shells && 0 <= luckyIndex < |shells| && |coins| == |shells|
      modifies this`currentState, this`gameScore, this`numberOfSwitches, this`luckyShell, shells, statics`sceneIntensity
      ensures Valid()
      ensures old(currentState) != SELECTING ==>
        !won && currentState == old(currentState) && gameScore == old(gameScore)
        && numberOfSwitches == old(numberOfSwitches) && luckyShell == old(luckyShell)
        && statics.sceneIntensity == old(statics.sceneIntensity)
        && forall k :: 0 <= k < |shells| ==> shells[k].Kin() == old(shells[k].Kin()) && shells[k].Attrs() == old(shells[k].Attrs())
      ensures old(currentState) == SELECTING ==> (won <==> selected == old(luckyShell))
      ensures old(currentState) == SELECTING ==>
        !old(luckyShell).chestOpen && old(luckyShell).spotIntensity == 0.0
        && statics.sceneIntensity == statics.origSceneIntensity
        && Positions() == Origins()
      ensures old(currentState) == SELECTING && won ==>
        gameScore == old(gameScore) + 1 && currentState == SHOW && luckyShell == shells[luckyIndex]
        && numberOfSwitches == if DifficultyDue(gameScore, turnDifficulty) then NextSwitchCount(old(numberOfSwitches)) else old(numberOfSwitches)
      ensures old(currentState) == SELECTING && !won ==>
        gameScore == 0 && numberOfSwitches == origNumberOfSwitches && currentState == BEGINNING && luckyShell == old(luckyShell)
        && forall k :: 0 <= k < |shells| ==>
          shells[k].moveSpeed == statics.origMoveSpeed && shells[k].arcHeight == statics.origArcHeight
      ensures old(currentState) == SELECTING ==> forall k :: 0 <= k < |shells| ==>
        shells[k].Kin() == old(shells[k].Kin()).(position := shells[k].origLocation)
      ensures old(currentState) == SELECTING && won ==> forall k :: 0 <= k < |shells| ==>
        shells[k].Attrs() == Started(shells[k].ResetAttrs(Shown(old(shells[k].Attrs()), shells[k] == old(luckyShell)), WIN),
                                     DifficultyDue(gameScore, turnDifficulty), speedInc, arcInc, coins[k], k == luckyIndex)
      ensures old(currentState) == SELECTING && !won ==> forall k :: 0 <= k < |shells| ==>
        shells[k].Attrs() == shells[k].ResetAttrs(Shown(old(shells[k].Attrs()), shells[k] == old(luckyShell)), LOSE)
    {
      won := false;
      if currentState == SELECTING {
        won := SettleRound(selected, luckyIndex, speedInc, arcInc, coins);
      }
    }

    /** The body of ConcludeGame once its guard has passed. A won round reaches StartGame
        in LOADING. */
    method SettleRound(selected: Shell, luckyIndex: int, speedInc: real, arcInc: real, coins: seq<int>)
        returns (won: bool)
      requires Valid() && currentState == SELECTING && selected in shells && 0 <= luckyIndex < |shells| && |coins| == |shells|
      modifies this`currentState, this`gameScore, this`numberOfSwitches, this`luckyShell, shells, statics`sceneIntensity
      ensures Valid()
      ensures won <==> selected == old(luckyShell)
      ensures !old(luckyShell).chestOpen && old(luckyShell).spotIntensity == 0.0
        && statics.sceneIntensity == statics.origSceneIntensity
        && Positions() == Origins()
      ensures won ==>
        gameScore == old(gameScore) + 1 && currentState == SHOW && luckyShell == shells[luckyIndex]
        && numberOfSwitches == if DifficultyDue(gameScore, turnDifficulty) then NextSwitchCount(old(numberOfSwitches)) else old(numberOfSwitches)
      ensures !won ==>
        gameScore == 0 && numberOfSwitches == origNumberOfSwitches && currentState == BEGINNING && luckyShell == old(luckyShell)
        && forall k :: 0 <= k < |shells| ==>
          shells[k].moveSpeed == statics.origMoveSpeed && shells[k].arcHeight == statics.origArcHeight
      ensures forall k :: 0 <= k < |shells| ==> shells[k].Kin() == old(shells[k].Kin()).(position := shells[k].origLocation)
      ensures won ==> forall k :: 0 <= k < |shells| ==>
        shells[k].Attrs() == Started(shells[k].ResetAttrs(Shown(old(shells[k].Attrs()), shells[k] == old(luckyShell)), WIN),
                                     DifficultyDue(gameScore, turnDifficulty), speedInc, arcInc, coins[k], k == luckyIndex)
      ensures !won ==> forall k :: 0 <= k < |shells| ==>
        shells[k].Attrs() == shells[k].ResetAttrs(Shown(old(shells[k].Attrs()), shells[k] == old(luckyShell)), LOSE)
    {
      won := Judge(selected);
      if won {
        WinRound(luckyIndex, speedInc, arcInc, coins);
      } else {
        ResetRound();
      }
    }

    /** A won round after its verdict: every shell reset, then straight on to the next round. */
    method WinRound(luckyIndex: int, speedInc: real, arcInc: real, coins: seq<int>)
      requires Valid() && currentState == WIN && 0 <= luckyIndex < |shells| && |coins| == |shells|
      modifies this`currentState, this`luckyShell, this`numberOfSwitches, shells
      ensures Valid()
      ensures currentState == SHOW && luckyShell == shells[luckyIndex]
      ensures numberOfSwitches == if DifficultyDue(gameScore, turnDifficulty) then NextSwitchCount(old(numberOfSwitches)) else old(numberOfSwitches)
      ensures Positions() == Origins()
      ensures forall k :: 0 <= k < |shells| ==>
        shells[k].Kin() == old(shells[k].Kin()).(position := shells[k].origLocation)
        && shells[k].Attrs() == Started(shells[k].ResetAttrs(old(shells[k].Attrs()), WIN),
                                        DifficultyDue(gameScore, turnDifficulty), speedInc, arcInc, coins[k], k == luckyIndex)
    {
      ResetRound();
      StartGame(luckyIndex, speedInc, arcInc, coins);
    }
  }
}
