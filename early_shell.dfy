/** The earlier InteractShell: a shell that only moves, swaps places and carries the prize
    flag, with the same arc motion as the later one. Its ResetShell and ToggleShellColors,
    called by the earlier GameManager, are not defined in this version of the class, so they
    are kept as requests that the shell records. */
module EarlyShell {
  import opened Motion

  /** What the shell is doing on the table. */
  datatype Kinematics = Kinematics(position: Vec2, startMove: Vec2, newLocation: Vec2, isMoving: bool)

  /** Everything else the shell keeps: its prize, tuning, and the requests it has recorded. */
  datatype Attributes = Attributes(isWinner: bool, moveSpeed: real, arcHeight: real,
                                   resetRequests: nat, colorToggles: nat, toggled: bool)

  class Shell {
    const origLocation: Vec2

    var position: Vec2
    var startMove: Vec2        // startMoveLocation
    var newLocation: Vec2
    var isMoving: bool
    var isWinner: bool         // a public field: the GameManager sets it directly
    var moveSpeed: real
    var arcHeight: real
    var resetRequests: nat     // ResetShell coroutines started on this shell
    var colorToggles: nat      // ToggleShellColors calls on this shell
    var toggled: bool          // whether the colours are the other way round from the start

    ghost function Kin(): Kinematics
      reads this
    {
      Kinematics(position, startMove, newLocation, isMoving)
    }

    ghost function Attrs(): Attributes
      reads this
    {
      Attributes(isWinner, moveSpeed, arcHeight, resetRequests, colorToggles, toggled)
    }

    /** Ticks of length dt still needed before the shell is at rest: 0 once it has stopped. */
    ghost function TicksLeft(dt: real): int
      reads this
      requires StepLength(moveSpeed, dt) > 0.0
    {
      if isMoving then StepsLeft(position.x, newLocation.x, StepLength(moveSpeed, dt)) + 1 else 0
    }

    /** A shell as its Awake and Start leave it: at its original location, at rest, with no
        prize and no request recorded. */
    constructor (origin: Vec2, speed: real, arc: real)
      ensures origLocation == origin
      ensures Kin() == Kinematics(origin, Vec2(0.0, 0.0), Vec2(0.0, 0.0), false)
      ensures !isWinner && moveSpeed == speed && arcHeight == arc
      ensures resetRequests == 0 && colorToggles == 0 && !toggled
    {
      origLocation := origin;
      position := origin;
      startMove := Vec2(0.0, 0.0);
      newLocation := Vec2(0.0, 0.0);
      isMoving := false;
      isWinner := false;
      moveSpeed := speed;
      arcHeight := arc;
      resetRequests := 0;
      colorToggles := 0;
      toggled := false;
    }

    /** One frame of length dt: a moving shell steps along its arc and stops once it is
        exactly on its target; a shell at rest stays put. */
    method Update(dt: real)
      modifies this`position, this`isMoving
      ensures !old(isMoving) ==> position == old(position) && !isMoving
      ensures old(isMoving) ==>
        position == NextPosition(old(position), startMove, newLocation, moveSpeed, arcHeight, dt)
      ensures old(isMoving) ==> (isMoving <==> position != newLocation)
      ensures old(isMoving) && StepLength(moveSpeed, dt) >= 0.0 ==>
        Abs(position.x - old(position.x)) <= StepLength(moveSpeed, dt)
      ensures old(isMoving) && StepLength(moveSpeed, dt) >= 0.0 ==>
        (old(position.x) <= position.x <= newLocation.x) || (newLocation.x <= position.x <= old(position.x))
      ensures old(isMoving) && startMove.x != newLocation.x && StepLength(moveSpeed, dt) > 0.0 ==>
        TicksLeft(dt) < old(TicksLeft(dt))
    {
      if isMoving {
        ghost var x0 := position.x;
        position := NextPosition(position, startMove, newLocation, moveSpeed, arcHeight, dt);
        if position == newLocation {
          isMoving := false;
        }
        if startMove.x != newLocation.x && StepLength(moveSpeed, dt) > 0.0 {
          var step := StepLength(moveSpeed, dt);
          StepProgress(old(position), startMove, newLocation, moveSpeed, arcHeight, dt);
          assert old(TicksLeft(dt)) == StepsLeft(x0, newLocation.x, step) + 1;
          assert !isMoving || StepsLeft(position.x, newLocation.x, step) == StepsLeft(x0, newLocation.x, step) - 1;
        }
      }
    }

    /** Sends this shell and other towards each other's place, but only when neither is moving. */
    method SwapShellLocation(other: Shell)
      modifies this`startMove, this`newLocation, this`isMoving
      modifies other`startMove, other`newLocation, other`isMoving
      ensures old(isMoving) || old(other.isMoving) ==>
        Kin() == old(Kin()) && other.Kin() == old(other.Kin())
      ensures !old(isMoving) && !old(other.isMoving) ==>
        startMove == position && other.startMove == other.position
        && newLocation == other.position && other.newLocation == position
        && isMoving && other.isMoving
      ensures !old(isMoving) && !old(other.isMoving) ==>
        multiset{newLocation, other.newLocation} == multiset{position, other.position}
    {
      if !isMoving && !other.isMoving {
        startMove := position;
        other.startMove := other.position;
        newLocation := other.startMove;
        other.newLocation := startMove;
        isMoving := true;
        other.isMoving := true;
      }
    }

    /** The reset coroutine the GameManager starts on every shell; its effect is not part of
        this model, only that it was requested. */
    method ResetShell()
      modifies this`resetRequests
      ensures resetRequests == old(resetRequests) + 1
    {
      resetRequests := resetRequests + 1;
    }

    /** The colour flash of the show: each call swaps the shell's colours over. */
    method ToggleShellColors()
      modifies this`colorToggles, this`toggled
      ensures colorToggles == old(colorToggles) + 1
      ensures toggled == !old(toggled)
    {
      colorToggles := colorToggles + 1;
      toggled := !toggled;
    }
  }
}
