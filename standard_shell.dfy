/** The later InteractShell: one shell of the game, its swap and arc motion, its lucky mark,
    its highlight and the chest animation that lights it up. The scene light and the speeds
    saved when the first shell registers are class statics in the source; here they are one
    shared Statics object. */
module StandardShell {
  import opened Motion
  import opened StandardGameState

  /** spotLightMaxIntensity: the brightest the spot light gets. */
  const SpotMax: real := 4.0

  /** A material shader, by identity. */
  datatype Shader = Shader(id: int)

  /** One pass over the renderers that moves every renderer on shader from onto shader to:
      HighlightShell is the pass from the original shader to the outline shader, and
      DehighlightShell the pass back. */
  function Replace(s: seq<Shader>, from: Shader, to: Shader): (r: seq<Shader>)
    ensures |r| == |s|
    ensures from != to ==> forall k :: 0 <= k < |r| ==> r[k] != from
    ensures forall k :: 0 <= k < |s| && s[k] != from ==> r[k] == s[k]
    ensures forall k :: 0 <= k < |s| && s[k] == from ==> r[k] == to
  {
    seq(|s|, k requires 0 <= k < |s| => if s[k] == from then to else s[k])
  }

  /** Highlighting (or dehighlighting) twice is the same as once. */
  lemma ReplaceIdempotent(s: seq<Shader>, from: Shader, to: Shader)
    ensures Replace(Replace(s, from, to), from, to) == Replace(s, from, to)
  {
  }

  /** Dehighlighting undoes a highlight of renderers none of which was already on the outline
      shader. */
  lemma ReplaceRoundTrip(s: seq<Shader>, from: Shader, to: Shader)
    requires forall k :: 0 <= k < |s| ==> s[k] != to
    ensures Replace(Replace(s, from, to), to, from) == s
  {
  }

  /** FloatEquality, whose name is inverted: it answers false exactly when the two values are
      within 0.1 of each other. */
  function FloatEquality(f1: real, f2: real): (apart: bool)
    ensures !apart <==> Abs(f1 - f2) < 0.1
  {
    !(Abs(f1 - f2) < 0.1)
  }

  /** The state every shell shares: the scene light, and the values saved from the first
      shell that registered. */
  class Statics {
    var sceneIntensity: real
    const origSceneIntensity: real
    const origMoveSpeed: real
    const origArcHeight: real

    /** The inspector ranges of moveSpeed and arcHeight, which the saved values come from. */
    ghost predicate Tuned()
    {
      1.0 <= origMoveSpeed <= 100.0 && -30.0 <= origArcHeight <= 30.0
    }

    constructor (scene: real, firstMoveSpeed: real, firstArcHeight: real)
      ensures sceneIntensity == scene && origSceneIntensity == scene
      ensures origMoveSpeed == firstMoveSpeed && origArcHeight == firstArcHeight
    {
      sceneIntensity := scene;
      origSceneIntensity := scene;
      origMoveSpeed := firstMoveSpeed;
      origArcHeight := firstArcHeight;
    }
  }

  /** What a shell is doing on the table. */
  datatype Kinematics = Kinematics(position: Vec2, startMove: Vec2, newLocation: Vec2, isMoving: bool)

  /** Everything else a shell keeps: its prize, hover and tuning, and its visuals. */
  datatype Attributes = Attributes(isWinner: bool, isHovering: bool, moveSpeed: real, arcHeight: real,
                         goldPileActive: bool, chestOpen: bool, spotIntensity: real,
                         shaders: seq<Shader>)

  class Shell {
    const statics: Statics
    const origLocation: Vec2
    const lightTransitionSpeed: real
    const origShader: Shader
    const outlineShader: Shader

    var position: Vec2
    var startMove: Vec2
    var newLocation: Vec2
    var isMoving: bool
    var isWinner: bool
    var isHovering: bool
    var moveSpeed: real
    var arcHeight: real
    var goldPileActive: bool
    var chestOpen: bool        // the animator's isOpen flag
    var spotIntensity: real
    var shaders: seq<Shader>   // the shader of each renderer

    ghost function Kin(): Kinematics
      reads this
    {
      Kinematics(position, startMove, newLocation, isMoving)
    }

    ghost function Attrs(): Attributes
      reads this
    {
      Attributes(isWinner, isHovering, moveSpeed, arcHeight, goldPileActive, chestOpen, spotIntensity, shaders)
    }

    /** Ticks of length dt still needed before the shell is at rest: 0 once it has stopped. */
    ghost function TicksLeft(dt: real): int
      reads this
      requires StepLength(moveSpeed, dt) > 0.0
    {
      if isMoving then StepsLeft(position.x, newLocation.x, StepLength(moveSpeed, dt)) + 1 else 0
    }

    /** The inspector ranges of moveSpeed, arcHeight and lightTransitionSpeed. */
    ghost predicate Tuned()
      reads this
    {
      1.0 <= moveSpeed <= 100.0 && -30.0 <= arcHeight <= 30.0 && 0.001 <= lightTransitionSpeed <= 1.0
    }

    /** A shell as its Start leaves it: at its original location, at rest, not lucky, with the
        shader of its first renderer saved as the original one. */
    constructor (statics: Statics, origin: Vec2, speed: real, arc: real, lightSpeed: real,
                 spot: real, renderers: seq<Shader>, outline: Shader)
      requires |renderers| >= 1
      ensures this.statics == statics && origLocation == origin && lightTransitionSpeed == lightSpeed
      ensures origShader == renderers[0] && outlineShader == outline
      ensures Kin() == Kinematics(origin, Vec2(0.0, 0.0), Vec2(0.0, 0.0), false)
      ensures Attrs() == Attributes(false, false, speed, arc, false, false, spot, renderers)
    {
      this.statics := statics;
      origLocation := origin;
      lightTransitionSpeed := lightSpeed;
      origShader := renderers[0];
      outlineShader := outline;
      position := origin;
      startMove := Vec2(0.0, 0.0);
      newLocation := Vec2(0.0, 0.0);
      isMoving := false;
      isWinner := false;
      isHovering := false;
      moveSpeed := speed;
      arcHeight := arc;
      goldPileActive := false;
      chestOpen := false;
      spotIntensity := spot;
      shaders := renderers;
    }

    /** One physics tick of length dt: a moving shell steps along its arc and stops once it is
        exactly on its target; a shell at rest stays put. */
    method FixedUpdate(dt: real)
      modifies this`position, this`isMoving
      ensures !old(isMoving) ==> position == old(position) && !isMoving
      ensures old(isMoving) ==>
        position == NextPosition(old(position), startMove, newLocation, moveSpeed, arcHeight, dt)
      ensures old(isMoving) ==> (isMoving <==> position != newLocation)
      ensures old(isMoving) && StepLength(moveSpeed, dt) >= 0.0 ==>
        Abs(position.x - old(position.x)) <= StepLength(moveSpeed, dt)
      ensures old(isMoving) && StepLength(moveSpeed, dt) >= 0.0 ==>
        (old(position.x) <= position.x <= newLocation.x) || (newLocation.x <= position.x <= old(position.x))
      // on a move with a horizontal span, each tick lands on the target or is a whole step closer
      ensures old(isMoving) && startMove.x != newLocation.x && StepLength(moveSpeed, dt) > 0.0 ==>
        TicksLeft(dt) < old(TicksLeft(dt))
    {
      if isMoving {
        ghost var x0 := position.x;
        position := NextPosition(position, startMove, newLocation, moveSpeed, arcHeight, dt);
        if position == newLocation {
          isMoving := false;
        }
        if startMove.x != newLocation.x && StepLength(moveSpeed, dt) > 0.0 {
          var step := StepLength(moveSpeed, dt);
          StepProgress(old(position), startMove, newLocation, moveSpeed, arcHeight, dt);
          assert old(TicksLeft(dt)) == StepsLeft(x0, newLocation.x, step) + 1;
          assert !isMoving || StepsLeft(position.x, newLocation.x, step) == StepsLeft(x0, newLocation.x, step) - 1;
        }
      }
    }

    /** Sends this shell and other towards each other's place, but only when neither is moving. */
    method SwapShellLocation(other: Shell)
      modifies this`startMove, this`newLocation, this`isMoving
      modifies other`startMove, other`newLocation, other`isMoving
      ensures old(isMoving) || old(other.isMoving) ==>
        Kin() == old(Kin()) && other.Kin() == old(other.Kin())
      ensures !old(isMoving) && !old(other.isMoving) ==>
        startMove == position && other.startMove == other.position
        && newLocation == other.position && other.newLocation == position
        && isMoving && other.isMoving
      ensures !old(isMoving) && !old(other.isMoving) ==>
        multiset{newLocation, other.newLocation} == multiset{position, other.position}
    {
      if !isMoving && !other.isMoving {
        startMove := position;
        other.startMove := other.position;
        newLocation := other.startMove;
        other.newLocation := startMove;
        isMoving := true;
        other.isMoving := true;
      }
    }

    /** Puts the prize under this shell; a shell already lucky is left as it is. */
    method MarkAsLucky()
      modifies this`isWinner, this`goldPileActive
      ensures isWinner
      ensures old(isWinner) ==> goldPileActive == old(goldPileActive)
      ensures !old(isWinner) ==> goldPileActive
    {
      if !isWinner {
        isWinner := true;
        goldPileActive := true;
      }
    }

    /** The properties a reset leaves: no prize, no highlight, and, after a lost round only,
        the saved speed and arc height. */
    ghost function ResetAttrs(p: Attributes, state: GameState): (r: Attributes)
      ensures !r.isWinner && !r.goldPileActive
      ensures outlineShader != origShader ==> forall k :: 0 <= k < |r.shaders| ==> r.shaders[k] != outlineShader
      ensures state == LOSE ==> r.moveSpeed == statics.origMoveSpeed && r.arcHeight == statics.origArcHeight
      ensures state != LOSE ==> r.moveSpeed == p.moveSpeed && r.arcHeight == p.arcHeight
      ensures r.isHovering == p.isHovering && r.chestOpen == p.chestOpen && r.spotIntensity == p.spotIntensity
    {
      p.(isWinner := false, goldPileActive := false,
         shaders := Replace(p.shaders, outlineShader, origShader),
         moveSpeed := if state == LOSE then statics.origMoveSpeed else p.moveSpeed,
         arcHeight := if state == LOSE then statics.origArcHeight else p.arcHeight)
    }

    /** Resetting a reset shell changes nothing. */
    lemma ResetIdempotent(p: Attributes, state: GameState)
      ensures ResetAttrs(ResetAttrs(p, state), state) == ResetAttrs(p, state)
    {
      ReplaceIdempotent(p.shaders, outlineShader, origShader);
    }

    /** Returns the shell to its original place with no prize and no highlight; a lost round
        (state LOSE) also restores the saved speed and arc height. */
    method ResetShell(state: GameState)
      modifies this`position, this`shaders, this`isWinner, this`goldPileActive, this`moveSpeed, this`arcHeight
      ensures Kin() == old(Kin()).(position := origLocation)
      ensures Attrs() == ResetAttrs(old(Attrs()), state)
    {
      position := origLocation;
      DehighlightShell();
      isWinner := false;
      goldPileActive := false;
      if state == LOSE {
        moveSpeed := statics.origMoveSpeed;
        arcHeight := statics.origArcHeight;
      }
    }

    /** Moves every renderer on the original shader to the outline shader. */
    method HighlightShell()
      modifies this`shaders
      ensures shaders == Replace(old(shaders), origShader, outlineShader)
    {
      ReplaceShaders(origShader, outlineShader);
    }

    /** Moves every renderer on the outline shader back to the original shader. */
    method DehighlightShell()
      modifies this`shaders
      ensures shaders == Replace(old(shaders), outlineShader, origShader)
    {
      ReplaceShaders(outlineShader, origShader);
    }

    /** The foreach loop the two highlight methods share. */
    method ReplaceShaders(from: Shader, to: Shader)
      modifies this`shaders
      ensures shaders == Replace(old(shaders), from, to)
    {
      var i := 0;
      while i < |shaders|
        invariant 0 <= i <= |shaders| == |old(shaders)|
        invariant forall k :: 0 <= k < i ==> shaders[k] == (if old(shaders)[k] == from then to else old(shaders)[k])
        invariant forall k :: i <= k < |shaders| ==> shaders[k] == old(shaders)[k]
      {
        if shaders[i] == from {
          shaders := shaders[i := to];
        }
        i := i + 1;
      }
    }

    /** One frame of the reveal: the chest opens, the spot light fades towards SpotMax and the
        scene light towards dark; once the spot light is within 0.1 of SpotMax both snap to their
        goals and the answer is true. */
    method AnimateOpenChest() returns (done: bool)
      modifies this`chestOpen, this`spotIntensity, statics`sceneIntensity
      ensures chestOpen
      ensures done <==> Abs(SpotMax - Lerp(old(spotIntensity), SpotMax, lightTransitionSpeed)) < 0.1
      ensures done ==> spotIntensity == SpotMax && statics.sceneIntensity == 0.0
      ensures !done ==> (spotIntensity == Lerp(old(spotIntensity), SpotMax, lightTransitionSpeed)
                         && statics.sceneIntensity == Lerp(old(statics.sceneIntensity), 0.0, lightTransitionSpeed))
    {
      if !chestOpen {
        chestOpen := true;
      }
      spotIntensity := Lerp(spotIntensity, SpotMax, lightTransitionSpeed);
      statics.sceneIntensity := Lerp(statics.sceneIntensity, 0.0, lightTransitionSpeed);
      if !FloatEquality(spotIntensity, SpotMax) {
        statics.sceneIntensity := 0.0;
        spotIntensity := SpotMax;
        return true;
      }
      return false;
    }

    /** One frame of closing: the chest closes, the spot light fades towards dark and the scene
        light towards its original level; once the scene light is within 0.1 of it both snap to
        their goals and the answer is true. */
    method AnimateCloseChest() returns (done: bool)
      modifies this`chestOpen, this`spotIntensity, statics`sceneIntensity
      ensures !chestOpen
      ensures done <==> Abs(statics.origSceneIntensity
                            - Lerp(old(statics.sceneIntensity), statics.origSceneIntensity, lightTransitionSpeed)) < 0.1
      ensures done ==> spotIntensity == 0.0 && statics.sceneIntensity == statics.origSceneIntensity
      ensures !done ==> (spotIntensity == Lerp(old(spotIntensity), 0.0, lightTransitionSpeed)
                         && statics.sceneIntensity
                            == Lerp(old(statics.sceneIntensity), statics.origSceneIntensity, lightTransitionSpeed))
    {
      if chestOpen {
        chestOpen := false;
      }
      spotIntensity := Lerp(spotIntensity, 0.0, lightTransitionSpeed);
      statics.sceneIntensity := Lerp(statics.sceneIntensity, statics.origSceneIntensity, lightTransitionSpeed);
      if !FloatEquality(statics.sceneIntensity, statics.origSceneIntensity) {
        spotIntensity := 0.0;
        statics.sceneIntensity := statics.origSceneIntensity;
        return true;
      }
      return false;
    }

    /** The pointer rests on the shell: while the player is choosing, the first frame of hovering
        highlights it. */
    method OnMouseOver(state: GameState)
      modifies this`shaders, this`isHovering
      ensures state == SELECTING && !old(isHovering) ==>
        isHovering && shaders == Replace(old(shaders), origShader, outlineShader)
      ensures !(state == SELECTING && !old(isHovering)) ==>
        isHovering == old(isHovering) && shaders == old(shaders)
    {
      if state == SELECTING {
        if !isHovering {
          HighlightShell();
          isHovering := true;
        }
      }
    }

    /** The pointer leaves the shell: while the player is choosing, a hovered shell loses its
        highlight. */
    method OnMouseExit(state: GameState)
      modifies this`shaders, this`isHovering
      ensures state == SELECTING && old(isHovering) ==>
        !isHovering && shaders == Replace(old(shaders), outlineShader, origShader)
      ensures !(state == SELECTING && old(isHovering)) ==>
        isHovering == old(isHovering) && shaders == old(shaders)
    {
      if state == SELECTING {
        if isHovering {
          DehighlightShell();
          isHovering := false;
        }
      }
    }

    /** A click on the shell: while the player is choosing, it stops hovering and the round is
        concluded with this shell as the pick (the answer says whether ConcludeGame is started). */
    method OnMouseUp(state: GameState) returns (conclude: bool)
      modifies this`isHovering
      ensures conclude <==> state == SELECTING
      ensures isHovering == (old(isHovering) && !conclude)
    {
      conclude := false;
      if state == SELECTING {
        isHovering := false;
        conclude := true;
      }
    }
  }
}
