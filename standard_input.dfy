/** The click on a shell of the later game together with the coroutine it starts: while the
    player is choosing, the shell stops hovering and the manager settles the round with this
    shell as the pick. */
module StandardInput {
  import opened StandardGameState
  import opened StandardShell
  import opened StandardGame

  /** A shell's properties once the click has reached it: the picked shell stops hovering,
      every other shell is as it was. */
  function Clicked(a: Attributes, picked: bool): (r: Attributes)
    ensures picked ==> !r.isHovering
    ensures !picked ==> r == a
    ensures r.(isHovering := a.isHovering) == a
  {
    if picked then a.(isHovering := false) else a
  }

  /** A click on shell: InteractShell.OnMouseUp, then, exactly when it asks for one, the
      manager's ConcludeGame on this shell. A click outside SELECTING changes nothing; in
      SELECTING the round is won exactly when the pick is the lucky shell, and the outcome is
      that of ConcludeGame. */
  method OnMouseUp(shell: Shell, game: GameManager, luckyIndex: int, speedInc: real, arcInc: real, coins: seq<int>)
      returns (won: bool)
    requires game.Valid() && shell in game.shells
    requires 0 <= luckyIndex < |game.shells| && |coins| == |game.shells|
    modifies game`currentState, game`gameScore, game`numberOfSwitches, game`luckyShell, game.shells, game.statics`sceneIntensity
    ensures game.Valid()
    ensures old(game.currentState) != SELECTING ==>
      !won && game.currentState == old(game.currentState) && game.gameScore == old(game.gameScore)
      && game.numberOfSwitches == old(game.numberOfSwitches) && game.luckyShell == old(game.luckyShell)
      && game.statics.sceneIntensity == old(game.statics.sceneIntensity)
      && forall k :: 0 <= k < |game.shells| ==>
        game.shells[k].Kin() == old(game.shells[k].Kin()) && game.shells[k].Attrs() == old(game.shells[k].Attrs())
    ensures old(game.currentState) == SELECTING ==> (won <==> shell == old(game.luckyShell)) && !shell.isHovering
    ensures old(game.currentState) == SELECTING ==>
      !old(game.luckyShell).chestOpen && old(game.luckyShell).spotIntensity == 0.0
      && game.statics.sceneIntensity == game.statics.origSceneIntensity
      && game.Positions() == game.Origins()
    ensures old(game.currentState) == SELECTING && won ==>
      game.gameScore == old(game.gameScore) + 1 && game.currentState == SHOW && game.luckyShell == game.shells[luckyIndex]
      && game.numberOfSwitches == if DifficultyDue(game.gameScore, game.turnDifficulty) then NextSwitchCount(old(game.numberOfSwitches)) else old(game.numberOfSwitches)
    ensures old(game.currentState) == SELECTING && !won ==>
      game.gameScore == 0 && game.numberOfSwitches == game.origNumberOfSwitches && game.currentState == BEGINNING
      && game.luckyShell == old(game.luckyShell)
    ensures old(game.currentState) == SELECTING ==> forall k :: 0 <= k < |game.shells| ==>
      game.shells[k].Kin() == old(game.shells[k].Kin()).(position := game.shells[k].origLocation)
    ensures old(game.currentState) == SELECTING && won ==> forall k :: 0 <= k < |game.shells| ==>
      game.shells[k].Attrs() == Started(game.shells[k].ResetAttrs(Shown(Clicked(old(game.shells[k].Attrs()), game.shells[k] == shell), game.shells[k] == old(game.luckyShell)), WIN),
                                        DifficultyDue(game.gameScore, game.turnDifficulty), speedInc, arcInc, coins[k], k == luckyIndex)
    ensures old(game.currentState) == SELECTING && !won ==> forall k :: 0 <= k < |game.shells| ==>
      game.shells[k].Attrs() == game.shells[k].ResetAttrs(Shown(Clicked(old(game.shells[k].Attrs()), game.shells[k] == shell), game.shells[k] == old(game.luckyShell)), LOSE)
  {
    ghost var before := game.Positions();
    var conclude := shell.OnMouseUp(game.currentState);
    assert game.Positions() == before;
    assert forall k :: 0 <= k < |game.shells| ==>
      game.shells[k].Kin() == old(game.shells[k].Kin())
      && game.shells[k].Attrs() == Clicked(old(game.shells[k].Attrs()), game.shells[k] == shell && conclude);
    won := false;
    if conclude {
      won := game.ConcludeGame(shell, luckyIndex, speedInc, arcInc, coins);
    }
  }
}
