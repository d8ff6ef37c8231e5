/** The mouse handlers of the earlier InteractShell. They read the manager's state, which the
    shell itself cannot see without the manager, so they are kept apart from both. */
module EarlyInput {
  import opened EarlyShell
  import opened EarlyGame

  /** What a handler writes to the debug log. */
  datatype Log = Quiet | YouWin | YouLose | WeSelected

  /** A click on a shell: while the player is choosing, the verdict is logged and ResetGame is
      asked for; but ResetGame refuses to run in SELECTING, so the click settles nothing and
      the round stays where it is. */
  method OnMouseUp(shell: Shell, game: GameManager) returns (log: Log)
    requires game.Valid()
    modifies game`currentState, game.shells
    ensures old(game.currentState) == SELECTING ==> log == (if old(shell.isWinner) then YouWin else YouLose)
    ensures old(game.currentState) != SELECTING ==> log == Quiet
    ensures game.currentState == old(game.currentState)
    ensures forall k :: 0 <= k < |game.shells| ==>
      game.shells[k].Kin() == old(game.shells[k].Kin()) && game.shells[k].Attrs() == old(game.shells[k].Attrs())
  {
    log := Quiet;
    if game.currentState == SELECTING {
      log := if shell.isWinner then YouWin else YouLose;
      game.ResetGame();
    }
  }

  /** The click as evidently meant, the way the later InteractShell handles it: while the
      player is choosing, the pick settles the round through ConcludeGame, so the verdict
      matches the prize and the game is back at START with a reset asked of every shell. */
  method OnMouseUpSettling(shell: Shell, game: GameManager) returns (log: Log)
    requires game.Valid()
    modifies game`currentState, game.shells
    ensures game.Valid()
    ensures old(game.currentState) == SELECTING ==>
      log == (if old(shell.isWinner) then YouWin else YouLose) && game.currentState == START
    ensures old(game.currentState) == SELECTING ==> forall k :: 0 <= k < |game.shells| ==>
      game.shells[k].Kin() == old(game.shells[k].Kin())
      && game.shells[k].Attrs() == old(game.shells[k].Attrs()).(resetRequests := old(game.shells[k].resetRequests) + 1)
    ensures old(game.currentState) != SELECTING ==> log == Quiet && game.currentState == old(game.currentState)
    ensures old(game.currentState) != SELECTING ==> forall k :: 0 <= k < |game.shells| ==>
      game.shells[k].Kin() == old(game.shells[k].Kin()) && game.shells[k].Attrs() == old(game.shells[k].Attrs())
  {
    log := Quiet;
    if game.currentState == SELECTING {
      var won := game.ConcludeGame(shell);
      log := if won then YouWin else YouLose;
    }
  }

  /** The pointer enters a shell: logged while the player is choosing, nothing else. */
  method OnMouseEnter(game: GameManager) returns (log: Log)
    ensures log != Quiet <==> game.currentState == SELECTING
    ensures log == Quiet || log == WeSelected
  {
    log := Quiet;
    if game.currentState == SELECTING {
      log := WeSelected;
    }
  }

  /** The pointer leaves a shell: logged while the player is choosing, nothing else. */
  method OnMouseExit(game: GameManager) returns (log: Log)
    ensures log != Quiet <==> game.currentState == SELECTING
    ensures log == Quiet || log == WeSelected
  {
    log := Quiet;
    if game.currentState == SELECTING {
      log := WeSelected;
    }
  }
}
