/** The round states of the later GameManager. */
module StandardGameState {

  datatype GameState =
    | LOSE        // the player picked a shell without the prize
    | WIN         // the player picked the lucky shell
    | SELECTING   // waiting for the player's pick
    | SHUFFLING   // shells are being swapped
    | SHOW        // the lucky shell is being revealed before the shuffle
    | LOADING     // between a won round and the next one
    | BEGINNING   // before the first round and after a lost one

  /** The states in which a round is under way and a lucky shell has been drawn. */
  predicate InRound(s: GameState)
  {
    s != BEGINNING && s != LOADING
  }
}
