# Shell game: a model of Project_Shell's rules engine

Project_Shell is a Unity shell game:

- One shell on the table hides a prize, and the player is shown which one.
- The shells then swap places in arcs a number of times.
- The player clicks the shell they think holds the prize.

The repository holds two versions of the game's two scripts. This project models both:

- **The later version** (`Assets/Standard/Scripts`) keeps a score.
  - Every few won rounds it makes the game harder: faster shells, arcs whose size grows up to 5, and one more swap.
  - A loss sends the player back to the beginning with the first settings restored.
  - The lucky shell is revealed by opening its chest under a spot light that fades in and out.
- **The earlier version** (`Assets/Scripts`) has no score and no difficulty. The lucky shell's colours flash six times. Its ConcludeGame ends a round in WIN or LOSE and then goes back to START, though no input of the earlier version reaches ConcludeGame (see "## Findings").

The model is split into modules:

| module | file | contents |
|---|---|---|
| `Motion` | `motion.dfy` | The per-tick motion arithmetic both shells share: MoveTowards along x, the Lerp for y with its NaN guard, and the parabolic arc. It also holds the Clamp and Lerp semantics of the engine's maths library. |
| `Shuffle` | `shuffle.dfy` | The shuffle plan: the pairs of shells that swap, read off the stream of `Random.Range` draws exactly as the swap loop reads them, with the rejection redraw of the second index. It also has the permutation of places those swaps produce. |
| `StandardGameState`, `StandardShell`, `StandardGame`, `StandardInput` | `standard_game_state.dfy`, `standard_shell.dfy`, `standard_game.dfy`, `standard_input.dfy` | The later GameState, InteractShell and GameManager, and the later shell's click joined to the ConcludeGame it starts. |
| `EarlyShell`, `EarlyGame`, `EarlyInput` | `early_shell.dfy`, `early_game.dfy`, `early_input.dfy` | The earlier InteractShell, GameManager and the earlier shell's mouse handlers. |

Both versions follow the same modelling rules:

- Shells and the manager are classes whose fields the methods update.
- The static shell list is the manager's `shells` sequence.
- Engine coroutines are ordinary methods. Their "wait until done" loops are real loops, proved to end.
- `Time.deltaTime` and every `Random.Range` draw are parameters.
- The manager's invariant `Valid` holds before and after every state-changing operation. It says:
  - the registry is made of distinct shells, all at rest;
  - no two shells share a column;
  - the counters are within their inspector ranges;
  - in the later version, exactly one shell holds the prize while a round is under way and it is `luckyShell`, and between rounds none does.

## Model

| member | source | states |
|---|---|---|
| Motion.Clamp | Project_Shell/Assets/Standard/Scripts/GameManager.cs:91 | The result lies in [lo, hi]; a value already in range is kept; a value below lo gives lo and a value above hi gives hi. |
| Motion.Lerp | Project_Shell/Assets/Standard/Scripts/InteractShell.cs:106 | The result lies between a and b; a parameter at or below 0 gives a, and at or above 1 gives b (t is clamped). |
| Motion.MoveTowards | Project_Shell/Assets/Standard/Scripts/InteractShell.cs:103 | The result never passes the target and moves at most maxDelta. It equals the target exactly when the target is within maxDelta. Otherwise the remaining distance shrinks by exactly maxDelta. |
| Motion.BaseY | Project_Shell/Assets/Standard/Scripts/InteractShell.cs:106-110 | On a move with a horizontal span the baseline stays between the start and target heights, is start.y at start.x and target.y at target.x. With no span and x still at start.x the NaN guard gives 0, not start.y. |
| Motion.Arc | Project_Shell/Assets/Standard/Scripts/InteractShell.cs:112-116 | With no horizontal span the offset is 0 (the NaN guard). Between the two ends it lies between 0 and arcHeight, on arcHeight's side. `ArcShape` and `ArcAtEnd` give its value at the ends and the middle. |
| Motion.ArcShape | Project_Shell/Assets/Standard/Scripts/InteractShell.cs:112 | With distinct start and target x, the arc offset is 0 at the start x and at the target x, and equals arcHeight at the midpoint. |
| Motion.ArcAtEnd | Project_Shell/Assets/Standard/Scripts/InteractShell.cs:112-116 | The arc offset is 0 at the start x and at the target x, including the degenerate xDiff = 0 case, where the NaN guard gives 0. |
| Motion.ArrivesExactly | Project_Shell/Assets/Standard/Scripts/InteractShell.cs:101-119 | With distinct start and target x, the next position equals the target exactly when the next x reaches the target x. |
| Motion.StepProgress | Project_Shell/Assets/Standard/Scripts/InteractShell.cs:102-119 | A tick with a positive step either lands on the target or leaves one full step fewer to go, counting steps as the floor of distance over step length (the measure behind a shell's `TicksLeft`). |
| Motion.NextPosition | Project_Shell/Assets/Standard/Scripts/InteractShell.cs:102-119 | With a non-negative step, x moves at most one step, never passes the target x, and lands on it exactly when it was within one step. `ArrivesExactly`, `StepProgress` and `VerticalMoveFlattens` give the rest of the tick. |
| Motion.VerticalMoveFlattens | Project_Shell/Assets/Standard/Scripts/InteractShell.cs:105-116 | With xDiff = 0 the Lerp parameter is NaN, so both the y value and the arc are forced to 0: the shell is put at (target.x, 0). |
| Motion.VerticalMoveStalls | Project_Shell/Assets/Standard/Scripts/InteractShell.cs:105-123 | Such a vertical move towards a target off the line y = 0 never reaches its target, so the shell never stops moving. |
| Motion.LerpShrinks | Project_Shell/Assets/Standard/Scripts/InteractShell.cs:251-252 | One fade step with speed s leaves the fraction 1 - s of the distance to the goal intensity. |
| Motion.FadeProgress | Project_Shell/Assets/Standard/Scripts/InteractShell.cs:251-259 | While the light is at least 0.1 from its goal, a fade step with speed at least 0.001 strictly lowers the measure floor(distance * 10000). So the fade ends. |
| Shuffle.Redraw | Project_Shell/Assets/Standard/Scripts/GameManager.cs:156-161 | The rejection redraw finds the first later draw that differs from the first index, with every skipped draw equal to it. It comes back empty exactly when no such draw is left. |
| Shuffle.DrawSwaps | Project_Shell/Assets/Standard/Scripts/GameManager.cs:153-161 | A complete plan holds exactly count swaps. |
| Shuffle.DrawPair | Project_Shell/Assets/Standard/Scripts/GameManager.cs:156-161 | The imperative draws of one pass (first index, then redraw while equal) give the plan's next swap of two distinct indices and the cursor where the rest of the plan begins. |
| Shuffle.DrawnSwapsDistinct | Project_Shell/Assets/Standard/Scripts/GameManager.cs:158-161 | Every swap of a drawn plan moves two different shells. |
| Shuffle.DrawnSwapsInRange | Project_Shell/Assets/Standard/Scripts/GameManager.cs:156-160 | Draws of `Random.Range(0, Count)` give swaps of registered shells only. |
| Shuffle.SwapAt | Project_Shell/Assets/Standard/Scripts/InteractShell.cs:183-190 | Each of the two swapped entries takes the other's value, and every other entry is kept. |
| Shuffle.ApplySwaps | Project_Shell/Assets/Standard/Scripts/GameManager.cs:153-172 | The places after a whole shuffle, one swap after another: as many as before, a permutation of them (`ApplySwapsPermutes`), in distinct columns when they started so (`ApplySwapsKeepsSpread`). |
| Shuffle.SwapTwiceRestores | Project_Shell/Assets/Standard/Scripts/InteractShell.cs:183-190 | Swapping the same two shells twice puts both back. |
| Shuffle.SwapPermutes | Project_Shell/Assets/Standard/Scripts/InteractShell.cs:183-190 | A swap permutes the places: the multiset of places is unchanged. |
| Shuffle.ApplySwapsPermutes | Project_Shell/Assets/Standard/Scripts/GameManager.cs:153-172 | Any whole shuffle permutes the places: no place is lost or duplicated. |
| Shuffle.SwapKeepsSpread | Project_Shell/Assets/Standard/Scripts/InteractShell.cs:183-190 | A swap keeps the shells in pairwise different columns. |
| Shuffle.ApplySwapsKeepsSpread | Project_Shell/Assets/Standard/Scripts/GameManager.cs:153-172 | A whole shuffle keeps the shells in pairwise different columns. |
| StandardShell.Replace | Project_Shell/Assets/Standard/Scripts/InteractShell.cs:221-242 | The length is kept; every renderer with the old shader gets the new one and every other renderer is kept; no old shader is left when the two differ. |
| StandardShell.ReplaceIdempotent | Project_Shell/Assets/Standard/Scripts/InteractShell.cs:221-230 | Highlighting twice is highlighting once. |
| StandardShell.ReplaceRoundTrip | Project_Shell/Assets/Standard/Scripts/InteractShell.cs:221-242 | Dehighlighting undoes highlighting when no renderer had the outline shader before. |
| StandardShell.FloatEquality | Project_Shell/Assets/Standard/Scripts/InteractShell.cs:166-176 | The result is false exactly when the two values are within 0.1 of each other (the name is the reverse of its meaning). |
| StandardShell.Statics.constructor | Project_Shell/Assets/Standard/Scripts/InteractShell.cs:64-77 | What the first `Awake` saves in the statics: the scene light's level, and the first shell's speed and arc height as the originals. |
| StandardShell.Shell.constructor | Project_Shell/Assets/Standard/Scripts/InteractShell.cs:83-94 | A shell starts at rest at its original place, with no prize, no hover, a closed chest and the renderers' shaders. |
| StandardShell.Shell.FixedUpdate | Project_Shell/Assets/Standard/Scripts/InteractShell.cs:97-126 | A shell at rest stays put. A moving shell takes the arc step, stops exactly when it is on its target, moves x at most speed*dt without overshooting, and, on a real (non-vertical) move, strictly lowers its count of ticks left. |
| StandardShell.Shell.SwapShellLocation | Project_Shell/Assets/Standard/Scripts/InteractShell.cs:179-192 | If either shell is moving, nothing changes. Otherwise each shell starts from its own place towards the other's, both move, and the multiset of targets equals the multiset of places. |
| StandardShell.Shell.MarkAsLucky | Project_Shell/Assets/Standard/Scripts/InteractShell.cs:195-202 | The shell holds the prize afterwards; the gold pile is switched on only by the first call, and a second call changes nothing. |
| StandardShell.Shell.ResetAttrs | Project_Shell/Assets/Standard/Scripts/InteractShell.cs:205-218 | No prize, no gold pile, no outline shader left. After a lost round the speed and arc are the saved originals, otherwise they are kept. Hover and lights are kept. |
| StandardShell.Shell.ResetIdempotent | Project_Shell/Assets/Standard/Scripts/InteractShell.cs:205-218 | Resetting twice gives the same shell as resetting once. |
| StandardShell.Shell.ResetShell | Project_Shell/Assets/Standard/Scripts/InteractShell.cs:205-218 | The shell is back at its original place and its properties are ResetAttrs of the old ones; its motion fields are otherwise kept. |
| StandardShell.Shell.HighlightShell | Project_Shell/Assets/Standard/Scripts/InteractShell.cs:221-230 | Every renderer with the original shader gets the outline shader. |
| StandardShell.Shell.DehighlightShell | Project_Shell/Assets/Standard/Scripts/InteractShell.cs:233-242 | Every renderer with the outline shader gets the original shader back. |
| StandardShell.Shell.ReplaceShaders | Project_Shell/Assets/Standard/Scripts/InteractShell.cs:224-229 | The foreach loop over the renderers leaves exactly Replace of the old shaders. |
| StandardShell.Shell.AnimateOpenChest | Project_Shell/Assets/Standard/Scripts/InteractShell.cs:245-261 | The chest is open. The result is true exactly when the faded spot light is within 0.1 of its peak, and then spot = 4 and scene = 0. Otherwise both lights take one fade step. |
| StandardShell.Shell.AnimateCloseChest | Project_Shell/Assets/Standard/Scripts/InteractShell.cs:264-280 | The chest is closed. The result is true exactly when the faded scene light is within 0.1 of its original level, and then spot = 0 and scene = original. Otherwise both lights take one fade step. |
| StandardShell.Shell.OnMouseOver | Project_Shell/Assets/Standard/Scripts/InteractShell.cs:140-150 | Only in SELECTING and only when not already hovering does the pointer highlight the shell and set the hover flag; otherwise nothing changes. |
| StandardShell.Shell.OnMouseExit | Project_Shell/Assets/Standard/Scripts/InteractShell.cs:153-163 | Only in SELECTING and only while hovering does leaving dehighlight the shell and clear the flag; otherwise nothing changes. |
| StandardShell.Shell.OnMouseUp | Project_Shell/Assets/Standard/Scripts/InteractShell.cs:129-137 | Exactly in SELECTING, the click clears the hover and then asks for ConcludeGame; otherwise nothing changes. |
| StandardInput.Clicked | Project_Shell/Assets/Standard/Scripts/InteractShell.cs:134 | The picked shell stops hovering; every other property, and every other shell, is kept. |
| StandardInput.OnMouseUp | Project_Shell/Assets/Standard/Scripts/InteractShell.cs:129-137 | Outside SELECTING nothing changes, the scene light included. In SELECTING the click runs ConcludeGame on this shell: the round is won exactly when the pick is the old lucky shell, whose chest ends closed with the lights restored. A win scores one, goes to SHOW with the new lucky shell and applies the difficulty rule to the swap count. A loss gives score 0, the first swap count and BEGINNING, and keeps `luckyShell`. Every shell is at its origin, with the properties of the click, the reveal, the reset and (after a win) `Started`. |
| StandardGame.NewMoveSpeed | Project_Shell/Assets/Standard/Scripts/GameManager.cs:91 | The new speed lies in [1, 100]. It equals speed + increment when that is in range and is 100 above it. A non-negative increment never lowers a speed in range. |
| StandardGame.NewArcHeight | Project_Shell/Assets/Standard/Scripts/GameManager.cs:94-101 | The arc lies in [-5, 5], indeed within 5 and not 30. Its size is min(\|arc\| + increment, 5), and the coin picks below the line (coin 1) or above it. |
| StandardGame.NextSwitchCount | Project_Shell/Assets/Standard/Scripts/GameManager.cs:103 | The swap count becomes min(n + 1, 100) and stays in [1, 100]. |
| StandardGame.Harder | Project_Shell/Assets/Standard/Scripts/GameManager.cs:88-102 | One shell's difficulty step keeps speed and arc in their ranges and touches nothing else. |
| StandardGame.DifficultyDue | Project_Shell/Assets/Standard/Scripts/GameManager.cs:133 | No difficulty step is due before turnDifficulty rounds have been won; with a threshold of 1 one is due on every positive score. |
| StandardGame.DifficultyRecurs | Project_Shell/Assets/Standard/Scripts/GameManager.cs:133 | Steps recur every turnDifficulty wins: a step is due at score + turnDifficulty exactly when the score is 0 or a step was due at it. |
| StandardGame.Shown | Project_Shell/Assets/Standard/Scripts/GameManager.cs:190-197 | The effect of a reveal on one shell: on the revealed shell the chest ends closed with its spot light off and nothing else changes; every other shell is kept as it was. |
| StandardGame.Started | Project_Shell/Assets/Standard/Scripts/GameManager.cs:129-145 | A shell at round start: the difficulty step only if due, then the prize on the lucky shell alone (gold pile on if it had no prize); the chest and light are untouched. |
| StandardGame.GameManager.constructor | Project_Shell/Assets/Standard/Scripts/GameManager.cs:66-71 | The manager starts valid at BEGINNING with score 0, remembering the swap count it was given. |
| StandardGame.GameManager.Reveal | Project_Shell/Assets/Standard/Scripts/GameManager.cs:107-126 | The chest is opened until the spot light snaps to its peak, then closed until the scene light snaps back. It ends closed with spot 0 and the scene at its original level; nothing else about the shell changes (`Shown`). |
| StandardGame.GameManager.SwapAndWait | Project_Shell/Assets/Standard/Scripts/GameManager.cs:164-171 | After one swap and the wait until both shells have stopped, the two shells have traded places and are at rest. |
| StandardGame.GameManager.ShuffleStep | Project_Shell/Assets/Standard/Scripts/GameManager.cs:164-171 | One swap on the registry extends the applied plan by that swap; the shells are at rest and keep their properties. |
| StandardGame.GameManager.ShufflePass | Project_Shell/Assets/Standard/Scripts/GameManager.cs:153-172 | One pass of the for loop consumes the next swap of the plan from the draws and applies it. |
| StandardGame.GameManager.SwapLoop | Project_Shell/Assets/Standard/Scripts/GameManager.cs:153-172 | Exactly count swaps of distinct shells, as drawn: the places end as the drawn plan applied to the old places. The shells are at rest in different columns with unchanged properties. |
| StandardGame.GameManager.PerformGame | Project_Shell/Assets/Standard/Scripts/GameManager.cs:148-175 | From SHOW only: numberOfSwitches drawn swaps, then SELECTING, the positions being the plan applied to the old ones. From any other state nothing moves and the state is kept. |
| StandardGame.GameManager.DetermineLuckyShell | Project_Shell/Assets/Standard/Scripts/GameManager.cs:74-79 | The shell at the drawn index is marked lucky and returned. |
| StandardGame.GameManager.IncreaseDifficulty | Project_Shell/Assets/Standard/Scripts/GameManager.cs:82-104 | Every shell gets Harder with the one speed and arc increment drawn for the call and its own coin, no shell moves, and the swap count becomes NextSwitchCount. |
| StandardGame.GameManager.HardenAll | Project_Shell/Assets/Standard/Scripts/GameManager.cs:88-102 | The foreach loop applies Harder to every shell and nothing else. |
| StandardGame.GameManager.StartGame | Project_Shell/Assets/Standard/Scripts/GameManager.cs:129-145 | Outside BEGINNING and LOADING nothing changes. Otherwise: a difficulty step exactly when DifficultyDue, the drawn shell becomes `luckyShell` with the prize (every shell is Started), the state is SHOW and Valid (exactly one winner) holds. |
| StandardGame.GameManager.BeginRound | Project_Shell/Assets/Standard/Scripts/GameManager.cs:133-143 | The body of StartGame past its guard, with the same outcome. |
| StandardGame.GameManager.Announce | Project_Shell/Assets/Standard/Scripts/GameManager.cs:140-143 | The lucky draw and the move to SHOW. |
| StandardGame.GameManager.ShowLuckyShell | Project_Shell/Assets/Standard/Scripts/GameManager.cs:107-126 | The lucky shell's chest is shown and closed again with the lights restored; no other property of any shell changes, and no other shell's chest or light. The shuffle then runs only if the state is still SHOW; otherwise no shell moves. |
| StandardGame.GameManager.ResetAll | Project_Shell/Assets/Standard/Scripts/GameManager.cs:221-224 | Every shell is reset for the given state: back at its place with ResetAttrs. |
| StandardGame.GameManager.Judge | Project_Shell/Assets/Standard/Scripts/GameManager.cs:184-217 | A win (the pick is `luckyShell`) gives WIN and score + 1. A loss gives LOSE, score 0 and the first swap count. The reveal is always of `luckyShell`, never of a losing pick: every other shell is left exactly as it was. |
| StandardGame.GameManager.ResetRound | Project_Shell/Assets/Standard/Scripts/GameManager.cs:221-236 | All shells are reset while the state is still WIN or LOSE; then LOSE goes to BEGINNING and WIN to LOADING. Every shell is back at its origin. |
| StandardGame.GameManager.ConcludeGame | Project_Shell/Assets/Standard/Scripts/GameManager.cs:178-238 | Outside SELECTING nothing changes. A win scores one and goes on through StartGame to SHOW with the new lucky shell, the swap count taking the difficulty step exactly when DifficultyDue. A loss keeps `luckyShell`. A loss gives score 0, the first swap count, BEGINNING and every speed and arc restored. Either way the chest is closed and every shell is at its origin. Every shell's properties are given: the reveal of the old lucky shell alone, then the reset for WIN or LOSE, and after a win `Started` for the new round. |
| StandardGame.GameManager.SettleRound | Project_Shell/Assets/Standard/Scripts/GameManager.cs:182-236 | The body of ConcludeGame past its guard, with the same outcome, every shell's properties, the swap count after a win and `luckyShell` after a loss included. |
| StandardGame.GameManager.WinRound | Project_Shell/Assets/Standard/Scripts/GameManager.cs:221-236 | After a win: shells reset, LOADING, then StartGame to SHOW with the new lucky shell. The swap count becomes NextSwitchCount exactly when DifficultyDue, and is kept otherwise. Every shell is back at its origin with the properties `Started` gives its WIN reset. |
| EarlyShell.Shell.constructor | Project_Shell/Assets/Scripts/InteractShell.cs:46-52 | A shell starts at rest at its original place with no prize. |
| EarlyShell.Shell.Update | Project_Shell/Assets/Scripts/InteractShell.cs:55-84 | The same motion step as the later FixedUpdate, with the same guarantees. |
| EarlyShell.Shell.SwapShellLocation | Project_Shell/Assets/Scripts/InteractShell.cs:122-135 | If either shell is moving, nothing changes. Otherwise the targets are exchanged, the starts are the current places and both shells move. |
| EarlyShell.Shell.ResetShell | Project_Shell/Assets/Scripts/GameManager.cs:150 | One more reset request is recorded on the shell. |
| EarlyShell.Shell.ToggleShellColors | Project_Shell/Assets/Scripts/GameManager.cs:68 | One more toggle is recorded and the colours flip. |
| EarlyGame.GameManager.constructor | Project_Shell/Assets/Scripts/GameManager.cs:49-52 | The manager starts valid at START with the given swap count. |
| EarlyGame.GameManager.SwapAndWait | Project_Shell/Assets/Scripts/GameManager.cs:107-116 | After one swap and the wait, the two shells have traded places and are at rest. |
| EarlyGame.GameManager.ShuffleStep | Project_Shell/Assets/Scripts/GameManager.cs:107-116 | One swap on the registry extends the applied plan by that swap. |
| EarlyGame.GameManager.ShufflePass | Project_Shell/Assets/Scripts/GameManager.cs:98-117 | One pass of the for loop consumes and applies the next swap of the plan. |
| EarlyGame.GameManager.SwapLoop | Project_Shell/Assets/Scripts/GameManager.cs:98-117 | Exactly count drawn swaps of distinct shells: the places end as the plan applied to the old ones, at rest, with unchanged properties. |
| EarlyGame.GameManager.PerformGame | Project_Shell/Assets/Scripts/GameManager.cs:93-120 | From SHOW only: the drawn swaps, then SELECTING; from any other state nothing moves and the state is kept. |
| EarlyGame.GameManager.DetermineLuckyShell | Project_Shell/Assets/Scripts/GameManager.cs:55-60 | The shell at the drawn index gets the prize and is returned. |
| EarlyGame.GameManager.StartGame | Project_Shell/Assets/Scripts/GameManager.cs:81-90 | Outside START nothing changes. From START the drawn shell gets the prize and becomes `luckyShell`, and the state is SHOW. |
| EarlyGame.GameManager.ShowLuckyShell | Project_Shell/Assets/Scripts/GameManager.cs:63-78 | The lucky shell's colours are toggled exactly 6 times, so they end as they began, and no other property of any shell changes. The shuffle then runs only if the state is still SHOW; otherwise no shell moves. |
| EarlyGame.GameManager.ConcludeGame | Project_Shell/Assets/Scripts/GameManager.cs:123-141 | Outside SELECTING nothing changes. In SELECTING the verdict is WIN exactly when the pick holds the prize, and the game then goes through ResetGame back to START with a reset asked of every shell. |
| EarlyGame.GameManager.ResetGame | Project_Shell/Assets/Scripts/GameManager.cs:144-154 | In SELECTING or SHOW nothing changes. Otherwise every shell is asked to reset and the state is START. |
| EarlyInput.OnMouseUp | Project_Shell/Assets/Scripts/InteractShell.cs:87-101 | In SELECTING the verdict is logged and ResetGame is called, which refuses in SELECTING: the state and every shell are unchanged. Outside SELECTING nothing is logged. |
| EarlyInput.OnMouseUpSettling | Project_Shell/Assets/Scripts/InteractShell.cs:87-101 | The click as intended: in SELECTING the logged verdict matches the prize, the round is settled back to START and every shell is asked to reset, nothing else about it changing. Outside SELECTING nothing changes. |
| EarlyInput.OnMouseEnter | Project_Shell/Assets/Scripts/InteractShell.cs:104-110 | A log line exactly in SELECTING, and no state changes. |
| EarlyInput.OnMouseExit | Project_Shell/Assets/Scripts/InteractShell.cs:113-119 | A log line exactly in SELECTING, and no state changes. |

## Left out

- The z coordinate is left out: it is always 0, so the model is 2-D.
- Floating point is modelled over exact reals. IEEE rounding, NaN beyond the one explicit guard (a vertical move with the shell on the start x) and infinities are not modelled. Unity's approximate `Vector3 ==` is exact equality here, so drift that keeps a move from ever landing is not modelled.
- Coroutines, `WaitForSeconds` and frame interleaving are left out:
  - Each coroutine runs to completion as one method; its waits are steps.
  - `StartGame` does not itself start `ShowLuckyShell`; the caller runs it next.
  - `ShowLuckyShell` runs `PerformGame` directly at its end.
  - Input arriving in the middle of a coroutine is not modelled.
- Randomness is not modelled: every `Random.Range` draw is a parameter. Draws are in range. The stream of shuffle draws must be long enough (`DrawSwaps(...).Some?`). With a single registered shell the source's redraw loop never ends, and no such stream exists.
- `Time.deltaTime` is a positive parameter, and the same for every tick of a wait.
- Spread (no two shells share a column) is an assumption about the scene: no script places the shells, and the model assumes the scene puts them at pairwise different x. Without it the wait after a swap of two shells in one column need not end (see `Motion.VerticalMoveStalls`).
- The difficulty increments drawn from `Random.Range(1f, 2f)` are not held to [1, 2]. The range facts (speed in [1, 100], arc within ±5, swap count in [1, 100]) hold for any increment. The facts below are stated only for a non-negative increment, which every draw of the source is.
- StandardGame.NewMoveSpeed: that a speed never goes down is stated only for a non-negative increment.
- StandardGame.NewArcHeight: the sign and size facts are stated only for a non-negative increment.
- `Awake`'s saving of the statics is `StandardShell.Statics`' constructor. Sound, the UI (GameUI.cs), the audio manager (SoundManager.cs), the singleton and `DontDestroyOnLoad`, the shell's self-registration in the static list, the Animator and the gold pile object are not modelled as engine objects. The chest, gold pile and lights are fields of the shell.
- The earlier shell does not define `ResetShell` or `ToggleShellColors`, though the earlier GameManager calls them. They are modelled as requests the shell records (a counter, and a flip of the colours), so the earlier model never clears `isWinner`.
- The earlier model assumes every shell's speed is positive, which its inspector value must be for any swap to finish.

## Findings

| source | as written | input that shows it | evidently intended | confidence | as-written member | corrected member |
|---|---|---|---|---|---|---|
| Project_Shell/Assets/Scripts/InteractShell.cs:99 | A click in SELECTING calls `ResetGame`, and `ResetGame` (Project_Shell/Assets/Scripts/GameManager.cs:146) does nothing in SELECTING. | Any click on a shell while the state is SELECTING: the verdict is logged but the state stays SELECTING and no shell is reset. | The click should settle the round through `ConcludeGame`, as the later InteractShell does, ending at START with every shell reset. | medium, not executed | EarlyInput.OnMouseUp | EarlyInput.OnMouseUpSettling |
