# Whack-a-mole controller, modelled in Dafny

The game is one browser controller, `WhackAMoleGame`. It holds a score, a
30-second clock, an on/off flag, the hole that holds the current mole, and two
timers. The countdown interval takes a second off the clock each time it fires
and ends the game at zero. The mole timeout moves the mole to a random hole every
second. A click on the hole that shows the mole scores one point. When the game
ends, a result popup shows a grade taken from a five-tier ladder.

This project models that controller with its page, sound and clock taken away:

- `scoring.dfy`, module `Scoring`: the grade ladder of `showResults` and its style
  classes, and the low-time warning of `updateDisplay`. These are pure functions.
- `session.dfy`, module `Session`: the controller's fields as a value `State`, and
  each operation as a function from the state before to the state after. The
  module also states `Inv`, the invariant every reachable state keeps, and
  `ClockAtRest`: outside a game the clock is full or at 0. Each
  operation gets a lemma saying what the source promises of it.
- `runs.dfy`, module `Runs`: whole games, as sequences of events (button clicks,
  timer firings, hole clicks). A timer fires only while it is pending, and the
  start button only works while no game runs. The lemmas here cover the clock,
  the score and the mole over a whole game.
- `game.dfy`, module `WhackAMole`: the class `WhackAMoleGame`. It has the source's
  fields, one flag per timer handle, and two `array<bool>` for the "mole" and
  "hit" classes of the holes. Each method updates the object in place, just as
  the source method does. Its postcondition says the new state is the `Session`
  function of the old one, so every `Session` lemma holds of the object, and every
  `Runs` lemma holds of an object driven by the event methods (`SpawnMole` and
  `EndGame` are public but are not events of their own).

How the environment is represented:

- `Math.random`'s choice of hole is a parameter `pick < holes`.
- A timer handle is a boolean "pending" flag. A timer firing is a method (or an
  event) that can only happen while its flag is set, which is what
  `clearInterval` and `clearTimeout` guarantee.
- The hole a click lands on is its index.

Two behaviours of the code that a tidier game would avoid, and which the model keeps:

- `startGame` has no guard against a game that is already running. Only the
  disabled start button prevents a second start. The model makes "no game runs"
  a precondition of `Start`, instead of treating a second start as a no-op.
- `endGame` takes the mole class off the current mole's hole but leaves
  `currentMole` set. `Session.End` keeps `currentMole` too.

## Model

| member | source | states |
|---|---|---|
| `Scoring.GradeOf` | script.js:169-185 | the grade is the highest tier whose threshold (25, 20, 15, 10, none) the score reaches |
| `Scoring.GradeBands` | script.js:170-185 | each tier is given exactly by its score band: at least 25, 20 to 24, 15 to 19, 10 to 14, below 10 |
| `Scoring.GradeMonotone` | script.js:170-185 | a higher score never gets a lower tier |
| `Scoring.GradeClass` | script.js:172-184 | the style class is `excellent` exactly for the two highest tiers |
| `Scoring.LowTimeWarning` | script.js:241 | the warning condition of the clock, some time left and at most 10 seconds; what it means over a game is proved in `Runs.FreshGameClock` and `Runs.WarningOnlyDuringGame` |
| `Scoring.GradeClassShared` | script.js:170-185 | two different tiers share a style class exactly when they are the top two, which share `excellent` |
| `Session.Initial` | script.js:2-8 | the constructor's state keeps the invariant: game off, no points, 30 seconds, no current mole, no hole showing a mole or a hit |
| `Session.ClearCurrent` | script.js:96-98 | the hole of the current mole, if any, loses its mole class; no other hole and no other field changes (the same step is at script.js:107-109 and script.js:153-155) |
| `Session.Spawn` | script.js:92-112 | outside a game nothing changes; in a game the picked hole shows a mole, becomes the current mole, and the mole timer is pending again; score, clock and countdown stay as they were |
| `Session.Start` | script.js:69-90 | the game is on with score 0, 30 seconds, both timers pending, and the picked hole as current mole |
| `Session.End` | script.js:141-163 | the game is off and both timers are cancelled; score, clock and `currentMole` stay as they were |
| `Session.Countdown` | script.js:79-86 | exactly one second comes off the clock; the current mole and the hit classes stay as they were in both branches; at zero or below the game is off with both timers cancelled; otherwise only the clock changes |
| `Session.MoleTimeout` | script.js:106-111 | score, clock, on/off, the countdown and the hit classes stay as they were; the mole timer is pending again exactly when the game runs |
| `Session.Hit` | script.js:114-139 | a click never changes the clock, the on/off state or the timers |
| `Session.HitPulseEnd` | script.js:134-136 | the clicked hole's hit class is cleared; every other hole's hit class and every other field stay as they were |
| `Session.Reset` | script.js:205-234 | the board keeps its number of holes |
| `Session.PlayAgain` | script.js:197-203 | a running game on the same board |
| `Session.MarkedHolesOfInv` | script.js:96-103 | in every state that keeps the invariant, at most one hole shows a mole, and it is the current mole while a game runs |
| `Session.ResetIsInitial` | script.js:205-223 | a reset from any state gives the constructor's state; resetting again changes nothing |
| `Session.StartResetsSession` | script.js:69-90 | a start keeps the invariant and leaves exactly the picked hole showing a mole |
| `Session.SpawnKeepsOneMole` | script.js:92-104 | a spawn keeps the invariant; outside a game it changes nothing; in a game exactly the picked hole shows the mole and is the current mole |
| `Session.MoleTimeoutKeepsOneMole` | script.js:106-111 | the mole timeout keeps the invariant, leaves exactly the picked hole marked and current, and leaves the hit classes as they were |
| `Session.EndFreezes` | script.js:141-155 | ending keeps the invariant, leaves no hole marked and the score as it was; ending twice is ending once; after it no hit and no spawn changes anything |
| `Session.CountdownStep` | script.js:79-86 | a countdown firing keeps the invariant, takes exactly one second off without going below 0, ends the game exactly when the clock reaches 0, and keeps the score, the current mole and the hit classes |
| `Session.HitScoresIff` | script.js:114-139 | a click scores exactly when a game runs and the hole is the current mole; any other click changes nothing at all; a hit clears the mole and shows the pulse on the clicked hole only, leaving every other hole's hit class as it was, so a second click on the same hole scores nothing |
| `Session.HitPulseEndKeepsInv` | script.js:134-136 | the end of a hit pulse keeps the invariant |
| `Session.PlayAgainIsFreshStart` | script.js:197-203 | play-again ends in the same state as a start on a newly built board, with exactly the picked hole marked |
| `Runs.Enabled` | script.js:75 | the start button works only while no game runs (disabled at script.js:75, enabled again at script.js:158 and script.js:226); a timer fires only while it is pending; a pick or a click names an existing hole |
| `Runs.Step` | script.js:28-35 | every event keeps the board's shape |
| `Runs.Run` | script.js:28-35 | every sequence of events keeps the board's shape |
| `Runs.StepPreservesInv` | script.js:69-234 | every event keeps the invariant |
| `Runs.StepClock` | script.js:79-86 | among events other than button clicks, only a countdown firing during a game moves the clock, by one second, and it ends the game exactly when one second was left |
| `Runs.StepScore` | script.js:114-139 | an event adds at most one point, only a click can add it, and only by taking down a mole that was up |
| `Runs.StepWhileOff` | script.js:93 | outside a game, an event that is not a button click changes nothing but hit classes |
| `Runs.StepKeepsClockAtRest` | script.js:79-86 | outside a game the clock stays either full or at 0 after every event, because a game leaves the running state only when the countdown reaches zero |
| `Runs.RunKeepsClockAtRest` | script.js:79-86 | the same for every sequence of events |
| `Runs.WarningOnlyDuringGame` | script.js:241 | in every state reachable from the constructor, the low-time warning shows only while a game runs |
| `Runs.RunPreservesInv` | script.js:69-234 | every sequence of events, buttons included, keeps the invariant |
| `Runs.AtMostOneMole` | script.js:92-112 | in every state reachable from the constructor, at most one hole shows a mole, and any hole that shows one is the current mole |
| `Runs.RunClock` | script.js:79-86 | within one game the clock loses exactly one second per countdown firing, the game runs until the firings equal the seconds that were left, and after that the clock stays at 0 |
| `Runs.RunScore` | script.js:114-139 | within one game the score never falls; it rises by at most one per click, and by at most one per mole put up, so no mole scores twice |
| `Runs.RunWhileOff` | script.js:141-155 | once no game runs, only a button click can change score, clock, timers, moles or the current mole |
| `Runs.FreshGameClock` | script.js:69-90 | a started game runs until it has had 30 countdown firings; the 30th leaves the clock at 0 and no timer pending; the low-time warning shows exactly from the 20th firing until the end |
| `Runs.ScoreFrozenAfterEnd` | script.js:141-163 | after the game ends, only a button click can change the score or the moles |
| `Runs.ResetCancelsSession` | script.js:205-223 | after a reset, until a button is clicked, the score stays 0, the clock 30 and no hole shows a mole |
| `Runs.ThirtyIdleSecondsEndGame` | script.js:79-86 | a start and then 30 countdown firings with no clicks end the game with the clock at 0, no points and the lowest grade |
| `Runs.HitAfterStart` | script.js:114-139 | a start and then a click on the picked hole give one point and leave no mole |
| `Runs.MissAfterStart` | script.js:114-117 | a start and then a click on any other hole change nothing |
| `WhackAMole.WhackAMoleGame.constructor` | script.js:2-8 | the new object keeps the invariant and is in the constructor's state |
| `WhackAMole.WhackAMoleGame.StartGame` | script.js:69-90 | the object is updated as `Session.Start` says, and keeps the invariant |
| `WhackAMole.WhackAMoleGame.SpawnMole` | script.js:92-104 | the object is updated as `Session.Spawn` says |
| `WhackAMole.WhackAMoleGame.MoleTimerFires` | script.js:106-111 | the object is updated as `Session.MoleTimeout` says, and keeps the invariant |
| `WhackAMole.WhackAMoleGame.CountdownFires` | script.js:79-86 | the object is updated as `Session.Countdown` says and keeps the invariant; a grade is returned exactly when this firing ended the game, and it is the final score's grade |
| `WhackAMole.WhackAMoleGame.HitMole` | script.js:114-139 | the object is updated as `Session.Hit` says, and keeps the invariant |
| `WhackAMole.WhackAMoleGame.HitPulseEnds` | script.js:134-136 | the object is updated as `Session.HitPulseEnd` says, and keeps the invariant |
| `WhackAMole.WhackAMoleGame.EndGame` | script.js:141-163 | the object is updated as `Session.End` says, and the returned grade is the one `showResults` computes for the score |
| `WhackAMole.WhackAMoleGame.ResetGame` | script.js:205-234 | starting from any well-shaped state, the object is updated as `Session.Reset` says and keeps the invariant; the loop clears both classes on every hole |
| `WhackAMole.WhackAMoleGame.PlayAgain` | script.js:197-203 | starting from any well-shaped state, the object is updated as `Session.PlayAgain` says, and ends up keeping the invariant |
| `WhackAMole.WhackAMoleGame.TimerWarning` | script.js:241 | on a consistent object the warning never shows outside a game, and during a game it shows exactly for the last 10 seconds |

## Left out

- Element lookup and event binding (`initializeElements`, `bindEvents`) and the page-load bootstrap. Only the per-hole classes and a hole index per click remain.
- Sound (`loadSounds` and the `try`/`catch` around `play`). It never touches the game state.
- `Math.random`. It is a floating-point source, so the picked hole is a parameter.
- Real time. The 1000 ms and 300 ms delays are discrete events whose order is arbitrary (the 100 ms delay of `playAgain` is not an event; see `Session.PlayAgain` below). Timing between them is not modelled.
- Presentation: the grade texts, the button texts and the button's disabled flag, the popup being shown or closed (`showResults`, `closePopup`), and the colours and text that `updateDisplay` writes. The grade is a tier, its class is a string, and the warning is a boolean.
- A board with no holes. In the source, `startGame` would fail there (it reads `holes[0]`). Here every spawn requires a picked hole that exists.
- Hit pulses. Each hit leaves its own 300 ms timeout, and the source never cancels these. The model has an event that clears a hole's hit class at any time, and does not count how many pulses are pending.
- Session.PlayAgain: does not model the 100 ms window between the reset and the start, because the start follows the reset directly here. In the source, the start button is enabled inside that window. Clicking it there makes the deferred `startGame` run while a game is already running. That call sets up a second countdown interval and, through `spawnMole`, a second mole-timeout chain. `endGame` clears only the last handle of each, so the first interval is never cleared and keeps calling `endGame` every second after the game ends. A reset clicked inside the window is still followed by the deferred start. The model has at most one pending timer of each kind.
- WhackAMole.WhackAMoleGame.PlayAgain: the same window is collapsed, for the same reason.
- `startGame` while a game is running is excluded by a precondition. That mirrors the disabled start button; it does not model the leaked interval the call would cause.
