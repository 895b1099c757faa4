/** The state of one `WhackAMoleGame` controller as a value, and each of its
    operations as a function from the state before to the state after.
    The class in module WhackAMole updates its fields exactly as these functions say. */
module Session {
  import opened Scoring

  /** Seconds on the clock when a game starts. */
  const GAME_LENGTH: int := 30

  datatype Option<T> = None | Some(value: T)

  /** The controller's fields. `currentMole` is the index of the hole the
      controller last put a mole in; `gameTimerArmed` and `moleTimerArmed`
      say whether the countdown interval and the mole timeout are pending;
      `moleMarks[i]` and `hitMarks[i]` are the "mole" and "hit" classes of hole i. */
  datatype State = State(
    score: int,
    timeLeft: int,
    active: bool,
    currentMole: Option<nat>,
    gameTimerArmed: bool,
    moleTimerArmed: bool,
    moleMarks: seq<bool>,
    hitMarks: seq<bool>)

  /** Number of holes on the board. */
  function Holes(s: State): nat {
    |s.moleMarks|
  }

  /** Both mark sequences cover the same holes and `currentMole` names one of them. */
  predicate WellFormed(s: State) {
    |s.hitMarks| == |s.moleMarks| &&
    (s.currentMole.Some? ==> s.currentMole.value < |s.moleMarks|)
  }

  /** The holes that show a mole. */
  function MarkedHoles(s: State): set<nat> {
    set i: nat | i < |s.moleMarks| && s.moleMarks[i]
  }

  /** Whether a mole is up to be hit: the game runs and its current mole is set. */
  predicate MoleUp(s: State) {
    s.active && s.currentMole.Some?
  }

  /** The invariant every reachable state keeps: the clock stays within the game's
      length and is positive while the game runs, both timers are pending exactly
      while the game runs, a hole shows a mole only if it is the current mole, the
      current mole shows while the game runs, and no hole shows one otherwise. */
  predicate Inv(s: State) {
    && WellFormed(s)
    && s.score >= 0
    && 0 <= s.timeLeft <= GAME_LENGTH
    && (s.active ==> s.timeLeft >= 1)
    && s.gameTimerArmed == s.active
    && s.moleTimerArmed == s.active
    && (forall i :: 0 <= i < |s.moleMarks| && s.moleMarks[i] ==> s.currentMole == Some(i))
    && (MoleUp(s) ==> s.moleMarks[s.currentMole.value])
    && (!s.active ==> forall i :: 0 <= i < |s.moleMarks| ==> !s.moleMarks[i])
  }

  /** Outside a game the clock is either full (nothing started yet, or a reset) or
      empty (the countdown ran out). The source calls `endGame` only from the
      countdown, so a game never stops with time left on the clock. */
  predicate ClockAtRest(s: State) {
    !s.active ==> s.timeLeft == 0 || s.timeLeft == GAME_LENGTH
  }

  /** The state the constructor builds over a board of n holes. */
  function Initial(n: nat): (s: State)
    ensures Inv(s) && Holes(s) == n
    ensures !s.active && s.score == 0 && s.timeLeft == GAME_LENGTH && s.currentMole == None
    ensures MarkedHoles(s) == {}
    ensures forall i :: 0 <= i < n ==> !s.hitMarks[i]
  {
    State(0, GAME_LENGTH, false, None, false, false, seq(n, i => false), seq(n, i => false))
  }

  /** Takes the "mole" class off the current mole's hole, if there is a current mole. */
  function ClearCurrent(s: State): (r: State)
    requires WellFormed(s)
    ensures WellFormed(r) && Holes(r) == Holes(s)
    ensures r.currentMole == s.currentMole && r.hitMarks == s.hitMarks
    ensures r.(moleMarks := s.moleMarks) == s
    ensures forall i :: 0 <= i < |r.moleMarks| ==> (r.moleMarks[i] <==> s.moleMarks[i] && s.currentMole != Some(i))
  {
    if s.currentMole.Some? then s.(moleMarks := s.moleMarks[s.currentMole.value := false]) else s
  }

  /** `spawnMole(idx)`: idx stands for the hole `Math.random` picks. Outside a game
      nothing happens; otherwise the previous mole goes, the picked hole gets one,
      it becomes the current mole, and the mole timeout is set again. */
  function Spawn(s: State, idx: nat): (r: State)
    requires WellFormed(s) && idx < Holes(s)
    ensures WellFormed(r) && Holes(r) == Holes(s)
    ensures !s.active ==> r == s
    ensures s.active ==> r.currentMole == Some(idx) && r.moleMarks[idx] && r.moleTimerArmed
    ensures r.score == s.score && r.timeLeft == s.timeLeft && r.active == s.active
    ensures r.gameTimerArmed == s.gameTimerArmed && r.hitMarks == s.hitMarks
  {
    if !s.active then s
    else
      var c := ClearCurrent(s);
      c.(moleMarks := c.moleMarks[idx := true], currentMole := Some(idx), moleTimerArmed := true)
  }

  /** `startGame()`: only callable while no game runs, since the start button is
      disabled during a game. Turns the game on with no points and a full clock,
      sets the countdown interval going and spawns the first mole. */
  function Start(s: State, idx: nat): (r: State)
    requires WellFormed(s) && !s.active && idx < Holes(s)
    ensures WellFormed(r) && Holes(r) == Holes(s)
    ensures r.active && r.score == 0 && r.timeLeft == GAME_LENGTH
    ensures r.gameTimerArmed && r.moleTimerArmed && r.currentMole == Some(idx)
    ensures r.hitMarks == s.hitMarks
  {
    Spawn(s.(active := true, score := 0, timeLeft := GAME_LENGTH, gameTimerArmed := true), idx)
  }

  /** `endGame()`: switches the game off, cancels both timers and takes the mole
      off the current mole's hole. The score stays, and so does `currentMole`. */
  function End(s: State): (r: State)
    requires WellFormed(s)
    ensures WellFormed(r) && Holes(r) == Holes(s)
    ensures !r.active && !r.gameTimerArmed && !r.moleTimerArmed
    ensures r.score == s.score && r.timeLeft == s.timeLeft
    ensures r.currentMole == s.currentMole && r.hitMarks == s.hitMarks
  {
    ClearCurrent(s).(active := false, gameTimerArmed := false, moleTimerArmed := false)
  }

  /** One firing of the countdown interval: a second comes off the clock, and the
      game ends when the clock is no longer positive. */
  function Countdown(s: State): (r: State)
    requires WellFormed(s) && s.gameTimerArmed
    ensures WellFormed(r) && Holes(r) == Holes(s)
    ensures r.timeLeft == s.timeLeft - 1 && r.score == s.score
    ensures r.currentMole == s.currentMole && r.hitMarks == s.hitMarks
    ensures r.timeLeft <= 0 ==> !r.active && !r.gameTimerArmed && !r.moleTimerArmed
    ensures r.timeLeft > 0 ==> r == s.(timeLeft := s.timeLeft - 1)
  {
    var t := s.(timeLeft := s.timeLeft - 1);
    if t.timeLeft <= 0 then End(t) else t
  }

  /** The mole timeout firing (it is one-shot, so it is no longer pending): the
      current mole's hole loses its mole and `spawnMole` runs again. */
  function MoleTimeout(s: State, idx: nat): (r: State)
    requires WellFormed(s) && s.moleTimerArmed && idx < Holes(s)
    ensures WellFormed(r) && Holes(r) == Holes(s)
    ensures r.score == s.score && r.timeLeft == s.timeLeft && r.active == s.active
    ensures r.moleTimerArmed == s.active
    ensures r.gameTimerArmed == s.gameTimerArmed && r.hitMarks == s.hitMarks
  {
    Spawn(ClearCurrent(s).(moleTimerArmed := false), idx)
  }

  /** `hitMole(hole h)`: only a hole that shows a mole during a game scores. It
      scores one point, loses the mole, shows the hit pulse, and the current mole
      is cleared. Any other click changes nothing. */
  function Hit(s: State, h: nat): (r: State)
    requires WellFormed(s) && h < Holes(s)
    ensures WellFormed(r) && Holes(r) == Holes(s)
    ensures r.timeLeft == s.timeLeft && r.active == s.active
    ensures r.gameTimerArmed == s.gameTimerArmed && r.moleTimerArmed == s.moleTimerArmed
  {
    if !s.active || !s.moleMarks[h] then s
    else s.(score := s.score + 1, moleMarks := s.moleMarks[h := false],
            hitMarks := s.hitMarks[h := true], currentMole := None)
  }

  /** The 300 ms timeout a hit leaves behind: hole h loses its "hit" class.
      The source never cancels it, so it may fire in any state. */
  function HitPulseEnd(s: State, h: nat): (r: State)
    requires WellFormed(s) && h < Holes(s)
    ensures WellFormed(r) && Holes(r) == Holes(s)
    ensures r.(hitMarks := s.hitMarks) == s && !r.hitMarks[h]
    ensures forall j :: 0 <= j < |s.hitMarks| && j != h ==> r.hitMarks[j] == s.hitMarks[j]
  {
    s.(hitMarks := s.hitMarks[h := false])
  }

  /** `resetGame()`: from any state, the game is off with no points and a full
      clock, both timers are cancelled, no hole shows a mole or a hit, and there
      is no current mole. */
  function Reset(s: State): (r: State)
    ensures Holes(r) == Holes(s) && |r.hitMarks| == |s.hitMarks|
  {
    State(0, GAME_LENGTH, false, None, false, false,
          seq(|s.moleMarks|, i => false), seq(|s.hitMarks|, i => false))
  }

  /** `playAgain()`: a reset, then a start (which the source defers by 100 ms). */
  function PlayAgain(s: State, idx: nat): (r: State)
    requires WellFormed(s) && idx < Holes(s)
    ensures WellFormed(r) && Holes(r) == Holes(s) && r.active
  {
    Start(Reset(s), idx)
  }

  // ---------------------------------------------------------------------------
  // Properties of the single operations

  /** The invariant says that at most one hole shows a mole: the current one,
      while the game runs and its current mole is set. */
  lemma MarkedHolesOfInv(s: State)
    requires Inv(s)
    ensures MarkedHoles(s) == if MoleUp(s) then {s.currentMole.value} else {}
    ensures |MarkedHoles(s)| <= 1
  {
    if MoleUp(s) {
      var k := s.currentMole.value;
      assert k in MarkedHoles(s);
      forall i | i in MarkedHoles(s) ensures i == k {
        assert s.moleMarks[i];
      }
    } else {
      assert forall i :: 0 <= i < |s.moleMarks| ==> !s.moleMarks[i];
    }
  }

  /** The constructor's state and the state after a reset are the same state. */
  lemma ResetIsInitial(s: State)
    requires WellFormed(s)
    ensures Reset(s) == Initial(Holes(s))
    ensures Inv(Reset(s)) && Reset(Reset(s)) == Reset(s)
  {
  }

  /** A start from any idle state begins a fresh session: game on, no points, a
      full clock, both timers pending, and exactly the picked hole shows a mole. */
  lemma StartResetsSession(s: State, idx: nat)
    requires Inv(s) && !s.active && idx < Holes(s)
    ensures Inv(Start(s, idx))
    ensures MarkedHoles(Start(s, idx)) == {idx}
  {
    var r := Start(s, idx);
    assert forall i :: 0 <= i < |r.moleMarks| && i != idx ==> !r.moleMarks[i];
    MarkedHolesOfInv(r);
  }

  /** Spawning keeps at most one mole on the board: outside a game nothing changes;
      in a game exactly the picked hole shows the mole and it is the current one. */
  lemma SpawnKeepsOneMole(s: State, idx: nat)
    requires Inv(s) && idx < Holes(s)
    ensures Inv(Spawn(s, idx))
    ensures !s.active ==> Spawn(s, idx) == s
    ensures s.active ==> MarkedHoles(Spawn(s, idx)) == {idx} && Spawn(s, idx).currentMole == Some(idx)
  {
    var r := Spawn(s, idx);
    if s.active {
      forall i | 0 <= i < |r.moleMarks| && i != idx ensures !r.moleMarks[i] {
        if s.moleMarks[i] {
          assert s.currentMole == Some(i);
        }
      }
      MarkedHolesOfInv(r);
    }
  }

  /** The mole timeout keeps the invariant and leaves exactly the picked hole marked. */
  lemma MoleTimeoutKeepsOneMole(s: State, idx: nat)
    requires Inv(s) && s.moleTimerArmed && idx < Holes(s)
    ensures Inv(MoleTimeout(s, idx))
    ensures MarkedHoles(MoleTimeout(s, idx)) == {idx}
    ensures MoleTimeout(s, idx).currentMole == Some(idx)
    ensures MoleTimeout(s, idx).hitMarks == s.hitMarks
  {
    var c := ClearCurrent(s).(moleTimerArmed := false);
    var r := Spawn(c, idx);
    forall i | 0 <= i < |r.moleMarks| && i != idx ensures !r.moleMarks[i] {
      if s.moleMarks[i] {
        assert s.currentMole == Some(i);
      }
    }
    MarkedHolesOfInv(r);
  }

  /** End freezes the game: the invariant holds, no hole shows a mole, the score
      stays, ending again changes nothing, and neither a hit nor a spawn changes
      the ended state. */
  lemma EndFreezes(s: State)
    requires Inv(s)
    ensures Inv(End(s)) && MarkedHoles(End(s)) == {}
    ensures End(s).score == s.score && End(End(s)) == End(s)
    ensures forall h: nat :: h < Holes(s) ==> Hit(End(s), h) == End(s)
    ensures forall idx: nat :: idx < Holes(s) ==> Spawn(End(s), idx) == End(s)
  {
    var r := End(s);
    forall i | 0 <= i < |r.moleMarks| ensures !r.moleMarks[i] {
      if s.moleMarks[i] {
        assert s.currentMole == Some(i);
      }
    }
    MarkedHolesOfInv(r);
    assert ClearCurrent(r) == r;
  }

  /** Each firing of the countdown takes exactly one second off, and the game ends
      in that firing exactly when the clock reaches zero. */
  lemma CountdownStep(s: State)
    requires Inv(s) && s.gameTimerArmed
    ensures Inv(Countdown(s))
    ensures Countdown(s).timeLeft == s.timeLeft - 1 >= 0
    ensures !Countdown(s).active <==> Countdown(s).timeLeft == 0
    ensures Countdown(s).score == s.score
    ensures Countdown(s).currentMole == s.currentMole && Countdown(s).hitMarks == s.hitMarks
  {
    var r := Countdown(s);
    if s.timeLeft - 1 <= 0 {
      forall i | 0 <= i < |r.moleMarks| ensures !r.moleMarks[i] {
        if s.moleMarks[i] {
          assert s.currentMole == Some(i);
        }
      }
    }
  }

  /** A click scores exactly when the game runs and the clicked hole is the current
      mole; any other click leaves the whole state as it was. A successful hit
      clears the mole, so a second click on the same hole scores nothing. */
  lemma HitScoresIff(s: State, h: nat)
    requires Inv(s) && h < Holes(s)
    ensures Inv(Hit(s, h))
    ensures Hit(s, h).score == s.score + 1 <==> s.active && s.currentMole == Some(h)
    ensures Hit(s, h).score != s.score + 1 ==> Hit(s, h) == s
    ensures Hit(s, h).score == s.score + 1 ==>
              Hit(s, h).currentMole == None && !Hit(s, h).moleMarks[h] && Hit(s, h).hitMarks[h]
    ensures forall j :: 0 <= j < |s.hitMarks| && j != h ==> Hit(s, h).hitMarks[j] == s.hitMarks[j]
    ensures Hit(Hit(s, h), h) == Hit(s, h)
  {
    var r := Hit(s, h);
    if s.active && s.moleMarks[h] {
      assert s.currentMole == Some(h);
      forall i | 0 <= i < |r.moleMarks| ensures !r.moleMarks[i] {
        if i != h {
          assert !s.moleMarks[i];
        }
      }
    }
  }

  /** A pulse ending changes only the hit class of its hole. */
  lemma HitPulseEndKeepsInv(s: State, h: nat)
    requires Inv(s) && h < Holes(s)
    ensures Inv(HitPulseEnd(s, h))
  {
  }

  /** Play-again ends in the same state as a start on a freshly built board. */
  lemma PlayAgainIsFreshStart(s: State, idx: nat)
    requires WellFormed(s) && idx < Holes(s)
    ensures PlayAgain(s, idx) == Start(Initial(Holes(s)), idx)
    ensures Inv(PlayAgain(s, idx)) && MarkedHoles(PlayAgain(s, idx)) == {idx}
  {
    ResetIsInitial(s);
    StartResetsSession(Initial(Holes(s)), idx);
  }
}
