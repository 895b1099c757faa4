/** The `WhackAMoleGame` controller as a class. Its fields are the source's fields;
    each timer handle is a flag saying whether that timer is pending, and the
    "mole" and "hit" classes of the holes are two arrays of flags. Every method
    changes the fields as the function of the same operation in module Session
    says, so the properties proved there hold of the object. */
module WhackAMole {
  import opened Scoring
  import opened Session

  class WhackAMoleGame {
    var score: int
    var timeLeft: int
    var active: bool
    var currentMole: Option<nat>
    var gameTimerArmed: bool
    var moleTimerArmed: bool
    /** moleMark[i]: hole i carries the "mole" class. */
    const moleMark: array<bool>
    /** hitMark[i]: hole i carries the "hit" class. */
    const hitMark: array<bool>

    /** The object's fields as a value. */
    function Snapshot(): State
      reads this, moleMark, hitMark
    {
      State(score, timeLeft, active, currentMole, gameTimerArmed, moleTimerArmed,
            moleMark[..], hitMark[..])
    }

    /** The two arrays are distinct, as long as each other, and the current mole is a hole. */
    ghost predicate Shaped()
      reads this, moleMark, hitMark
    {
      moleMark != hitMark && WellFormed(Snapshot())
    }

    ghost predicate Valid()
      reads this, moleMark, hitMark
    {
      Shaped() && Inv(Snapshot()) && ClockAtRest(Snapshot())
    }

    /** `new WhackAMoleGame()` over a board of `holes` holes, none of them marked. */
    constructor (holes: nat)
      ensures Valid() && fresh(moleMark) && fresh(hitMark)
      ensures Snapshot() == Initial(holes)
    {
      score := 0;
      timeLeft := GAME_LENGTH;
      active := false;
      currentMole := None;
      gameTimerArmed := false;
      moleTimerArmed := false;
      moleMark := new bool[holes](i => false);
      hitMark := new bool[holes](i => false);
      new;
      assert moleMark[..] == seq(holes, i => false);
      assert hitMark[..] == seq(holes, i => false);
    }

    /** `startGame()`; the start button is disabled while a game runs. */
    method StartGame(pick: nat)
      requires Valid() && !active && pick < moleMark.Length
      modifies this, moleMark
      ensures Valid() && Snapshot() == Start(old(Snapshot()), pick)
    {
      ghost var s := Snapshot();
      active := true;
      score := 0;
      timeLeft := GAME_LENGTH;
      gameTimerArmed := true;
      SpawnMole(pick);
      StartResetsSession(s, pick);
    }

    /** `spawnMole()`, with the hole `Math.random` picks given as `pick`. */
    method SpawnMole(pick: nat)
      requires Shaped() && pick < moleMark.Length
      modifies this, moleMark
      ensures Shaped() && Snapshot() == Spawn(old(Snapshot()), pick)
    {
      if !active {
        return;
      }
      if currentMole.Some? {
        moleMark[currentMole.value] := false;
      }
      currentMole := Some(pick);
      moleMark[pick] := true;
      moleTimerArmed := true;
    }

    /** The mole timeout firing; it fires only while it is pending. */
    method MoleTimerFires(pick: nat)
      requires Valid() && moleTimerArmed && pick < moleMark.Length
      modifies this, moleMark
      ensures Valid() && Snapshot() == MoleTimeout(old(Snapshot()), pick)
    {
      ghost var s := Snapshot();
      moleTimerArmed := false;
      if currentMole.Some? {
        moleMark[currentMole.value] := false;
      }
      SpawnMole(pick);
      MoleTimeoutKeepsOneMole(s, pick);
    }

    /** The countdown interval firing; it fires only while it is pending. When
        the game ends here, `shown` is the grade the result popup shows. */
    method CountdownFires() returns (shown: Option<Grade>)
      requires Valid() && gameTimerArmed
      modifies this, moleMark
      ensures Valid() && Snapshot() == Countdown(old(Snapshot()))
      ensures shown == if active then None else Some(GradeOf(score))
    {
      ghost var s := Snapshot();
      timeLeft := timeLeft - 1;
      if timeLeft <= 0 {
        var g := EndGame();
        shown := Some(g);
      } else {
        shown := None;
      }
      CountdownStep(s);
    }

    /** `hitMole(hole)` for the hole with index h. */
    method HitMole(h: nat)
      requires Valid() && h < moleMark.Length
      modifies this, moleMark, hitMark
      ensures Valid() && Snapshot() == Hit(old(Snapshot()), h)
    {
      ghost var s := Snapshot();
      if !active || !moleMark[h] {
        return;
      }
      score := score + 1;
      moleMark[h] := false;
      hitMark[h] := true;
      currentMole := None;
      HitScoresIff(s, h);
    }

    /** The 300 ms timeout of a hit on hole h. */
    method HitPulseEnds(h: nat)
      requires Valid() && h < hitMark.Length
      modifies hitMark
      ensures Valid() && Snapshot() == HitPulseEnd(old(Snapshot()), h)
    {
      hitMark[h] := false;
    }

    /** `endGame()`, returning the grade `showResults()` computes from the score. */
    method EndGame() returns (grade: Grade)
      requires Shaped()
      modifies this, moleMark
      ensures Shaped() && Snapshot() == End(old(Snapshot()))
      ensures grade == GradeOf(score)
    {
      active := false;
      gameTimerArmed := false;
      moleTimerArmed := false;
      if currentMole.Some? {
        moleMark[currentMole.value] := false;
      }
      grade := GradeOf(score);
    }

    /** `resetGame()`, from any state: every hole loses both classes. */
    method ResetGame()
      requires Shaped()
      modifies this, moleMark, hitMark
      ensures Valid() && Snapshot() == Reset(old(Snapshot()))
    {
      ghost var s := Snapshot();
      active := false;
      score := 0;
      timeLeft := GAME_LENGTH;
      gameTimerArmed := false;
      moleTimerArmed := false;
      for i := 0 to moleMark.Length
        invariant forall j :: 0 <= j < i ==> !moleMark[j] && !hitMark[j]
        modifies moleMark, hitMark
      {
        moleMark[i] := false;
        hitMark[i] := false;
      }
      currentMole := None;
      assert moleMark[..] == seq(moleMark.Length, i => false);
      assert hitMark[..] == seq(hitMark.Length, i => false);
      ResetIsInitial(s);
    }

    /** `playAgain()`: a reset, then the deferred start. */
    method PlayAgain(pick: nat)
      requires Shaped() && pick < moleMark.Length
      modifies this, moleMark, hitMark
      ensures Valid() && Snapshot() == Session.PlayAgain(old(Snapshot()), pick)
    {
      ResetGame();
      StartGame(pick);
    }

    /** The colour choice of `updateDisplay()`: whether the clock shows the warning.
        It never shows outside a game, and during a game it shows for the last ten seconds. */
    function TimerWarning(): (w: bool)
      requires Valid()
      reads this, moleMark, hitMark
      ensures w ==> active
      ensures active ==> (w <==> timeLeft <= WARNING_SECONDS)
    {
      LowTimeWarning(timeLeft)
    }
  }
}
