/** Whole games: the controller driven by a sequence of events from the page and
    from its timers. An event whose timer is not pending, or whose button is
    disabled, cannot happen, and is skipped. */
module Runs {
  import opened Scoring
  import opened Session

  /** What can reach the controller. The nat of StartClicked, PlayAgainClicked and
      MoleTimerFired is the hole `Math.random` picks for the spawn that follows. */
  datatype Event =
    | StartClicked(pick: nat)
    | ResetClicked
    | PlayAgainClicked(pick: nat)
    | CountdownFired
    | MoleTimerFired(pick: nat)
    | HoleClicked(hole: nat)
    | HitPulseEnded(hole: nat)

  /** Events that start or discard a session: the three buttons. */
  predicate IsControl(e: Event) {
    e.StartClicked? || e.ResetClicked? || e.PlayAgainClicked?
  }

  /** Whether event e can happen in state s: the start button is disabled while a
      game runs, a timer fires only while it is pending, and holes exist. */
  predicate Enabled(s: State, e: Event) {
    match e
    case StartClicked(pick) => !s.active && pick < Holes(s)
    case ResetClicked => true
    case PlayAgainClicked(pick) => pick < Holes(s)
    case CountdownFired => s.gameTimerArmed
    case MoleTimerFired(pick) => s.moleTimerArmed && pick < Holes(s)
    case HoleClicked(h) => h < Holes(s)
    case HitPulseEnded(h) => h < Holes(s)
  }

  /** The controller's reaction to one event. */
  function Step(s: State, e: Event): (r: State)
    requires WellFormed(s)
    ensures WellFormed(r) && Holes(r) == Holes(s)
  {
    if !Enabled(s, e) then s
    else
      match e
      case StartClicked(pick) => Start(s, pick)
      case ResetClicked => var t := Reset(s); assert WellFormed(t); t
      case PlayAgainClicked(pick) => PlayAgain(s, pick)
      case CountdownFired => Countdown(s)
      case MoleTimerFired(pick) => MoleTimeout(s, pick)
      case HoleClicked(h) => Hit(s, h)
      case HitPulseEnded(h) => HitPulseEnd(s, h)
  }

  /** The state after the events of evs, in order. */
  function Run(s: State, evs: seq<Event>): (r: State)
    requires WellFormed(s)
    ensures WellFormed(r) && Holes(r) == Holes(s)
    decreases |evs|
  {
    if evs == [] then s else Run(Step(s, evs[0]), evs[1..])
  }

  /** No button is pressed during evs: the events of a single session. */
  predicate InSession(evs: seq<Event>) {
    forall i :: 0 <= i < |evs| ==> !IsControl(evs[i])
  }

  /** The events after the first of a session are still a session. */
  lemma InSessionTail(evs: seq<Event>)
    requires InSession(evs) && evs != []
    ensures !IsControl(evs[0]) && InSession(evs[1..])
  {
    forall i | 0 <= i < |evs[1..]| ensures !IsControl(evs[1..][i]) {
      assert evs[1..][i] == evs[i + 1];
    }
  }

  /** How many times the countdown interval is offered a firing in evs. */
  function Countdowns(evs: seq<Event>): nat {
    if evs == [] then 0 else (if evs[0].CountdownFired? then 1 else 0) + Countdowns(evs[1..])
  }

  /** How many times the mole timeout is offered a firing in evs. */
  function MoleTimeouts(evs: seq<Event>): nat {
    if evs == [] then 0 else (if evs[0].MoleTimerFired? then 1 else 0) + MoleTimeouts(evs[1..])
  }

  /** How many hole clicks evs holds. */
  function HoleClicks(evs: seq<Event>): nat {
    if evs == [] then 0 else (if evs[0].HoleClicked? then 1 else 0) + HoleClicks(evs[1..])
  }

  /** 1 when a mole is up to be hit, else 0. */
  function MoleUpCount(s: State): nat {
    if MoleUp(s) then 1 else 0
  }

  // ---------------------------------------------------------------------------
  // One step

  /** Every event keeps the invariant. */
  lemma StepPreservesInv(s: State, e: Event)
    requires Inv(s)
    ensures Inv(Step(s, e))
  {
    if Enabled(s, e) {
      match e
      case StartClicked(pick) => StartResetsSession(s, pick);
      case ResetClicked => ResetIsInitial(s);
      case PlayAgainClicked(pick) => PlayAgainIsFreshStart(s, pick);
      case CountdownFired => CountdownStep(s);
      case MoleTimerFired(pick) => MoleTimeoutKeepsOneMole(s, pick);
      case HoleClicked(h) => HitScoresIff(s, h);
      case HitPulseEnded(h) => HitPulseEndKeepsInv(s, h);
    }
  }

  /** What one in-session event does to the clock and to the game's being on. */
  lemma StepClock(s: State, e: Event)
    requires Inv(s) && !IsControl(e)
    ensures Step(s, e).active == (s.active && (e.CountdownFired? ==> s.timeLeft > 1))
    ensures Step(s, e).timeLeft == if s.active && e.CountdownFired? then s.timeLeft - 1 else s.timeLeft
  {
    if e.CountdownFired? && s.active {
      CountdownStep(s);
    }
  }

  /** What one in-session event does to the score: a hole click adds at most one
      point, and only by taking down a mole that was up; only the mole timeout
      puts a mole up. */
  lemma StepScore(s: State, e: Event)
    requires Inv(s) && !IsControl(e)
    ensures s.score <= Step(s, e).score <= s.score + (if e.HoleClicked? then 1 else 0)
    ensures Step(s, e).score + MoleUpCount(Step(s, e))
              <= s.score + MoleUpCount(s) + (if e.MoleTimerFired? then 1 else 0)
  {
    if Enabled(s, e) && e.HoleClicked? {
      HitScoresIff(s, e.hole);
    }
  }

  /** Outside a game an in-session event changes nothing but hit classes. */
  lemma StepWhileOff(s: State, e: Event)
    requires Inv(s) && !s.active && !IsControl(e)
    ensures Step(s, e).(hitMarks := s.hitMarks) == s
  {
  }

  /** Every event keeps the clock at rest outside a game: the only way out of a
      game is the countdown reaching zero, and a reset fills the clock. */
  lemma StepKeepsClockAtRest(s: State, e: Event)
    requires Inv(s) && ClockAtRest(s)
    ensures ClockAtRest(Step(s, e))
  {
    if Enabled(s, e) && e.CountdownFired? {
      CountdownStep(s);
    }
  }

  // ---------------------------------------------------------------------------
  // Whole runs

  /** Every sequence of events, buttons included, keeps the invariant. */
  lemma {:induction false} RunPreservesInv(s: State, evs: seq<Event>)
    requires Inv(s)
    ensures Inv(Run(s, evs))
    decreases |evs|
  {
    if evs != [] {
      StepPreservesInv(s, evs[0]);
      RunPreservesInv(Step(s, evs[0]), evs[1..]);
    }
  }

  /** Every sequence of events keeps the clock at rest outside a game. */
  lemma {:induction false} RunKeepsClockAtRest(s: State, evs: seq<Event>)
    requires Inv(s) && ClockAtRest(s)
    ensures ClockAtRest(Run(s, evs))
    decreases |evs|
  {
    if evs != [] {
      StepKeepsClockAtRest(s, evs[0]);
      StepPreservesInv(s, evs[0]);
      RunKeepsClockAtRest(Step(s, evs[0]), evs[1..]);
    }
  }

  /** In every state reachable from the constructor, the low-time warning shows
      only during a game. */
  lemma WarningOnlyDuringGame(n: nat, evs: seq<Event>)
    ensures LowTimeWarning(Run(Initial(n), evs).timeLeft) ==> Run(Initial(n), evs).active
  {
    RunKeepsClockAtRest(Initial(n), evs);
  }

  /** The invariant's consequence for every reachable state: at most one hole
      shows a mole, and a hole that shows one is the current mole. */
  lemma {:induction false} AtMostOneMole(n: nat, evs: seq<Event>)
    ensures |MarkedHoles(Run(Initial(n), evs))| <= 1
    ensures forall i :: 0 <= i < n && Run(Initial(n), evs).moleMarks[i] ==>
              Run(Initial(n), evs).currentMole == Some(i)
  {
    RunPreservesInv(Initial(n), evs);
    MarkedHolesOfInv(Run(Initial(n), evs));
  }

  /** The clock over one session: each countdown firing while the game runs takes
      one second off, the game stays on while fewer firings than seconds left have
      come, and once it is off the clock does not move. */
  lemma {:induction false} RunClock(s: State, evs: seq<Event>)
    requires Inv(s) && InSession(evs)
    ensures Run(s, evs).active <==> s.active && Countdowns(evs) < s.timeLeft
    ensures Run(s, evs).timeLeft ==
              if !s.active then s.timeLeft
              else if Countdowns(evs) < s.timeLeft then s.timeLeft - Countdowns(evs)
              else 0
    decreases |evs|
  {
    if evs != [] {
      InSessionTail(evs);
      StepClock(s, evs[0]);
      StepPreservesInv(s, evs[0]);
      RunClock(Step(s, evs[0]), evs[1..]);
    }
  }

  /** The score over one session never falls, rises by at most one per hole
      click, and rises by at most one per mole put up: no mole scores twice. */
  lemma {:induction false} RunScore(s: State, evs: seq<Event>)
    requires Inv(s) && InSession(evs)
    ensures s.score <= Run(s, evs).score <= s.score + HoleClicks(evs)
    ensures Run(s, evs).score + MoleUpCount(Run(s, evs)) <= s.score + MoleUpCount(s) + MoleTimeouts(evs)
    decreases |evs|
  {
    if evs != [] {
      InSessionTail(evs);
      StepScore(s, evs[0]);
      StepPreservesInv(s, evs[0]);
      RunScore(Step(s, evs[0]), evs[1..]);
    }
  }

  /** Once no game runs, no in-session event changes score, clock, timers, moles or
      the current mole: only hit pulses may still end. */
  lemma {:induction false} RunWhileOff(s: State, evs: seq<Event>)
    requires Inv(s) && !s.active && InSession(evs)
    ensures Run(s, evs).(hitMarks := s.hitMarks) == s
    decreases |evs|
  {
    if evs != [] {
      InSessionTail(evs);
      var s1 := Step(s, evs[0]);
      StepWhileOff(s, evs[0]);
      StepPreservesInv(s, evs[0]);
      RunWhileOff(s1, evs[1..]);
      var r := Run(s1, evs[1..]);
      assert r.(hitMarks := s1.hitMarks) == s1;
      assert r.(hitMarks := s.hitMarks) == s1.(hitMarks := s.hitMarks);
    }
  }

  /** A game from its start: it runs while fewer than 30 countdown firings have
      come; the 30th ends it with the clock at 0, after which neither timer is
      pending; the low-time warning shows exactly from the 20th firing on while
      the game still runs. */
  lemma FreshGameClock(s: State, pick: nat, evs: seq<Event>)
    requires Inv(s) && !s.active && pick < Holes(s) && InSession(evs)
    ensures Run(Start(s, pick), evs).active <==> Countdowns(evs) < GAME_LENGTH
    ensures Run(Start(s, pick), evs).timeLeft ==
              if Countdowns(evs) < GAME_LENGTH then GAME_LENGTH - Countdowns(evs) else 0
    ensures Countdowns(evs) >= GAME_LENGTH ==>
              !Enabled(Run(Start(s, pick), evs), CountdownFired) &&
              !Run(Start(s, pick), evs).moleTimerArmed
    ensures LowTimeWarning(Run(Start(s, pick), evs).timeLeft) <==> 20 <= Countdowns(evs) < GAME_LENGTH
  {
    StartResetsSession(s, pick);
    RunClock(Start(s, pick), evs);
    RunPreservesInv(Start(s, pick), evs);
  }

  /** Once a session has ended the game, no further in-session event changes the
      score or the moles. */
  lemma ScoreFrozenAfterEnd(s: State, evs: seq<Event>, later: seq<Event>)
    requires Inv(s) && InSession(evs) && InSession(later)
    requires !Run(s, evs).active
    ensures Run(Run(s, evs), later).score == Run(s, evs).score
    ensures Run(Run(s, evs), later).moleMarks == Run(s, evs).moleMarks
  {
    RunPreservesInv(s, evs);
    RunWhileOff(Run(s, evs), later);
  }

  /** A reset during a game cancels everything pending: until a button is pressed
      again, score and clock stay at 0 and 30 and no hole shows a mole. */
  lemma ResetCancelsSession(s: State, evs: seq<Event>)
    requires WellFormed(s) && InSession(evs)
    ensures Run(Reset(s), evs).score == 0 && Run(Reset(s), evs).timeLeft == GAME_LENGTH
    ensures !Run(Reset(s), evs).active && MarkedHoles(Run(Reset(s), evs)) == {}
  {
    ResetIsInitial(s);
    RunWhileOff(Reset(s), evs);
    assert Run(Reset(s), evs).moleMarks == Reset(s).moleMarks;
  }

  /** k countdown firings and nothing else. */
  function CountdownsOnly(k: nat): (evs: seq<Event>)
    ensures InSession(evs) && Countdowns(evs) == k && HoleClicks(evs) == 0
  {
    if k == 0 then [] else
      var rest := CountdownsOnly(k - 1);
      assert ([CountdownFired] + rest)[1..] == rest;
      [CountdownFired] + rest
  }

  /** A start followed by 30 countdown firings and no clicks: the game is over with
      the clock at 0, no point and the lowest grade. */
  lemma ThirtyIdleSecondsEndGame(n: nat, pick: nat)
    requires pick < n
    ensures !Run(Start(Initial(n), pick), CountdownsOnly(30)).active
    ensures Run(Start(Initial(n), pick), CountdownsOnly(30)).timeLeft == 0
    ensures Run(Start(Initial(n), pick), CountdownsOnly(30)).score == 0
    ensures GradeOf(Run(Start(Initial(n), pick), CountdownsOnly(30)).score) == Poor
  {
    var evs := CountdownsOnly(30);
    FreshGameClock(Initial(n), pick, evs);
    StartResetsSession(Initial(n), pick);
    RunScore(Start(Initial(n), pick), evs);
    GradeBands(0);
  }

  /** A start, the picked hole clicked: one point, and the mole is gone. */
  lemma HitAfterStart(n: nat, k: nat)
    requires k < n
    ensures Run(Start(Initial(n), k), [HoleClicked(k)]).score == 1
    ensures Run(Start(Initial(n), k), [HoleClicked(k)]).currentMole == None
    ensures MarkedHoles(Run(Start(Initial(n), k), [HoleClicked(k)])) == {}
  {
    var s := Start(Initial(n), k);
    StartResetsSession(Initial(n), k);
    HitScoresIff(s, k);
    assert Run(s, [HoleClicked(k)]) == Run(Hit(s, k), []);
    MarkedHolesOfInv(Hit(s, k));
  }

  /** A start at hole j, then a click on another hole: no point. */
  lemma MissAfterStart(n: nat, j: nat, k: nat)
    requires j < n && k < n && j != k
    ensures Run(Start(Initial(n), j), [HoleClicked(k)]) == Start(Initial(n), j)
  {
    var s := Start(Initial(n), j);
    StartResetsSession(Initial(n), j);
    HitScoresIff(s, k);
    assert Run(s, [HoleClicked(k)]) == Run(Hit(s, k), []);
  }
}
