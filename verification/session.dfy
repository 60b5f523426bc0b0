/** The session state machine of the `Game` component (src/App.jsx:122-314),
    stated on snapshots of its state: `menu -> game -> result -> menu`. Each
    stimulus (a command, a clock tick, a timer firing) is a function from the
    snapshot before to the snapshot after. */
module Session {
  import opened Wrappers
  import opened Applicants
  import opened Population
  import opened Moods
  import opened Rules

  datatype Phase = Menu | InGame | Result

  /** Everything the component holds. The two timer flags say whether the
      feedback-clearing timeout and the results-unlock timeout are pending. */
  datatype View = View(
    phase: Phase,
    mode: Mode,
    citizens: seq<Citizen>,
    score: int,
    resources: int,
    timeLeft: int,
    currentApplicant: Option<Applicant>,
    feedback: Feedback,
    animState: Mood,
    isResultInteractive: bool,
    gameOverReason: Option<Reason>,
    feedbackTimerArmed: bool,
    unlockTimerArmed: bool,
    processedCount: nat,
    spiesIn: nat,
    localsDisplaced: nat)

  const InitialScore: int := 100
  const InitialResources: int := 100
  const InitialTime: int := 30
  /** The placeholder population before the first session (src/App.jsx:125). */
  const MenuPopulation: nat := 10

  function Meters(v: View): Tally {
    Tally(v.score, v.resources, v.spiesIn)
  }

  /** The mood shown while playing (src/App.jsx:141-147, used at 509). */
  function CurrentMood(v: View): Mood {
    DynamicMood(v.animState, v.score, v.resources)
  }

  /** The invariant every reachable state keeps:
      - the population never exceeds its capacity, and the meters never exceed their start;
      - a game-over reason always matches the final meters;
      - a results screen has a reason or an expired clock;
      - during play both meters are positive, the clock has time left, the
        population is full, and every original local is either present or counted
        as displaced. */
  predicate Consistent(v: View) {
    |v.citizens| <= Capacity &&
    0 <= v.timeLeft <= InitialTime &&
    v.score <= InitialScore && v.resources <= InitialResources &&
    v.spiesIn <= v.processedCount && v.localsDisplaced <= v.processedCount &&
    (v.gameOverReason.Some? ==> v.gameOverReason == Verdict(Meters(v))) &&
    (v.phase == Result ==> v.gameOverReason.Some? || v.timeLeft == 0) &&
    (v.phase == InGame ==>
       v.gameOverReason.None? && v.score > 0 && v.resources > 0 && v.timeLeft > 0 &&
       |v.citizens| == Capacity && LocalCount(v.citizens) + v.localsDisplaced == Capacity)
  }

  /** The component's state when first mounted (src/App.jsx:123-138). */
  function Initial(): (v: View)
    ensures Consistent(v) && v.phase == Menu && v.citizens == Locals(MenuPopulation, InitId)
    ensures |v.citizens| == MenuPopulation && LocalCount(v.citizens) == MenuPopulation
  {
    LocalsAllLocal(MenuPopulation, InitId);
    View(Menu, SixYear, Locals(MenuPopulation, InitId), InitialScore, InitialResources, InitialTime,
         None, Cleared, Normal, false, None, false, false, 0, 0, 0)
  }

  lemma {:induction false} LocalsAllLocal(n: nat, id: CitizenId)
    ensures LocalCount(Locals(n, id)) == n
  {
    if n > 0 {
      assert Locals(n, id)[1..] == Locals(n - 1, id);
      LocalsAllLocal(n - 1, id);
    }
  }

  /** `startGame` (src/App.jsx:156-172): a fresh session in the chosen mode. It is
      always in play, with full meters, a full clock, twelve locals and zeroed
      counters, and it satisfies the invariant whatever state it starts from. */
  function Start(v: View, selected: Mode, d: Draw): (w: View)
    requires WellFormed(d)
    ensures Consistent(w) && w.phase == InGame && w.mode == selected
    ensures w.score == InitialScore && w.resources == InitialResources && w.timeLeft == InitialTime
    ensures |w.citizens| == Capacity && LocalCount(w.citizens) == Capacity
    ensures w.processedCount == 0 && w.spiesIn == 0 && w.localsDisplaced == 0
    ensures w.gameOverReason.None? && w.currentApplicant.Some? && w.currentApplicant.value.kind == KindOf(selected, d.kind)
  {
    LocalsAllLocal(Capacity, StartId);
    v.(mode := selected, phase := InGame, citizens := Locals(Capacity, StartId),
       score := InitialScore, resources := InitialResources, timeLeft := InitialTime,
       processedCount := 0, spiesIn := 0, localsDisplaced := 0, animState := Normal,
       feedback := Cleared, gameOverReason := None, isResultInteractive := false,
       feedbackTimerArmed := false, currentApplicant := Some(Generate(selected, d)))
  }

  /** `handleRestart` (src/App.jsx:149-154): back to the menu, dropping the banner,
      the reason and the pending feedback timer. */
  function Restart(v: View): (w: View)
    ensures Consistent(v) ==> Consistent(w)
    ensures w.phase == Menu && w.gameOverReason.None? && !w.feedbackTimerArmed
  {
    v.(phase := Menu, feedback := Cleared, gameOverReason := None, feedbackTimerArmed := false)
  }

  /** The result screen's slider (src/App.jsx:423-424), offered only once the
      results are interactive: it sets the phase to the menu and nothing else. */
  function ConfirmRestart(v: View): (w: View)
    requires v.phase == Result && v.isResultInteractive
    ensures Consistent(v) ==> Consistent(w)
    ensures w.phase == Menu && w.gameOverReason == v.gameOverReason
  {
    v.(phase := Menu)
  }

  /** The effect of src/App.jsx:310-313: at zero in play, go to the results
      without a reason and arm the unlock timer. */
  function Expire(v: View): (w: View)
    ensures v.timeLeft == 0 && v.phase == InGame ==>
      w.phase == Result && w.unlockTimerArmed && w.gameOverReason == v.gameOverReason
    ensures !(v.timeLeft == 0 && v.phase == InGame) ==> w == v
    ensures Meters(w) == Meters(v) && w.citizens == v.citizens && w.timeLeft == v.timeLeft
  {
    if v.timeLeft == 0 && v.phase == InGame then v.(phase := Result, unlockTimerArmed := true) else v
  }

  /** One second of the countdown (src/App.jsx:306-314): the interval decrements
      while in play with time left, and the effect then re-runs on the new value. */
  function Countdown(v: View): (w: View)
    ensures Consistent(v) ==> Consistent(w)
    ensures v.phase != InGame ==> w == v
    ensures v.phase == InGame && v.timeLeft > 0 ==>
      w.timeLeft == v.timeLeft - 1 && (w.phase == Result <==> w.timeLeft == 0) && w.gameOverReason == v.gameOverReason
    ensures Meters(w) == Meters(v) && w.citizens == v.citizens
  {
    Expire(if v.phase == InGame && v.timeLeft > 0 then v.(timeLeft := v.timeLeft - 1) else v)
  }

  /** `n` seconds of the countdown. */
  function Ticks(v: View, n: nat): View
    decreases n
  {
    if n == 0 then v else Ticks(Countdown(v), n - 1)
  }

  /** With no decision in between, a session in play reaches the results exactly
      when its clock runs out, with no reason and with its meters untouched. */
  lemma {:induction false} ClockRunsOut(v: View, k: nat)
    requires Consistent(v) && v.phase == InGame
    requires k <= v.timeLeft
    ensures var w := Ticks(v, k);
      Consistent(w) && w.timeLeft == v.timeLeft - k &&
      (w.phase == Result <==> k == v.timeLeft) && w.gameOverReason.None? && Meters(w) == Meters(v)
    decreases k
  {
    if k > 0 {
      var u := Countdown(v);
      if u.phase == InGame {
        ClockRunsOut(u, k - 1);
      } else {
        assert k == 1;
        assert Ticks(u, 0) == u;
      }
    }
  }

  /** The feedback timeout (src/App.jsx:298-301). It closes over the phase of the
      decision that armed it, which was always 'game', so it always calms the animation. */
  function ClearFeedback(v: View): (w: View)
    ensures Consistent(v) ==> Consistent(w)
    ensures v.feedbackTimerArmed ==> w.feedback == Cleared && w.animState == Normal && !w.feedbackTimerArmed
    ensures !v.feedbackTimerArmed ==> w == v
  {
    if v.feedbackTimerArmed then v.(feedback := Cleared, animState := Normal, feedbackTimerArmed := false) else v
  }

  /** The results-unlock timeout (src/App.jsx:287, 293, 312). */
  function UnlockResults(v: View): (w: View)
    ensures Consistent(v) ==> Consistent(w)
    ensures v.unlockTimerArmed ==> w.isResultInteractive && !w.unlockTimerArmed
    ensures !v.unlockTimerArmed ==> w == v
  {
    if v.unlockTimerArmed then v.(isResultInteractive := true, unlockTimerArmed := false) else v
  }

  /** The state once a decision on the current applicant `a` has been committed
      (src/App.jsx:230-278), before the terminal check. */
  function Resolved(v: View, a: Applicant, approve: bool): (c: View)
    ensures c.processedCount == v.processedCount + 1
    ensures c.phase == v.phase && c.mode == v.mode && c.timeLeft == v.timeLeft && c.gameOverReason == v.gameOverReason
    ensures Meters(c) == Settle(a.kind, approve, Meters(v))
    ensures !approve ==> c.citizens == v.citizens && c.localsDisplaced == v.localsDisplaced
    ensures v.localsDisplaced <= c.localsDisplaced <= v.localsDisplaced + 1
  {
    var adm := AdmitIf(v.citizens, Arrival(a), approve);
    var t := Settle(a.kind, approve, Meters(v));
    var r := React(a.kind, approve, LocalCount(Spilled(adm)) > 0);
    v.(citizens := adm.queue, localsDisplaced := v.localsDisplaced + LocalCount(Spilled(adm)),
       score := t.score, resources := t.resources, spiesIn := t.spiesIn,
       feedback := r.feedback, animState := r.anim, processedCount := v.processedCount + 1)
  }

  /** The terminal check and what follows it (src/App.jsx:280-303): end the session
      with the verdict's reason, or arm the feedback timer and draw the next applicant. */
  function Conclude(c: View, next: Draw): (w: View)
    requires WellFormed(next)
    ensures Verdict(Meters(c)).Some? ==>
      w.phase == Result && w.gameOverReason == Verdict(Meters(c)) && w.unlockTimerArmed && w.currentApplicant == c.currentApplicant
    ensures Verdict(Meters(c)).None? ==>
      w.phase == c.phase && w.gameOverReason == c.gameOverReason && w.feedbackTimerArmed &&
      w.currentApplicant == Some(Generate(c.mode, next))
    ensures Meters(w) == Meters(c) && w.citizens == c.citizens && w.processedCount == c.processedCount
  {
    var verdict := Verdict(Meters(c));
    if verdict.Some? then c.(gameOverReason := verdict, phase := Result, unlockTimerArmed := true)
    else c.(feedbackTimerArmed := true, currentApplicant := Some(Generate(c.mode, next)))
  }

  /** `handleDecision` (src/App.jsx:227-304): a no-op without a current applicant;
      otherwise resolve it and run the terminal check. */
  function Decide(v: View, approve: bool, next: Draw): (w: View)
    requires WellFormed(next)
    ensures v.currentApplicant.None? ==> w == v
    ensures v.currentApplicant.Some? ==>
      Meters(w) == Settle(v.currentApplicant.value.kind, approve, Meters(v)) && w.processedCount == v.processedCount + 1
  {
    if v.currentApplicant.None? then v
    else Conclude(Resolved(v, v.currentApplicant.value, approve), next)
  }

  /** What a decision always does: nothing without an applicant; otherwise it
      counts once, leaves the population alone on a rejection, never touches the
      mode, the clock or the result screen, and during play ends the session
      exactly when a meter has reached zero, with the verdict's reason. */
  lemma DecideEffects(v: View, approve: bool, next: Draw)
    requires WellFormed(next)
    ensures var w := Decide(v, approve, next);
      (v.currentApplicant.None? ==> w == v) &&
      (v.currentApplicant.Some? ==> w.processedCount == v.processedCount + 1) &&
      (!approve ==> w.citizens == v.citizens && w.localsDisplaced == v.localsDisplaced) &&
      w.mode == v.mode && w.timeLeft == v.timeLeft && w.isResultInteractive == v.isResultInteractive &&
      (v.currentApplicant.Some? && v.phase == InGame && v.gameOverReason.None? ==>
         w.gameOverReason == Verdict(Meters(w)) &&
         (w.phase == Result <==> w.score <= 0 || w.resources <= 0) &&
         (w.phase != Result ==> w.phase == InGame && w.currentApplicant == Some(Generate(v.mode, next))))
  {
  }

  /** Resolving a decision in play keeps the population full, balances displaced
      locals against those still present, and keeps the meters at or below their start. */
  lemma ResolvedBounds(v: View, a: Applicant, approve: bool)
    requires Consistent(v) && v.phase == InGame
    ensures var c := Resolved(v, a, approve);
      |c.citizens| == Capacity && LocalCount(c.citizens) + c.localsDisplaced == Capacity &&
      c.score <= InitialScore && c.resources <= InitialResources &&
      c.spiesIn <= c.processedCount && c.localsDisplaced <= c.processedCount &&
      c.timeLeft == v.timeLeft && c.phase == InGame && c.gameOverReason.None?
  {
    var adm := AdmitIf(v.citizens, Arrival(a), approve);
    if approve {
      AdmitConservesLocals(v.citizens, Arrival(a));
    }
    assert LocalCount(Spilled(adm)) <= 1;
  }

  /** A decision in play keeps the invariant. */
  lemma DecideKeepsConsistent(v: View, approve: bool, next: Draw)
    requires WellFormed(next)
    requires Consistent(v) && v.phase == InGame
    ensures Consistent(Decide(v, approve, next))
  {
    if v.currentApplicant.Some? {
      ResolvedBounds(v, v.currentApplicant.value, approve);
    }
  }

  /** The opening move of a six-year session that meets a spy and lets it in:
      security drops to 80, one spy is in, the full strip pushes out one local,
      and the displacement message wins over the spy message. */
  lemma SpyFirstApproval(v: View, d: Draw, next: Draw)
    requires WellFormed(d) && WellFormed(next)
    requires KindOf(SixYear, d.kind) == Spy
    ensures var w := Decide(Start(v, SixYear, d), true, next);
      w.phase == InGame && w.score == 80 && w.resources == InitialResources && w.spiesIn == 1 &&
      |w.citizens| == Capacity && w.localsDisplaced == 1 && w.feedback == Displaced && w.animState == Dead &&
      w.processedCount == 1
  {
    var s := Start(v, SixYear, d);
    assert s.citizens[0].kind == Local;
    var adm := Admit(s.citizens, Arrival(s.currentApplicant.value));
    assert Spilled(adm) == [s.citizens[0]];
  }
}
