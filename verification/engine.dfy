/** The `Game` component's state and handlers (src/App.jsx:122-314) as a class
    whose fields are the component's state variables. Each handler updates the
    fields step by step as the source does, and is proved to land on the
    snapshot that the matching transition of the session state machine gives. */
module Engine {
  import opened Wrappers
  import opened Applicants
  import opened Population
  import opened Moods
  import opened Rules
  import opened Session

  class Game {
    var phase: Phase
    var mode: Mode
    var citizens: seq<Citizen>
    var score: int
    var resources: int
    var timeLeft: int
    var currentApplicant: Option<Applicant>
    var feedback: Feedback
    var animState: Mood
    var isResultInteractive: bool
    var gameOverReason: Option<Reason>
    /** Whether a feedback-clearing timeout is pending (`feedbackTimerRef`). */
    var feedbackTimerArmed: bool
    /** Whether a results-unlock timeout is pending. */
    var unlockTimerArmed: bool
    var processedCount: nat
    var spiesIn: nat
    var localsDisplaced: nat

    /** The component's whole state as a value. */
    function Snapshot(): View
      reads this
    {
      View(phase, mode, citizens, score, resources, timeLeft, currentApplicant, feedback, animState,
           isResultInteractive, gameOverReason, feedbackTimerArmed, unlockTimerArmed,
           processedCount, spiesIn, localsDisplaced)
    }

    ghost predicate Valid()
      reads this
    {
      Consistent(Snapshot())
    }

    /** The state on first mount (src/App.jsx:123-138). */
    constructor ()
      ensures Valid() && Snapshot() == Initial()
    {
      phase := Menu;
      mode := SixYear;
      citizens := Locals(MenuPopulation, InitId);
      score := InitialScore;
      resources := InitialResources;
      timeLeft := InitialTime;
      currentApplicant := None;
      feedback := Cleared;
      animState := Normal;
      isResultInteractive := false;
      gameOverReason := None;
      feedbackTimerArmed := false;
      unlockTimerArmed := false;
      processedCount := 0;
      spiesIn := 0;
      localsDisplaced := 0;
    }

    /** `handleRestart` (src/App.jsx:149-154). */
    method HandleRestart()
      requires Valid()
      modifies this
      ensures Valid() && Snapshot() == Restart(old(Snapshot()))
    {
      phase := Menu;
      feedback := Cleared;
      gameOverReason := None;
      feedbackTimerArmed := false;
    }

    /** The slider on the result screen (src/App.jsx:423-424). */
    method SlideToMenu()
      requires Valid() && phase == Result && isResultInteractive
      modifies this
      ensures Valid() && Snapshot() == ConfirmRestart(old(Snapshot()))
    {
      phase := Menu;
    }

    /** `nextApplicant` (src/App.jsx:174-225) with its random inputs given as `d`. */
    method NextApplicant(currentMode: Mode, d: Draw)
      requires WellFormed(d)
      modifies this
      ensures Snapshot() == old(Snapshot()).(currentApplicant := Some(Generate(currentMode, d)))
    {
      currentApplicant := Some(Generate(currentMode, d));
    }

    /** The meter resets of `startGame` (src/App.jsx:160-162). */
    method ResetMeters()
      modifies this
      ensures Snapshot() == old(Snapshot()).(score := InitialScore, resources := InitialResources, timeLeft := InitialTime)
    {
      score := InitialScore;
      resources := InitialResources;
      timeLeft := InitialTime;
    }

    /** The counter resets of `startGame` (src/App.jsx:163-165). */
    method ResetCounters()
      modifies this
      ensures Snapshot() == old(Snapshot()).(processedCount := 0, spiesIn := 0, localsDisplaced := 0)
    {
      processedCount := 0;
      spiesIn := 0;
      localsDisplaced := 0;
    }

    /** The presentation resets of `startGame` (src/App.jsx:166-170), including
        the cancellation of a pending feedback timer. */
    method ResetPresentation()
      modifies this
      ensures Snapshot() == old(Snapshot()).(animState := Normal, feedback := Cleared,
        gameOverReason := None, isResultInteractive := false, feedbackTimerArmed := false)
    {
      animState := Normal;
      feedback := Cleared;
      gameOverReason := None;
      isResultInteractive := false;
      feedbackTimerArmed := false;
    }

    /** `startGame` (src/App.jsx:156-172). */
    method StartGame(selected: Mode, d: Draw)
      requires Valid() && WellFormed(d)
      modifies this
      ensures Snapshot() == Start(old(Snapshot()), selected, d) && Valid()
    {
      mode := selected;
      phase := InGame;
      citizens := Locals(Capacity, StartId);
      ResetMeters();
      ResetCounters();
      ResetPresentation();
      NextApplicant(selected, d);
    }

    /** The working values of `handleDecision` (src/App.jsx:230-272), computed
        from the current applicant before anything is committed: the new
        population (the `setCitizens` updater), the displacement count, the
        meters, the banner and the animation. */
    static method Resolve(applicant: Applicant, approve: bool, citizens: seq<Citizen>, displaced: nat, t: Tally)
      returns (newArr: seq<Citizen>, newDisplaced: nat, u: Tally, newFeedback: Feedback, anim: Mood)
      ensures var adm := AdmitIf(citizens, Arrival(applicant), approve);
        newArr == adm.queue && newDisplaced == displaced + LocalCount(Spilled(adm)) &&
        u == Settle(applicant.kind, approve, t) &&
        Reaction(newFeedback, anim) == React(applicant.kind, approve, LocalCount(Spilled(adm)) > 0)
    {
      newFeedback := Blank;
      anim := Normal;
      var newScore, newResources, newSpiesIn := t.score, t.resources, t.spiesIn;
      newArr, newDisplaced := citizens, displaced;

      if approve {
        newArr := newArr + [Arrival(applicant)];
        if |newArr| > Capacity {
          var removed := newArr[0];
          newArr := newArr[1..];
          if removed.kind == Local {
            newDisplaced := newDisplaced + 1;
            newFeedback := Displaced;
            anim := Panic;
          }
        }

        if applicant.kind == Spy {
          newScore := newScore - 20;
          newSpiesIn := newSpiesIn + 1;
          if newFeedback == Blank { newFeedback := SpyAdmitted; }
          anim := Dead;
        } else if applicant.kind == ResourceHeavy {
          newResources := newResources - 15;
          if newFeedback == Blank { newFeedback := ResourcesDrained; }
          anim := Angry;
        } else {
          if newScore < GoodCap {
            newScore := newScore + 1;
          }
          newResources := newResources - 2;
        }
      } else {
        if applicant.kind == Good {
          newScore := newScore - 5;
        }
      }
      u := Tally(newScore, newResources, newSpiesIn);
    }

    /** The population side of `handleDecision`: the `setCitizens` updater and
        the displacement count it bumps (src/App.jsx:238-250). */
    method CommitPopulation(newArr: seq<Citizen>, newDisplaced: nat)
      modifies this
      ensures Snapshot() == old(Snapshot()).(citizens := newArr, localsDisplaced := newDisplaced)
    {
      citizens := newArr;
      localsDisplaced := newDisplaced;
    }

    /** The commit of the working meters and the spy count (src/App.jsx:254, 274-275). */
    method CommitTally(u: Tally)
      modifies this
      ensures Snapshot() == old(Snapshot()).(score := u.score, resources := u.resources, spiesIn := u.spiesIn)
    {
      spiesIn := u.spiesIn;
      score := u.score;
      resources := u.resources;
    }

    /** The commit of the reaction and the processed count (src/App.jsx:276-278). */
    method CommitReaction(newFeedback: Feedback, anim: Mood)
      modifies this
      ensures Snapshot() == old(Snapshot()).(feedback := newFeedback, animState := anim,
        processedCount := old(processedCount) + 1)
    {
      feedback := newFeedback;
      animState := anim;
      processedCount := processedCount + 1;
    }

    /** Entering the results with a reason (src/App.jsx:282-287, 291-293). */
    method EndSession(reason: Reason)
      modifies this
      ensures Snapshot() == old(Snapshot()).(gameOverReason := Some(reason), phase := Result, unlockTimerArmed := true)
    {
      gameOverReason := Some(reason);
      phase := Result;
      unlockTimerArmed := true;
    }

    /** The terminal check of `handleDecision` (src/App.jsx:280-303). */
    method RunTerminalCheck(next: Draw)
      requires WellFormed(next)
      modifies this
      ensures Snapshot() == Conclude(old(Snapshot()), next)
    {
      if score <= 0 {
        EndSession(if spiesIn > 0 then Infiltration else OverExclusion);
        return;
      }
      if resources <= 0 {
        EndSession(ResourceCollapse);
        return;
      }
      feedbackTimerArmed := true;
      NextApplicant(mode, next);
    }

    /** `handleDecision` (src/App.jsx:227-304); `next` holds the random inputs of
        the applicant drawn when the session goes on. */
    method HandleDecision(approve: bool, next: Draw)
      requires Valid() && phase == InGame && WellFormed(next)
      modifies this
      ensures Valid() && Snapshot() == Decide(old(Snapshot()), approve, next)
    {
      if currentApplicant.None? {
        return;
      }
      ghost var before := Snapshot();
      var applicant := currentApplicant.value;
      var newArr, newDisplaced, u, newFeedback, anim :=
        Resolve(applicant, approve, citizens, localsDisplaced, Tally(score, resources, spiesIn));
      CommitPopulation(newArr, newDisplaced);
      CommitTally(u);
      CommitReaction(newFeedback, anim);
      assert Snapshot() == Resolved(before, applicant, approve);
      RunTerminalCheck(next);
      DecideKeepsConsistent(before, approve, next);
    }

    /** One second of the countdown effect (src/App.jsx:306-314). */
    method Tick()
      requires Valid()
      modifies this
      ensures Valid() && Snapshot() == Countdown(old(Snapshot()))
    {
      if phase == InGame && timeLeft > 0 {
        timeLeft := timeLeft - 1;
      }
      if timeLeft == 0 && phase == InGame {
        phase := Result;
        unlockTimerArmed := true;
      }
    }

    /** The feedback timeout firing (src/App.jsx:298-301). */
    method FireFeedbackTimer()
      requires Valid()
      modifies this
      ensures Valid() && Snapshot() == ClearFeedback(old(Snapshot()))
    {
      if feedbackTimerArmed {
        feedback := Cleared;
        animState := Normal;
        feedbackTimerArmed := false;
      }
    }

    /** The results-unlock timeout firing (src/App.jsx:287, 293, 312). */
    method FireUnlockTimer()
      requires Valid()
      modifies this
      ensures Valid() && Snapshot() == UnlockResults(old(Snapshot()))
    {
      if unlockTimerArmed {
        isResultInteractive := true;
        unlockTimerArmed := false;
      }
    }
  }
}
