# Immigration-officer minigame engine, in Dafny

This project models the game engine of the immigration-officer minigame: the `Game`
component of `src/App.jsx` with its presentation stripped away. The player runs a
border desk in one of two modes: the six-year rule or the four-year challenge. Each
applicant is good, a spy, or resource-heavy, and the player approves or rejects them.
Two meters start at 100: national security (`score`) and welfare `resources`. A
population strip holds at most twelve residents. An approval that overflows the strip
pushes out its oldest resident, and pushing out an original local counts as a
displacement. A session ends on the first meter to reach zero, or when its
thirty-second clock runs out.

The model has these modules:

- `Applicants`: the applicant generator (`nextApplicant`). Each `Math.random()` call
  is a real draw in [0, 1) inside a `Draw` record, compared against the thresholds
  0.8/0.6 (six-year) and 0.7/0.4 (four-year). `Math.floor(draw * n)` indexes the face
  and text tables.
- `Population`: the bounded FIFO population strip. It is proved to keep exactly the
  newest twelve residents after any run of admissions, and to account for every
  original local.
- `Moods`: `getDynamicMood` and its precedence.
- `Rules`: the pure rules of one decision:
  - how the meters move;
  - which banner and animation follow;
  - the ordered terminal check.
- `Session`: the component's whole state as a `View` value, with one transition
  function per stimulus:
  - start;
  - restart;
  - the result-screen slider;
  - a clock tick;
  - a decision;
  - each of the two timeouts firing.

  `Consistent` is the invariant of reachable states. A start establishes it from any
  state; restart, the slider, the tick and both timeouts keep it; a decision keeps
  it when made in play (`DecideKeepsConsistent`), the only phase that offers one.
- `Engine`: the component as a class `Game` whose fields are its state variables.
  Each handler updates the fields one by one, as the source does. Each one is proved
  to land on the snapshot given by the matching `Session` transition, and to keep
  `Valid()` (the `Consistent` invariant of the snapshot).

The two timeouts are modelled as flags: a pending feedback-clear and a pending
results-unlock. The steps `FireFeedbackTimer` and `FireUnlockTimer` fire them.
`Tick` is one second of the countdown interval, together with the effect re-run that
follows it.

Points where the code behaves in ways worth noting:

- Approved good applicants join the population: the code pushes `type: 'good'`
  residents (src/App.jsx:240).
- After a good approval, the animation is not always calm. A good approval that
  pushes out a local keeps the `panic` animation, because lines 262-267 do not
  reassign `anim`.
- The result screen's slider does not run `handleRestart`. It only sets the phase to
  `menu` (src/App.jsx:424), so the reason and the banner survive until the next
  start. `handleRestart` is wired to the in-game button only (src/App.jsx:477).
- Not every timer is cancelled on supersession:
  - A terminal decision leaves an earlier decision's pending feedback timer running.
  - The results-unlock timer is never cancelled.
  - When the feedback timer fires, it always resets the animation to `normal`. It
    tests a `phase` it captured when it was scheduled, and that phase is always
    `'game'`.
- The banner has two empty states, which stay distinct: `null` (`Cleared`) after a
  start, a restart or a timeout, and `''` (`Blank`) after a decision without a
  message.

## Model

| member | source | states |
|---|---|---|
| Applicants.KindOf | src/App.jsx:185-191 | spy iff the draw exceeds the mode's spy threshold (0.8 / 0.7); resource-heavy iff it lies in (heavy threshold, spy threshold] (0.6 / 0.4); good iff at or below the heavy threshold |
| Applicants.PoolIndex | src/App.jsx:183 | `Math.floor(draw * size)` on a draw in [0, 1) is a valid index below `size`, and it is the floor of the scaled draw |
| Applicants.Generate | src/App.jsx:174-225 | the kind is `KindOf` of the kind draw; flagged iff a six-year spy; clue obvious iff six-year spy and hidden iff four-year spy; goods read the good pool and spies the spy pool, each within its table; resource-heavy iff the single medical text, iff the sick face; faces are within the five innocent faces; the id is the time stamp |
| Applicants.KindMonotone | src/App.jsx:185-191 | the kinds form contiguous bands: a larger draw never gives a less dangerous kind |
| Applicants.FourYearNoSafer | src/App.jsx:185-191 | on the same draw the four-year mode gives the six-year kind or a more dangerous one |
| Applicants.FourYearSpiesUnflagged | src/App.jsx:200-221 | in the four-year mode a spy carries the same (absent) flag as a good applicant, and its description comes from a different pool |
| Population.Locals | src/App.jsx:159 | `Array(n).fill(local)` has length `n` and every entry is a local with the given placeholder id |
| Population.Arrival | src/App.jsx:240 | the admitted resident carries the applicant's kind and its id |
| Population.Admit | src/App.jsx:239-243 | the evicted resident (if any), followed by the new list, is the old list with the arrival pushed at the back; the arrival is last; an eviction happens iff the old list was at capacity, and it evicts the front; the length grows by one below capacity and stays twelve at capacity |
| Population.AdmitIsNewest | src/App.jsx:239-243 | one admission into a list within capacity keeps exactly the newest twelve of old list plus arrival |
| Population.AdmitAllKeepsNewest | src/App.jsx:238-250 | from a list within capacity, any sequence of admissions leaves exactly the newest twelve of the residents followed by the arrivals, so the length never exceeds twelve (FIFO window) |
| Population.AdmitConservesLocals | src/App.jsx:238-246 | locals are conserved by an admission: locals remaining plus locals evicted equals the old locals plus the arrival if it is a local |
| Moods.DynamicMood | src/App.jsx:141-147 | a non-normal animation wins; otherwise dead iff score <= 20, angry iff score > 20 and resources <= 20, panic iff both above 20 and one at or below 50, normal iff both above 50 |
| Moods.MoodMonotone | src/App.jsx:141-147 | with no animation, lower meters never give a calmer mood |
| Rules.Settle | src/App.jsx:237-272 | approving a spy costs exactly 20 security and adds one spy; approving a resource-heavy costs exactly 15 resources; approving a good costs 2 resources and adds 1 security only while it is below 90; rejecting a good costs 5 security; rejecting anything else changes nothing; no decision raises security above max(old, 90), raises resources or lowers the spy count |
| Rules.Verdict | src/App.jsx:280-295 | the session ends iff security or resources are at or below zero; infiltration iff security ended with a spy in; over-exclusion iff security ended with none; resource collapse iff security held and resources did not |
| Rules.React | src/App.jsx:230-267 | a rejection leaves a blank banner and a calm animation; the displacement banner takes priority over the spy and drain banners; a spy gives the dead animation, a resource-heavy the angry one, a good keeps panic exactly when a local was pushed out |
| Session.Initial | src/App.jsx:123-138 | the first-mount state is in the menu with ten placeholder locals and satisfies the invariant |
| Session.LocalsAllLocal | src/App.jsx:159 | a freshly seeded strip of `n` locals counts `n` locals |
| Session.Start | src/App.jsx:156-172 | from any state, a start gives a consistent session in play in the chosen mode: security and resources 100, clock 30, twelve locals, all three counters 0, no reason, and an applicant of the kind the draw gives |
| Session.Restart | src/App.jsx:149-154 | the in-game restart returns to the menu with no reason and no pending feedback timer, and keeps the invariant |
| Session.ConfirmRestart | src/App.jsx:423-424 | the result slider returns to the menu, keeps the reason, and keeps the invariant |
| Session.Expire | src/App.jsx:310-313 | at zero in play the results are entered with the unlock timer armed and the reason untouched; otherwise nothing changes; the meters, population and clock never change |
| Session.Countdown | src/App.jsx:306-314 | outside play nothing changes; in play with time left the clock drops by one and the results are entered exactly when it reaches zero, with no reason set; the meters and population never change; the invariant is kept |
| Session.ClockRunsOut | src/App.jsx:306-314 | from a consistent session in play, `k` ticks with no decision leave `timeLeft - k` seconds, reach the results exactly when `k` equals the time left, set no reason and leave the meters alone |
| Session.ClearFeedback | src/App.jsx:297-301 | a pending feedback timeout clears the banner and calms the animation; with none pending nothing changes; the invariant is kept |
| Session.UnlockResults | src/App.jsx:287-293 | a pending unlock timeout makes the results interactive; with none pending nothing changes; the invariant is kept |
| Session.Resolved | src/App.jsx:230-278 | the committed decision counts once, moves the meters exactly as `Settle` says, leaves phase, mode, clock and reason alone, leaves the population and displacement count alone on a rejection, and adds at most one displaced local |
| Session.Conclude | src/App.jsx:280-303 | when the verdict names a reason the results are entered with that reason and the unlock timer armed, keeping the applicant; otherwise the phase and reason stay, the feedback timer is armed and the next applicant is drawn in the session's mode; the meters, population and count are untouched |
| Session.Decide | src/App.jsx:227-304 | with no applicant nothing changes; otherwise the meters move as `Settle` says for the applicant's kind and the decision counts once (the rest is in `DecideEffects`) |
| Session.DecideEffects | src/App.jsx:227-304 | with no applicant a decision is a no-op; otherwise it counts exactly once, a rejection leaves the population and displacement count alone, and mode, clock and result-screen state never change; in play the session ends exactly when a meter is at or below zero, with the verdict's reason, and otherwise stays in play with the next applicant drawn in the same mode |
| Session.ResolvedBounds | src/App.jsx:238-278 | a decision in play keeps the strip full, keeps locals present plus locals displaced at twelve, keeps the meters at or below 100 and the counters within the processed count |
| Session.DecideKeepsConsistent | src/App.jsx:227-304 | a decision in play keeps the invariant |
| Session.SpyFirstApproval | src/App.jsx:156-304 | a fresh six-year session that approves a spy first is still in play with security 80, resources 100, one spy in, twelve residents, one local displaced, the displacement banner, the dead animation and one decision counted |
| Engine.Game.constructor | src/App.jsx:123-138 | the first-mount state, which is valid |
| Engine.Game.HandleRestart | src/App.jsx:149-154 | lands on `Restart` of the old state and stays valid |
| Engine.Game.SlideToMenu | src/App.jsx:423-424 | lands on `ConfirmRestart` of the old state and stays valid |
| Engine.Game.NextApplicant | src/App.jsx:174-225 | replaces the current applicant by `Generate` of the mode and draws, and changes nothing else |
| Engine.Game.ResetMeters | src/App.jsx:160-162 | resets security, resources and clock to 100, 100, 30 and changes nothing else |
| Engine.Game.ResetCounters | src/App.jsx:163-165 | zeroes the three counters and changes nothing else |
| Engine.Game.ResetPresentation | src/App.jsx:166-170 | calms the animation, clears the banner and the reason, locks the results and cancels the feedback timer, and changes nothing else |
| Engine.Game.StartGame | src/App.jsx:156-172 | lands on `Start` of the old state and stays valid |
| Engine.Game.Resolve | src/App.jsx:230-272 | the working values of a decision: the admitted list and displacement count, the `Settle` meters and the `React` banner and animation, with the displacement counted from the evicted resident |
| Engine.Game.CommitPopulation | src/App.jsx:238-250 | commits the new strip and displacement count and changes nothing else |
| Engine.Game.CommitTally | src/App.jsx:254-275 | commits security, resources and the spy count and changes nothing else |
| Engine.Game.CommitReaction | src/App.jsx:276-278 | commits banner and animation, counts the decision, and changes nothing else |
| Engine.Game.EndSession | src/App.jsx:282-293 | records the reason, enters the results and arms the unlock timer, and changes nothing else |
| Engine.Game.RunTerminalCheck | src/App.jsx:280-303 | lands on `Conclude`: the ordered terminal check, or the armed feedback timer and the next applicant |
| Engine.Game.HandleDecision | src/App.jsx:227-304 | lands on `Decide` of the old state (see `DecideEffects`) and stays valid |
| Engine.Game.Tick | src/App.jsx:306-314 | lands on `Countdown` of the old state and stays valid |
| Engine.Game.FireFeedbackTimer | src/App.jsx:297-301 | lands on `ClearFeedback` of the old state and stays valid |
| Engine.Game.FireUnlockTimer | src/App.jsx:287-293 | lands on `UnlockResults` of the old state and stays valid |

## Left out

- The presentational components are not modelled: the officer figure, the slide
  button, the classroom strip, and the intro, game and result screens
  (src/App.jsx:5-120, 316-569). They hold layout, styling and drag gestures but no
  engine logic.
- Display-only derivations are not modelled: the clamp of the shown score at zero
  (src/App.jsx:366), and the result screen's mood and text (src/App.jsx:347, 409-418).
- `Math.random()` and `Date.now()` are parameters. Every draw and the time stamp come
  in through a `Draw`; ids are opaque. The model states the exact draw bands
  (0.2 / 0.2 / 0.6 in six-year mode, 0.3 / 0.3 / 0.4 in four-year mode), not the
  probabilities that follow from a uniform draw.
- Applicants.Generate: the face draw of a resource-heavy applicant is made but
  unused, as in the code. Its value does not constrain the result.
- Applicants.KindOf: draws and thresholds are exact reals, not IEEE doubles. The
  double nearest 0.8 (and, for engines that return multiples of 2^-53, the one nearest
  0.4) lies slightly above the decimal, so a draw equal to that double is not above
  the source's literal but is above the model's exact threshold: it lands one band
  higher in the model than in the source.
- Real `setTimeout`/`setInterval` scheduling is not modelled. A pending timeout is a
  flag, and firing it is an explicit step, so the model allows any order of ticks,
  decisions and timeouts, not only those one real clock would produce.
- Engine.Game.Tick: the interval's decrement and the effect's expiry check, which
  re-runs on the new `timeLeft`, are folded into one step.
- React's batching and lazy updater semantics are not modelled. The `setCitizens`
  updater at src/App.jsx:238-250 sets `newFeedback`, `anim` and the displacement
  count. The model runs it synchronously, before the banner and animation are
  committed, which is what the surrounding code expects. A development-mode double
  invocation of the updater is not modelled.
- Engine.Game.HandleDecision: requires the phase to be `game`. Its only callers are
  the approve and reject buttons of the game screen (src/App.jsx:552, 559), which is
  rendered only in that phase (src/App.jsx:576).
- The Chinese message strings are opaque constants: the `Feedback`, `Reason` and
  `Description` values.
- vite.config.js is build configuration and is not part of this model.
