/** The resolution rules of one decision (`handleDecision`, src/App.jsx:227-295):
    how the meters move, which message and animation follow, and which
    terminal condition, if any, ends the session. */
module Rules {
  import opened Wrappers
  import opened Applicants
  import opened Moods

  /** The feedback banner: `null` (Cleared), the empty string (Blank) or one of
      the three messages, whose texts are opaque. */
  datatype Feedback = Cleared | Blank | Displaced | SpyAdmitted | ResourcesDrained

  /** The three game-over reasons: security collapse by infiltration, security
      collapse by over-exclusion, and welfare collapse. */
  datatype Reason = Infiltration | OverExclusion | ResourceCollapse

  /** The values `handleDecision` works on locally before committing them. */
  datatype Tally = Tally(score: int, resources: int, spiesIn: nat)

  /** The banner and the animation a decision leaves behind. */
  datatype Reaction = Reaction(feedback: Feedback, anim: Mood)

  /** The security score is only raised while it is below this. */
  const GoodCap: int := 90

  function Max(a: int, b: int): int { if a < b then b else a }

  /** The meters after one decision on an applicant of kind `kind` (src/App.jsx:237-272). */
  function Settle(kind: Kind, approve: bool, t: Tally): (u: Tally)
    ensures !approve ==> u.resources == t.resources && u.spiesIn == t.spiesIn
    ensures !approve && kind == Good ==> u.score == t.score - 5
    ensures !approve && kind != Good ==> u == t
    ensures approve && kind == Spy ==> u.score == t.score - 20 && u.spiesIn == t.spiesIn + 1 && u.resources == t.resources
    ensures approve && kind == ResourceHeavy ==> u.resources == t.resources - 15 && u.score == t.score && u.spiesIn == t.spiesIn
    ensures approve && kind == Good ==> u.resources == t.resources - 2 && u.spiesIn == t.spiesIn
    ensures approve && kind == Good ==> t.score <= u.score <= t.score + 1 && (u.score > t.score <==> t.score < GoodCap)
    ensures u.score <= Max(t.score, GoodCap) && u.resources <= t.resources && u.spiesIn >= t.spiesIn
  {
    if approve then
      match kind
      case Spy => t.(score := t.score - 20, spiesIn := t.spiesIn + 1)
      case ResourceHeavy => t.(resources := t.resources - 15)
      case Good => t.(score := if t.score < GoodCap then t.score + 1 else t.score, resources := t.resources - 2)
    else if kind == Good then t.(score := t.score - 5)
    else t
  }

  /** The ordered terminal check (src/App.jsx:280-295): security first, then welfare. */
  function Verdict(u: Tally): (r: Option<Reason>)
    ensures r.Some? <==> u.score <= 0 || u.resources <= 0
    ensures r == Some(Infiltration) <==> u.score <= 0 && u.spiesIn > 0
    ensures r == Some(OverExclusion) <==> u.score <= 0 && u.spiesIn <= 0
    ensures r == Some(ResourceCollapse) <==> u.score > 0 && u.resources <= 0
  {
    if u.score <= 0 then Some(if u.spiesIn > 0 then Infiltration else OverExclusion)
    else if u.resources <= 0 then Some(ResourceCollapse)
    else None
  }

  /** The banner and animation after a decision; `displacedLocal` says whether the
      admission pushed out an original local (src/App.jsx:230-267). */
  function React(kind: Kind, approve: bool, displacedLocal: bool): (r: Reaction)
    ensures !approve ==> r == Reaction(Blank, Normal)
    ensures approve && displacedLocal ==> r.feedback == Displaced
    ensures approve && !displacedLocal ==>
      r.feedback == (match kind case Spy => SpyAdmitted case ResourceHeavy => ResourcesDrained case Good => Blank)
    ensures approve && kind == Spy ==> r.anim == Dead
    ensures approve && kind == ResourceHeavy ==> r.anim == Angry
    ensures approve && kind == Good ==> (r.anim == Panic <==> displacedLocal) && r.anim in {Panic, Normal}
  {
    if !approve then Reaction(Blank, Normal)
    else
      var first := if displacedLocal then Reaction(Displaced, Panic) else Reaction(Blank, Normal);
      match kind
      case Spy => Reaction(if first.feedback == Blank then SpyAdmitted else first.feedback, Dead)
      case ResourceHeavy => Reaction(if first.feedback == Blank then ResourcesDrained else first.feedback, Angry)
      case Good => first
  }
}
