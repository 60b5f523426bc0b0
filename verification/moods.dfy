/** The officer's mood shown during play (`getDynamicMood`, src/App.jsx:141-147). */
module Moods {

  /** The four moods; the same names serve for the transient `animState`. */
  datatype Mood = Normal | Panic | Angry | Dead

  /** How alarming a mood is, calm first. */
  function Severity(m: Mood): nat {
    match m
    case Normal => 0
    case Panic => 1
    case Angry => 2
    case Dead => 3
  }

  /** A transient animation wins; otherwise the meters decide, security first. */
  function DynamicMood(anim: Mood, score: int, resources: int): (m: Mood)
    ensures anim != Normal ==> m == anim
    ensures m == Dead <==> anim == Dead || (anim == Normal && score <= 20)
    ensures m == Angry <==> anim == Angry || (anim == Normal && score > 20 && resources <= 20)
    ensures m == Panic <==> anim == Panic ||
                            (anim == Normal && score > 20 && resources > 20 && (score <= 50 || resources <= 50))
    ensures m == Normal <==> anim == Normal && score > 50 && resources > 50
  {
    if anim != Normal then anim
    else if score <= 20 then Dead
    else if resources <= 20 then Angry
    else if score <= 50 || resources <= 50 then Panic
    else Normal
  }

  /** With no transient animation, lower meters never give a calmer mood. */
  lemma MoodMonotone(score: int, resources: int, score': int, resources': int)
    requires score' <= score && resources' <= resources
    ensures Severity(DynamicMood(Normal, score, resources)) <= Severity(DynamicMood(Normal, score', resources'))
  {
  }
}
