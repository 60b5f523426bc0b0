/** The population strip of the game: the `citizens` list of src/App.jsx:125,
    which holds at most twelve residents and loses its oldest resident when an
    admission pushes it past that (src/App.jsx:238-250). */
module Population {
  import opened Wrappers
  import Applicants

  const Capacity: nat := 12

  /** The `id` of a citizen: the placeholder ids 'init' and 'start' of the
      pre-filled lists, or the stamp of the applicant that was admitted. */
  datatype CitizenId = InitId | StartId | Stamp(t: nat)

  /** The `type` of a citizen: an original local or an admitted applicant kind. */
  datatype CitizenKind = Local | Newcomer(kind: Applicants.Kind)

  datatype Citizen = Citizen(kind: CitizenKind, id: CitizenId, visual: Option<Applicants.Visual>)

  /** The outcome of one admission: the new list and the resident pushed out, if any. */
  datatype Admission = Admission(queue: seq<Citizen>, evicted: Option<Citizen>)

  /** `Array(n).fill({ type: 'local', id })`. */
  function Locals(n: nat, id: CitizenId): (s: seq<Citizen>)
    ensures |s| == n
    ensures forall i :: 0 <= i < n ==> s[i] == Citizen(Local, id, None)
  {
    seq(n, _ => Citizen(Local, id, None))
  }

  /** The resident of an applicant who was let in (src/App.jsx:240). */
  function Arrival(a: Applicants.Applicant): (c: Citizen)
    ensures c.kind == Newcomer(a.kind) && c.id == Stamp(a.id)
  {
    Citizen(Newcomer(a.kind), Stamp(a.id), Some(a.visual))
  }

  /** The evicted resident as a list of zero or one elements. */
  function Spilled(a: Admission): seq<Citizen> {
    if a.evicted.Some? then [a.evicted.value] else []
  }

  /** Push `c` at the back; if the list is then longer than the capacity, shift
      the front resident out (src/App.jsx:239-243). */
  function Admit(q: seq<Citizen>, c: Citizen): (a: Admission)
    ensures Spilled(a) + a.queue == q + [c]
    ensures a.queue != [] && a.queue[|a.queue| - 1] == c
    ensures a.evicted.Some? <==> |q| >= Capacity
    ensures a.evicted.Some? ==> a.evicted.value == q[0]
    ensures |q| <= Capacity ==> |a.queue| == if |q| < Capacity then |q| + 1 else Capacity
  {
    var pushed := q + [c];
    if |pushed| > Capacity then Admission(pushed[1..], Some(pushed[0])) else Admission(pushed, None)
  }

  /** The list after a decision on the applicant whose resident would be `c`:
      an admission on approval, the untouched list on rejection. */
  function AdmitIf(q: seq<Citizen>, c: Citizen, approve: bool): Admission {
    if approve then Admit(q, c) else Admission(q, None)
  }

  /** The list after admitting each of `cs` in turn. */
  function AdmitAll(q: seq<Citizen>, cs: seq<Citizen>): seq<Citizen>
    decreases |cs|
  {
    if cs == [] then q else AdmitAll(Admit(q, cs[0]).queue, cs[1..])
  }

  /** The last `n` elements of `s`, or all of `s` when it is shorter. */
  function Newest(s: seq<Citizen>, n: nat): (r: seq<Citizen>)
    ensures |r| <= n && |r| <= |s|
  {
    if |s| <= n then s else s[|s| - n..]
  }

  /** The number of original locals in a list. */
  function LocalCount(s: seq<Citizen>): (k: nat)
    ensures k <= |s|
  {
    if s == [] then 0 else (if s[0].kind == Local then 1 else 0) + LocalCount(s[1..])
  }

  /** Dropping a prefix that leaves at least `n` elements does not change the newest `n`. */
  lemma NewestOfSuffix(y: seq<Citizen>, k: nat, n: nat)
    requires k <= |y| && |y| - k >= n
    ensures Newest(y[k..], n) == Newest(y, n)
  {
    assert y[k..][|y| - k - n..] == y[|y| - n..];
  }

  /** Taking the newest `n` is insensitive to an earlier truncation to `n`. */
  lemma NewestAppend(s: seq<Citizen>, t: seq<Citizen>, n: nat)
    ensures Newest(Newest(s, n) + t, n) == Newest(s + t, n)
  {
    if |s| > n {
      var m := |s| - n;
      assert Newest(s, n) + t == (s + t)[m..];
      NewestOfSuffix(s + t, m, n);
    }
  }

  /** One admission into a list within capacity keeps exactly the newest twelve. */
  lemma AdmitIsNewest(q: seq<Citizen>, c: Citizen)
    requires |q| <= Capacity
    ensures Admit(q, c).queue == Newest(q + [c], Capacity)
  {
  }

  /** FIFO window: starting within capacity, any sequence of admissions leaves
      exactly the newest twelve of the original residents followed by the arrivals. */
  lemma {:induction false} AdmitAllKeepsNewest(q: seq<Citizen>, cs: seq<Citizen>)
    requires |q| <= Capacity
    ensures AdmitAll(q, cs) == Newest(q + cs, Capacity)
    ensures |AdmitAll(q, cs)| <= Capacity
    decreases |cs|
  {
    if cs == [] {
      assert q + cs == q;
    } else {
      var c, rest := cs[0], cs[1..];
      var q' := Admit(q, c).queue;
      assert AdmitAll(q, cs) == AdmitAll(q', rest);
      AdmitIsNewest(q, c);
      AdmitAllKeepsNewest(q', rest);
      NewestAppend(q + [c], rest, Capacity);
      assert cs == [c] + rest;
      assert q + [c] + rest == q + cs;
    }
  }

  lemma {:induction false} LocalCountAppend(s: seq<Citizen>, t: seq<Citizen>)
    ensures LocalCount(s + t) == LocalCount(s) + LocalCount(t)
    decreases |s|
  {
    if s == [] {
      assert s + t == t;
    } else {
      LocalCountAppend(s[1..], t);
      assert (s + t)[1..] == s[1..] + t;
    }
  }

  /** Every local is either still in the list or was the one pushed out. */
  lemma AdmitConservesLocals(q: seq<Citizen>, c: Citizen)
    ensures LocalCount(Admit(q, c).queue) + LocalCount(Spilled(Admit(q, c)))
         == LocalCount(q) + (if c.kind == Local then 1 else 0)
  {
    var a := Admit(q, c);
    LocalCountAppend(Spilled(a), a.queue);
    LocalCountAppend(q, [c]);
  }
}
