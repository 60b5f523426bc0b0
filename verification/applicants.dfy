/** The applicant generator of the game (`nextApplicant`, src/App.jsx:174-225).
    Every call to `Math.random()` becomes a field of a `Draw`, and the
    `Date.now()` id becomes an opaque stamp. */
module Applicants {

  /** The two session modes: the current six-year rule and the four-year challenge. */
  datatype Mode = SixYear | FourYear

  /** What an applicant really is. */
  datatype Kind = Good | Spy | ResourceHeavy

  /** The risk clue attached to an applicant. */
  datatype Clue = NoClue | Hidden | Obvious

  /** The face shown: one of the innocent faces, or the fixed sick face. */
  datatype Visual = Face(index: nat) | Sick

  /** The three description tables: the good pool, the spy pool whose texts are
      written to read like the good ones, and the single medical-needs text. */
  datatype Pool = GoodPool | SpyPool | MedicalPool

  /** A description is an entry of one pool; the strings themselves are opaque. */
  datatype Description = Description(pool: Pool, index: nat)

  datatype Applicant = Applicant(kind: Kind, visual: Visual, clue: Clue, isFlagged: bool,
                                 description: Description, id: nat)

  /** The random inputs of one call: the kind draw, the face draw, the text draw
      and the time stamp used as id. */
  datatype Draw = Draw(kind: real, face: real, text: real, stamp: nat)

  const FaceCount: nat := 5
  const GoodPoolSize: nat := 3
  const SpyPoolSize: nat := 3

  predicate IsUnitDraw(r: real) { 0.0 <= r < 1.0 }

  /** Every random draw lies in [0, 1), as `Math.random()` guarantees. */
  predicate WellFormed(d: Draw) {
    IsUnitDraw(d.kind) && IsUnitDraw(d.face) && IsUnitDraw(d.text)
  }

  /** Above this draw the applicant is a spy. */
  function SpyThreshold(mode: Mode): real {
    if mode == SixYear then 0.8 else 0.7
  }

  /** Above this draw (and up to the spy threshold) the applicant is resource-heavy. */
  function HeavyThreshold(mode: Mode): real {
    if mode == SixYear then 0.6 else 0.4
  }

  /** Order of the kinds along the draw axis: good draws lie lowest, spies highest. */
  function Rank(k: Kind): nat {
    match k
    case Good => 0
    case ResourceHeavy => 1
    case Spy => 2
  }

  /** The kind chosen by the threshold chain of src/App.jsx:185-191. */
  function KindOf(mode: Mode, r: real): (k: Kind)
    requires IsUnitDraw(r)
    ensures k == Spy <==> r > SpyThreshold(mode)
    ensures k == ResourceHeavy <==> HeavyThreshold(mode) < r <= SpyThreshold(mode)
    ensures k == Good <==> r <= HeavyThreshold(mode)
  {
    if mode == SixYear then
      (if r > 0.8 then Spy else if r > 0.6 then ResourceHeavy else Good)
    else
      (if r > 0.7 then Spy else if r > 0.4 then ResourceHeavy else Good)
  }

  /** A draw scaled by a table size stays below that size. */
  lemma {:induction false} ScaledDrawBelow(draw: real, size: nat)
    requires IsUnitDraw(draw)
    ensures 0.0 <= draw * size as real
    ensures size > 0 ==> draw * size as real < size as real
    decreases size
  {
    if size > 0 {
      ScaledDrawBelow(draw, size - 1);
      assert draw * size as real == draw * (size - 1) as real + draw;
    }
  }

  /** `Math.floor(draw * size)`: an index into a table of `size` entries. */
  function PoolIndex(draw: real, size: nat): (i: nat)
    requires IsUnitDraw(draw) && size > 0
    ensures i < size
    ensures i as real <= draw * size as real < i as real + 1.0
  {
    ScaledDrawBelow(draw, size);
    (draw * size as real).Floor
  }

  /** The applicant produced by one call of the generator (src/App.jsx:174-225). */
  function Generate(mode: Mode, d: Draw): (a: Applicant)
    requires WellFormed(d)
    ensures a.kind == KindOf(mode, d.kind)
    ensures a.isFlagged <==> a.kind == Spy && mode == SixYear
    ensures a.clue == Obvious <==> a.kind == Spy && mode == SixYear
    ensures a.clue == Hidden <==> a.kind == Spy && mode == FourYear
    ensures a.kind == Good ==> a.description.pool == GoodPool && a.description.index < GoodPoolSize
    ensures a.kind == Spy ==> a.description.pool == SpyPool && a.description.index < SpyPoolSize
    ensures a.kind == ResourceHeavy <==> a.description == Description(MedicalPool, 0)
    ensures a.kind == ResourceHeavy <==> a.visual == Sick
    ensures a.visual.Face? ==> a.visual.index < FaceCount
    ensures a.id == d.stamp
  {
    var kind := KindOf(mode, d.kind);
    var face := Face(PoolIndex(d.face, FaceCount));
    match kind
    case Spy =>
      if mode == SixYear then
        Applicant(Spy, face, Obvious, true, Description(SpyPool, PoolIndex(d.text, SpyPoolSize)), d.stamp)
      else
        Applicant(Spy, face, Hidden, false, Description(SpyPool, PoolIndex(d.text, SpyPoolSize)), d.stamp)
    case ResourceHeavy =>
      Applicant(ResourceHeavy, Sick, NoClue, false, Description(MedicalPool, 0), d.stamp)
    case Good =>
      Applicant(Good, face, NoClue, false, Description(GoodPool, PoolIndex(d.text, GoodPoolSize)), d.stamp)
  }

  /** The kinds occupy contiguous bands of the draw axis: a larger draw never
      yields a less dangerous kind. */
  lemma KindMonotone(mode: Mode, r1: real, r2: real)
    requires IsUnitDraw(r1) && IsUnitDraw(r2) && r1 <= r2
    ensures Rank(KindOf(mode, r1)) <= Rank(KindOf(mode, r2))
  {
  }

  /** The four-year mode is never safer on the same draw: whatever a draw yields
      in the six-year mode, the four-year mode yields that kind or a worse one. */
  lemma FourYearNoSafer(r: real)
    requires IsUnitDraw(r)
    ensures Rank(KindOf(SixYear, r)) <= Rank(KindOf(FourYear, r))
  {
  }

  /** Only a six-year spy is exposed: a four-year spy shows the same flag as a
      good applicant, and the two read from different description pools. */
  lemma FourYearSpiesUnflagged(dSpy: Draw, dGood: Draw)
    requires WellFormed(dSpy) && WellFormed(dGood)
    requires KindOf(FourYear, dSpy.kind) == Spy && KindOf(FourYear, dGood.kind) == Good
    ensures !Generate(FourYear, dSpy).isFlagged && !Generate(FourYear, dGood).isFlagged
    ensures Generate(FourYear, dSpy).description.pool != Generate(FourYear, dGood).description.pool
  {
  }
}
