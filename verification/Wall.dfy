/**
 Wall clocks in a zone with one transition: a reading that is skipped, repeated, or neither, and the
 instant it resolves to.  Instants and readings are whole seconds; a reading is the local calendar
 date and clock counted in seconds, which the date library carries.
 */
module Wall {

  /** The offset changes once, from `before` to `after`, at the instant `at`. */
  datatype Zone = Zone(at: int, before: int, after: int)

  const HOUR: int := 3600

  function Offset(z: Zone, t: int): (o: int) {
    if t < z.at then z.before else z.after
  }

  /** What a clock in the zone shows at an instant. */
  function Reading(z: Zone, t: int): (w: int) {
    t + Offset(z, t)
  }

  /** What the date constructor promises: the reading taken in one of the two offsets, and a true
      instant of it whenever there is one.  It does not say which. */
  ghost predicate Dated(z: Zone, w: int, t: int) {
    && (t == w - z.before || t == w - z.after)
    && ((exists u :: Reading(z, u) == w) ==> Reading(z, t) == w)
  }

  /** skippedForward: two guesses at the instant, one per offset, and the larger of them. */
  function SkippedForward(z: Zone, want: int): (t: int) {
    var first := want - Offset(z, want);
    var second := want - Offset(z, first);
    if second > first then second else first
  }

  /** resolveWall, from whatever instant the constructor gave. */
  function ResolveWall(z: Zone, want: int, t: int): (r: int) {
    if Reading(z, t) != want then SkippedForward(z, want)
    else if Reading(z, t - HOUR) == Reading(z, t) then t - HOUR
    else t
  }

  /** The clock jumps over the reading. */
  predicate Skipped(z: Zone, w: int) {
    z.at + z.before <= w < z.at + z.after
  }

  /** The clock shows the reading twice. */
  predicate Repeated(z: Zone, w: int) {
    z.at + z.after <= w < z.at + z.before
  }

  /** A reading has no instant, two, or one, as the names say. */
  lemma Instants(z: Zone, w: int)
    ensures Skipped(z, w) <==> forall u :: Reading(z, u) != w
    ensures Repeated(z, w) <==> Reading(z, w - z.before) == w && Reading(z, w - z.after) == w && z.before != z.after
    ensures forall u :: Reading(z, u) == w ==> u == w - z.before || u == w - z.after
  {
    assert !Skipped(z, w) ==> Reading(z, w - z.before) == w || Reading(z, w - z.after) == w;
  }

  /** A forward jump of any size: a skipped reading resolves to the instant that shows it carried
      forward by the gap, any other to its one instant, whichever the constructor picked. */
  lemma ForwardJump(z: Zone, w: int, t: int)
    requires z.before <= z.after && Dated(z, w, t)
    ensures Skipped(z, w) ==>
      ResolveWall(z, w, t) == w - z.before && Reading(z, ResolveWall(z, w, t)) == w + (z.after - z.before)
    ensures !Skipped(z, w) ==>
      && Reading(z, ResolveWall(z, w, t)) == w
      && forall u :: Reading(z, u) == w ==> u == ResolveWall(z, w, t)
  {
    Instants(z, w);
  }

  /** A backward jump of one hour: a repeated reading resolves to its first occurrence, any other to
      its one instant. */
  lemma BackwardHour(z: Zone, w: int, t: int)
    requires z.before == z.after + HOUR && Dated(z, w, t)
    ensures Reading(z, ResolveWall(z, w, t)) == w
    ensures forall u :: Reading(z, u) == w ==> ResolveWall(z, w, t) <= u
    ensures !Repeated(z, w) ==> forall u :: Reading(z, u) == w ==> u == ResolveWall(z, w, t)
  {
    Instants(z, w);
    assert Reading(z, w - z.before) == w || Reading(z, w - z.after) == w;
  }

  /** For a backward jump of any other size the answer is the constructor's, so it is the first
      occurrence for both of its choices exactly when the jump is one hour. */
  lemma BackwardExact(z: Zone, w: int)
    requires Repeated(z, w)
    ensures (forall t :: Dated(z, w, t) ==> ResolveWall(z, w, t) == w - z.before) <==> z.before == z.after + HOUR
  {
    Instants(z, w);
    assert Dated(z, w, w - z.after) && Dated(z, w, w - z.before);
    if z.before == z.after + HOUR {
      forall t | Dated(z, w, t)
        ensures ResolveWall(z, w, t) == w - z.before
      {
        BackwardHour(z, w, t);
      }
    } else {
      assert ResolveWall(z, w, w - z.after) != w - z.before;
    }
  }
}
