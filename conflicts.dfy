/** The conflict rules the reservation service applies before it writes:
    which stored reservations a candidate interval meets, the invariant that
    reservations on one item never overlap, and why create and update keep it. */
module Conflicts {
  import opened Entities

  /** Half-open intervals [StartTime, EndTime) on the same item intersect;
      touching endpoints do not. */
  predicate Overlap(a: Reservation, b: Reservation)
  {
    a.Target == b.Target && a.StartTime < b.EndTime && b.StartTime < a.EndTime
  }

  /** The filter of the reservation repository's range query. */
  predicate Intersects(r: Reservation, target: int, startTime: int, endTime: int)
  {
    r.Target == target && r.StartTime < endTime && r.EndTime > startTime
  }

  /** ASSUMPTION on the repository's unseen GetReservationsAsync(target, start, end):
      it yields exactly the stored reservations on `target` whose interval meets
      [startTime, endTime). The result is the set of their keys. */
  function RangeQuery(rs: map<int, Reservation>, target: int, startTime: int, endTime: int): (ids: set<int>)
    ensures forall k :: k in ids ==> k in rs && rs[k].Target == target
  {
    set k | k in rs && Intersects(rs[k], target, startTime, endTime)
  }

  /** The central consistency invariant: no two distinct stored reservations on
      the same item have intersecting intervals. */
  ghost predicate NoOverlap(rs: map<int, Reservation>)
  {
    forall a, b :: a in rs && b in rs && a != b ==> !Overlap(rs[a], rs[b])
  }

  /** The range query on a candidate's own item and interval finds exactly the
      stored reservations that overlap the candidate. */
  lemma RangeQueryFindsOverlaps(rs: map<int, Reservation>, c: Reservation, k: int)
    ensures k in RangeQuery(rs, c.Target, c.StartTime, c.EndTime) <==> k in rs && Overlap(rs[k], c)
  {
  }

  /** Two reservations whose intervals only touch are both acceptable. */
  lemma TouchingIntervalsDoNotOverlap(a: Reservation, b: Reservation)
    requires a.EndTime == b.StartTime
    ensures !Overlap(a, b) && !Overlap(b, a)
  {
  }

  /** The update path's acceptance test as the code writes it (more than one
      overlapping reservation is refused; exactly one is refused unless it is
      the reservation being updated) accepts exactly the overlap sets that hold
      nothing but the reservation itself. */
  lemma UpdateConflictRule(overlapping: set<int>, id: int)
    ensures overlapping <= {id} <==> |overlapping| == 0 || (|overlapping| == 1 && id in overlapping)
  {
    if overlapping <= {id} {
      if id in overlapping {
        assert overlapping == {id};
      } else {
        assert overlapping == {};
      }
    }
    if |overlapping| == 1 && id in overlapping {
      assert |overlapping - {id}| == 0;
      assert overlapping - {id} == {};
    }
  }

  /** A one-element overlap set has an element (its `First()` in the original). */
  lemma OneOverlapHasElement(overlapping: set<int>)
    requires |overlapping| == 1
    ensures exists k :: k in overlapping
  {
    if forall k :: k !in overlapping {
      assert false;
    }
  }

  /** Inserting a reservation under a fresh key keeps the invariant when the
      range query for its item and interval came back empty. */
  lemma InsertKeepsNoOverlap(rs: map<int, Reservation>, id: int, r: Reservation)
    requires NoOverlap(rs)
    requires id !in rs
    requires RangeQuery(rs, r.Target, r.StartTime, r.EndTime) == {}
    ensures NoOverlap(rs[id := r])
  {
    var rs' := rs[id := r];
    forall a, b | a in rs' && b in rs' && a != b
      ensures !Overlap(rs'[a], rs'[b])
    {
      if a == id {
        RangeQueryFindsOverlaps(rs, r, b);
      } else if b == id {
        RangeQueryFindsOverlaps(rs, r, a);
      }
    }
  }

  /** Moving a stored reservation to a new interval on its own item keeps the
      invariant when the range query for that item and interval found nothing
      but the reservation itself. */
  lemma MoveKeepsNoOverlap(rs: map<int, Reservation>, id: int, startTime: int, endTime: int)
    requires NoOverlap(rs)
    requires id in rs
    requires RangeQuery(rs, rs[id].Target, startTime, endTime) <= {id}
    ensures NoOverlap(rs[id := rs[id].(StartTime := startTime, EndTime := endTime)])
  {
    var moved := rs[id].(StartTime := startTime, EndTime := endTime);
    var rs' := rs[id := moved];
    forall a, b | a in rs' && b in rs' && a != b
      ensures !Overlap(rs'[a], rs'[b])
    {
      if a == id {
        RangeQueryFindsOverlaps(rs, moved, b);
      } else if b == id {
        RangeQueryFindsOverlaps(rs, moved, a);
      }
    }
  }

  /** Under the invariant, asking to move a reservation to the interval it
      already has meets nothing but itself, so the update path accepts it. */
  lemma SelfUpdateAdmitted(rs: map<int, Reservation>, id: int)
    requires NoOverlap(rs)
    requires id in rs
    ensures RangeQuery(rs, rs[id].Target, rs[id].StartTime, rs[id].EndTime) <= {id}
  {
    forall k | k in RangeQuery(rs, rs[id].Target, rs[id].StartTime, rs[id].EndTime)
      ensures k == id
    {
      RangeQueryFindsOverlaps(rs, rs[id], k);
    }
  }
}
