/** Services/ReservationService.cs: the reservation service over an in-memory
    stand-in for its three repositories. Each operation is one sequential step. */
module Services {
  import opened Wrappers
  import opened Entities
  import opened Conflicts
  import opened KeyOrder

  class ReservationService {
    /** The reservation repository's rows, by key. */
    var reservations: map<int, Reservation>
    /** The keys in the order the reservation repository enumerates them. */
    var order: seq<int>
    /** The ids of the items the item repository knows. */
    var items: set<int>
    /** The user repository, by username. */
    var users: map<string, User>
    /** The key the reservation repository issues to the next inserted row. */
    var nextId: int

    ghost predicate Valid()
      reads this
    {
      && (forall k :: k in reservations ==>
            reservations[k].Id == k && k < nextId && reservations[k].StartTime < reservations[k].EndTime)
      && (forall k :: k in reservations <==> k in order)
      && Increasing(order)
      && UsersKeyedByName(users)
      && NoOverlap(reservations)
    }

    /** A store with the given items and users and no reservations. */
    constructor (items: set<int>, users: map<string, User>)
      requires UsersKeyedByName(users)
      ensures Valid()
      ensures this.reservations == map[] && this.order == []
      ensures this.items == items && this.users == users && this.nextId == 1
    {
      this.reservations := map[];
      this.order := [];
      this.items := items;
      this.users := users;
      this.nextId := 1;
    }

    /** CreateReservationAsync. */
    method CreateReservation(dto: ReservationDto) returns (r: Result<ReservationDto, Error>)
      requires Valid()
      modifies this
      ensures Valid()
      ensures items == old(items) && users == old(users)
      ensures r == Failure(InvalidInterval) <==> dto.StartTime >= dto.EndTime
      ensures r == Failure(TargetNotFound) <==> dto.StartTime < dto.EndTime && dto.Target !in items
      ensures r == Failure(SchedulingConflict) <==>
                dto.StartTime < dto.EndTime && dto.Target in items
                && RangeQuery(old(reservations), dto.Target, dto.StartTime, dto.EndTime) != {}
      ensures r == Failure(OwnerNotFound) <==>
                dto.StartTime < dto.EndTime && dto.Target in items
                && RangeQuery(old(reservations), dto.Target, dto.StartTime, dto.EndTime) == {}
                && dto.Owner !in users
      ensures r.Success? <==>
                dto.StartTime < dto.EndTime && dto.Target in items
                && RangeQuery(old(reservations), dto.Target, dto.StartTime, dto.EndTime) == {}
                && dto.Owner in users
      ensures r.Failure? ==> reservations == old(reservations) && order == old(order) && nextId == old(nextId)
      ensures r.Success? ==>
                && old(nextId) !in old(reservations)
                && reservations == old(reservations)[old(nextId) :=
                     Reservation(old(nextId), dto.Target, dto.Owner, dto.StartTime, dto.EndTime)]
                && order == old(order) + [old(nextId)]
                && nextId == old(nextId) + 1
                && r.value == dto.(Id := old(nextId))
    {
      if dto.StartTime >= dto.EndTime {
        return Failure(InvalidInterval);
      }
      if dto.Target !in items {
        return Failure(TargetNotFound);
      }
      var overlapping := RangeQuery(reservations, dto.Target, dto.StartTime, dto.EndTime);
      if |overlapping| > 0 {
        return Failure(SchedulingConflict);
      }
      // The original passes the null that DTOToReservationAsync returns for an
      // unknown owner on to AddReservationAsync; here it is a failure.
      var resolved := DtoToReservation(dto, users, items);
      if resolved.None? {
        return Failure(OwnerNotFound);
      }
      // AddReservationAsync: the repository issues the key.
      var id := nextId;
      var added := resolved.value.(Id := id);
      InsertKeepsNoOverlap(reservations, id, added);
      forall i | 0 <= i < |order| ensures order[i] < id {
        assert order[i] in order;
      }
      reservations := reservations[id := added];
      order := order + [id];
      nextId := nextId + 1;
      DtoRoundTrip(dto, users, items);
      r := Success(ReservationToDto(added));
    }

    /** UpdateReservationAsync: only the interval of the stored reservation
        changes; its item and owner are those already stored. */
    method UpdateReservation(dto: ReservationDto) returns (r: Result<ReservationDto, Error>)
      requires Valid()
      modifies this
      ensures Valid()
      ensures items == old(items) && users == old(users) && order == old(order) && nextId == old(nextId)
      ensures r == Failure(NotFound) <==> dto.Id !in old(reservations)
      ensures r == Failure(InvalidInterval) <==> dto.Id in old(reservations) && dto.StartTime >= dto.EndTime
      ensures r == Failure(SchedulingConflict) <==>
                dto.Id in old(reservations) && dto.StartTime < dto.EndTime
                && !(RangeQuery(old(reservations), old(reservations)[dto.Id].Target, dto.StartTime, dto.EndTime) <= {dto.Id})
      ensures r.Success? <==>
                dto.Id in old(reservations) && dto.StartTime < dto.EndTime
                && RangeQuery(old(reservations), old(reservations)[dto.Id].Target, dto.StartTime, dto.EndTime) <= {dto.Id}
      ensures r.Failure? ==> reservations == old(reservations)
      ensures r.Success? ==>
                && dto.Id in old(reservations)
                && reservations == old(reservations)[dto.Id :=
                     old(reservations)[dto.Id].(StartTime := dto.StartTime, EndTime := dto.EndTime)]
                && r.value == ReservationToDto(reservations[dto.Id])
    {
      if dto.Id !in reservations {
        return Failure(NotFound);
      }
      var stored := reservations[dto.Id];
      if dto.StartTime >= dto.EndTime {
        return Failure(InvalidInterval);
      }
      // The range query runs on the stored item, not on the DTO's.
      var overlapping := RangeQuery(reservations, stored.Target, dto.StartTime, dto.EndTime);
      UpdateConflictRule(overlapping, dto.Id);
      if |overlapping| > 1 {
        return Failure(SchedulingConflict);
      }
      if |overlapping| == 1 {
        OneOverlapHasElement(overlapping);
        var first :| first in overlapping;
        if first != stored.Id {
          return Failure(SchedulingConflict);
        }
      }
      MoveKeepsNoOverlap(reservations, dto.Id, dto.StartTime, dto.EndTime);
      var updated := stored.(StartTime := dto.StartTime, EndTime := dto.EndTime);
      reservations := reservations[dto.Id := updated];
      r := Success(ReservationToDto(updated));
    }

    /** DeleteReservationAsync: false for an unknown key, otherwise exactly that
        reservation is removed. */
    method DeleteReservation(id: int) returns (deleted: bool)
      requires Valid()
      modifies this
      ensures Valid()
      ensures items == old(items) && users == old(users) && nextId == old(nextId)
      ensures deleted <==> id in old(reservations)
      ensures reservations == old(reservations) - {id}
      ensures order == Without(old(order), id)
    {
      if id !in reservations {
        return false;
      }
      WithoutKeepsIncreasing(order, id);
      reservations := reservations - {id};
      order := Without(order, id);
      deleted := true;
    }

    /** GetReservationAsync: the reservation with key `id`, projected; the
        original writes the unchanged entity back, which leaves the store as it was. */
    method GetReservation(id: int) returns (r: Option<ReservationDto>)
      requires Valid()
      modifies this
      ensures Valid()
      ensures reservations == old(reservations) && order == old(order)
      ensures items == old(items) && users == old(users) && nextId == old(nextId)
      ensures r.Some? <==> id in reservations
      ensures r.Some? ==> r.value == ReservationToDto(reservations[id])
    {
      if id !in reservations {
        return None;
      }
      var found := reservations[id];
      // UpdateReservationAsync(reservation) on the entity just read.
      reservations := reservations[id := found];
      r := Some(ReservationToDto(found));
    }

    /** GetReservationsAsync: one DTO per stored reservation, in the
        repository's enumeration order. */
    method GetReservations() returns (result: seq<ReservationDto>)
      requires Valid()
      ensures forall k :: k in reservations <==> exists j :: 0 <= j < |result| && result[j].Id == k
      ensures forall i, j :: 0 <= i < j < |result| ==> result[i].Id < result[j].Id
      ensures forall j :: 0 <= j < |result| ==>
                result[j].Id in reservations && result[j] == ReservationToDto(reservations[result[j].Id])
    {
      result := [];
      for i := 0 to |order|
        invariant |result| == i
        invariant forall j :: 0 <= j < i ==> result[j].Id == order[j]
        invariant forall j :: 0 <= j < i ==> result[j] == ReservationToDto(reservations[order[j]])
      {
        assert order[i] in order;
        result := result + [ReservationToDto(reservations[order[i]])];
      }
      forall k | k in reservations
        ensures exists j :: 0 <= j < |result| && result[j].Id == k
      {
        var j :| 0 <= j < |order| && order[j] == k;
        assert result[j].Id == k;
      }
    }
  }
}
