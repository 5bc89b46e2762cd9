/** The entities the reservation service works on, the DTO it exchanges with
    its callers, and the two projections between them
    (Services/ReservationService.cs, DTOToReservationAsync and ReservationToDTO).

    Entities are stored arena-style: a reservation refers to its item by the
    item's id and to its owner by the owner's username. */
module Entities {
  import opened Wrappers

  /** A stored reservation. Timestamps are integers, compared only with < and >=. */
  datatype Reservation = Reservation(Id: int, Target: int, Owner: string, StartTime: int, EndTime: int)

  /** A user record as the user repository returns it. */
  datatype User = User(UserName: string)

  /** The wire form: the item is given by its id, the owner by its username. */
  datatype ReservationDto = ReservationDto(Id: int, Target: int, Owner: string, StartTime: int, EndTime: int)

  /** Why the service refused a request (the original returns null for all of them). */
  datatype Error = InvalidInterval | TargetNotFound | SchedulingConflict | OwnerNotFound | NotFound

  /** The user repository's lookup by username returns the user with that username. */
  ghost predicate UsersKeyedByName(users: map<string, User>)
  {
    forall u :: u in users ==> users[u].UserName == u
  }

  /** ReservationToDTO: the item becomes its id, the owner its username. */
  function ReservationToDto(r: Reservation): (d: ReservationDto)
    ensures d.Id == r.Id && d.Target == r.Target && d.Owner == r.Owner
    ensures d.StartTime == r.StartTime && d.EndTime == r.EndTime
  {
    ReservationDto(r.Id, r.Target, r.Owner, r.StartTime, r.EndTime)
  }

  /** DTOToReservationAsync: resolves the owner and the item; `None` where the
      original returns null because one of the two lookups failed. */
  function DtoToReservation(dto: ReservationDto, users: map<string, User>, items: set<int>): (r: Option<Reservation>)
    ensures r.Some? <==> dto.Owner in users && dto.Target in items
  {
    if dto.Owner !in users then None
    else if dto.Target !in items then None
    else
      var owner := users[dto.Owner];
      Some(Reservation(dto.Id, dto.Target, owner.UserName, dto.StartTime, dto.EndTime))
  }

  /** Resolving a DTO whose owner and item exist, then projecting it back,
      gives the DTO unchanged. */
  lemma DtoRoundTrip(dto: ReservationDto, users: map<string, User>, items: set<int>)
    requires UsersKeyedByName(users)
    requires dto.Owner in users && dto.Target in items
    ensures DtoToReservation(dto, users, items).Some?
    ensures ReservationToDto(DtoToReservation(dto, users, items).value) == dto
  {
  }

  /** Projecting a reservation whose owner and item exist, then resolving the
      DTO, gives the reservation back. */
  lemma EntityRoundTrip(r: Reservation, users: map<string, User>, items: set<int>)
    requires UsersKeyedByName(users)
    requires r.Owner in users && r.Target in items
    ensures DtoToReservation(ReservationToDto(r), users, items) == Some(r)
  {
  }
}
