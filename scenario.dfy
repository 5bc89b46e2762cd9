/** A client of the service, with times in minutes since midnight. Item 5 holds A = [10:00, 11:00);
    B = [10:30, 11:30) is refused, C = [11:00, 12:00) touches A and is
    accepted, A can then be moved to [09:00, 09:30), and C can be
    updated to the interval it already has. Everything asserted
    follows from the service's contracts alone. */
module Scenario {
  import opened Wrappers
  import opened Entities
  import opened Conflicts
  import opened Services

  method WorkedExample()
  {
    var alice := User("alice");
    var service := new ReservationService({5}, map["alice" := alice]);

    assert RangeQuery(service.reservations, 5, 600, 660) == {};
    var a := service.CreateReservation(ReservationDto(0, 5, "alice", 600, 660));
    assert a.Success?;
    assert a == Success(ReservationDto(1, 5, "alice", 600, 660));
    var stored := service.reservations;

    assert 1 in RangeQuery(stored, 5, 630, 690);
    var b := service.CreateReservation(ReservationDto(0, 5, "alice", 630, 690));
    assert b == Failure(SchedulingConflict);

    assert RangeQuery(stored, 5, 660, 720) == {};
    var c := service.CreateReservation(ReservationDto(0, 5, "alice", 660, 720));
    assert c.Success?;
    assert c == Success(ReservationDto(2, 5, "alice", 660, 720));

    assert service.reservations.Keys == {1, 2};
    assert RangeQuery(service.reservations, 5, 540, 570) == {};
    var moved := service.UpdateReservation(ReservationDto(1, 5, "alice", 540, 570));
    assert moved.Success?;
    assert moved == Success(ReservationDto(1, 5, "alice", 540, 570));

    // Moving C onto its own interval is accepted: it only meets itself.
    SelfUpdateAdmitted(service.reservations, 2);
    var same := service.UpdateReservation(ReservationDto(2, 5, "alice", 660, 720));
    assert same.Success?;

    var unknown := service.DeleteReservation(7);
    assert !unknown;
    var invalid := service.CreateReservation(ReservationDto(0, 5, "alice", 700, 700));
    assert invalid == Failure(InvalidInterval);
  }
}
