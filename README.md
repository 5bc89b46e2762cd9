# Reservation service: a verified model

This project models the reservation service of a small reservation system
(`Services/ReservationService.cs`). The service decides whether a request to
create or update a reservation of an item is legal against the reservations
already stored for the same item. It also deletes and reads reservations and
projects each one to its wire form (the DTO).

The three repositories the service talks to are not part of this model. They
are replaced by an in-memory store, the fields of the class
`Services.ReservationService`:

- `reservations: map<int, Reservation>`: the reservation rows, by key;
- `order: seq<int>`: the keys in the order the repository enumerates them.
  The repository's order is not visible, so the model chooses ascending
  key order. Keys are issued in increasing order, so this is also
  insertion order;
- `items: set<int>`: the ids of the known items;
- `users: map<string, User>`: the users, by username;
- `nextId`: the key the store issues to the next inserted reservation (the
  database's identity column).

Entities are stored arena-style: a reservation names its item by id and its
owner by username. Timestamps are integers, compared only with `<` and `>=`.

Three assumptions stand in for code that is not part of this model:

- **Range query** (`Conflicts.RangeQuery`): the repository's
  `GetReservationsAsync(target, start, end)`, called at lines 31 and 88,
  returns exactly the stored reservations on `target` with
  `r.StartTime < end && r.EndTime > start`. These are half-open intervals, so
  touching endpoints do not count.
- **User lookup** (`Entities.UsersKeyedByName`): `GetUserAsync(name)` returns
  the user whose `UserName` is `name`.
- **Reservation lookup** (the first clause of `Valid()`): `GetReservationAsync(id)`
  returns the row whose `Id` is `id`, so every stored reservation sits under
  its own `Id` as key.

The central invariant, `Conflicts.NoOverlap`, says that no two distinct
stored reservations on the same item have intersecting intervals. It is part
of the class invariant `Valid()`, so every successful create and update
preserves it. Success and each failure are stated as exact conditions on the
request and the old store, and every failure leaves the store unchanged.

The update check can be read as "leave the reservation's own id out of the
overlap set, then require the set to be empty". The code counts instead:
more than one overlap fails, and exactly one fails unless its `Id` is the
updated one. `Conflicts.UpdateConflictRule` proves that the two readings
agree.

Divergences from the literal code:

- **Unknown owner on create.** `DTOToReservationAsync` returns null when the
  owner is unknown (lines 114-118). `CreateReservationAsync` passes that null
  straight on to `AddReservationAsync` (lines 36-38). The model reports this
  as the failure `OwnerNotFound` and leaves the store unchanged.
- **Failure kinds.** Create, update and get return null for every failure
  (delete returns false). The model
  returns a `Result` whose `Error` names which check failed: `InvalidInterval`,
  `TargetNotFound`, `SchedulingConflict`, `OwnerNotFound` or `NotFound`.
- **Re-persisting on read.** `GetReservationAsync` writes the entity it has
  just read back to the repository (line 59). The model does this as a write
  of the unchanged value, and its contract says the store ends up unchanged.

`Scenario.WorkedExample` is a client of the service, using times in minutes.
Item 5 holds A = [600, 660). B = [630, 690) is refused. C = [660, 720) only
touches A and is accepted. A is then moved to [540, 570). Each of these
outcomes is asserted from the contracts alone.

## Model

| member | source | states |
|---|---|---|
| `Entities.DtoToReservation` | Services/ReservationService.cs:111-131 | resolving a DTO succeeds exactly when both its owner and its item are known; otherwise no entity is produced |
| `Entities.ReservationToDto` | Services/ReservationService.cs:133-144 | the DTO carries the reservation's id, start and end unchanged, the item's id as `Target` and the owner's username as `Owner` |
| `Entities.DtoRoundTrip` | Services/ReservationService.cs:124-128 | a DTO with known owner and item, resolved and then projected back, is the same DTO |
| `Entities.EntityRoundTrip` | Services/ReservationService.cs:137-141 | a reservation projected to its DTO (item id, owner username) and resolved again is the same reservation |
| `Conflicts.RangeQuery` | Services/ReservationService.cs:31 | the assumed overlap query names only stored reservations, and only ones on the queried item |
| `Conflicts.RangeQueryFindsOverlaps` | Services/ReservationService.cs:31-35 | the query on a candidate's item and interval returns exactly the stored reservations whose half-open interval overlaps the candidate's |
| `Conflicts.TouchingIntervalsDoNotOverlap` | Services/ReservationService.cs:31-35 | two reservations whose intervals only touch (one ends where the other starts) do not conflict, in either order |
| `Conflicts.UpdateConflictRule` | Services/ReservationService.cs:89-97 | the code's counting test (no more than one overlap, and a single overlap must be the updated reservation) accepts exactly the overlap sets contained in the reservation's own id |
| `Conflicts.InsertKeepsNoOverlap` | Services/ReservationService.cs:31-38 | inserting under a fresh key after an empty overlap query keeps reservations on one item pairwise non-overlapping |
| `Conflicts.MoveKeepsNoOverlap` | Services/ReservationService.cs:88-102 | moving a reservation to a new interval, when the query finds nothing but itself, keeps the no-overlap invariant |
| `Conflicts.SelfUpdateAdmitted` | Services/ReservationService.cs:88-97 | under the invariant, updating a reservation to its own current interval meets only itself, so the update passes the conflict check |
| `KeyOrder.Without` | Services/ReservationService.cs:50 | removing a key from the enumeration order keeps every other key, drops that one, and changes nothing for a key that is absent |
| `KeyOrder.WithoutKeepsIncreasing` | Services/ReservationService.cs:50 | removing a key from an ascending enumeration order leaves it ascending, so a delete keeps the store invariant |
| `Services.ReservationService.constructor` | Services/ReservationService.cs:13-18 | a service over the given items and users with no reservations, satisfying the store invariant |
| `Services.ReservationService.CreateReservation` | Services/ReservationService.cs:20-41 | fails with InvalidInterval iff start >= end; with TargetNotFound iff the interval is valid and the item unknown; with SchedulingConflict iff additionally the overlap query is non-empty; with OwnerNotFound iff additionally the owner is unknown; succeeds iff all checks pass; any failure leaves the store unchanged; a success adds exactly one reservation, under a fresh key, with the DTO's item, owner, start and end; it returns that reservation's projection and keeps the no-overlap invariant |
| `Services.ReservationService.UpdateReservation` | Services/ReservationService.cs:76-109 | fails with NotFound iff the id is not stored; with InvalidInterval iff it is stored and start >= end; with SchedulingConflict iff the query on the stored item finds any reservation other than itself; succeeds otherwise; any failure leaves the store unchanged; a success changes only StartTime and EndTime of that one reservation (item and owner stay the stored ones, all other reservations are unchanged); it returns the new projection and keeps the no-overlap invariant |
| `Services.ReservationService.DeleteReservation` | Services/ReservationService.cs:43-51 | returns true iff the id was stored; exactly that reservation is removed, so an unknown id changes nothing |
| `Services.ReservationService.GetReservation` | Services/ReservationService.cs:53-63 | returns the projection of the stored reservation iff the id is stored; the write-back of the unchanged entity leaves the store exactly as it was |
| `Services.ReservationService.GetReservations` | Services/ReservationService.cs:65-74 | returns one DTO per stored reservation and no others, in ascending key order (so no reservation appears twice); each DTO is the projection of the stored reservation with its id |

## Left out

- Controllers (`Controllers/ItemsController.cs`, `Controllers/ReservationsController.cs`): HTTP routing, status codes and claim lookup. Authorization is `IUserAuthenticationService.IsAllowed`, whose implementation is not part of this model, so no permission rule is modelled.
- `Program.cs` and `Models/ReservationContext.cs`: dependency wiring, Swagger setup and an Entity Framework context declaration. They contain no logic.
- Repository implementations and `ItemService` are not part of this model. The in-memory store replaces them. Items and users are fixed when the service is constructed, because adding or removing them belongs to other services. Item substring queries and username queries are not modelled.
- Services.ReservationService.CreateReservation: the key of a new reservation is issued by the store (`nextId`), not taken from the DTO's `Id`. The database issues identity keys and `AddReservationAsync` is not shown.
- Services.ReservationService.UpdateReservation: the branch where the repository's update returns null (lines 103-106) cannot occur with the in-memory store, so it is not modelled.
- Services.ReservationService.DeleteReservation: the repository's own boolean result (line 50) is modelled as true, because deletion of a stored row always succeeds in the in-memory store.
- Services.ReservationService.GetReservations: the repository's enumeration order is not visible; the model fixes it as ascending key order.
- Concurrency and `async`/`await`: every operation is one sequential step. The check-then-write race between concurrent requests is therefore outside this model.
- `DateTime` and time zones: timestamps are integers.
