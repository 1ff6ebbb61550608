# Airline registry

A model of the in-memory airline service of `main.py`: a registry mapping each
airline name to an ordered list of flights (`models.py`'s `Flight`: a flight
number and two integers), and the six handlers that read and change it —
list the airlines, list an airline's flight numbers, get, add, update and
delete a flight.

- `models.dfy` (module `Models`): the `Flight` record as a datatype.
- `airlines.dfy` (module `Airlines`): the two domain errors (`AirlineNotFound`,
  `FlightNotFound`) in place of the handlers' 404s; the first-match search
  (`FirstMatch`, `Locate`) that get, update and delete share; the `Registry`
  class, whose `flights` map is the dictionary's contents and whose `names`
  sequence is its key order (which `list_airlines` exposes); and lemmas on how
  a lookup answers after each mutation.
- `scenarios.dfy` (module `Scenarios`): request sequences on a freshly seeded
  registry, each written as a client whose postconditions are the answers.

Behaviour kept from the code:

- Duplicate flight numbers are allowed; every lookup takes the first match in
  list order.
- `update_flight` writes the new record at the first match's position even
  when the body's flight number differs from the one in the path.
- `delete_flight` removes the first match; later flights shift down by one.
- The guard `if not airline:` treats an airline whose list is empty like a
  missing airline (`HasFlights`). An airline whose last flight was deleted is
  still listed by `list_airlines`, but listing, getting, updating or deleting
  in it fails with `AirlineNotFound`. `add_flight` tests key membership and
  appends to it again.
- A failing get, update or delete changes nothing.

Points where the code behaves otherwise than a plain reading of its HTTP
interface suggests; the model follows the code:

- Listing or getting fails not only for an absent airline but also for an
  airline with an empty list.
- After a delete, a lookup of the same number cannot be answered by an earlier
  duplicate, because the deleted flight was the first match. What it finds is
  the next later flight with that number (`DeleteThenGet`), FlightNotFound if
  there is none, or `AirlineNotFound` when the list became empty.
- After `add_flight(a, f)`, a lookup of `f`'s number stops at the appended
  position exactly when no earlier flight has that number (`AddThenGet`). The
  returned flight can still equal `f` otherwise, when an earlier flight is
  field-for-field identical to `f`. So the property is stated on the position.

## Model

| member | source | states |
|---|---|---|
| `Airlines.FirstMatch` | main.py:41-43 | the search loop's answer is the smallest index whose flight number matches; it is None exactly when no flight matches |
| `Airlines.Locate` | main.py:38-44 | AirlineNotFound exactly when the airline is absent or its list is empty; FlightNotFound exactly when it has flights and none matches; otherwise the first matching position |
| `Airlines.AddThenGet` | main.py:46-52 | after an add, getting the added flight's number succeeds; it lands on the appended position iff no earlier flight has that number, and then returns the added flight; otherwise it returns what it returned before the add |
| `Airlines.UpdateThenGetNew` | main.py:54-63 | after an update, getting the new record's number returns the new record unless an earlier flight has that number, in which case the answer is the same as before the update |
| `Airlines.UpdateThenGetOld` | main.py:54-63 | after an update that renamed the flight, getting the old number returns the next later flight with that number, or FlightNotFound |
| `Airlines.DeleteThenGet` | main.py:66-76 | after a delete the key stays and the list is one shorter; getting the same number returns the next later flight with it, FlightNotFound, or AirlineNotFound if the list is now empty |
| `Airlines.Registry.constructor` | main.py:7-20 | the registry starts with keys Delta, Southwest, Alaska in that order, each with its two seeded flights, and the key list matches the map |
| `Airlines.Registry.ListAirlines` | main.py:22-25 | returns the key order: every airline in the map, each exactly once |
| `Airlines.Registry.ListFlights` | main.py:27-33 | AirlineNotFound iff the airline is absent or empty; otherwise the flight numbers of its list, same length, in list order |
| `Airlines.Registry.GetFlight` | main.py:35-44 | the loop returns the flight at the first matching position, or the error Locate gives |
| `Airlines.Registry.AddFlight` | main.py:46-52 | always succeeds and returns the flight; the list becomes the old list plus the flight (or just the flight for a new airline, whose name goes last in the key order); no other airline changes; keys stay consistent |
| `Airlines.Registry.UpdateFlight` | main.py:54-64 | succeeds iff Locate does and then returns the new record, written at the first match's position with every other position and airline unchanged; on failure returns Locate's error and changes nothing |
| `Airlines.Registry.DeleteFlight` | main.py:66-76 | succeeds iff Locate does and then removes exactly the first match, shifting later flights down, keeping the key; on failure returns Locate's error and changes nothing |
| `Scenarios.FreshListing` | main.py:7-33 | a fresh registry lists Delta, Southwest, Alaska, and Delta's flights are DL1234, DL5678 |
| `Scenarios.AddToDelta` | main.py:46-52 | posting DL9999 to Delta answers with the body and Delta then lists DL1234, DL5678, DL9999 |
| `Scenarios.AddNewAirline` | main.py:46-52 | posting to an unknown airline creates it after the seeded airlines and the flight can be got back |
| `Scenarios.DeleteFromDelta` | main.py:66-76 | deleting DL1234 succeeds, getting it then fails with FlightNotFound, and DL5678 moves to the front |
| `Scenarios.UnknownAirline` | main.py:27-44 | listing or getting in an unknown airline fails with AirlineNotFound |
| `Scenarios.EmptiedAirline` | main.py:30-76 | after Delta's two flights are deleted, Delta is still listed, while listing, updating and deleting in it fail with AirlineNotFound; adding to it works again |
| `Scenarios.RenameInDelta` | main.py:54-64 | updating DL1234 with a body numbered DL4321 renames it in place; the old number is then not found |

## Left out

- HTTP routing, status codes, `response_model` and the framework's
  request-body validation (422 errors): handlers take well-typed values, and
  the two 404 details become the `Error` datatype.
- `delete_flight`'s empty 204 response is modelled as `Ok(())`.
- `async` handlers and the absence of locking: the model is sequential;
  interleaved requests are not modelled.
- The module-level global: the registry is an object created by the
  constructor, holding the seed.
