/** Request sequences against a freshly started service, written as clients
    of the registry: each ensures clause is what the service answers. */
module Scenarios {
  import opened Models
  import opened Airlines

  /** GET / and GET /Delta on a fresh registry. */
  method FreshListing() returns (airlines: seq<string>, delta: Result<seq<string>>)
    ensures airlines == ["Delta", "Southwest", "Alaska"]
    ensures delta == Ok(["DL1234", "DL5678"])
  {
    var reg := new Registry();
    airlines := reg.ListAirlines();
    delta := reg.ListFlights("Delta");
    assert delta.value == ["DL1234", "DL5678"];
  }

  /** POST /Delta with DL9999 answers with the body, and GET /Delta then
      lists the new flight last. */
  method AddToDelta() returns (added: Flight, delta: Result<seq<string>>)
    ensures added == Flight("DL9999", 50, 90)
    ensures delta == Ok(["DL1234", "DL5678", "DL9999"])
  {
    var reg := new Registry();
    added := reg.AddFlight("Delta", Flight("DL9999", 50, 90));
    delta := reg.ListFlights("Delta");
    assert delta.value == ["DL1234", "DL5678", "DL9999"];
  }

  /** POST to an airline that does not exist creates it after the seeded
      airlines. */
  method AddNewAirline() returns (airlines: seq<string>, united: Result<Flight>)
    ensures airlines == ["Delta", "Southwest", "Alaska", "United"]
    ensures united == Ok(Flight("UA1", 150, 60))
  {
    var reg := new Registry();
    var _ := reg.AddFlight("United", Flight("UA1", 150, 60));
    airlines := reg.ListAirlines();
    united := reg.GetFlight("United", "UA1");
  }

  /** DELETE /Delta/DL1234 succeeds, after which GET /Delta/DL1234 is a 404
      "Flight not found" and DL5678 has moved to the front. */
  method DeleteFromDelta() returns (deleted: Result<()>, got: Result<Flight>, delta: Result<seq<string>>)
    ensures deleted == Ok(())
    ensures got == Err(FlightNotFound)
    ensures delta == Ok(["DL5678"])
  {
    var reg := new Registry();
    FirstMatchIs(Seed["Delta"], "DL1234", 0);
    deleted := reg.DeleteFlight("Delta", "DL1234");
    assert deleted.Ok? && deleted.value == ();
    got := reg.GetFlight("Delta", "DL1234");
    delta := reg.ListFlights("Delta");
    assert delta.value == ["DL5678"];
  }

  /** GET /Unknown and GET /Unknown/DL1234 are 404 "Airline not found". */
  method UnknownAirline() returns (listed: Result<seq<string>>, got: Result<Flight>)
    ensures listed == Err(AirlineNotFound)
    ensures got == Err(AirlineNotFound)
  {
    var reg := new Registry();
    listed := reg.ListFlights("Unknown");
    got := reg.GetFlight("Unknown", "DL1234");
  }

  /** Once Delta's last flight is deleted, Delta is still listed among the
      airlines, but reading, updating or deleting in it is a 404 "Airline
      not found"; a POST appends to it again. */
  method EmptiedAirline()
    returns (airlines: seq<string>, listed: Result<seq<string>>, updated: Result<Flight>,
             deleted: Result<()>, relisted: Result<seq<string>>)
    ensures airlines == ["Delta", "Southwest", "Alaska"]
    ensures listed == Err(AirlineNotFound)
    ensures updated == Err(AirlineNotFound)
    ensures deleted == Err(AirlineNotFound)
    ensures relisted == Ok(["DL9999"])
  {
    var reg := new Registry();
    FirstMatchIs(Seed["Delta"], "DL1234", 0);
    var _ := reg.DeleteFlight("Delta", "DL1234");
    FirstMatchIs(reg.flights["Delta"], "DL5678", 0);
    var _ := reg.DeleteFlight("Delta", "DL5678");
    airlines := reg.ListAirlines();
    listed := reg.ListFlights("Delta");
    updated := reg.UpdateFlight("Delta", "DL1234", Flight("DL1234", 10, 10));
    deleted := reg.DeleteFlight("Delta", "DL5678");
    var _ := reg.AddFlight("Delta", Flight("DL9999", 50, 90));
    relisted := reg.ListFlights("Delta");
    assert relisted.value == ["DL9999"];
  }

  /** PUT /Delta/DL1234 with a body numbered DL4321 renames the flight in
      place: the old number is gone and the new one is found first. */
  method RenameInDelta() returns (updated: Result<Flight>, delta: Result<seq<string>>, byOldNumber: Result<Flight>)
    ensures updated == Ok(Flight("DL4321", 54, 180))
    ensures delta == Ok(["DL4321", "DL5678"])
    ensures byOldNumber == Err(FlightNotFound)
  {
    var reg := new Registry();
    FirstMatchIs(Seed["Delta"], "DL1234", 0);
    updated := reg.UpdateFlight("Delta", "DL1234", Flight("DL4321", 54, 180));
    delta := reg.ListFlights("Delta");
    assert delta.value == ["DL4321", "DL5678"];
    byOldNumber := reg.GetFlight("Delta", "DL1234");
  }
}
