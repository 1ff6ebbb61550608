/** The in-memory airline registry of main.py: a mapping from airline name to
    an ordered list of flights, the six request handlers that read and change
    it, and what those handlers promise about one another. The HTTP layer is
    not modelled: a handler's 404 becomes an `Err` carrying one of the two
    domain errors. */
module Airlines {
  import opened Models

  /** The two details the handlers raise with a 404. */
  datatype Error = AirlineNotFound | FlightNotFound

  datatype Option<T> = None | Some(value: T)

  datatype Result<T> = Ok(value: T) | Err(error: Error)

  /** The guard `if not airline:` of main.py: a missing airline and an
      airline whose list is empty are both "not found". */
  predicate HasFlights(db: map<string, seq<Flight>>, a: string) {
    a in db && db[a] != []
  }

  /** The list stored under `a`, or the empty list add_flight creates. */
  function FlightsOf(db: map<string, seq<Flight>>, a: string): seq<Flight> {
    if a in db then db[a] else []
  }

  predicate NoMatch(s: seq<Flight>, fn: string) {
    forall j :: 0 <= j < |s| ==> s[j].flightNum != fn
  }

  /** `i` is the smallest index of `s` whose flight number is `fn`. */
  predicate IsFirstMatch(s: seq<Flight>, fn: string, i: nat) {
    i < |s| && s[i].flightNum == fn && NoMatch(s[..i], fn)
  }

  /** The search loop shared by get_flight, update_flight and delete_flight:
      the first position holding flight number `fn`, if any. */
  function FirstMatch(s: seq<Flight>, fn: string): (r: Option<nat>)
    ensures r.Some? ==> IsFirstMatch(s, fn, r.value)
    ensures r.None? <==> NoMatch(s, fn)
  {
    if s == [] then None
    else if s[0].flightNum == fn then Some(0)
    else match FirstMatch(s[1..], fn)
      case None => None
      case Some(i) =>
        assert s[1..][..i] == s[1..i + 1];
        Some(i + 1)
  }

  /** Any first match is the one FirstMatch finds. */
  lemma FirstMatchIs(s: seq<Flight>, fn: string, i: nat)
    requires IsFirstMatch(s, fn, i)
    ensures FirstMatch(s, fn) == Some(i)
  {
  }

  /** The position get_flight, update_flight and delete_flight act on, or the
      error they raise: AirlineNotFound when the airline is absent or has no
      flights, FlightNotFound when no flight carries `fn`. */
  function Locate(db: map<string, seq<Flight>>, a: string, fn: string): (r: Result<nat>)
    ensures r == Err(AirlineNotFound) <==> !HasFlights(db, a)
    ensures r == Err(FlightNotFound) <==> HasFlights(db, a) && NoMatch(db[a], fn)
    ensures r.Ok? ==> HasFlights(db, a) && IsFirstMatch(db[a], fn, r.value)
  {
    if !HasFlights(db, a) then Err(AirlineNotFound)
    else match FirstMatch(db[a], fn)
      case Some(i) => Ok(i)
      case None => Err(FlightNotFound)
  }

  /** What get_flight answers on registry contents `db`. */
  function Lookup(db: map<string, seq<Flight>>, a: string, fn: string): Result<Flight> {
    match Locate(db, a, fn)
    case Ok(i) => Ok(db[a][i])
    case Err(e) => Err(e)
  }

  /** What a lookup of `fn` finds once position `i` of `s` no longer carries
      `fn`: the next flight after `i` with that number, or FlightNotFound. */
  function LaterMatch(s: seq<Flight>, i: nat, fn: string): Result<Flight>
    requires i < |s|
  {
    match FirstMatch(s[i + 1..], fn)
    case Some(k) => Ok(s[i + 1 + k])
    case None => Err(FlightNotFound)
  }

  /** After add_flight(a, f), get_flight(a, f.flightNum) succeeds. It stops
      at the appended position exactly when no earlier flight of `a` has the
      same number, and then returns `f`; otherwise the earlier flight wins. */
  lemma {:induction false} AddThenGet(db: map<string, seq<Flight>>, a: string, f: Flight)
    ensures var s := FlightsOf(db, a);
            var db' := db[a := s + [f]];
            Lookup(db', a, f.flightNum).Ok?
            && (Locate(db', a, f.flightNum) == Ok(|s|) <==> NoMatch(s, f.flightNum))
            && (NoMatch(s, f.flightNum) ==> Lookup(db', a, f.flightNum) == Ok(f))
            && (!NoMatch(s, f.flightNum) ==> Lookup(db', a, f.flightNum) == Lookup(db, a, f.flightNum))
  {
    var s := FlightsOf(db, a);
    var s' := s + [f];
    var db' := db[a := s'];
    var fn := f.flightNum;
    assert HasFlights(db', a);
    assert s'[..|s|] == s;
    if NoMatch(s, fn) {
      FirstMatchIs(s', fn, |s|);
    } else {
      var k := FirstMatch(s, fn).value;
      assert s'[..k] == s[..k];
      FirstMatchIs(s', fn, k);
    }
  }

  /** A first match in a prefix is the first match of the whole list. */
  lemma FirstMatchOfPrefix(p: seq<Flight>, s: seq<Flight>, fn: string)
    requires |p| <= |s| && s[..|p|] == p && FirstMatch(p, fn).Some?
    ensures FirstMatch(s, fn) == FirstMatch(p, fn)
  {
    var k := FirstMatch(p, fn).value;
    assert s[..k] == p[..k];
  }

  /** After update_flight(a, fn, g) writes `g` at position `i`, a lookup of
      g's number returns `g` unless an earlier flight carries that number,
      in which case that earlier flight is still the answer. */
  lemma UpdateThenGetNew(db: map<string, seq<Flight>>, a: string, fn: string, g: Flight)
    requires Locate(db, a, fn).Ok?
    ensures var s := db[a];
            var i := Locate(db, a, fn).value;
            var db' := db[a := s[i := g]];
            (NoMatch(s[..i], g.flightNum) ==> Lookup(db', a, g.flightNum) == Ok(g))
            && (!NoMatch(s[..i], g.flightNum) ==> Lookup(db', a, g.flightNum) == Lookup(db, a, g.flightNum))
  {
    var s := db[a];
    var i := Locate(db, a, fn).value;
    var s' := s[i := g];
    var db' := db[a := s'];
    assert HasFlights(db', a);
    assert s'[..i] == s[..i];
    if NoMatch(s[..i], g.flightNum) {
      FirstMatchIs(s', g.flightNum, i);
    } else {
      FirstMatchOfPrefix(s[..i], s, g.flightNum);
      FirstMatchOfPrefix(s[..i], s', g.flightNum);
    }
  }

  /** When update_flight(a, fn, g) gave the flight another number, a lookup
      of the old number `fn` moves on to the next flight after position `i`
      that still carries it, or fails with FlightNotFound. */
  lemma UpdateThenGetOld(db: map<string, seq<Flight>>, a: string, fn: string, g: Flight)
    requires Locate(db, a, fn).Ok? && g.flightNum != fn
    ensures var s := db[a];
            var i := Locate(db, a, fn).value;
            Lookup(db[a := s[i := g]], a, fn) == LaterMatch(s, i, fn)
  {
    var s := db[a];
    var i := Locate(db, a, fn).value;
    var s' := s[i := g];
    var db' := db[a := s'];
    assert HasFlights(db', a);
    var rest := s[i + 1..];
    match FirstMatch(rest, fn)
    case Some(k) =>
      var prefix := s'[..i + 1 + k];
      assert NoMatch(prefix, fn) by {
        forall j | 0 <= j < |prefix|
          ensures prefix[j].flightNum != fn
        {
          if j < i {
            assert s[..i][j] == s[j];
          } else if j > i {
            assert rest[..k][j - i - 1] == s[j];
          }
        }
      }
      FirstMatchIs(s', fn, i + 1 + k);
    case None =>
      assert NoMatch(s', fn) by {
        forall j | 0 <= j < |s'|
          ensures s'[j].flightNum != fn
        {
          if j < i {
            assert s[..i][j] == s[j];
          } else if j > i {
            assert rest[j - i - 1] == s[j];
          }
        }
      }
  }

  /** After delete_flight(a, fn) removes position `i`, the airline keeps its
      key, its list is one shorter, and a lookup of `fn` finds the next
      flight after `i` with that number, FlightNotFound if there is none, or
      AirlineNotFound if the deleted flight was the airline's last. */
  lemma {:induction false} DeleteThenGet(db: map<string, seq<Flight>>, a: string, fn: string)
    requires Locate(db, a, fn).Ok?
    ensures var s := db[a];
            var i := Locate(db, a, fn).value;
            var db' := db[a := s[..i] + s[i + 1..]];
            a in db' && |db'[a]| == |s| - 1
            && Lookup(db', a, fn) == if |s| == 1 then Err(AirlineNotFound) else LaterMatch(s, i, fn)
  {
    var s := db[a];
    var i := Locate(db, a, fn).value;
    var s' := s[..i] + s[i + 1..];
    var db' := db[a := s'];
    if |s| == 1 {
      assert s' == [];
    } else {
      assert HasFlights(db', a);
      var rest := s[i + 1..];
      match FirstMatch(rest, fn)
      case Some(k) =>
        assert s'[i + k] == s[i + 1 + k];
        var prefix := s'[..i + k];
        assert NoMatch(prefix, fn) by {
          forall j | 0 <= j < |prefix|
            ensures prefix[j].flightNum != fn
          {
            if j < i {
              assert s[..i][j] == s[j];
            } else {
              assert rest[..k][j - i] == s'[j];
            }
          }
        }
        FirstMatchIs(s', fn, i + k);
      case None =>
        assert NoMatch(s', fn) by {
          forall j | 0 <= j < |s'|
            ensures s'[j].flightNum != fn
          {
            if j < i {
              assert s[..i][j] == s[j];
            } else {
              assert rest[j - i] == s'[j];
            }
          }
        }
    }
  }

  /** The registry main.py starts with. */
  const Seed: map<string, seq<Flight>> := map[
    "Delta" := [Flight("DL1234", 54, 180), Flight("DL5678", 30, 79)],
    "Southwest" := [Flight("SWA3298", 45, 122), Flight("SWA8002", 73, 150)],
    "Alaska" := [Flight("AS900", 60, 140), Flight("AS7230", 68, 135)]
  ]

  /** The registry object: `flights` is the dictionary's contents and `names`
      its keys in insertion order, which list_airlines exposes. */
  class Registry {
    var names: seq<string>
    var flights: map<string, seq<Flight>>

    /** `names` lists each key of `flights` exactly once. */
    ghost predicate Valid()
      reads this
    {
      (forall i, j :: 0 <= i < j < |names| ==> names[i] != names[j])
      && (forall a :: a in names <==> a in flights)
    }

    constructor ()
      ensures Valid()
      ensures names == ["Delta", "Southwest", "Alaska"] && flights == Seed
    {
      names := ["Delta", "Southwest", "Alaska"];
      flights := Seed;
    }

    /** list_airlines: every airline name, each once, in insertion order. */
    function ListAirlines(): (r: seq<string>)
      reads this
      requires Valid()
      ensures r == names
      ensures forall a :: a in r <==> a in flights
      ensures forall i, j :: 0 <= i < j < |r| ==> r[i] != r[j]
    {
      names
    }

    /** list_flights: the flight numbers of `a` in list order. */
    function ListFlights(a: string): (r: Result<seq<string>>)
      reads this
      ensures r.Err? <==> !HasFlights(flights, a)
      ensures r.Err? ==> r.error == AirlineNotFound
      ensures r.Ok? ==> |r.value| == |flights[a]|
                        && forall i :: 0 <= i < |r.value| ==> r.value[i] == flights[a][i].flightNum
    {
      if a !in flights || flights[a] == [] then Err(AirlineNotFound)
      else
        var airline := flights[a];
        Ok(seq(|airline|, i requires 0 <= i < |airline| => airline[i].flightNum))
    }

    /** get_flight: the first flight of `a` numbered `fn`. */
    method GetFlight(a: string, fn: string) returns (r: Result<Flight>)
      ensures r == Lookup(flights, a, fn)
    {
      if a !in flights || flights[a] == [] {
        return Err(AirlineNotFound);
      }
      var airline := flights[a];
      var i := 0;
      while i < |airline|
        invariant 0 <= i <= |airline|
        invariant NoMatch(airline[..i], fn)
      {
        if airline[i].flightNum == fn {
          FirstMatchIs(airline, fn, i);
          return Ok(airline[i]);
        }
        assert airline[..i + 1] == airline[..i] + [airline[i]];
        i := i + 1;
      }
      assert airline[..i] == airline;
      return Err(FlightNotFound);
    }

    /** add_flight: append `f` to `a`, creating `a` at the end of the key
        order when it is new. Never fails and never checks for duplicates. */
    method AddFlight(a: string, f: Flight) returns (r: Flight)
      requires Valid()
      modifies this
      ensures Valid()
      ensures r == f
      ensures names == if a in old(flights) then old(names) else old(names) + [a]
      ensures flights == old(flights)[a := FlightsOf(old(flights), a) + [f]]
    {
      if a !in flights {
        names := names + [a];
        flights := flights[a := []];
      }
      flights := flights[a := flights[a] + [f]];
      return f;
    }

    /** update_flight: overwrite the first flight of `a` numbered `fn` with
        `g`, in place, even when `g` carries another number. On failure
        nothing changes. */
    method UpdateFlight(a: string, fn: string, g: Flight) returns (r: Result<Flight>)
      requires Valid()
      modifies this
      ensures Valid() && names == old(names)
      ensures r.Ok? <==> Locate(old(flights), a, fn).Ok?
      ensures r.Err? ==> r.error == Locate(old(flights), a, fn).error && flights == old(flights)
      ensures r.Ok? ==> r.value == g
                        && flights == old(flights)[a := old(flights)[a][Locate(old(flights), a, fn).value := g]]
    {
      if a !in flights || flights[a] == [] {
        return Err(AirlineNotFound);
      }
      var airline := flights[a];
      var i := 0;
      while i < |airline|
        invariant 0 <= i <= |airline|
        invariant NoMatch(airline[..i], fn)
        invariant flights == old(flights)
      {
        if airline[i].flightNum == fn {
          FirstMatchIs(airline, fn, i);
          flights := flights[a := airline[i := g]];
          return Ok(g);
        }
        assert airline[..i + 1] == airline[..i] + [airline[i]];
        i := i + 1;
      }
      assert airline[..i] == airline;
      return Err(FlightNotFound);
    }

    /** delete_flight: remove the first flight of `a` numbered `fn`; later
        flights shift down by one and the key stays even when the list
        empties. On failure nothing changes. */
    method DeleteFlight(a: string, fn: string) returns (r: Result<()>)
      requires Valid()
      modifies this
      ensures Valid() && names == old(names)
      ensures r.Ok? <==> Locate(old(flights), a, fn).Ok?
      ensures r.Err? ==> r.error == Locate(old(flights), a, fn).error && flights == old(flights)
      ensures r.Ok? ==>
                var s, i := old(flights)[a], Locate(old(flights), a, fn).value;
                flights == old(flights)[a := s[..i] + s[i + 1..]]
    {
      if a !in flights || flights[a] == [] {
        return Err(AirlineNotFound);
      }
      var airline := flights[a];
      var i := 0;
      while i < |airline|
        invariant 0 <= i <= |airline|
        invariant NoMatch(airline[..i], fn)
        invariant flights == old(flights)
      {
        if airline[i].flightNum == fn {
          FirstMatchIs(airline, fn, i);
          flights := flights[a := airline[..i] + airline[i + 1..]];
          return Ok(());
        }
        assert airline[..i + 1] == airline[..i] + [airline[i]];
        i := i + 1;
      }
      assert airline[..i] == airline;
      return Err(FlightNotFound);
    }
  }
}
