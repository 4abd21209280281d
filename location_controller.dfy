/**
 * The Location handlers.  Like About the table holds at most one row, id 1,
 * written only by an upsert; unlike About, reading an empty table is a 404.
 * `now` is the clock reading that stamps `updatedAt`.
 */
module LocationController {
  import opened Wrappers
  import opened Js
  import opened Schema
  import opened Tables
  import opened Store

  datatype LocationInput = LocationInput(city: string, officeHours: string)

  /** `locationSchema.parse(body)` */
  function LocationSchema(body: Value): (r: Check<LocationInput>)
    ensures r.Pass? <==>
              && body.Obj?
              && Get(body.fields, "city").Str? && Get(body.fields, "city").s != ""
              && Get(body.fields, "officeHours").Str? && Get(body.fields, "officeHours").s != ""
    ensures r.Pass? ==> Str(r.value.city) == Get(body.fields, "city") && Str(r.value.officeHours) == Get(body.fields, "officeHours")
    ensures body.Obj? && Get(body.fields, "city") == Str("") ==>
              r.Fail? && Issue(["city"], "City is required") in r.issues
    ensures body.Obj? && Get(body.fields, "officeHours") == Str("") ==>
              r.Fail? && Issue(["officeHours"], "Office hours are required") in r.issues
  {
    match AsObject(body)
    case Fail(issues) => Fail(issues)
    case Pass(o) =>
      var city := NonEmptyString(o, "city", "City is required");
      var officeHours := NonEmptyString(o, "officeHours", "Office hours are required");
      if city.Pass? && officeHours.Pass? then Pass(LocationInput(city.value, officeHours.value))
      else Fail(IssuesOf(city) + IssuesOf(officeHours))
  }

  function UpdatedAt(l: Location): int { l.updatedAt }

  /** `getLocation`: the most recently updated row; never creates one. */
  function Fetch(s: Snapshot): (r: Step<Row<Location>>)
    ensures r.after == s
    ensures r.reply.Ok200? <==> s.location != []
    ensures r.reply.Ok200? ==>
              && r.reply.body in s.location
              && forall i :: 0 <= i < |s.location| ==> s.location[i].data.updatedAt <= r.reply.body.data.updatedAt
    ensures !r.reply.Ok200? ==> r.reply == NotFound404("Location not found")
  {
    match Latest(s.location, UpdatedAt)
    case Some(row) => Step(Ok200(row), s)
    case None => Step(NotFound404("Location not found"), s)
  }

  /** `updateLocation`: validate, then `upsert({ where: { id: 1 }, ... })` with city and office hours. */
  function Update(s: Snapshot, body: Value, now: int): (r: Step<Row<Location>>)
    ensures LocationSchema(body).Fail? ==> r == Step(Bad400("Invalid location data", Some(LocationSchema(body).issues)), s)
    ensures LocationSchema(body).Pass? && HasId(s.location, 1) ==>
              && r.reply == Ok200(Row(1, Location(LocationSchema(body).value.city, LocationSchema(body).value.officeHours, now)))
              && r.after == s.(location := Replace(s.location, 1, r.reply.body.data))
    ensures LocationSchema(body).Pass? && !HasId(s.location, 1) && !HasId(s.location, s.nextLocationId) ==>
              && r.reply == Ok200(Row(s.nextLocationId, Location(LocationSchema(body).value.city, LocationSchema(body).value.officeHours, now)))
              && r.after == s.(location := s.location + [r.reply.body], nextLocationId := s.nextLocationId + 1)
    ensures LocationSchema(body).Pass? && !HasId(s.location, 1) && HasId(s.location, s.nextLocationId) ==>
              r == Step(Err500("Failed to update location"), s)
  {
    match LocationSchema(body)
    case Fail(issues) => Step(Bad400("Invalid location data", Some(issues)), s)
    case Pass(input) =>
      var data := Location(input.city, input.officeHours, now);
      if HasId(s.location, 1) then Step(Ok200(Row(1, data)), s.(location := Replace(s.location, 1, data)))
      else if HasId(s.location, s.nextLocationId) then Step(Err500("Failed to update location"), s)
      else Step(Ok200(Row(s.nextLocationId, data)), s.(location := Insert(s.location, s.nextLocationId, data),
                                                        nextLocationId := s.nextLocationId + 1))
  }

  /** A valid body is always stored, as the one row 1, and the store stays consistent. */
  lemma UpdateKeepsConsistent(s: Snapshot, body: Value, now: int)
    requires Consistent(s)
    ensures Consistent(Update(s, body, now).after)
    ensures LocationSchema(body).Pass? ==>
              && Update(s, body, now).reply.Ok200?
              && Update(s, body, now).reply.body.id == 1
              && Update(s, body, now).after.location == [Update(s, body, now).reply.body]
  {
    var r := Update(s, body, now);
    SingletonCases(s.location, s.nextLocationId);
    if LocationSchema(body).Pass? && HasId(s.location, 1) {
      assert r.after.location == [r.after.location[0]];
    }
  }

  /** Sending the same body again leaves the same city and office hours in row 1, restamped. */
  lemma RepeatedUpdate(s: Snapshot, body: Value, now: int, later: int)
    requires Consistent(s) && LocationSchema(body).Pass?
    ensures var first := Update(s, body, now);
            var second := Update(first.after, body, later);
            && second.reply.Ok200?
            && second.after.location == [Row(1, first.reply.body.data.(updatedAt := later))]
  {
    UpdateKeepsConsistent(s, body, now);
    UpdateKeepsConsistent(Update(s, body, now).after, body, later);
  }

  /** Once a location has been saved, reading returns exactly the row written. */
  lemma UpdateThenFetch(s: Snapshot, body: Value, now: int)
    requires Consistent(s) && LocationSchema(body).Pass?
    ensures Fetch(Update(s, body, now).after) == Step(Update(s, body, now).reply, Update(s, body, now).after)
  {
    UpdateKeepsConsistent(s, body, now);
  }

  method GetLocation(db: Db) returns (r: Reply<Row<Location>>)
    ensures Step(r, db.State()) == Fetch(db.State())
  {
    var latest := Latest(db.location, UpdatedAt);
    if latest.None? {
      return NotFound404("Location not found");
    }
    r := Ok200(latest.value);
  }

  method UpdateLocation(db: Db, body: Value, now: int) returns (r: Reply<Row<Location>>)
    requires db.Valid()
    modifies db`location, db`nextLocationId
    ensures db.Valid()
    ensures Step(r, db.State()) == Update(old(db.State()), body, now)
  {
    ghost var s := db.State();
    UpdateKeepsConsistent(s, body, now);
    ghost var spec := Update(s, body, now);
    var parsed := LocationSchema(body);
    if parsed.Fail? {
      assert spec == Step(Bad400("Invalid location data", Some(parsed.issues)), s);
      return Bad400("Invalid location data", Some(parsed.issues));
    }
    var data := Location(parsed.value.city, parsed.value.officeHours, now);
    if HasId(db.location, 1) {
      db.location := Replace(db.location, 1, data);
      r := Ok200(Row(1, data));
      assert db.State() == spec.after;
      return;
    }
    if HasId(db.location, db.nextLocationId) {
      return Err500("Failed to update location");
    }
    var row := Row(db.nextLocationId, data);
    db.location := db.location + [row];
    db.nextLocationId := db.nextLocationId + 1;
    r := Ok200(row);
    assert db.State() == spec.after;
  }
}
