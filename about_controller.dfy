/**
 * The About handlers.  The table holds at most one row, id 1: reading an
 * empty table creates a blank row, and every write is an upsert of row 1.
 * `now` is the clock reading that stamps `updatedAt`.
 */
module AboutController {
  import opened Wrappers
  import opened Js
  import opened Schema
  import opened Tables
  import opened Store

  /**
   * The parsed body.  `resumeUrl` is `None` when the field is absent (the
   * stored value is kept), `Some(None)` for null (cleared) and `Some(Some(u))`
   * for a url.
   */
  datatype AboutInput = AboutInput(biography: string, resumeUrl: Option<Option<string>>)

  /** `z.string().min(1).nullable().optional()` */
  function NullableUrl(o: Fields): (r: Check<Option<Option<string>>>)
    ensures r.Pass? <==> Get(o, "resumeUrl").Undefined? || Get(o, "resumeUrl").Null? || (Get(o, "resumeUrl").Str? && Get(o, "resumeUrl").s != "")
    ensures r.Pass? ==> (r.value.None? <==> Get(o, "resumeUrl").Undefined?)
    ensures r.Pass? && r.value.Some? ==> (r.value.value.None? <==> Get(o, "resumeUrl").Null?)
    ensures r.Pass? && Get(o, "resumeUrl").Str? ==> r.value == Some(Some(Get(o, "resumeUrl").s))
    ensures Get(o, "resumeUrl") == Str("") ==> r == Fail([Issue(["resumeUrl"], MinOneMessage)])
  {
    match Get(o, "resumeUrl")
    case Undefined => Pass(None)
    case Null => Pass(Some(None))
    case Str(u) => if u == "" then Fail([Issue(["resumeUrl"], MinOneMessage)]) else Pass(Some(Some(u)))
    case v => Fail([Mismatch(["resumeUrl"], "string", v)])
  }

  /** `aboutSchema.parse(body)` */
  function AboutSchema(body: Value): (r: Check<AboutInput>)
    ensures r.Pass? <==>
              && body.Obj?
              && Get(body.fields, "biography").Str? && Get(body.fields, "biography").s != ""
              && NullableUrl(body.fields).Pass?
    ensures r.Pass? ==> Str(r.value.biography) == Get(body.fields, "biography") && r.value.resumeUrl == NullableUrl(body.fields).value
    ensures body.Obj? && Get(body.fields, "biography") == Str("") ==>
              r.Fail? && Issue(["biography"], "Biography is required") in r.issues
  {
    match AsObject(body)
    case Fail(issues) => Fail(issues)
    case Pass(o) =>
      var biography := NonEmptyString(o, "biography", "Biography is required");
      var resumeUrl := NullableUrl(o);
      if biography.Pass? && resumeUrl.Pass? then Pass(AboutInput(biography.value, resumeUrl.value))
      else Fail(IssuesOf(biography) + IssuesOf(resumeUrl))
  }

  /** The row `create: data` makes: an absent url is stored as null. */
  function Created(input: AboutInput, now: int): (a: About)
    ensures a.biography == input.biography && a.updatedAt == now
    ensures a.resumeUrl == input.resumeUrl.GetOr(None)
  {
    About(input.biography, if input.resumeUrl.Some? then input.resumeUrl.value else None, now)
  }

  /** The row `update: data` leaves: an absent url keeps the stored one. */
  function Updated(stored: About, input: AboutInput, now: int): (a: About)
    ensures a.biography == input.biography && a.updatedAt == now
    ensures input.resumeUrl.None? ==> a.resumeUrl == stored.resumeUrl
    ensures input.resumeUrl.Some? ==> a.resumeUrl == input.resumeUrl.value
  {
    About(input.biography, if input.resumeUrl.Some? then input.resumeUrl.value else stored.resumeUrl, now)
  }

  function UpdatedAt(a: About): int { a.updatedAt }

  /** `getAbout`: the most recently updated row, or a blank one created on the spot. */
  function Fetch(s: Snapshot, now: int): (r: Step<Row<About>>)
    ensures r.reply.Ok200?
    ensures s.about != [] ==>
              && r.after == s
              && r.reply.body in s.about
              && forall i :: 0 <= i < |s.about| ==> s.about[i].data.updatedAt <= r.reply.body.data.updatedAt
    ensures s.about == [] ==>
              && r.reply.body == Row(s.nextAboutId, About("", None, now))
              && r.after == s.(about := [r.reply.body], nextAboutId := s.nextAboutId + 1)
  {
    match Latest(s.about, UpdatedAt)
    case Some(row) => Step(Ok200(row), s)
    case None =>
      var blank := About("", None, now);
      Step(Ok200(Row(s.nextAboutId, blank)), s.(about := Insert(s.about, s.nextAboutId, blank), nextAboutId := s.nextAboutId + 1))
  }

  /** `updateAbout`: validate, then `upsert({ where: { id: 1 }, update: data, create: data })`. */
  function Update(s: Snapshot, body: Value, now: int): (r: Step<Row<About>>)
    ensures AboutSchema(body).Fail? ==> r == Step(Bad400("Invalid data", Some(AboutSchema(body).issues)), s)
    ensures AboutSchema(body).Pass? && HasId(s.about, 1) ==>
              && r.reply == Ok200(Row(1, Updated(Find(s.about, 1).value.data, AboutSchema(body).value, now)))
              && r.after == s.(about := Replace(s.about, 1, r.reply.body.data))
    ensures AboutSchema(body).Pass? && !HasId(s.about, 1) && !HasId(s.about, s.nextAboutId) ==>
              && r.reply == Ok200(Row(s.nextAboutId, Created(AboutSchema(body).value, now)))
              && r.after == s.(about := s.about + [r.reply.body], nextAboutId := s.nextAboutId + 1)
    ensures AboutSchema(body).Pass? && !HasId(s.about, 1) && HasId(s.about, s.nextAboutId) ==>
              r == Step(Err500("Failed to update about information"), s)
  {
    match AboutSchema(body)
    case Fail(issues) => Step(Bad400("Invalid data", Some(issues)), s)
    case Pass(input) =>
      match Find(s.about, 1)
      case Some(row) =>
        var data := Updated(row.data, input, now);
        Step(Ok200(Row(1, data)), s.(about := Replace(s.about, 1, data)))
      case None =>
        if HasId(s.about, s.nextAboutId) then Step(Err500("Failed to update about information"), s)
        else
          var data := Created(input, now);
          Step(Ok200(Row(s.nextAboutId, data)), s.(about := Insert(s.about, s.nextAboutId, data), nextAboutId := s.nextAboutId + 1))
  }

  /** Reading keeps the store consistent and always leaves exactly one row, row 1. */
  lemma FetchKeepsConsistent(s: Snapshot, now: int)
    requires Consistent(s)
    ensures Consistent(Fetch(s, now).after)
    ensures Fetch(s, now).after.about == [Fetch(s, now).reply.body]
    ensures Fetch(s, now).reply.body.id == 1
  {
    if s.about != [] {
      assert s.about == [s.about[0]];
    }
  }

  /** A valid body is always stored, as row 1, and the store stays consistent. */
  lemma UpdateKeepsConsistent(s: Snapshot, body: Value, now: int)
    requires Consistent(s)
    ensures Consistent(Update(s, body, now).after)
    ensures AboutSchema(body).Pass? ==>
              && Update(s, body, now).reply.Ok200?
              && Update(s, body, now).reply.body.id == 1
              && Update(s, body, now).after.about == [Update(s, body, now).reply.body]
  {
    var r := Update(s, body, now);
    if AboutSchema(body).Pass? {
      if HasId(s.about, 1) {
        assert s.about == [s.about[0]];
        assert r.after.about == [r.after.about[0]];
      } else {
        SingletonCases(s.about, s.nextAboutId);
      }
    }
  }

  /** A second read returns the row the first one returned and changes nothing. */
  lemma FetchIdempotent(s: Snapshot, now: int, later: int)
    requires Consistent(s)
    ensures Fetch(Fetch(s, now).after, later) == Step(Fetch(s, now).reply, Fetch(s, now).after)
  {
    FetchKeepsConsistent(s, now);
  }

  /** After a successful update, reading returns exactly the row written. */
  lemma UpdateThenFetch(s: Snapshot, body: Value, now: int, later: int)
    requires Consistent(s) && AboutSchema(body).Pass?
    ensures Fetch(Update(s, body, now).after, later) == Step(Update(s, body, now).reply, Update(s, body, now).after)
  {
    UpdateKeepsConsistent(s, body, now);
  }

  method GetAbout(db: Db, now: int) returns (r: Reply<Row<About>>)
    requires db.Valid()
    modifies db`about, db`nextAboutId
    ensures db.Valid()
    ensures Step(r, db.State()) == Fetch(old(db.State()), now)
  {
    FetchKeepsConsistent(db.State(), now);
    var latest := Latest(db.about, UpdatedAt);
    if latest.Some? {
      return Ok200(latest.value);
    }
    var row := Row(db.nextAboutId, About("", None, now));
    db.about := db.about + [row];
    db.nextAboutId := db.nextAboutId + 1;
    r := Ok200(row);
  }

  method UpdateAbout(db: Db, body: Value, now: int) returns (r: Reply<Row<About>>)
    requires db.Valid()
    modifies db`about, db`nextAboutId
    ensures db.Valid()
    ensures Step(r, db.State()) == Update(old(db.State()), body, now)
  {
    ghost var s := db.State();
    UpdateKeepsConsistent(s, body, now);
    ghost var spec := Update(s, body, now);
    var parsed := AboutSchema(body);
    if parsed.Fail? {
      assert spec == Step(Bad400("Invalid data", Some(parsed.issues)), s);
      return Bad400("Invalid data", Some(parsed.issues));
    }
    var stored := Find(db.about, 1);
    if stored.Some? {
      var data := Updated(stored.value.data, parsed.value, now);
      db.about := Replace(db.about, 1, data);
      r := Ok200(Row(1, data));
      assert db.State() == spec.after;
      return;
    }
    if HasId(db.about, db.nextAboutId) {
      return Err500("Failed to update about information");
    }
    var row := Row(db.nextAboutId, Created(parsed.value, now));
    db.about := db.about + [row];
    db.nextAboutId := db.nextAboutId + 1;
    r := Ok200(row);
    assert db.State() == spec.after;
  }
}
