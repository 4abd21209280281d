/**
 * The education handlers.  The schema refines the object: unless `current`
 * is true, `endDate` must be given.  zod runs that refinement whenever no
 * field was of the wrong type, so an empty institution and a missing end
 * date are reported together.
 */
module EducationController {
  import opened Wrappers
  import opened Js
  import opened Schema
  import opened Tables
  import opened Ordering
  import opened Store

  const EndDateRequired := "End date is required when not current"

  datatype EducationInput = EducationInput(institution: string, degree: string, field: string,
                                           startDate: Option<int>, endDate: Option<Option<int>>,
                                           current: bool, description: Option<string>)

  /** No field has the wrong type (a too-short string still lets the refinement run). */
  predicate WellTyped(o: Fields) {
    && Get(o, "institution").Str? && Get(o, "degree").Str? && Get(o, "field").Str? && Get(o, "startDate").Str?
    && (Get(o, "endDate").Undefined? || Get(o, "endDate").Str?)
    && (Get(o, "current").Undefined? || Get(o, "current").Bool?)
    && (Get(o, "description").Undefined? || Get(o, "description").Str?)
  }

  /** The refinement: `current` is true, or a non-empty `endDate` is given. */
  predicate CurrentOrEnded(o: Fields) {
    Get(o, "current") == Bool(true) || (Get(o, "endDate").Str? && Get(o, "endDate").s != "")
  }

  /** `educationSchema.parse(body)` */
  function EducationSchema(body: Value, parse: DateParser): (r: Check<EducationInput>)
    ensures r.Pass? <==>
              && body.Obj? && WellTyped(body.fields)
              && Get(body.fields, "institution").s != "" && Get(body.fields, "degree").s != ""
              && Get(body.fields, "field").s != ""
              && CurrentOrEnded(body.fields)
    ensures r.Pass? ==>
              && Str(r.value.institution) == Get(body.fields, "institution")
              && Str(r.value.degree) == Get(body.fields, "degree")
              && Str(r.value.field) == Get(body.fields, "field")
              && r.value.startDate == parse(Get(body.fields, "startDate").s)
              && r.value.endDate == (if Get(body.fields, "endDate").Str? && Get(body.fields, "endDate").s != ""
                                     then Some(parse(Get(body.fields, "endDate").s)) else None)
              && r.value.current == (Get(body.fields, "current") == Bool(true))
              && (r.value.description.Some? <==> Get(body.fields, "description").Str?)
              && (r.value.description.Some? ==> Str(r.value.description.value) == Get(body.fields, "description"))
    ensures body.Obj? && WellTyped(body.fields) && !CurrentOrEnded(body.fields) ==>
              r.Fail? && Issue(["endDate"], EndDateRequired) in r.issues
  {
    match AsObject(body)
    case Fail(issues) => Fail(issues)
    case Pass(o) =>
      var institution := NonEmptyString(o, "institution", "Institution is required");
      var degree := NonEmptyString(o, "degree", "Degree is required");
      var field := NonEmptyString(o, "field", "Field of study is required");
      var startDate := DateString(o, "startDate", parse);
      var endDate := OptionalDateString(o, "endDate", parse);
      var current := BoolDefaultFalse(o, "current");
      var description := OptionalString(o, "description");
      var issues := IssuesOf(institution) + IssuesOf(degree) + IssuesOf(field) + IssuesOf(startDate)
                    + IssuesOf(endDate) + IssuesOf(current) + IssuesOf(description);
      if !WellTyped(o) then Fail(issues)
      else
        var refined := issues + if !current.value && endDate.value.None? then [Issue(["endDate"], EndDateRequired)] else [];
        if refined != [] then Fail(refined)
        else Pass(EducationInput(institution.value, degree.value, field.value, startDate.value, endDate.value,
                                 current.value, description.value))
  }

  /** Prisma refuses an Invalid Date. */
  predicate DatesValid(input: EducationInput) {
    input.startDate.Some? && (input.endDate.Some? ==> input.endDate.value.Some?)
  }

  function Created(input: EducationInput): Education
    requires DatesValid(input)
  {
    Education(input.institution, input.degree, input.field, input.startDate.value,
              if input.endDate.Some? then input.endDate.value else None, input.current, input.description)
  }

  /** `update({ data })`: fields the schema left undefined keep their stored value. */
  function Updated(stored: Education, input: EducationInput): (e: Education)
    requires DatesValid(input)
    ensures input.endDate.None? ==> e.endDate == stored.endDate
    ensures input.description.None? ==> e.description == stored.description
    ensures e.institution == input.institution && e.current == input.current && Some(e.startDate) == input.startDate
  {
    Education(input.institution, input.degree, input.field, input.startDate.value,
              if input.endDate.Some? then input.endDate.value else stored.endDate, input.current,
              if input.description.Some? then input.description else stored.description)
  }

  predicate LatestStartFirst(a: Row<Education>, b: Row<Education>) {
    a.data.startDate >= b.data.startDate
  }

  function Listing(s: Snapshot): (r: seq<Row<Education>>)
    ensures SortedBy(r, LatestStartFirst)
    ensures multiset(r) == multiset(s.education)
  {
    Sort(s.education, LatestStartFirst)
  }

  function List(s: Snapshot): Step<seq<Row<Education>>> {
    Step(Ok200(Listing(s)), s)
  }

  function Create(s: Snapshot, body: Value, parse: DateParser): (r: Step<Row<Education>>)
    ensures r.reply.Created201? <==> EducationSchema(body, parse).Pass? && DatesValid(EducationSchema(body, parse).value)
    ensures r.reply.Created201? ==>
              && r.reply.body == Row(s.nextEducationId, Created(EducationSchema(body, parse).value))
              && r.after == s.(education := s.education + [r.reply.body], nextEducationId := s.nextEducationId + 1)
    ensures !r.reply.Created201? ==> r.after == s
    ensures EducationSchema(body, parse).Fail? ==> r.reply == Bad400("Invalid education data", Some(EducationSchema(body, parse).issues))
    ensures EducationSchema(body, parse).Pass? && !r.reply.Created201? ==> r.reply == Err500("Failed to create education")
  {
    match EducationSchema(body, parse)
    case Fail(issues) => Step(Bad400("Invalid education data", Some(issues)), s)
    case Pass(input) =>
      if !DatesValid(input) then Step(Err500("Failed to create education"), s)
      else Step(Created201(Row(s.nextEducationId, Created(input))),
                s.(education := Insert(s.education, s.nextEducationId, Created(input)), nextEducationId := s.nextEducationId + 1))
  }

  function Update(s: Snapshot, id: string, body: Value, parse: DateParser): (r: Step<Row<Education>>)
    ensures r.reply.Ok200? <==>
              && EducationSchema(body, parse).Pass? && DatesValid(EducationSchema(body, parse).value)
              && ParseInt(id).Some? && HasId(s.education, ParseInt(id).value)
    ensures r.reply.Ok200? ==>
              && r.reply.body == Row(ParseInt(id).value, Updated(Find(s.education, ParseInt(id).value).value.data, EducationSchema(body, parse).value))
              && r.after == s.(education := Replace(s.education, ParseInt(id).value, r.reply.body.data))
    ensures !r.reply.Ok200? ==> r.after == s
    ensures EducationSchema(body, parse).Fail? ==> r.reply == Bad400("Invalid education data", Some(EducationSchema(body, parse).issues))
    ensures EducationSchema(body, parse).Pass? && !r.reply.Ok200? ==> r.reply == Err500("Failed to update education")
  {
    match EducationSchema(body, parse)
    case Fail(issues) => Step(Bad400("Invalid education data", Some(issues)), s)
    case Pass(input) =>
      var key := ParseInt(id);
      if key.None? || !DatesValid(input) then Step(Err500("Failed to update education"), s)
      else
        match Find(s.education, key.value)
        case None => Step(Err500("Failed to update education"), s)
        case Some(current) =>
          var data := Updated(current.data, input);
          Step(Ok200(Row(key.value, data)), s.(education := Replace(s.education, key.value, data)))
  }

  function Delete(s: Snapshot, id: string): (r: Step<()>)
    ensures r.reply.NoContent204? <==> ParseInt(id).Some? && HasId(s.education, ParseInt(id).value)
    ensures r.reply.NoContent204? ==> r.after == s.(education := Tables.Delete(s.education, ParseInt(id).value))
    ensures !r.reply.NoContent204? ==> r.after == s && r.reply == Err500("Failed to delete education")
  {
    var key := ParseInt(id);
    if key.None? || Find(s.education, key.value).None? then Step(Err500("Failed to delete education"), s)
    else Step(NoContent204, s.(education := Tables.Delete(s.education, key.value)))
  }

  /** Every stored entry is current or has an end date: the refinement holds of the table. */
  ghost predicate Dated(rows: seq<Row<Education>>) {
    forall i :: 0 <= i < |rows| ==> rows[i].data.current || rows[i].data.endDate.Some?
  }

  /** A new entry is current or has an end date; an update keeps that true of an entry that had it. */
  lemma CreatedIsDated(s: Snapshot, body: Value, parse: DateParser)
    requires Create(s, body, parse).reply.Created201?
    ensures Create(s, body, parse).reply.body.data.current || Create(s, body, parse).reply.body.data.endDate.Some?
  {
  }

  lemma {:induction false} UpdateKeepsDated(s: Snapshot, id: string, body: Value, parse: DateParser)
    requires Dated(s.education)
    ensures Dated(Update(s, id, body, parse).after.education)
  {
    var r := Update(s, id, body, parse);
    if r.reply.Ok200? {
      var key := ParseInt(id).value;
      var a := r.after.education;
      forall i | 0 <= i < |a| ensures a[i].data.current || a[i].data.endDate.Some? {
        if s.education[i].id == key {
          assert a[i] == r.reply.body;
        }
      }
    }
  }

  lemma CreateKeepsConsistent(s: Snapshot, body: Value, parse: DateParser)
    requires Consistent(s)
    ensures Consistent(Create(s, body, parse).after)
  {
    var r := Create(s, body, parse);
    if r.reply.Created201? {
      InsertWellFormed(s.education, s.nextEducationId, r.reply.body.data);
    }
  }

  lemma UpdateKeepsConsistent(s: Snapshot, id: string, body: Value, parse: DateParser)
    requires Consistent(s)
    ensures Consistent(Update(s, id, body, parse).after)
  {
    var r := Update(s, id, body, parse);
    if r.reply.Ok200? {
      ReplaceWellFormed(s.education, s.nextEducationId, ParseInt(id).value, r.reply.body.data);
    }
  }

  lemma DeleteKeepsConsistent(s: Snapshot, id: string)
    requires Consistent(s)
    ensures Consistent(Delete(s, id).after)
  {
    if Delete(s, id).reply.NoContent204? {
      DeleteWellFormed(s.education, s.nextEducationId, ParseInt(id).value);
    }
  }

  method GetEducation(db: Db) returns (r: Reply<seq<Row<Education>>>)
    ensures Step(r, db.State()) == List(db.State())
  {
    r := Ok200(Listing(db.State()));
  }

  method CreateEducation(db: Db, body: Value, parse: DateParser) returns (r: Reply<Row<Education>>)
    requires db.Valid()
    modifies db`education, db`nextEducationId
    ensures db.Valid()
    ensures Step(r, db.State()) == Create(old(db.State()), body, parse)
  {
    ghost var s := db.State();
    CreateKeepsConsistent(s, body, parse);
    ghost var spec := Create(s, body, parse);
    var parsed := EducationSchema(body, parse);
    if parsed.Fail? {
      assert spec == Step(Bad400("Invalid education data", Some(parsed.issues)), s);
      return Bad400("Invalid education data", Some(parsed.issues));
    }
    if !DatesValid(parsed.value) {
      assert spec == Step(Err500("Failed to create education"), s);
      return Err500("Failed to create education");
    }
    var row := Row(db.nextEducationId, Created(parsed.value));
    db.education := db.education + [row];
    db.nextEducationId := db.nextEducationId + 1;
    r := Created201(row);
    assert db.State() == spec.after;
  }

  method UpdateEducation(db: Db, id: string, body: Value, parse: DateParser) returns (r: Reply<Row<Education>>)
    requires db.Valid()
    modifies db`education
    ensures db.Valid()
    ensures Step(r, db.State()) == Update(old(db.State()), id, body, parse)
  {
    ghost var s := db.State();
    UpdateKeepsConsistent(s, id, body, parse);
    ghost var spec := Update(s, id, body, parse);
    var parsed := EducationSchema(body, parse);
    if parsed.Fail? {
      assert spec == Step(Bad400("Invalid education data", Some(parsed.issues)), s);
      return Bad400("Invalid education data", Some(parsed.issues));
    }
    var key := ParseInt(id);
    if key.None? || !DatesValid(parsed.value) {
      assert spec == Step(Err500("Failed to update education"), s);
      return Err500("Failed to update education");
    }
    var current := Find(db.education, key.value);
    if current.None? {
      assert spec == Step(Err500("Failed to update education"), s);
      return Err500("Failed to update education");
    }
    var data := Updated(current.value.data, parsed.value);
    db.education := Replace(db.education, key.value, data);
    r := Ok200(Row(key.value, data));
    assert db.State() == spec.after;
  }

  method DeleteEducation(db: Db, id: string) returns (r: Reply<()>)
    requires db.Valid()
    modifies db`education
    ensures db.Valid()
    ensures Step(r, db.State()) == Delete(old(db.State()), id)
  {
    ghost var s := db.State();
    DeleteKeepsConsistent(s, id);
    ghost var spec := Delete(s, id);
    var key := ParseInt(id);
    if key.None? || Find(db.education, key.value).None? {
      assert spec == Step(Err500("Failed to delete education"), s);
      return Err500("Failed to delete education");
    }
    db.education := Tables.Delete(db.education, key.value);
    r := NoContent204;
    assert db.State() == spec.after;
  }
}
