/**
 * The experience handlers.  Unlike education, the experience schema has no
 * refinement tying `endDate` to `current`: an entry that is not current may
 * be stored without an end date.
 */
module ExperienceController {
  import opened Wrappers
  import opened Js
  import opened Schema
  import opened Tables
  import opened Ordering
  import opened Store

  datatype ExperienceInput = ExperienceInput(title: string, company: string, startDate: Option<int>,
                                             endDate: Option<Option<int>>, current: bool, description: string)

  /** `experienceSchema.parse(body)` */
  function ExperienceSchema(body: Value, parse: DateParser): (r: Check<ExperienceInput>)
    ensures r.Pass? <==>
              && body.Obj?
              && Get(body.fields, "title").Str? && Get(body.fields, "title").s != ""
              && Get(body.fields, "company").Str? && Get(body.fields, "company").s != ""
              && Get(body.fields, "startDate").Str?
              && (Get(body.fields, "endDate").Undefined? || Get(body.fields, "endDate").Str?)
              && (Get(body.fields, "current").Undefined? || Get(body.fields, "current").Bool?)
              && Get(body.fields, "description").Str? && Get(body.fields, "description").s != ""
    ensures r.Pass? ==>
              && Str(r.value.title) == Get(body.fields, "title")
              && Str(r.value.company) == Get(body.fields, "company")
              && Str(r.value.description) == Get(body.fields, "description")
              && r.value.startDate == parse(Get(body.fields, "startDate").s)
              && (r.value.endDate.None? <==> Get(body.fields, "endDate").Undefined? || Get(body.fields, "endDate") == Str(""))
              && (r.value.endDate.Some? ==> r.value.endDate.value == parse(Get(body.fields, "endDate").s))
              && r.value.current == (Get(body.fields, "current") == Bool(true))
  {
    match AsObject(body)
    case Fail(issues) => Fail(issues)
    case Pass(o) =>
      var title := NonEmptyString(o, "title", MinOneMessage);
      var company := NonEmptyString(o, "company", MinOneMessage);
      var startDate := DateString(o, "startDate", parse);
      var endDate := OptionalDateString(o, "endDate", parse);
      var current := BoolDefaultFalse(o, "current");
      var description := NonEmptyString(o, "description", MinOneMessage);
      if title.Pass? && company.Pass? && startDate.Pass? && endDate.Pass? && current.Pass? && description.Pass? then
        Pass(ExperienceInput(title.value, company.value, startDate.value, endDate.value, current.value, description.value))
      else
        Fail(IssuesOf(title) + IssuesOf(company) + IssuesOf(startDate) + IssuesOf(endDate)
             + IssuesOf(current) + IssuesOf(description))
  }

  /** A past position with no end date passes: nothing requires `endDate` when `current` is false. */
  lemma NoEndDateAccepted(body: Value, parse: DateParser)
    requires body.Obj? && body.fields.Keys == {"title", "company", "startDate", "description"}
    requires Get(body.fields, "title") == Str("Engineer") && Get(body.fields, "company") == Str("Acme")
    requires Get(body.fields, "startDate") == Str("2020-01-01") && Get(body.fields, "description") == Str("Built things")
    ensures ExperienceSchema(body, parse).Pass?
    ensures !ExperienceSchema(body, parse).value.current && ExperienceSchema(body, parse).value.endDate.None?
  {
    assert "endDate" !in body.fields && "current" !in body.fields;
  }

  /** Prisma refuses an Invalid Date. */
  predicate DatesValid(input: ExperienceInput) {
    input.startDate.Some? && (input.endDate.Some? ==> input.endDate.value.Some?)
  }

  function Created(input: ExperienceInput): Experience
    requires DatesValid(input)
  {
    Experience(input.title, input.company, input.startDate.value,
               if input.endDate.Some? then input.endDate.value else None, input.current, input.description)
  }

  /** `update({ data })`: an undefined `endDate` keeps the stored one. */
  function Updated(stored: Experience, input: ExperienceInput): (e: Experience)
    requires DatesValid(input)
    ensures input.endDate.None? ==> e.endDate == stored.endDate
    ensures input.endDate.Some? ==> e.endDate == input.endDate.value
    ensures e.title == input.title && e.description == input.description && e.current == input.current
  {
    Experience(input.title, input.company, input.startDate.value,
               if input.endDate.Some? then input.endDate.value else stored.endDate, input.current, input.description)
  }

  predicate LatestStartFirst(a: Row<Experience>, b: Row<Experience>) {
    a.data.startDate >= b.data.startDate
  }

  function Listing(s: Snapshot): (r: seq<Row<Experience>>)
    ensures SortedBy(r, LatestStartFirst)
    ensures multiset(r) == multiset(s.experiences)
  {
    Sort(s.experiences, LatestStartFirst)
  }

  function List(s: Snapshot): Step<seq<Row<Experience>>> {
    Step(Ok200(Listing(s)), s)
  }

  function Create(s: Snapshot, body: Value, parse: DateParser): (r: Step<Row<Experience>>)
    ensures r.reply.Created201? <==> ExperienceSchema(body, parse).Pass? && DatesValid(ExperienceSchema(body, parse).value)
    ensures r.reply.Created201? ==>
              && r.reply.body == Row(s.nextExperienceId, Created(ExperienceSchema(body, parse).value))
              && r.after == s.(experiences := s.experiences + [r.reply.body], nextExperienceId := s.nextExperienceId + 1)
    ensures !r.reply.Created201? ==> r.after == s
    ensures ExperienceSchema(body, parse).Fail? ==> r.reply == Bad400("Invalid experience data", Some(ExperienceSchema(body, parse).issues))
    ensures ExperienceSchema(body, parse).Pass? && !r.reply.Created201? ==> r.reply == Err500("Failed to create experience")
  {
    match ExperienceSchema(body, parse)
    case Fail(issues) => Step(Bad400("Invalid experience data", Some(issues)), s)
    case Pass(input) =>
      if !DatesValid(input) then Step(Err500("Failed to create experience"), s)
      else Step(Created201(Row(s.nextExperienceId, Created(input))),
                s.(experiences := Insert(s.experiences, s.nextExperienceId, Created(input)),
                   nextExperienceId := s.nextExperienceId + 1))
  }

  function Update(s: Snapshot, id: string, body: Value, parse: DateParser): (r: Step<Row<Experience>>)
    ensures r.reply.Ok200? <==>
              && ExperienceSchema(body, parse).Pass? && DatesValid(ExperienceSchema(body, parse).value)
              && ParseInt(id).Some? && HasId(s.experiences, ParseInt(id).value)
    ensures r.reply.Ok200? ==>
              && r.reply.body == Row(ParseInt(id).value, Updated(Find(s.experiences, ParseInt(id).value).value.data, ExperienceSchema(body, parse).value))
              && r.after == s.(experiences := Replace(s.experiences, ParseInt(id).value, r.reply.body.data))
    ensures !r.reply.Ok200? ==> r.after == s
    ensures ExperienceSchema(body, parse).Fail? ==> r.reply == Bad400("Invalid experience data", Some(ExperienceSchema(body, parse).issues))
    ensures ExperienceSchema(body, parse).Pass? && !r.reply.Ok200? ==> r.reply == Err500("Failed to update experience")
  {
    match ExperienceSchema(body, parse)
    case Fail(issues) => Step(Bad400("Invalid experience data", Some(issues)), s)
    case Pass(input) =>
      var key := ParseInt(id);
      if key.None? || !DatesValid(input) then Step(Err500("Failed to update experience"), s)
      else
        match Find(s.experiences, key.value)
        case None => Step(Err500("Failed to update experience"), s)
        case Some(current) =>
          var data := Updated(current.data, input);
          Step(Ok200(Row(key.value, data)), s.(experiences := Replace(s.experiences, key.value, data)))
  }

  function Delete(s: Snapshot, id: string): (r: Step<()>)
    ensures r.reply.NoContent204? <==> ParseInt(id).Some? && HasId(s.experiences, ParseInt(id).value)
    ensures r.reply.NoContent204? ==> r.after == s.(experiences := Tables.Delete(s.experiences, ParseInt(id).value))
    ensures !r.reply.NoContent204? ==> r.after == s && r.reply == Err500("Failed to delete experience")
  {
    var key := ParseInt(id);
    if key.None? || Find(s.experiences, key.value).None? then Step(Err500("Failed to delete experience"), s)
    else Step(NoContent204, s.(experiences := Tables.Delete(s.experiences, key.value)))
  }

  lemma CreateKeepsConsistent(s: Snapshot, body: Value, parse: DateParser)
    requires Consistent(s)
    ensures Consistent(Create(s, body, parse).after)
  {
    var r := Create(s, body, parse);
    if r.reply.Created201? {
      InsertWellFormed(s.experiences, s.nextExperienceId, r.reply.body.data);
    }
  }

  lemma UpdateKeepsConsistent(s: Snapshot, id: string, body: Value, parse: DateParser)
    requires Consistent(s)
    ensures Consistent(Update(s, id, body, parse).after)
  {
    var r := Update(s, id, body, parse);
    if r.reply.Ok200? {
      ReplaceWellFormed(s.experiences, s.nextExperienceId, ParseInt(id).value, r.reply.body.data);
    }
  }

  lemma DeleteKeepsConsistent(s: Snapshot, id: string)
    requires Consistent(s)
    ensures Consistent(Delete(s, id).after)
  {
    if Delete(s, id).reply.NoContent204? {
      DeleteWellFormed(s.experiences, s.nextExperienceId, ParseInt(id).value);
    }
  }

  method GetExperiences(db: Db) returns (r: Reply<seq<Row<Experience>>>)
    ensures Step(r, db.State()) == List(db.State())
  {
    r := Ok200(Listing(db.State()));
  }

  method CreateExperience(db: Db, body: Value, parse: DateParser) returns (r: Reply<Row<Experience>>)
    requires db.Valid()
    modifies db`experiences, db`nextExperienceId
    ensures db.Valid()
    ensures Step(r, db.State()) == Create(old(db.State()), body, parse)
  {
    ghost var s := db.State();
    CreateKeepsConsistent(s, body, parse);
    ghost var spec := Create(s, body, parse);
    var parsed := ExperienceSchema(body, parse);
    if parsed.Fail? {
      assert spec == Step(Bad400("Invalid experience data", Some(parsed.issues)), s);
      return Bad400("Invalid experience data", Some(parsed.issues));
    }
    if !DatesValid(parsed.value) {
      assert spec == Step(Err500("Failed to create experience"), s);
      return Err500("Failed to create experience");
    }
    var row := Row(db.nextExperienceId, Created(parsed.value));
    db.experiences := db.experiences + [row];
    db.nextExperienceId := db.nextExperienceId + 1;
    r := Created201(row);
    assert db.State() == spec.after;
  }

  method UpdateExperience(db: Db, id: string, body: Value, parse: DateParser) returns (r: Reply<Row<Experience>>)
    requires db.Valid()
    modifies db`experiences
    ensures db.Valid()
    ensures Step(r, db.State()) == Update(old(db.State()), id, body, parse)
  {
    ghost var s := db.State();
    UpdateKeepsConsistent(s, id, body, parse);
    ghost var spec := Update(s, id, body, parse);
    var parsed := ExperienceSchema(body, parse);
    if parsed.Fail? {
      assert spec == Step(Bad400("Invalid experience data", Some(parsed.issues)), s);
      return Bad400("Invalid experience data", Some(parsed.issues));
    }
    var key := ParseInt(id);
    if key.None? || !DatesValid(parsed.value) {
      assert spec == Step(Err500("Failed to update experience"), s);
      return Err500("Failed to update experience");
    }
    var current := Find(db.experiences, key.value);
    if current.None? {
      assert spec == Step(Err500("Failed to update experience"), s);
      return Err500("Failed to update experience");
    }
    var data := Updated(current.value.data, parsed.value);
    db.experiences := Replace(db.experiences, key.value, data);
    r := Ok200(Row(key.value, data));
    assert db.State() == spec.after;
  }

  method DeleteExperience(db: Db, id: string) returns (r: Reply<()>)
    requires db.Valid()
    modifies db`experiences
    ensures db.Valid()
    ensures Step(r, db.State()) == Delete(old(db.State()), id)
  {
    ghost var s := db.State();
    DeleteKeepsConsistent(s, id);
    ghost var spec := Delete(s, id);
    var key := ParseInt(id);
    if key.None? || Find(db.experiences, key.value).None? {
      assert spec == Step(Err500("Failed to delete experience"), s);
      return Err500("Failed to delete experience");
    }
    db.experiences := Tables.Delete(db.experiences, key.value);
    r := NoContent204;
    assert db.State() == spec.after;
  }
}
