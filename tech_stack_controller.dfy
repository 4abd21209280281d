/**
 * The tech-stack handlers.  `proficiency` is a union: a number in [0, 100],
 * or a string converted with `parseInt`, whose failure throws a plain error
 * out of the schema (answered with 500, not 400).
 */
module TechStackController {
  import opened Wrappers
  import opened Js
  import opened Schema
  import opened Tables
  import opened Ordering
  import opened Store

  const BelowZero := "Number must be greater than or equal to 0"
  const AboveHundred := "Number must be less than or equal to 100"

  /** `z.union([z.number().min(0).max(100), z.string().transform(parseInt or throw)])` */
  function Proficiency(v: Value): (r: Parsed<int>)
    ensures r.Parsed? <==> (v.Num? && 0 <= v.n <= 100) || (v.Str? && ParseIntDecimal(v.s).Some?)
    ensures r.Parsed? && v.Num? ==> r.value == v.n
    ensures r.Parsed? && v.Str? ==> Some(r.value) == ParseIntDecimal(v.s)
    ensures r.Thrown? <==> v.Str? && ParseIntDecimal(v.s).None?
    ensures r.ZodError? ==> |r.issues| == 1 && r.issues[0].path == ["proficiency"]
  {
    match v
    case Num(n) =>
      if n < 0 then ZodError([Issue(["proficiency"], BelowZero)])
      else if n > 100 then ZodError([Issue(["proficiency"], AboveHundred)])
      else Parsed(n)
    case Str(s) =>
      if ParseIntDecimal(s).None? then Thrown("Invalid proficiency value") else Parsed(ParseIntDecimal(s).value)
    case _ => ZodError([Issue(["proficiency"], "Invalid input")])
  }

  /** `techStackSchema.parse(body)`: the thrown error escapes however the other fields fare. */
  function TechSchema(body: Value): (r: Parsed<Tech>)
    ensures r.Thrown? <==> body.Obj? && Proficiency(Get(body.fields, "proficiency")).Thrown?
    ensures r.Parsed? <==>
              && body.Obj?
              && Get(body.fields, "name").Str? && Get(body.fields, "name").s != ""
              && Get(body.fields, "icon").Str? && Get(body.fields, "icon").s != ""
              && Get(body.fields, "category").Str? && Get(body.fields, "category").s != ""
              && Proficiency(Get(body.fields, "proficiency")).Parsed?
    ensures r.Parsed? ==>
              && Str(r.value.name) == Get(body.fields, "name")
              && Str(r.value.icon) == Get(body.fields, "icon")
              && Str(r.value.category) == Get(body.fields, "category")
              && r.value.proficiency == Proficiency(Get(body.fields, "proficiency")).value
  {
    match AsObject(body)
    case Fail(issues) => ZodError(issues)
    case Pass(o) =>
      var name := NonEmptyString(o, "name", "Name is required");
      var icon := NonEmptyString(o, "icon", "Icon is required");
      var category := NonEmptyString(o, "category", "Category is required");
      match Proficiency(Get(o, "proficiency"))
      case Thrown(m) => Thrown(m)
      case ZodError(issues) => ZodError(IssuesOf(name) + IssuesOf(icon) + IssuesOf(category) + issues)
      case Parsed(p) =>
        if name.Pass? && icon.Pass? && category.Pass? then Parsed(Tech(name.value, icon.value, category.value, p))
        else ZodError(IssuesOf(name) + IssuesOf(icon) + IssuesOf(category))
  }

  /** A string proficiency is not range-checked: the text of any number above 100 is stored as that number. */
  lemma StringProficiencyUnbounded(n: int)
    requires n > 100
    ensures Proficiency(Str(IntToString(n))) == Parsed(n)
    ensures Proficiency(Num(n)) == ZodError([Issue(["proficiency"], AboveHundred)])
  {
    ParseIntDecimalOfIntToString(n);
  }

  /** `orderBy: [{ category: 'asc' }, { proficiency: 'desc' }]` */
  predicate ByCategoryThenProficiency(a: Row<Tech>, b: Row<Tech>) {
    if a.data.category == b.data.category then a.data.proficiency >= b.data.proficiency
    else LexLeq(a.data.category, b.data.category)
  }

  lemma ByCategoryThenProficiencyTotalPreorder()
    ensures TotalPreorder(ByCategoryThenProficiency)
  {
    forall a: Row<Tech>, b: Row<Tech> ensures ByCategoryThenProficiency(a, b) || ByCategoryThenProficiency(b, a) {
      LexLeqTotal(a.data.category, b.data.category);
    }
    forall a: Row<Tech>, b: Row<Tech>, c: Row<Tech> | ByCategoryThenProficiency(a, b) && ByCategoryThenProficiency(b, c)
      ensures ByCategoryThenProficiency(a, c)
    {
      var x, y, z := a.data.category, b.data.category, c.data.category;
      if x != y && y != z {
        LexLeqTransitive(x, y, z);
        if x == z { LexLeqAntisymmetric(x, y); }
      }
    }
  }

  function Listing(s: Snapshot): (r: seq<Row<Tech>>)
    ensures SortedBy(r, ByCategoryThenProficiency)
    ensures multiset(r) == multiset(s.techStack)
  {
    ByCategoryThenProficiencyTotalPreorder();
    Sort(s.techStack, ByCategoryThenProficiency)
  }

  /** Within one category the listing runs from the highest proficiency down. */
  lemma ListingWithinCategory(s: Snapshot, i: int, j: int)
    requires 0 <= i < j < |Listing(s)| && Listing(s)[i].data.category == Listing(s)[j].data.category
    ensures Listing(s)[i].data.proficiency >= Listing(s)[j].data.proficiency
  {
  }

  function List(s: Snapshot): Step<seq<Row<Tech>>> {
    Step(Ok200(Listing(s)), s)
  }

  function Create(s: Snapshot, body: Value): (r: Step<Row<Tech>>)
    ensures r.reply.Created201? <==> TechSchema(body).Parsed?
    ensures r.reply.Created201? ==>
              && r.reply.body == Row(s.nextTechId, TechSchema(body).value)
              && r.after == s.(techStack := s.techStack + [r.reply.body], nextTechId := s.nextTechId + 1)
    ensures !r.reply.Created201? ==> r.after == s
    ensures TechSchema(body).ZodError? ==> r.reply == Bad400("Invalid tech stack data", Some(TechSchema(body).issues))
    ensures TechSchema(body).Thrown? ==> r.reply == Err500("Failed to create tech stack")
  {
    match TechSchema(body)
    case ZodError(issues) => Step(Bad400("Invalid tech stack data", Some(issues)), s)
    case Thrown(_) => Step(Err500("Failed to create tech stack"), s)
    case Parsed(t) =>
      Step(Created201(Row(s.nextTechId, t)), s.(techStack := Insert(s.techStack, s.nextTechId, t), nextTechId := s.nextTechId + 1))
  }

  /** The body is validated before the id is looked at; a bad or unknown id then fails in the store. */
  function Update(s: Snapshot, id: string, body: Value): (r: Step<Row<Tech>>)
    ensures r.reply.Ok200? <==> TechSchema(body).Parsed? && ParseInt(id).Some? && HasId(s.techStack, ParseInt(id).value)
    ensures r.reply.Ok200? ==>
              && r.reply.body == Row(ParseInt(id).value, TechSchema(body).value)
              && r.after == s.(techStack := Replace(s.techStack, ParseInt(id).value, TechSchema(body).value))
    ensures !r.reply.Ok200? ==> r.after == s
    ensures TechSchema(body).ZodError? ==> r.reply == Bad400("Invalid tech stack data", Some(TechSchema(body).issues))
    ensures !TechSchema(body).ZodError? && !r.reply.Ok200? ==> r.reply == Err500("Failed to update tech stack")
  {
    match TechSchema(body)
    case ZodError(issues) => Step(Bad400("Invalid tech stack data", Some(issues)), s)
    case Thrown(_) => Step(Err500("Failed to update tech stack"), s)
    case Parsed(t) =>
      var key := ParseInt(id);
      if key.None? || Find(s.techStack, key.value).None? then Step(Err500("Failed to update tech stack"), s)
      else Step(Ok200(Row(key.value, t)), s.(techStack := Replace(s.techStack, key.value, t)))
  }

  function Delete(s: Snapshot, id: string): (r: Step<()>)
    ensures r.reply.NoContent204? <==> ParseInt(id).Some? && HasId(s.techStack, ParseInt(id).value)
    ensures r.reply.NoContent204? ==> r.after == s.(techStack := Tables.Delete(s.techStack, ParseInt(id).value))
    ensures !r.reply.NoContent204? ==> r.after == s && r.reply == Err500("Failed to delete tech stack")
  {
    var key := ParseInt(id);
    if key.None? || Find(s.techStack, key.value).None? then Step(Err500("Failed to delete tech stack"), s)
    else Step(NoContent204, s.(techStack := Tables.Delete(s.techStack, key.value)))
  }

  lemma CreateKeepsConsistent(s: Snapshot, body: Value)
    requires Consistent(s)
    ensures Consistent(Create(s, body).after)
  {
    if TechSchema(body).Parsed? {
      InsertWellFormed(s.techStack, s.nextTechId, TechSchema(body).value);
    }
  }

  lemma UpdateKeepsConsistent(s: Snapshot, id: string, body: Value)
    requires Consistent(s)
    ensures Consistent(Update(s, id, body).after)
  {
    if Update(s, id, body).reply.Ok200? {
      ReplaceWellFormed(s.techStack, s.nextTechId, ParseInt(id).value, TechSchema(body).value);
    }
  }

  lemma DeleteKeepsConsistent(s: Snapshot, id: string)
    requires Consistent(s)
    ensures Consistent(Delete(s, id).after)
  {
    if Delete(s, id).reply.NoContent204? {
      DeleteWellFormed(s.techStack, s.nextTechId, ParseInt(id).value);
    }
  }

  method GetTechStack(db: Db) returns (r: Reply<seq<Row<Tech>>>)
    ensures Step(r, db.State()) == List(db.State())
  {
    r := Ok200(Listing(db.State()));
  }

  method CreateTechStack(db: Db, body: Value) returns (r: Reply<Row<Tech>>)
    requires db.Valid()
    modifies db`techStack, db`nextTechId
    ensures db.Valid()
    ensures Step(r, db.State()) == Create(old(db.State()), body)
  {
    ghost var s := db.State();
    CreateKeepsConsistent(s, body);
    ghost var spec := Create(s, body);
    var parsed := TechSchema(body);
    if parsed.ZodError? {
      assert spec == Step(Bad400("Invalid tech stack data", Some(parsed.issues)), s);
      return Bad400("Invalid tech stack data", Some(parsed.issues));
    }
    if parsed.Thrown? {
      assert spec == Step(Err500("Failed to create tech stack"), s);
      return Err500("Failed to create tech stack");
    }
    var row := Row(db.nextTechId, parsed.value);
    db.techStack := db.techStack + [row];
    db.nextTechId := db.nextTechId + 1;
    r := Created201(row);
    assert db.State() == spec.after;
  }

  method UpdateTechStack(db: Db, id: string, body: Value) returns (r: Reply<Row<Tech>>)
    requires db.Valid()
    modifies db`techStack
    ensures db.Valid()
    ensures Step(r, db.State()) == Update(old(db.State()), id, body)
  {
    ghost var s := db.State();
    UpdateKeepsConsistent(s, id, body);
    ghost var spec := Update(s, id, body);
    var parsed := TechSchema(body);
    if parsed.ZodError? {
      assert spec == Step(Bad400("Invalid tech stack data", Some(parsed.issues)), s);
      return Bad400("Invalid tech stack data", Some(parsed.issues));
    }
    if parsed.Thrown? {
      assert spec == Step(Err500("Failed to update tech stack"), s);
      return Err500("Failed to update tech stack");
    }
    var key := ParseInt(id);
    if key.None? || Find(db.techStack, key.value).None? {
      assert spec == Step(Err500("Failed to update tech stack"), s);
      return Err500("Failed to update tech stack");
    }
    db.techStack := Replace(db.techStack, key.value, parsed.value);
    r := Ok200(Row(key.value, parsed.value));
    assert db.State() == spec.after;
  }

  method DeleteTechStack(db: Db, id: string) returns (r: Reply<()>)
    requires db.Valid()
    modifies db`techStack
    ensures db.Valid()
    ensures Step(r, db.State()) == Delete(old(db.State()), id)
  {
    ghost var s := db.State();
    DeleteKeepsConsistent(s, id);
    ghost var spec := Delete(s, id);
    var key := ParseInt(id);
    if key.None? || Find(db.techStack, key.value).None? {
      assert spec == Step(Err500("Failed to delete tech stack"), s);
      return Err500("Failed to delete tech stack");
    }
    db.techStack := Tables.Delete(db.techStack, key.value);
    r := NoContent204;
    assert db.State() == spec.after;
  }
}
