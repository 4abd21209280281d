/**
 * The category handlers: list with project counts, create and rename with an
 * explicit name-uniqueness check, and delete refused while projects use the
 * category.  Each handler is specified by a function from the store before
 * the request to the reply and the store after it.
 */
module CategoryController {
  import opened Wrappers
  import opened Js
  import opened Schema
  import opened Tables
  import opened Ordering
  import opened Store

  /** Number of projects whose category is `categoryId` (`project.count`, `_count.projects`). */
  function ProjectCount(projects: seq<Row<Project>>, categoryId: int): (n: nat)
    ensures n <= |projects|
    ensures n == 0 <==> forall i :: 0 <= i < |projects| ==> projects[i].data.categoryId != categoryId
  {
    if projects == [] then 0
    else
      assert forall i :: 1 <= i < |projects| ==> projects[i] == projects[1..][i - 1];
      (if projects[0].data.categoryId == categoryId then 1 else 0) + ProjectCount(projects[1..], categoryId)
  }

  /** One element of the list response: the category and its `_count.projects`. */
  datatype Listed = Listed(category: Row<Category>, projectCount: nat)

  predicate ByName(a: Listed, b: Listed) {
    LexLeq(a.category.data.name, b.category.data.name)
  }

  lemma ByNameTotalPreorder()
    ensures TotalPreorder(ByName)
  {
    forall a: Listed, b: Listed ensures ByName(a, b) || ByName(b, a) {
      LexLeqTotal(a.category.data.name, b.category.data.name);
    }
    forall a: Listed, b: Listed, c: Listed | ByName(a, b) && ByName(b, c) ensures ByName(a, c) {
      LexLeqTransitive(a.category.data.name, b.category.data.name, c.category.data.name);
    }
  }

  function Counted(s: Snapshot): seq<Listed> {
    seq(|s.categories|, i requires 0 <= i < |s.categories| =>
      Listed(s.categories[i], ProjectCount(s.projects, s.categories[i].id)))
  }

  /** `findMany({ include: { _count }, orderBy: { name: 'asc' } })` */
  function Listing(s: Snapshot): (r: seq<Listed>)
    ensures SortedBy(r, ByName)
    ensures multiset(r) == multiset(Counted(s))
  {
    ByNameTotalPreorder();
    Sort(Counted(s), ByName)
  }

  /** Every category is listed once, with the number of projects that use it. */
  lemma ListingComplete(s: Snapshot)
    ensures |Listing(s)| == |s.categories|
    ensures forall x :: x in Listing(s) <==>
              x.category in s.categories && x.projectCount == ProjectCount(s.projects, x.category.id)
  {
    var r := Listing(s);
    var c := Counted(s);
    assert |r| == |c| by {
      calc { |r|; |multiset(r)|; |multiset(c)|; |c|; }
    }
    forall x ensures x in r <==> x in c {
      assert x in r <==> x in multiset(r);
      assert x in c <==> x in multiset(c);
    }
    forall x ensures x in c <==> x.category in s.categories && x.projectCount == ProjectCount(s.projects, x.category.id) {
      if x.category in s.categories && x.projectCount == ProjectCount(s.projects, x.category.id) {
        var i :| 0 <= i < |s.categories| && s.categories[i] == x.category;
        assert c[i] == x;
      }
    }
  }

  function List(s: Snapshot): Step<seq<Listed>> {
    Step(Ok200(Listing(s)), s)
  }

  /** `createCategory` */
  function Create(s: Snapshot, body: Value): (r: Step<Row<Category>>)
    ensures r.reply.Created201? <==>
              NameSchema(body).Pass? && FindBy(s.categories, CategoryName, NameSchema(body).value).None?
    ensures r.reply.Created201? ==>
              && r.reply.body == Row(s.nextCategoryId, Category(NameSchema(body).value))
              && r.after == s.(categories := s.categories + [r.reply.body], nextCategoryId := s.nextCategoryId + 1)
    ensures !r.reply.Created201? ==> r.after == s
    ensures NameSchema(body).Fail? ==> r.reply == Bad400("Invalid category data", Some(NameSchema(body).issues))
    ensures NameSchema(body).Pass? && !r.reply.Created201? ==> r.reply == Bad400("Category already exists", None)
  {
    match NameSchema(body)
    case Fail(issues) => Step(Bad400("Invalid category data", Some(issues)), s)
    case Pass(name) =>
      if FindBy(s.categories, CategoryName, name).Some? then Step(Bad400("Category already exists", None), s)
      else
        var row := Row(s.nextCategoryId, Category(name));
        Step(Created201(row), s.(categories := Insert(s.categories, s.nextCategoryId, Category(name)),
                                 nextCategoryId := s.nextCategoryId + 1))
  }

  /** `updateCategory`: the name may be kept by the row itself, not taken from another. */
  function Update(s: Snapshot, id: string, body: Value): (r: Step<Row<Category>>)
    ensures r.reply.Ok200? ==> NameSchema(body).Pass? && ParseInt(id).Some? && HasId(s.categories, ParseInt(id).value)
    ensures r.reply.Ok200? ==>
              && r.reply.body == Row(ParseInt(id).value, Category(NameSchema(body).value))
              && r.after == s.(categories := Replace(s.categories, ParseInt(id).value, Category(NameSchema(body).value)))
    ensures !r.reply.Ok200? ==> r.after == s
    ensures NameSchema(body).Fail? ==> r.reply == Bad400("Invalid category data", Some(NameSchema(body).issues))
    ensures NameSchema(body).Pass? && FindBy(s.categories, CategoryName, NameSchema(body).value).Some?
            && (ParseInt(id).None? || FindBy(s.categories, CategoryName, NameSchema(body).value).value.id != ParseInt(id).value) ==>
              r.reply == Bad400("Category name already exists", None)
    ensures NameSchema(body).Pass? && FindBy(s.categories, CategoryName, NameSchema(body).value).None?
            && (ParseInt(id).None? || !HasId(s.categories, ParseInt(id).value)) ==>
              r.reply == Err500("Failed to update category")
    ensures NameSchema(body).Pass? && ParseInt(id).Some? && HasId(s.categories, ParseInt(id).value)
            && (FindBy(s.categories, CategoryName, NameSchema(body).value).None?
                || FindBy(s.categories, CategoryName, NameSchema(body).value).value.id == ParseInt(id).value) ==>
              r.reply.Ok200?
  {
    match NameSchema(body)
    case Fail(issues) => Step(Bad400("Invalid category data", Some(issues)), s)
    case Pass(name) =>
      var key := ParseInt(id);
      var existing := FindBy(s.categories, CategoryName, name);
      if existing.Some? && (key.None? || existing.value.id != key.value) then
        Step(Bad400("Category name already exists", None), s)
      else if key.None? || Find(s.categories, key.value).None? then
        Step(Err500("Failed to update category"), s)
      else
        Step(Ok200(Row(key.value, Category(name))), s.(categories := Replace(s.categories, key.value, Category(name))))
  }

  /** In a consistent table a rename succeeds exactly when no other row has the new name. */
  lemma UpdateSucceedsIff(s: Snapshot, id: string, body: Value)
    requires UniqueBy(s.categories, CategoryName)
    ensures Update(s, id, body).reply.Ok200? <==>
              && NameSchema(body).Pass? && ParseInt(id).Some? && HasId(s.categories, ParseInt(id).value)
              && forall i :: (0 <= i < |s.categories| && s.categories[i].data.name == NameSchema(body).value
                              ==> s.categories[i].id == ParseInt(id).value)
  {
    if NameSchema(body).Pass? {
      var name := NameSchema(body).value;
      var existing := FindBy(s.categories, CategoryName, name);
      if existing.Some? {
        var k :| 0 <= k < |s.categories| && s.categories[k] == existing.value;
        assert s.categories[k].data.name == name;
        forall i | 0 <= i < |s.categories| && s.categories[i].data.name == name
          ensures s.categories[i].id == existing.value.id
        {
          assert CategoryName(s.categories[i].data) == CategoryName(s.categories[k].data);
        }
      } else {
        assert forall i :: 0 <= i < |s.categories| ==> CategoryName(s.categories[i].data) != name;
      }
    }
  }

  /** `deleteCategory`: refused while any project belongs to the category. */
  function Delete(s: Snapshot, id: string): (r: Step<()>)
    ensures r.reply.NoContent204? <==>
              ParseInt(id).Some? && ProjectCount(s.projects, ParseInt(id).value) == 0 && HasId(s.categories, ParseInt(id).value)
    ensures r.reply.NoContent204? ==> r.after == s.(categories := Tables.Delete(s.categories, ParseInt(id).value))
    ensures !r.reply.NoContent204? ==> r.after == s
    ensures ParseInt(id).Some? && ProjectCount(s.projects, ParseInt(id).value) > 0 ==>
              r.reply == Bad400("Cannot delete category with existing projects", None)
    ensures ParseInt(id).None? || (ProjectCount(s.projects, ParseInt(id).value) == 0 && !HasId(s.categories, ParseInt(id).value)) ==>
              r.reply == Err500("Failed to delete category")
  {
    var key := ParseInt(id);
    if key.None? then Step(Err500("Failed to delete category"), s)
    else if ProjectCount(s.projects, key.value) > 0 then
      Step(Bad400("Cannot delete category with existing projects", None), s)
    else if Find(s.categories, key.value).None? then Step(Err500("Failed to delete category"), s)
    else Step(NoContent204, s.(categories := Tables.Delete(s.categories, key.value)))
  }

  lemma {:induction false} CreateKeepsConsistent(s: Snapshot, body: Value)
    requires Consistent(s)
    ensures Consistent(Create(s, body).after)
  {
    var r := Create(s, body);
    if r.reply.Created201? {
      var name := NameSchema(body).value;
      var a := r.after;
      InsertWellFormed(s.categories, s.nextCategoryId, Category(name));
      forall k ensures HasId(s.categories, k) ==> HasId(a.categories, k) {
        InsertKeeps(s.categories, s.nextCategoryId, Category(name), k);
      }
      assert UniqueBy(a.categories, CategoryName) by {
        forall i, j | 0 <= i < j < |a.categories|
          ensures CategoryName(a.categories[i].data) != CategoryName(a.categories[j].data)
        {
          if j == |s.categories| {
            assert a.categories[i] == s.categories[i];
          } else {
            assert a.categories[i] == s.categories[i] && a.categories[j] == s.categories[j];
          }
        }
      }
    }
  }

  lemma {:induction false} UpdateKeepsConsistent(s: Snapshot, id: string, body: Value)
    requires Consistent(s)
    ensures Consistent(Update(s, id, body).after)
  {
    var r := Update(s, id, body);
    if r.reply.Ok200? {
      var key := ParseInt(id).value;
      var name := NameSchema(body).value;
      var a := r.after;
      ReplaceWellFormed(s.categories, s.nextCategoryId, key, Category(name));
      forall k ensures HasId(s.categories, k) ==> HasId(a.categories, k) {
        ReplaceKeeps(s.categories, key, Category(name), k);
      }
      assert UniqueBy(a.categories, CategoryName) by {
        forall i, j | 0 <= i < j < |a.categories|
          ensures CategoryName(a.categories[i].data) != CategoryName(a.categories[j].data)
        {
          assert s.categories[i].id != s.categories[j].id;
        }
      }
    }
  }

  lemma {:induction false} DeleteKeepsConsistent(s: Snapshot, id: string)
    requires Consistent(s)
    ensures Consistent(Delete(s, id).after)
  {
    var r := Delete(s, id);
    if r.reply.NoContent204? {
      var key := ParseInt(id).value;
      var a := r.after;
      DeleteWellFormed(s.categories, s.nextCategoryId, key);
      forall k | HasId(s.categories, k) && k != key ensures HasId(a.categories, k) {
        DeleteKeeps(s.categories, key, k);
      }
      DeleteKeepsUnique(s.categories, key, CategoryName);
      assert References(a.projects, a.categories, a.skills) by {
        forall i | 0 <= i < |s.projects| ensures HasId(a.categories, s.projects[i].data.categoryId) {
          assert s.projects[i].data.categoryId != key;
        }
      }
    }
  }

  /** Creating a name twice leaves one row with it: the second request is refused and changes nothing. */
  lemma DuplicateCreateRefused(s: Snapshot, body: Value)
    requires NameSchema(body).Pass?
    ensures Create(Create(s, body).after, body).reply == Bad400("Category already exists", None)
    ensures Create(Create(s, body).after, body).after == Create(s, body).after
  {
    var first := Create(s, body);
    var name := NameSchema(body).value;
    if first.reply.Created201? {
      assert first.after.categories[|s.categories|].data.name == name;
    }
  }

  /** A refused delete leaves both the category and its projects in place. */
  lemma DeleteInUseChangesNothing(s: Snapshot, id: string)
    requires ParseInt(id).Some?
    requires exists i :: 0 <= i < |s.projects| && s.projects[i].data.categoryId == ParseInt(id).value
    ensures Delete(s, id).reply.Bad400?
    ensures Delete(s, id).after.categories == s.categories && Delete(s, id).after.projects == s.projects
  {
  }

  method GetCategories(db: Db) returns (r: Reply<seq<Listed>>)
    ensures Step(r, db.State()) == List(db.State())
  {
    r := Ok200(Listing(db.State()));
  }

  method CreateCategory(db: Db, body: Value) returns (r: Reply<Row<Category>>)
    requires db.Valid()
    modifies db`categories, db`nextCategoryId
    ensures db.Valid()
    ensures Step(r, db.State()) == Create(old(db.State()), body)
  {
    ghost var s := db.State();
    CreateKeepsConsistent(s, body);
    ghost var spec := Create(s, body);
    var parsed := NameSchema(body);
    if parsed.Fail? {
      assert spec == Step(Bad400("Invalid category data", Some(parsed.issues)), s);
      return Bad400("Invalid category data", Some(parsed.issues));
    }
    var existing := FindBy(db.categories, CategoryName, parsed.value);
    if existing.Some? {
      assert spec == Step(Bad400("Category already exists", None), s);
      return Bad400("Category already exists", None);
    }
    var row := Row(db.nextCategoryId, Category(parsed.value));
    db.categories := db.categories + [row];
    db.nextCategoryId := db.nextCategoryId + 1;
    r := Created201(row);
    assert db.State() == spec.after;
  }

  method UpdateCategory(db: Db, id: string, body: Value) returns (r: Reply<Row<Category>>)
    requires db.Valid()
    modifies db`categories
    ensures db.Valid()
    ensures Step(r, db.State()) == Update(old(db.State()), id, body)
  {
    ghost var s := db.State();
    UpdateKeepsConsistent(s, id, body);
    ghost var spec := Update(s, id, body);
    var parsed := NameSchema(body);
    if parsed.Fail? {
      assert spec == Step(Bad400("Invalid category data", Some(parsed.issues)), s);
      return Bad400("Invalid category data", Some(parsed.issues));
    }
    var existing := FindBy(db.categories, CategoryName, parsed.value);
    var key := ParseInt(id);
    if existing.Some? && (key.None? || existing.value.id != key.value) {
      assert spec == Step(Bad400("Category name already exists", None), s);
      return Bad400("Category name already exists", None);
    }
    if key.None? {
      assert spec == Step(Err500("Failed to update category"), s);
      return Err500("Failed to update category");
    }
    var target := Find(db.categories, key.value);
    if target.None? {
      assert spec == Step(Err500("Failed to update category"), s);
      return Err500("Failed to update category");
    }
    db.categories := Replace(db.categories, key.value, Category(parsed.value));
    r := Ok200(Row(key.value, Category(parsed.value)));
    assert db.State() == spec.after;
  }

  method DeleteCategory(db: Db, id: string) returns (r: Reply<()>)
    requires db.Valid()
    modifies db`categories
    ensures db.Valid()
    ensures Step(r, db.State()) == Delete(old(db.State()), id)
  {
    ghost var s := db.State();
    DeleteKeepsConsistent(s, id);
    ghost var spec := Delete(s, id);
    var key := ParseInt(id);
    if key.None? {
      assert spec == Step(Err500("Failed to delete category"), s);
      return Err500("Failed to delete category");
    }
    var count := ProjectCount(db.projects, key.value);
    if count > 0 {
      assert spec == Step(Bad400("Cannot delete category with existing projects", None), s);
      return Bad400("Cannot delete category with existing projects", None);
    }
    var target := Find(db.categories, key.value);
    if target.None? {
      assert spec == Step(Err500("Failed to delete category"), s);
      return Err500("Failed to delete category");
    }
    db.categories := Tables.Delete(db.categories, key.value);
    r := NoContent204;
    assert db.State() == spec.after;
  }
}
