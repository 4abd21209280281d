/**
 * The project handlers: a filtered, newest-first, paginated listing; lookup
 * by id; and create, update and delete.  A project belongs to one category
 * and links a set of skills; an update replaces that set wholesale.
 */
module ProjectController {
  import opened Wrappers
  import opened Js
  import opened Schema
  import opened Tables
  import opened Ordering
  import opened Store

  // ---------------------------------------------------------------------
  // projectSchema
  // ---------------------------------------------------------------------

  datatype ProjectInput = ProjectInput(title: string, description: Option<string>, logo: string, image: string,
                                       categoryId: int, skills: Option<seq<int>>)

  /** `skills` is absent, or an array whose every element is a number. */
  predicate NumberArrayOrAbsent(v: Value) {
    v.Undefined? || (v.Arr? && forall i :: 0 <= i < |v.items| ==> v.items[i].Num?)
  }

  predicate NonEmptyStr(v: Value) {
    v.Str? && v.s != ""
  }

  /** `projectSchema.parse(body)` */
  function ProjectSchema(body: Value): (r: Check<ProjectInput>)
    ensures r.Pass? <==>
              && body.Obj?
              && NonEmptyStr(Get(body.fields, "title"))
              && (Get(body.fields, "description").Undefined? || Get(body.fields, "description").Str?)
              && NonEmptyStr(Get(body.fields, "logo"))
              && NonEmptyStr(Get(body.fields, "image"))
              && Get(body.fields, "categoryId").Num? && Get(body.fields, "categoryId").n > 0
              && NumberArrayOrAbsent(Get(body.fields, "skills"))
    ensures r.Pass? ==>
              && Str(r.value.title) == Get(body.fields, "title")
              && Str(r.value.logo) == Get(body.fields, "logo")
              && Str(r.value.image) == Get(body.fields, "image")
              && Num(r.value.categoryId) == Get(body.fields, "categoryId")
              && (r.value.description.Some? <==> Get(body.fields, "description").Str?)
              && (r.value.description.Some? ==> Str(r.value.description.value) == Get(body.fields, "description"))
              && (r.value.skills.Some? <==> Get(body.fields, "skills").Arr?)
              && (r.value.skills.Some? ==>
                    && |r.value.skills.value| == |Get(body.fields, "skills").items|
                    && forall i :: 0 <= i < |r.value.skills.value| ==> Get(body.fields, "skills").items[i] == Num(r.value.skills.value[i]))
    ensures body.Obj? && Get(body.fields, "title") == Str("") ==> Issue(["title"], "Title is required") in r.issues
    ensures body.Obj? && Get(body.fields, "categoryId").Num? && Get(body.fields, "categoryId").n <= 0 ==>
              Issue(["categoryId"], "Category is required") in r.issues
  {
    match AsObject(body)
    case Fail(issues) => Fail(issues)
    case Pass(o) =>
      var title := NonEmptyString(o, "title", "Title is required");
      var description := OptionalString(o, "description");
      var logo := NonEmptyString(o, "logo", "Logo is required");
      var image := NonEmptyString(o, "image", "Image is required");
      var categoryId := PositiveInt(o, "categoryId", "Category is required");
      var skills := OptionalNumbers(o, "skills");
      if title.Pass? && description.Pass? && logo.Pass? && image.Pass? && categoryId.Pass? && skills.Pass? then
        Pass(ProjectInput(title.value, description.value, logo.value, image.value, categoryId.value, skills.value))
      else
        Fail(IssuesOf(title) + IssuesOf(description) + IssuesOf(logo) + IssuesOf(image)
             + IssuesOf(categoryId) + IssuesOf(skills))
  }

  /** `skills: { connect: data.skills?.map(id => ({ id })) || [] }` */
  function SkillIds(input: ProjectInput): (r: set<int>)
    ensures forall k :: k in r <==> input.skills.Some? && k in input.skills.value
  {
    if input.skills.Some? then set k | k in input.skills.value else {}
  }

  /** The foreign keys the store checks on create and update. */
  predicate Connectable(s: Snapshot, input: ProjectInput)
    ensures Connectable(s, input) ==> Find(s.categories, input.categoryId).Some?
    ensures input.skills.None? ==> (Connectable(s, input) <==> HasId(s.categories, input.categoryId))
  {
    HasId(s.categories, input.categoryId) && forall k :: k in SkillIds(input) ==> HasId(s.skills, k)
  }

  // ---------------------------------------------------------------------
  // getProjects
  // ---------------------------------------------------------------------

  /** The query string's `search`, `category`, `page` and `limit`, each absent or a single string. */
  datatype Query = Query(search: Option<string>, category: Option<string>, page: Option<string>, limit: Option<string>)

  datatype Pagination = Pagination(total: nat, pages: Option<int>, currentPage: int, limit: int)
  datatype Page = Page(projects: seq<Row<Project>>, pagination: Pagination)

  /** `Number(v)` for a query value with a numeric default. */
  function QueryNumber(v: Option<string>, default: int): (r: Value)
    ensures r.Num? || r.NaN?
    ensures v.None? ==> r == Num(default)
  {
    if v.None? then Num(default) else StringToNumber(v.value)
  }

  /** `Number` reads page and limit texts as JavaScript does: "2.0", "0x2" and "1e1" are integers. */
  lemma QueryNumberSpellings()
    ensures QueryNumber(Some("2.0"), 1) == Num(2) && QueryNumber(Some("0x2"), 1) == Num(2)
    ensures QueryNumber(Some("1e1"), 10) == Num(10)
  {
    NumberReadsDecimalSpellings();
    NumberReadsHexSpelling();
  }

  /** `?page=2.0` lists the same page as `?page=2`. */
  lemma PageSpellingsAgree(s: Snapshot, q: Query)
    requires LimitSupported(q)
    ensures List(s, q.(page := Some("2.0"))) == List(s, q.(page := Some("2")))
  {
    NumberReadsTwoPointZero();
    StringToNumberOfIntToString(2);
    assert IntToString(2) == "2";
    SamePageNumberSameList(s, q.(page := Some("2.0")), q.(page := Some("2")));
  }

  /** Two queries that differ only in how they spell the same page number list the same page. */
  lemma SamePageNumberSameList(s: Snapshot, q1: Query, q2: Query)
    requires q1.search == q2.search && q1.category == q2.category && q1.limit == q2.limit
    requires QueryNumber(q1.page, 1) == QueryNumber(q2.page, 1) && LimitSupported(q1)
    ensures LimitSupported(q2) && List(s, q1) == List(s, q2)
  {
    FilteredIgnoresPaging(s, s.projects, q1, q2);
    assert Matching(s, q1) == Matching(s, q2);
  }

  /** Which projects match depends on `search` and `category` alone, not on the paging fields. */
  lemma {:induction false} FilteredIgnoresPaging(s: Snapshot, rows: seq<Row<Project>>, q: Query, q': Query)
    requires q.search == q'.search && q.category == q'.category
    ensures Filtered(s, rows, q) == Filtered(s, rows, q')
  {
    if rows != [] {
      FilteredIgnoresPaging(s, rows[1..], q, q');
      assert Matches(s, rows[0].data, q) == Matches(s, rows[0].data, q');
    }
  }

  /** The `where` clause: optional substring search over title and description, optional category name. */
  predicate Matches(s: Snapshot, p: Project, q: Query)
    ensures (q.search.None? || q.search.value == "") && (q.category.None? || q.category.value == "") ==> Matches(s, p, q)
    ensures q.search.Some? && q.search.value != "" && !Contains(p.title, q.search.value) && p.description.None? ==> !Matches(s, p, q)
  {
    && (q.search.Some? && q.search.value != "" ==>
          Contains(p.title, q.search.value) || (p.description.Some? && Contains(p.description.value, q.search.value)))
    && (q.category.Some? && q.category.value != "" ==>
          Find(s.categories, p.categoryId).Some? && Find(s.categories, p.categoryId).value.data.name == q.category.value)
  }

  function Filtered(s: Snapshot, rows: seq<Row<Project>>, q: Query): (r: seq<Row<Project>>)
    ensures |r| <= |rows|
    ensures forall x :: x in r <==> x in rows && Matches(s, x.data, q)
    ensures forall x :: multiset(r)[x] == if Matches(s, x.data, q) then multiset(rows)[x] else 0
    ensures (q.search.None? || q.search.value == "") && (q.category.None? || q.category.value == "") ==> r == rows
  {
    if rows == [] then []
    else
      var tail := Filtered(s, rows[1..], q);
      assert forall x :: x in rows <==> x == rows[0] || x in rows[1..];
      assert rows == [rows[0]] + rows[1..];
      assert multiset(rows) == multiset{rows[0]} + multiset(rows[1..]);
      if Matches(s, rows[0].data, q) then [rows[0]] + tail else tail
  }

  predicate NewestFirst(a: Row<Project>, b: Row<Project>) {
    a.data.createdAt >= b.data.createdAt
  }

  lemma NewestFirstTotalPreorder()
    ensures TotalPreorder(NewestFirst)
  {
  }

  /** Every matching project, newest first. */
  function Matching(s: Snapshot, q: Query): (r: seq<Row<Project>>)
    ensures SortedBy(r, NewestFirst)
    ensures forall x :: x in r <==> x in s.projects && Matches(s, x.data, q)
    ensures multiset(r) == multiset(Filtered(s, s.projects, q))
    ensures |r| <= |s.projects|
  {
    NewestFirstTotalPreorder();
    var f := Filtered(s, s.projects, q);
    var r := Sort(f, NewestFirst);
    assert forall x :: x in r <==> x in multiset(r);
    assert forall x :: x in f <==> x in multiset(f);
    r
  }

  /** With distinct ids, `total` is the number of distinct matching projects. */
  lemma MatchCount(s: Snapshot, q: Query)
    requires WellFormed(s.projects, s.nextProjectId)
    ensures |Matching(s, q)| == |set x | x in s.projects && Matches(s, x.data, q)|
  {
    var f := Filtered(s, s.projects, q);
    assert |Matching(s, q)| == |multiset(Matching(s, q))| == |multiset(f)| == |f|;
    RowsOccurOnce(s.projects);
    forall x ensures multiset(f)[x] <= 1 {
      assert multiset(f)[x] <= multiset(s.projects)[x];
    }
    OnceCard(f);
    assert (set x | x in f) == (set x | x in s.projects && Matches(s, x.data, q));
  }

  /** `skip` and `take` on an ordered result. */
  function Window<T>(rows: seq<T>, skip: nat, take: nat): (r: seq<T>)
    ensures |r| <= take
    ensures skip < |rows| ==> |r| == if |rows| - skip < take then |rows| - skip else take
    ensures forall i :: 0 <= i < |r| ==> skip + i < |rows| && r[i] == rows[skip + i]
  {
    if skip >= |rows| then []
    else if skip + take <= |rows| then rows[skip..skip + take]
    else rows[skip..]
  }

  /** `Math.ceil(total / limit)`; dividing by zero gives Infinity or NaN, which JSON sends as null. */
  function Pages(total: nat, limit: int): (r: Option<int>)
    requires limit >= 0
    ensures limit == 0 <==> r.None?
    ensures limit > 0 && total == 0 ==> r == Some(0)
    ensures limit > 0 && total > 0 ==> r.Some? && (r.value - 1) * limit < total <= r.value * limit
  {
    if limit == 0 then None else Some((total + limit - 1) / limit)
  }

  /** A negative `limit` reaches the store as a negative `take`, whose backwards paging is not modelled. */
  predicate LimitSupported(q: Query) {
    QueryNumber(q.limit, 10).Num? ==> QueryNumber(q.limit, 10).n >= 0
  }

  /** The `skip` of `getProjects`: `(Number(page) - 1) * Number(limit)`. */
  function Skip(page: int, limit: int): (r: int)
    ensures page >= 1 && limit >= 0 ==> r >= 0
    ensures page == 1 ==> r == 0
  {
    (page - 1) * limit
  }

  function List(s: Snapshot, q: Query): (r: Step<Page>)
    requires LimitSupported(q)
    ensures r.after == s
    ensures r.reply.Ok200? || r.reply == Err500("Failed to fetch projects")
    ensures r.reply.Ok200? <==>
              && QueryNumber(q.page, 1).Num? && QueryNumber(q.limit, 10).Num?
              && Skip(QueryNumber(q.page, 1).n, QueryNumber(q.limit, 10).n) >= 0
  {
    var page := QueryNumber(q.page, 1);
    var limit := QueryNumber(q.limit, 10);
    if page.NaN? || limit.NaN? then Step(Err500("Failed to fetch projects"), s)
    else
      var skip := Skip(page.n, limit.n);
      if skip < 0 then Step(Err500("Failed to fetch projects"), s)
      else
        var all := Matching(s, q);
        Step(Ok200(Page(Window(all, skip, limit.n), Pagination(|all|, Pages(|all|, limit.n), page.n, limit.n))), s)
  }

  lemma WindowSorted<T>(rows: seq<T>, skip: nat, take: nat, leq: (T, T) -> bool)
    requires SortedBy(rows, leq)
    ensures SortedBy(Window(rows, skip, take), leq)
  {
    var w := Window(rows, skip, take);
    forall i, j | 0 <= i < j < |w| ensures leq(w[i], w[j]) {
      assert w[i] == rows[skip + i] && w[j] == rows[skip + j];
    }
  }

  /** A page holds at most `limit` matching projects, newest first, and counts all matches. */
  lemma ListedPage(s: Snapshot, q: Query)
    requires LimitSupported(q) && List(s, q).reply.Ok200?
    ensures var page := List(s, q).reply.body;
            && |page.projects| <= page.pagination.limit
            && SortedBy(page.projects, NewestFirst)
            && (forall i :: 0 <= i < |page.projects| ==> page.projects[i] in s.projects && Matches(s, page.projects[i].data, q))
            && page.pagination.total == |Matching(s, q)|
            && page.pagination.currentPage == QueryNumber(q.page, 1).n
            && page.pagination.limit == QueryNumber(q.limit, 10).n
    ensures WellFormed(s.projects, s.nextProjectId) ==>
              List(s, q).reply.body.pagination.total == |set x | x in s.projects && Matches(s, x.data, q)|
  {
    if WellFormed(s.projects, s.nextProjectId) { MatchCount(s, q); }
    var all := Matching(s, q);
    var skip := Skip(QueryNumber(q.page, 1).n, QueryNumber(q.limit, 10).n);
    var items := Window(all, skip, QueryNumber(q.limit, 10).n);
    assert List(s, q).reply.body.projects == items;
    WindowSorted(all, skip, QueryNumber(q.limit, 10).n, NewestFirst);
    assert forall i :: 0 <= i < |items| ==> items[i] in all;
  }

  /**
   * With a positive limit, the k-th matching project is shown on exactly one
   * page: page p shows it, at position k - (p - 1) * limit, precisely when
   * (p - 1) * limit <= k < p * limit, and that page is within `pages`.
   */
  lemma PageOfIndex(s: Snapshot, q: Query, page: int, limit: int, k: int)
    requires limit > 0 && page >= 1 && 0 <= k < |Matching(s, q)|
    requires q.page == Some(IntToString(page)) && q.limit == Some(IntToString(limit))
    requires Skip(page, limit) <= k < Skip(page + 1, limit)
    ensures LimitSupported(q)
    ensures List(s, q).reply.Ok200?
    ensures var items := List(s, q).reply.body.projects;
            k - Skip(page, limit) < |items| && items[k - Skip(page, limit)] == Matching(s, q)[k]
    ensures page <= List(s, q).reply.body.pagination.pages.value
    ensures forall other :: other >= 1 && Skip(other, limit) <= k < Skip(other + 1, limit) ==> other == page
  {
    ListOfNumbers(s, q, page, limit);
    var all := Matching(s, q);
    SkipStep(page, limit);
    WindowHolds(all, Skip(page, limit), limit, k);
    PageWithinPages(|all|, page, limit, k);
    OnlyPage(page, limit, k);
  }

  /** No other page covers the index that `page` covers. */
  lemma OnlyPage(page: int, limit: int, k: int)
    requires limit > 0 && page >= 1 && Skip(page, limit) <= k < Skip(page + 1, limit)
    ensures forall other :: other >= 1 && Skip(other, limit) <= k < Skip(other + 1, limit) ==> other == page
  {
    forall other | other >= 1 && Skip(other, limit) <= k < Skip(other + 1, limit) ensures other == page {
      PageUnique(page, other, limit, k);
    }
  }

  /** A window of `take` rows from `skip` holds every row whose index is in that range. */
  lemma WindowHolds<T>(rows: seq<T>, skip: nat, take: nat, k: int)
    requires skip <= k < skip + take && k < |rows|
    ensures k - skip < |Window(rows, skip, take)| && Window(rows, skip, take)[k - skip] == rows[k]
  {
    var j := k - skip;
    assert Window(rows, skip, take)[j] == rows[skip + j];
  }

  /** With numeric `page` and `limit` texts, the listing is the window of the matches at `(page - 1) * limit`. */
  lemma ListOfNumbers(s: Snapshot, q: Query, page: int, limit: int)
    requires page >= 1 && limit >= 0
    requires q.page == Some(IntToString(page)) && q.limit == Some(IntToString(limit))
    ensures LimitSupported(q) && Skip(page, limit) >= 0
    ensures List(s, q) == Step(Ok200(Page(Window(Matching(s, q), Skip(page, limit), limit),
                                          Pagination(|Matching(s, q)|, Pages(|Matching(s, q)|, limit), page, limit))), s)
  {
    StringToNumberOfIntToString(page);
    StringToNumberOfIntToString(limit);
    assert QueryNumber(q.page, 1) == Num(page) && QueryNumber(q.limit, 10) == Num(limit);
    NonNegativeProduct(page - 1, limit);
  }

  /** An index on page `page` is below the total, so the page count reaches `page`. */
  lemma PageWithinPages(total: nat, page: int, limit: int, k: int)
    requires limit > 0 && page >= 1 && Skip(page, limit) <= k < total
    ensures page <= Pages(total, limit).value
  {
    var pages := Pages(total, limit).value;
    if pages < page {
      SkipMonotone(pages + 1, page, limit);
    }
  }

  /** The pages' index ranges do not overlap. */
  lemma PageUnique(page: int, other: int, limit: int, k: int)
    requires limit > 0 && page >= 1 && other >= 1
    requires Skip(page, limit) <= k < Skip(page + 1, limit)
    requires Skip(other, limit) <= k < Skip(other + 1, limit)
    ensures other == page
  {
    if other < page { SkipMonotone(other + 1, page, limit); }
    if other > page { SkipMonotone(page + 1, other, limit); }
  }

  lemma SkipMonotone(a: int, b: int, limit: int)
    requires a <= b && limit >= 0
    ensures Skip(a, limit) <= Skip(b, limit)
  {
    assert Skip(b, limit) - Skip(a, limit) == (b - a) * limit;
    NonNegativeProduct(b - a, limit);
  }

  lemma SkipStep(page: int, limit: int)
    ensures Skip(page + 1, limit) == Skip(page, limit) + limit
  {
  }

  lemma NonNegativeProduct(a: int, b: int)
    requires a >= 0 && b >= 0
    ensures a * b >= 0
  {
  }

  /** The second page of ten out of 25 projects: ten items, three pages. */
  lemma SecondPageOfTwentyFive(s: Snapshot)
    requires |s.projects| == 25
    ensures LimitSupported(Query(None, None, Some("2"), Some("10")))
    ensures var r := List(s, Query(None, None, Some("2"), Some("10"))).reply;
            && r.Ok200?
            && r.body.pagination == Pagination(25, Some(3), 2, 10)
            && |r.body.projects| == 10
  {
    var q := Query(None, None, Some("2"), Some("10"));
    assert IntToString(2) == "2" && IntToString(10) == "10";
    ListOfNumbers(s, q, 2, 10);
    assert Filtered(s, s.projects, q) == s.projects;
  }

  // ---------------------------------------------------------------------
  // getProjectById, createProject, updateProject, deleteProject
  // ---------------------------------------------------------------------

  function GetById(s: Snapshot, id: string): (r: Step<Row<Project>>)
    ensures r.after == s
    ensures ParseInt(id).None? <==> r.reply == Bad400("Invalid project ID", None)
    ensures ParseInt(id).Some? && !HasId(s.projects, ParseInt(id).value) <==> r.reply == NotFound404("Project not found")
    ensures r.reply.Ok200? ==> r.reply.body in s.projects && Some(r.reply.body.id) == ParseInt(id)
  {
    var key := ParseInt(id);
    if key.None? then Step(Bad400("Invalid project ID", None), s)
    else
      match Find(s.projects, key.value)
      case None => Step(NotFound404("Project not found"), s)
      case Some(row) => Step(Ok200(row), s)
  }

  function Created(input: ProjectInput, now: int): Project {
    Project(input.title, input.description, input.logo, input.image, input.categoryId, SkillIds(input), now)
  }

  /** `createProject`: `now` is the store's clock for `createdAt`. */
  function Create(s: Snapshot, body: Value, now: int): (r: Step<Row<Project>>)
    ensures r.reply.Created201? <==> ProjectSchema(body).Pass? && Connectable(s, ProjectSchema(body).value)
    ensures r.reply.Created201? ==>
              && r.reply.body == Row(s.nextProjectId, Created(ProjectSchema(body).value, now))
              && r.after == s.(projects := s.projects + [r.reply.body], nextProjectId := s.nextProjectId + 1)
    ensures !r.reply.Created201? ==> r.after == s
    ensures ProjectSchema(body).Fail? ==> r.reply == Bad400("Invalid project data", Some(ProjectSchema(body).issues))
    ensures ProjectSchema(body).Pass? && !r.reply.Created201? ==> r.reply == Err500("Failed to create project")
  {
    match ProjectSchema(body)
    case Fail(issues) => Step(Bad400("Invalid project data", Some(issues)), s)
    case Pass(input) =>
      if !Connectable(s, input) then Step(Err500("Failed to create project"), s)
      else
        var row := Row(s.nextProjectId, Created(input, now));
        Step(Created201(row), s.(projects := Insert(s.projects, s.nextProjectId, Created(input, now)),
                                 nextProjectId := s.nextProjectId + 1))
  }

  /**
   * The row after `update`: `description: undefined` keeps the stored one,
   * `skills: { set: [], connect }` replaces the whole set, and `createdAt` stays.
   */
  function Updated(stored: Project, input: ProjectInput): (p: Project)
    ensures p.skills == SkillIds(input)
    ensures p.createdAt == stored.createdAt
    ensures p.description == if input.description.Some? then input.description else stored.description
  {
    Project(input.title, if input.description.Some? then input.description else stored.description,
            input.logo, input.image, input.categoryId, SkillIds(input), stored.createdAt)
  }

  function Update(s: Snapshot, id: string, body: Value): (r: Step<Row<Project>>)
    ensures r.reply.Ok200? <==>
              && ParseInt(id).Some? && ProjectSchema(body).Pass?
              && HasId(s.projects, ParseInt(id).value) && Connectable(s, ProjectSchema(body).value)
    ensures r.reply.Ok200? ==>
              && r.reply.body == Row(ParseInt(id).value, Updated(Find(s.projects, ParseInt(id).value).value.data, ProjectSchema(body).value))
              && r.after == s.(projects := Replace(s.projects, ParseInt(id).value, r.reply.body.data))
    ensures !r.reply.Ok200? ==> r.after == s
    ensures ParseInt(id).None? ==> r.reply == Bad400("Invalid project ID", None)
    ensures ParseInt(id).Some? && ProjectSchema(body).Fail? ==> r.reply == Bad400("Invalid project data", Some(ProjectSchema(body).issues))
    ensures ParseInt(id).Some? && ProjectSchema(body).Pass? && !r.reply.Ok200? ==> r.reply == Err500("Failed to update project")
  {
    var key := ParseInt(id);
    if key.None? then Step(Bad400("Invalid project ID", None), s)
    else
      match ProjectSchema(body)
      case Fail(issues) => Step(Bad400("Invalid project data", Some(issues)), s)
      case Pass(input) =>
        match Find(s.projects, key.value)
        case None => Step(Err500("Failed to update project"), s)
        case Some(current) =>
          if !Connectable(s, input) then Step(Err500("Failed to update project"), s)
          else
            var row := Row(key.value, Updated(current.data, input));
            Step(Ok200(row), s.(projects := Replace(s.projects, key.value, row.data)))
  }

  function Delete(s: Snapshot, id: string): (r: Step<()>)
    ensures r.reply.NoContent204? <==> ParseInt(id).Some? && HasId(s.projects, ParseInt(id).value)
    ensures r.reply.NoContent204? ==> r.after == s.(projects := Tables.Delete(s.projects, ParseInt(id).value))
    ensures !r.reply.NoContent204? ==> r.after == s
    ensures ParseInt(id).None? ==> r.reply == Bad400("Invalid project ID", None)
    ensures ParseInt(id).Some? && !HasId(s.projects, ParseInt(id).value) ==> r.reply == Err500("Failed to delete project")
  {
    var key := ParseInt(id);
    if key.None? then Step(Bad400("Invalid project ID", None), s)
    else if Find(s.projects, key.value).None? then Step(Err500("Failed to delete project"), s)
    else Step(NoContent204, s.(projects := Tables.Delete(s.projects, key.value)))
  }

  /** Updating the skills of a project to `[3]` leaves it linked to skill 3 alone. */
  lemma UpdateReplacesSkills(s: Snapshot, id: string, body: Value)
    requires Update(s, id, body).reply.Ok200?
    ensures Update(s, id, body).reply.body.data.skills == SkillIds(ProjectSchema(body).value)
    ensures ProjectSchema(body).value.skills == Some([3]) ==> Update(s, id, body).reply.body.data.skills == {3}
  {
  }

  lemma {:induction false} CreateKeepsConsistent(s: Snapshot, body: Value, now: int)
    requires Consistent(s)
    ensures Consistent(Create(s, body, now).after)
  {
    var r := Create(s, body, now);
    if r.reply.Created201? {
      InsertWellFormed(s.projects, s.nextProjectId, r.reply.body.data);
      var a := r.after;
      assert References(a.projects, a.categories, a.skills) by {
        forall i | 0 <= i < |a.projects|
          ensures HasId(a.categories, a.projects[i].data.categoryId)
          ensures forall k :: k in a.projects[i].data.skills ==> HasId(a.skills, k)
        {
          if i < |s.projects| { assert a.projects[i] == s.projects[i]; }
        }
      }
    }
  }

  lemma {:induction false} UpdateKeepsConsistent(s: Snapshot, id: string, body: Value)
    requires Consistent(s)
    ensures Consistent(Update(s, id, body).after)
  {
    var r := Update(s, id, body);
    if r.reply.Ok200? {
      var key := ParseInt(id).value;
      ReplaceWellFormed(s.projects, s.nextProjectId, key, r.reply.body.data);
      var a := r.after;
      assert References(a.projects, a.categories, a.skills) by {
        forall i | 0 <= i < |a.projects|
          ensures HasId(a.categories, a.projects[i].data.categoryId)
          ensures forall k :: k in a.projects[i].data.skills ==> HasId(a.skills, k)
        {
          if s.projects[i].id != key { assert a.projects[i] == s.projects[i]; }
        }
      }
    }
  }

  lemma {:induction false} DeleteKeepsConsistent(s: Snapshot, id: string)
    requires Consistent(s)
    ensures Consistent(Delete(s, id).after)
  {
    var r := Delete(s, id);
    if r.reply.NoContent204? {
      var key := ParseInt(id).value;
      DeleteWellFormed(s.projects, s.nextProjectId, key);
      var a := r.after;
      assert References(a.projects, a.categories, a.skills) by {
        forall i | 0 <= i < |a.projects|
          ensures HasId(a.categories, a.projects[i].data.categoryId)
          ensures forall k :: k in a.projects[i].data.skills ==> HasId(a.skills, k)
        {
          assert a.projects[i] in s.projects;
        }
      }
    }
  }

  // ---------------------------------------------------------------------
  // The handlers
  // ---------------------------------------------------------------------

  method GetProjects(db: Db, q: Query) returns (r: Reply<Page>)
    requires LimitSupported(q)
    ensures Step(r, db.State()) == List(db.State(), q)
  {
    var page := QueryNumber(q.page, 1);
    var limit := QueryNumber(q.limit, 10);
    if page.NaN? || limit.NaN? {
      return Err500("Failed to fetch projects");
    }
    var skip := Skip(page.n, limit.n);
    if skip < 0 {
      return Err500("Failed to fetch projects");
    }
    var all := Matching(db.State(), q);
    r := Ok200(Page(Window(all, skip, limit.n), Pagination(|all|, Pages(|all|, limit.n), page.n, limit.n)));
  }

  method GetProjectById(db: Db, id: string) returns (r: Reply<Row<Project>>)
    ensures Step(r, db.State()) == GetById(db.State(), id)
  {
    var key := ParseInt(id);
    if key.None? {
      return Bad400("Invalid project ID", None);
    }
    var project := Find(db.projects, key.value);
    if project.None? {
      return NotFound404("Project not found");
    }
    r := Ok200(project.value);
  }

  method CreateProject(db: Db, body: Value, now: int) returns (r: Reply<Row<Project>>)
    requires db.Valid()
    modifies db`projects, db`nextProjectId
    ensures db.Valid()
    ensures Step(r, db.State()) == Create(old(db.State()), body, now)
  {
    ghost var s := db.State();
    CreateKeepsConsistent(s, body, now);
    ghost var spec := Create(s, body, now);
    var parsed := ProjectSchema(body);
    if parsed.Fail? {
      assert spec == Step(Bad400("Invalid project data", Some(parsed.issues)), s);
      return Bad400("Invalid project data", Some(parsed.issues));
    }
    if !Connectable(db.State(), parsed.value) {
      assert spec == Step(Err500("Failed to create project"), s);
      return Err500("Failed to create project");
    }
    var row := Row(db.nextProjectId, Created(parsed.value, now));
    db.projects := db.projects + [row];
    db.nextProjectId := db.nextProjectId + 1;
    r := Created201(row);
    assert db.State() == spec.after;
  }

  method UpdateProject(db: Db, id: string, body: Value) returns (r: Reply<Row<Project>>)
    requires db.Valid()
    modifies db`projects
    ensures db.Valid()
    ensures Step(r, db.State()) == Update(old(db.State()), id, body)
  {
    ghost var s := db.State();
    ghost var spec := Update(s, id, body);
    var key := ParseInt(id);
    if key.None? {
      assert spec == Step(Bad400("Invalid project ID", None), s);
      return Bad400("Invalid project ID", None);
    }
    var parsed := ProjectSchema(body);
    if parsed.Fail? {
      assert spec == Step(Bad400("Invalid project data", Some(parsed.issues)), s);
      return Bad400("Invalid project data", Some(parsed.issues));
    }
    var current := Find(db.projects, key.value);
    if current.None? || !Connectable(db.State(), parsed.value) {
      assert spec == Step(Err500("Failed to update project"), s);
      return Err500("Failed to update project");
    }
    var data := Updated(current.value.data, parsed.value);
    UpdateKeepsConsistent(s, id, body);
    db.projects := Replace(db.projects, key.value, data);
    r := Ok200(Row(key.value, data));
    assert db.State() == spec.after;
  }

  method DeleteProject(db: Db, id: string) returns (r: Reply<()>)
    requires db.Valid()
    modifies db`projects
    ensures db.Valid()
    ensures Step(r, db.State()) == Delete(old(db.State()), id)
  {
    ghost var s := db.State();
    DeleteKeepsConsistent(s, id);
    ghost var spec := Delete(s, id);
    var key := ParseInt(id);
    if key.None? {
      assert spec == Step(Bad400("Invalid project ID", None), s);
      return Bad400("Invalid project ID", None);
    }
    var current := Find(db.projects, key.value);
    if current.None? {
      assert spec == Step(Err500("Failed to delete project"), s);
      return Err500("Failed to delete project");
    }
    db.projects := Tables.Delete(db.projects, key.value);
    r := NoContent204;
    assert db.State() == spec.after;
  }
}
