/**
 * The relational store behind the controllers: one table per entity, each
 * with its own auto-increment counter, and the constraints the store itself
 * enforces (unique columns, foreign keys, the About and Location singletons).
 * `Snapshot` is the store as a value; `Db` is the store the request handlers
 * read and update in place.
 */
module Store {
  import opened Wrappers
  import opened Tables
  import opened Schema

  datatype User = User(email: string, password: string, name: string, role: string)
  datatype Category = Category(name: string)
  datatype Skill = Skill(name: string)
  datatype Project = Project(title: string, description: Option<string>, logo: string, image: string,
                             categoryId: int, skills: set<int>, createdAt: int)
  datatype Tech = Tech(name: string, icon: string, category: string, proficiency: int)
  datatype Education = Education(institution: string, degree: string, field: string, startDate: int,
                                 endDate: Option<int>, current: bool, description: Option<string>)
  datatype Experience = Experience(title: string, company: string, startDate: int, endDate: Option<int>,
                                   current: bool, description: string)
  datatype About = About(biography: string, resumeUrl: Option<string>, updatedAt: int)
  datatype Location = Location(city: string, officeHours: string, updatedAt: int)

  function UserEmail(u: User): string { u.email }
  function CategoryName(c: Category): string { c.name }
  function SkillName(s: Skill): string { s.name }

  /** No two rows share a value of the unique column `key`. */
  ghost predicate UniqueBy<T>(rows: seq<Row<T>>, key: T -> string) {
    forall i, j :: 0 <= i < j < |rows| ==> key(rows[i].data) != key(rows[j].data)
  }

  lemma UniqueByTail<T>(rows: seq<Row<T>>, key: T -> string)
    requires rows != [] && UniqueBy(rows, key)
    ensures UniqueBy(rows[1..], key)
  {
    forall p, q | 0 <= p < q < |rows[1..]| ensures key(rows[1..][p].data) != key(rows[1..][q].data) {
      assert rows[1..][p] == rows[p + 1] && rows[1..][q] == rows[q + 1];
    }
  }

  lemma UniqueByCons<T>(head: Row<T>, tail: seq<Row<T>>, key: T -> string)
    requires UniqueBy(tail, key)
    requires forall k :: 0 <= k < |tail| ==> key(tail[k].data) != key(head.data)
    ensures UniqueBy([head] + tail, key)
  {
    forall p, q | 0 <= p < q < |[head] + tail| ensures key(([head] + tail)[p].data) != key(([head] + tail)[q].data) {
      if p > 0 {
        assert ([head] + tail)[p] == tail[p - 1];
      }
      assert ([head] + tail)[q] == tail[q - 1];
    }
  }

  /** Deleting a row keeps a unique column unique. */
  lemma {:induction false} DeleteKeepsUnique<T>(rows: seq<Row<T>>, id: int, key: T -> string)
    requires UniqueBy(rows, key)
    ensures UniqueBy(Delete(rows, id), key)
  {
    if rows != [] {
      UniqueByTail(rows, key);
      DeleteKeepsUnique(rows[1..], id, key);
      if rows[0].id != id {
        var tail := Delete(rows[1..], id);
        forall k | 0 <= k < |tail| ensures key(tail[k].data) != key(rows[0].data) {
          var m :| 0 <= m < |rows[1..]| && rows[1..][m] == tail[k];
          assert rows[m + 1] == tail[k];
        }
        UniqueByCons(rows[0], tail, key);
      }
    }
  }

  /** A table written only through `upsert({ where: { id: 1 } })` and a create on an empty table. */
  ghost predicate Singleton<T>(rows: seq<Row<T>>, next: int) {
    && |rows| <= 1
    && (forall i :: 0 <= i < |rows| ==> rows[i].id == 1)
    && (rows == [] ==> next == 1)
  }

  /** Appending a row whose key no row has keeps the keys distinct. */
  lemma InsertUnique<T>(rows: seq<Row<T>>, next: int, data: T, key: T -> string)
    requires UniqueBy(rows, key)
    requires forall i :: 0 <= i < |rows| ==> key(rows[i].data) != key(data)
    ensures UniqueBy(Insert(rows, next, data), key)
  {
    var r := Insert(rows, next, data);
    forall i, j | 0 <= i < j < |r| ensures key(r[i].data) != key(r[j].data) {
      assert r[i] == rows[i];
      if j < |rows| {
        assert r[j] == rows[j];
      }
    }
  }

  /** A singleton table holds row 1, or is empty with its counter still at 1. */
  lemma SingletonCases<T>(rows: seq<Row<T>>, next: int)
    requires Singleton(rows, next)
    ensures HasId(rows, 1) || (rows == [] && next == 1)
    ensures HasId(rows, 1) ==> rows == [rows[0]] && rows[0].id == 1
  {
    if rows != [] {
      assert rows[0].id == 1;
    }
  }

  /** Foreign keys: every project's category and skills exist. */
  ghost predicate References(projects: seq<Row<Project>>, categories: seq<Row<Category>>, skills: seq<Row<Skill>>) {
    forall i :: 0 <= i < |projects| ==>
      && HasId(categories, projects[i].data.categoryId)
      && (forall k :: k in projects[i].data.skills ==> HasId(skills, k))
  }

  datatype Snapshot = Snapshot(
    users: seq<Row<User>>, nextUserId: int,
    categories: seq<Row<Category>>, nextCategoryId: int,
    skills: seq<Row<Skill>>, nextSkillId: int,
    projects: seq<Row<Project>>, nextProjectId: int,
    techStack: seq<Row<Tech>>, nextTechId: int,
    education: seq<Row<Education>>, nextEducationId: int,
    experiences: seq<Row<Experience>>, nextExperienceId: int,
    about: seq<Row<About>>, nextAboutId: int,
    location: seq<Row<Location>>, nextLocationId: int)

  ghost predicate Consistent(s: Snapshot) {
    && WellFormed(s.users, s.nextUserId) && UniqueBy(s.users, UserEmail)
    && WellFormed(s.categories, s.nextCategoryId) && UniqueBy(s.categories, CategoryName)
    && WellFormed(s.skills, s.nextSkillId) && UniqueBy(s.skills, SkillName)
    && WellFormed(s.projects, s.nextProjectId) && References(s.projects, s.categories, s.skills)
    && WellFormed(s.techStack, s.nextTechId)
    && WellFormed(s.education, s.nextEducationId)
    && WellFormed(s.experiences, s.nextExperienceId)
    && Singleton(s.about, s.nextAboutId)
    && Singleton(s.location, s.nextLocationId)
  }

  /** A freshly migrated database: every table empty, every counter at 1. */
  const Empty := Snapshot([], 1, [], 1, [], 1, [], 1, [], 1, [], 1, [], 1, [], 1, [], 1)

  /** What a handler sends: a status and a JSON body (`message`, and `errors` for a ZodError). */
  datatype Reply<+T> =
    | Ok200(body: T)
    | Created201(body: T)
    | NoContent204
    | Bad400(message: string, errors: Option<seq<Issue>>)
    | NotFound404(message: string)
    | Err500(message: string)

  /** A handler's reply together with the store it leaves behind. */
  datatype Step<+T> = Step(reply: Reply<T>, after: Snapshot)

  class Db {
    var users: seq<Row<User>>
    var nextUserId: int
    var categories: seq<Row<Category>>
    var nextCategoryId: int
    var skills: seq<Row<Skill>>
    var nextSkillId: int
    var projects: seq<Row<Project>>
    var nextProjectId: int
    var techStack: seq<Row<Tech>>
    var nextTechId: int
    var education: seq<Row<Education>>
    var nextEducationId: int
    var experiences: seq<Row<Experience>>
    var nextExperienceId: int
    var about: seq<Row<About>>
    var nextAboutId: int
    var location: seq<Row<Location>>
    var nextLocationId: int

    function State(): Snapshot
      reads this
    {
      Snapshot(users, nextUserId, categories, nextCategoryId, skills, nextSkillId,
               projects, nextProjectId, techStack, nextTechId, education, nextEducationId,
               experiences, nextExperienceId, about, nextAboutId, location, nextLocationId)
    }

    ghost predicate Valid()
      reads this
    {
      Consistent(State())
    }

    constructor ()
      ensures State() == Empty && Valid()
    {
      users, nextUserId := [], 1;
      categories, nextCategoryId := [], 1;
      skills, nextSkillId := [], 1;
      projects, nextProjectId := [], 1;
      techStack, nextTechId := [], 1;
      education, nextEducationId := [], 1;
      experiences, nextExperienceId := [], 1;
      about, nextAboutId := [], 1;
      location, nextLocationId := [], 1;
    }
  }
}
