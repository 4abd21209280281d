/**
 * The seed script: upsert the admin user by email, the four stock categories
 * by name, and the office location as row 1, each with `update: {}` so that
 * an existing row is left as it is.  The bcrypt hash of the admin password is
 * a parameter, as is the clock reading `now`.
 */
module Seed {
  import opened Wrappers
  import opened Tables
  import opened Store

  const AdminEmail := "admin@example.com"
  const CategoryNames := ["Web Design", "iPhone App Design", "Video Projects", "Side Projects"]
  const SeedCity := "Nashville, TN"
  const SeedOfficeHours := "in office till 6"

  function Admin(hashedPassword: string): User {
    User(AdminEmail, hashedPassword, "Admin", "admin")
  }

  /** `user.upsert({ where: { email }, update: {}, create })` */
  function UpsertAdmin(s: Snapshot, hashedPassword: string): Snapshot {
    if FindBy(s.users, UserEmail, AdminEmail).Some? then s
    else s.(users := Insert(s.users, s.nextUserId, Admin(hashedPassword)), nextUserId := s.nextUserId + 1)
  }

  /** `category.upsert({ where: { name }, update: {}, create: { name } })` */
  function UpsertCategory(s: Snapshot, name: string): Snapshot {
    if FindBy(s.categories, CategoryName, name).Some? then s
    else s.(categories := Insert(s.categories, s.nextCategoryId, Category(name)), nextCategoryId := s.nextCategoryId + 1)
  }

  /** The category loop, one upsert per name in list order. */
  function UpsertCategories(s: Snapshot, names: seq<string>): Snapshot
    decreases |names|
  {
    if names == [] then s else UpsertCategory(UpsertCategories(s, names[..|names| - 1]), names[|names| - 1])
  }

  /** `location.upsert({ where: { id: 1 }, update: {}, create: { city, officeHours } })` */
  function UpsertLocation(s: Snapshot, now: int): Snapshot {
    if HasId(s.location, 1) then s
    else s.(location := Insert(s.location, s.nextLocationId, Location(SeedCity, SeedOfficeHours, now)),
            nextLocationId := s.nextLocationId + 1)
  }

  /** The store after `seed()`. */
  function Seeded(s: Snapshot, hashedPassword: string, now: int): Snapshot {
    UpsertLocation(UpsertCategories(UpsertAdmin(s, hashedPassword), CategoryNames), now)
  }

  predicate HasCategory(s: Snapshot, name: string) {
    FindBy(s.categories, CategoryName, name).Some?
  }

  lemma UpsertCategoryKeepsConsistent(s: Snapshot, name: string)
    requires Consistent(s)
    ensures Consistent(UpsertCategory(s, name))
    ensures HasCategory(UpsertCategory(s, name), name)
    ensures forall n :: HasCategory(s, n) ==> HasCategory(UpsertCategory(s, n), n)
  {
    if !HasCategory(s, name) {
      var a := UpsertCategory(s, name);
      InsertWellFormed(s.categories, s.nextCategoryId, Category(name));
      InsertUnique(s.categories, s.nextCategoryId, Category(name), CategoryName);
      forall k ensures HasId(s.categories, k) ==> HasId(a.categories, k) {
        InsertKeeps(s.categories, s.nextCategoryId, Category(name), k);
      }
      assert a.categories[|s.categories|].data.name == name;
    }
  }

  /**
   * The loop keeps the store consistent, leaves every other table alone,
   * keeps every category already there (in place) and ends with every listed
   * name present.
   */
  lemma {:induction false} UpsertCategoriesKeepsConsistent(s: Snapshot, names: seq<string>)
    requires Consistent(s)
    ensures Consistent(UpsertCategories(s, names))
    ensures forall i :: 0 <= i < |names| ==> HasCategory(UpsertCategories(s, names), names[i])
    ensures UpsertCategories(s, names) == s.(categories := UpsertCategories(s, names).categories,
                                             nextCategoryId := UpsertCategories(s, names).nextCategoryId)
    ensures s.categories <= UpsertCategories(s, names).categories
    decreases |names|
  {
    if names != [] {
      var prefix := names[..|names| - 1];
      var last := names[|names| - 1];
      UpsertCategoriesKeepsConsistent(s, prefix);
      var mid := UpsertCategories(s, prefix);
      UpsertCategoryKeepsConsistent(mid, last);
      forall i | 0 <= i < |names| ensures HasCategory(UpsertCategories(s, names), names[i]) {
        if i < |names| - 1 {
          assert names[i] == prefix[i];
          var row := FindBy(mid.categories, CategoryName, names[i]).value;
          assert row in UpsertCategory(mid, last).categories;
        }
      }
    }
  }

  /** With every listed name present the loop changes nothing. */
  lemma {:induction false} UpsertCategoriesNoop(s: Snapshot, names: seq<string>)
    requires forall i :: 0 <= i < |names| ==> HasCategory(s, names[i])
    ensures UpsertCategories(s, names) == s
    decreases |names|
  {
    if names != [] {
      var prefix := names[..|names| - 1];
      assert forall i :: 0 <= i < |prefix| ==> prefix[i] == names[i];
      UpsertCategoriesNoop(s, prefix);
    }
  }

  lemma UpsertAdminKeepsConsistent(s: Snapshot, hashedPassword: string)
    requires Consistent(s)
    ensures Consistent(UpsertAdmin(s, hashedPassword))
    ensures FindBy(UpsertAdmin(s, hashedPassword).users, UserEmail, AdminEmail).Some?
  {
    if FindBy(s.users, UserEmail, AdminEmail).None? {
      InsertWellFormed(s.users, s.nextUserId, Admin(hashedPassword));
      InsertUnique(s.users, s.nextUserId, Admin(hashedPassword), UserEmail);
      assert UpsertAdmin(s, hashedPassword).users[|s.users|].data.email == AdminEmail;
    }
  }

  /** The location upsert creates row 1 in an empty table and otherwise leaves the table alone. */
  lemma UpsertLocationKeepsConsistent(s: Snapshot, now: int)
    requires Consistent(s)
    ensures Consistent(UpsertLocation(s, now))
    ensures HasId(s.location, 1) ==> UpsertLocation(s, now) == s
    ensures !HasId(s.location, 1) ==> UpsertLocation(s, now).location == [Row(1, Location(SeedCity, SeedOfficeHours, now))]
  {
    SingletonCases(s.location, s.nextLocationId);
  }

  /** Seeding keeps the store consistent. */
  lemma SeedKeepsConsistent(s: Snapshot, hashedPassword: string, now: int)
    requires Consistent(s)
    ensures Consistent(Seeded(s, hashedPassword, now))
  {
    UpsertAdminKeepsConsistent(s, hashedPassword);
    var a := UpsertAdmin(s, hashedPassword);
    UpsertCategoriesKeepsConsistent(a, CategoryNames);
    UpsertLocationKeepsConsistent(UpsertCategories(a, CategoryNames), now);
  }

  /** Seeding leaves the admin user, and an existing one untouched. */
  lemma SeedEstablishesAdmin(s: Snapshot, hashedPassword: string, now: int)
    requires Consistent(s)
    ensures FindBy(Seeded(s, hashedPassword, now).users, UserEmail, AdminEmail).Some?
    ensures FindBy(s.users, UserEmail, AdminEmail).Some? ==> Seeded(s, hashedPassword, now).users == s.users
  {
    UpsertAdminKeepsConsistent(s, hashedPassword);
    var a := UpsertAdmin(s, hashedPassword);
    UpsertCategoriesKeepsConsistent(a, CategoryNames);
  }

  /** Seeding leaves each stock category exactly once, and keeps every category already there. */
  lemma SeedEstablishesCategories(s: Snapshot, hashedPassword: string, now: int)
    requires Consistent(s)
    ensures forall i :: 0 <= i < |CategoryNames| ==> HasCategory(Seeded(s, hashedPassword, now), CategoryNames[i])
    ensures UniqueBy(Seeded(s, hashedPassword, now).categories, CategoryName)
    ensures s.categories <= Seeded(s, hashedPassword, now).categories
  {
    UpsertAdminKeepsConsistent(s, hashedPassword);
    var a := UpsertAdmin(s, hashedPassword);
    UpsertCategoriesKeepsConsistent(a, CategoryNames);
  }

  /** Seeding leaves location row 1: the Nashville defaults only when there was none. */
  lemma SeedEstablishesLocation(s: Snapshot, hashedPassword: string, now: int)
    requires Consistent(s)
    ensures HasId(s.location, 1) ==> Seeded(s, hashedPassword, now).location == s.location
    ensures !HasId(s.location, 1) ==> Seeded(s, hashedPassword, now).location == [Row(1, Location(SeedCity, SeedOfficeHours, now))]
  {
    UpsertAdminKeepsConsistent(s, hashedPassword);
    var a := UpsertAdmin(s, hashedPassword);
    UpsertCategoriesKeepsConsistent(a, CategoryNames);
    UpsertLocationKeepsConsistent(UpsertCategories(a, CategoryNames), now);
  }

  /** Running the seed a second time, with any hash and clock, changes nothing. */
  lemma SeedIdempotent(s: Snapshot, hashedPassword: string, now: int, hashedAgain: string, later: int)
    requires Consistent(s)
    ensures Seeded(Seeded(s, hashedPassword, now), hashedAgain, later) == Seeded(s, hashedPassword, now)
  {
    var once := Seeded(s, hashedPassword, now);
    SeedEstablishesAdmin(s, hashedPassword, now);
    SeedEstablishesCategories(s, hashedPassword, now);
    SeedKeepsConsistent(s, hashedPassword, now);
    assert UpsertAdmin(once, hashedAgain) == once;
    UpsertCategoriesNoop(once, CategoryNames);
    UpsertLocationKeepsConsistent(s, now);
    UpsertAdminKeepsConsistent(s, hashedPassword);
    UpsertCategoriesKeepsConsistent(UpsertAdmin(s, hashedPassword), CategoryNames);
    UpsertLocationKeepsConsistent(UpsertCategories(UpsertAdmin(s, hashedPassword), CategoryNames), now);
    UpsertLocationKeepsConsistent(once, later);
  }

  lemma UpsertCategoriesStep(s: Snapshot, names: seq<string>, i: int)
    requires 0 <= i < |names|
    ensures UpsertCategories(s, names[..i + 1]) == UpsertCategory(UpsertCategories(s, names[..i]), names[i])
  {
    assert names[..i + 1][..i] == names[..i];
  }

  method SeedAdmin(db: Db, hashedPassword: string)
    modifies db`users, db`nextUserId
    ensures db.State() == UpsertAdmin(old(db.State()), hashedPassword)
  {
    if FindBy(db.users, UserEmail, AdminEmail).None? {
      db.users := db.users + [Row(db.nextUserId, Admin(hashedPassword))];
      db.nextUserId := db.nextUserId + 1;
    }
  }

  /** The `for (const name of categories)` loop. */
  method SeedCategories(db: Db, names: seq<string>)
    modifies db`categories, db`nextCategoryId
    ensures db.State() == UpsertCategories(old(db.State()), names)
  {
    ghost var start := db.State();
    for i := 0 to |names|
      invariant db.State() == UpsertCategories(start, names[..i])
    {
      UpsertCategoriesStep(start, names, i);
      ghost var before := db.State();
      if FindBy(db.categories, CategoryName, names[i]).None? {
        db.categories := db.categories + [Row(db.nextCategoryId, Category(names[i]))];
        db.nextCategoryId := db.nextCategoryId + 1;
      }
      assert db.State() == UpsertCategory(before, names[i]);
    }
    assert names[..|names|] == names;
  }

  method SeedLocation(db: Db, now: int)
    modifies db`location, db`nextLocationId
    ensures db.State() == UpsertLocation(old(db.State()), now)
  {
    if !HasId(db.location, 1) {
      db.location := db.location + [Row(db.nextLocationId, Location(SeedCity, SeedOfficeHours, now))];
      db.nextLocationId := db.nextLocationId + 1;
    }
  }

  /** `seed()`: the three upserts in order. */
  method RunSeed(db: Db, hashedPassword: string, now: int)
    requires db.Valid()
    modifies db`users, db`nextUserId, db`categories, db`nextCategoryId, db`location, db`nextLocationId
    ensures db.Valid()
    ensures db.State() == Seeded(old(db.State()), hashedPassword, now)
  {
    SeedKeepsConsistent(db.State(), hashedPassword, now);
    SeedAdmin(db, hashedPassword);
    SeedCategories(db, CategoryNames);
    SeedLocation(db, now);
  }
}
