/**
 * The skill handlers: list by name, and create with an explicit
 * name-uniqueness check.
 */
module SkillController {
  import opened Wrappers
  import opened Js
  import opened Schema
  import opened Tables
  import opened Ordering
  import opened Store

  predicate ByName(a: Row<Skill>, b: Row<Skill>) {
    LexLeq(a.data.name, b.data.name)
  }

  lemma ByNameTotalPreorder()
    ensures TotalPreorder(ByName)
  {
    forall a: Row<Skill>, b: Row<Skill> ensures ByName(a, b) || ByName(b, a) {
      LexLeqTotal(a.data.name, b.data.name);
    }
    forall a: Row<Skill>, b: Row<Skill>, c: Row<Skill> | ByName(a, b) && ByName(b, c) ensures ByName(a, c) {
      LexLeqTransitive(a.data.name, b.data.name, c.data.name);
    }
  }

  /** `findMany({ orderBy: { name: 'asc' } })`: every skill, by name. */
  function Listing(s: Snapshot): (r: seq<Row<Skill>>)
    ensures SortedBy(r, ByName)
    ensures multiset(r) == multiset(s.skills)
  {
    ByNameTotalPreorder();
    Sort(s.skills, ByName)
  }

  /** With unique names the order is strict: names ascend without repeats. */
  lemma ListingStrictlyAscending(s: Snapshot)
    requires UniqueBy(s.skills, SkillName)
    ensures forall i, j :: 0 <= i < j < |Listing(s)| ==>
              LexLeq(Listing(s)[i].data.name, Listing(s)[j].data.name) && Listing(s)[i].data.name != Listing(s)[j].data.name
  {
    var r := Listing(s);
    forall i, j | 0 <= i < j < |r| ensures r[i].data.name != r[j].data.name {
      assert r[i] in multiset(s.skills) && r[j] in multiset(s.skills);
      var p :| 0 <= p < |s.skills| && s.skills[p] == r[i];
      var q :| 0 <= q < |s.skills| && s.skills[q] == r[j];
      if p == q {
        MultisetTwice(r, i, j);
        assert multiset(r)[r[i]] >= 2;
        OnlyOnce(s.skills, p);
        assert false;
      }
    }
  }

  lemma MultisetTwice<T>(r: seq<T>, i: int, j: int)
    requires 0 <= i < j < |r| && r[i] == r[j]
    ensures multiset(r)[r[i]] >= 2
  {
    var x := r[i];
    assert r == r[..i] + [x] + r[i + 1..j] + [x] + r[j + 1..];
    assert multiset(r) == multiset(r[..i]) + multiset{x} + multiset(r[i + 1..j]) + multiset{x} + multiset(r[j + 1..]);
  }

  /** A row of a table with distinct names occurs once. */
  lemma OnlyOnce(rows: seq<Row<Skill>>, p: int)
    requires UniqueBy(rows, SkillName) && 0 <= p < |rows|
    ensures multiset(rows)[rows[p]] == 1
  {
    var x := rows[p];
    assert rows == rows[..p] + [x] + rows[p + 1..];
    assert x !in rows[..p] by {
      forall k | 0 <= k < p ensures rows[..p][k] != x { assert SkillName(rows[k].data) != SkillName(rows[p].data); }
    }
    var after := rows[p + 1..];
    assert x !in after by {
      forall k | 0 <= k < |after| ensures after[k] != x {
        assert after[k] == rows[p + 1 + k];
        assert SkillName(rows[p].data) != SkillName(rows[p + 1 + k].data);
      }
    }
    assert multiset(rows) == multiset(rows[..p]) + multiset{x} + multiset(rows[p + 1..]);
  }

  function List(s: Snapshot): Step<seq<Row<Skill>>> {
    Step(Ok200(Listing(s)), s)
  }

  /** `createSkill` */
  function Create(s: Snapshot, body: Value): (r: Step<Row<Skill>>)
    ensures r.reply.Created201? <==>
              NameSchema(body).Pass? && forall i :: 0 <= i < |s.skills| ==> s.skills[i].data.name != NameSchema(body).value
    ensures r.reply.Created201? ==>
              && r.reply.body == Row(s.nextSkillId, Skill(NameSchema(body).value))
              && r.after == s.(skills := s.skills + [r.reply.body], nextSkillId := s.nextSkillId + 1)
    ensures !r.reply.Created201? ==> r.after == s
    ensures NameSchema(body).Pass? && !r.reply.Created201? ==> r.reply == Bad400("Skill already exists", None)
    ensures NameSchema(body).Fail? ==> r.reply == Bad400("Invalid skill data", Some(NameSchema(body).issues))
  {
    match NameSchema(body)
    case Fail(issues) => Step(Bad400("Invalid skill data", Some(issues)), s)
    case Pass(name) =>
      if FindBy(s.skills, SkillName, name).Some? then Step(Bad400("Skill already exists", None), s)
      else Step(Created201(Row(s.nextSkillId, Skill(name))), s.(skills := Insert(s.skills, s.nextSkillId, Skill(name)),
                                                                 nextSkillId := s.nextSkillId + 1))
  }

  lemma {:induction false} CreateKeepsConsistent(s: Snapshot, body: Value)
    requires Consistent(s)
    ensures Consistent(Create(s, body).after)
  {
    var r := Create(s, body);
    if r.reply.Created201? {
      var a := r.after;
      InsertWellFormed(s.skills, s.nextSkillId, Skill(NameSchema(body).value));
      forall k ensures HasId(s.skills, k) ==> HasId(a.skills, k) {
        InsertKeeps(s.skills, s.nextSkillId, Skill(NameSchema(body).value), k);
      }
      assert UniqueBy(a.skills, SkillName) by {
        forall i, j | 0 <= i < j < |a.skills| ensures SkillName(a.skills[i].data) != SkillName(a.skills[j].data) {
          assert a.skills[i] == s.skills[i];
          if j < |s.skills| { assert a.skills[j] == s.skills[j]; }
        }
      }
    }
  }

  method GetSkills(db: Db) returns (r: Reply<seq<Row<Skill>>>)
    ensures Step(r, db.State()) == List(db.State())
  {
    r := Ok200(Listing(db.State()));
  }

  method CreateSkill(db: Db, body: Value) returns (r: Reply<Row<Skill>>)
    requires db.Valid()
    modifies db`skills, db`nextSkillId
    ensures db.Valid()
    ensures Step(r, db.State()) == Create(old(db.State()), body)
  {
    CreateKeepsConsistent(db.State(), body);
    var parsed := NameSchema(body);
    if parsed.Fail? {
      return Bad400("Invalid skill data", Some(parsed.issues));
    }
    var existing := FindBy(db.skills, SkillName, parsed.value);
    if existing.Some? {
      return Bad400("Skill already exists", None);
    }
    var row := Row(db.nextSkillId, Skill(parsed.value));
    db.skills := db.skills + [row];
    db.nextSkillId := db.nextSkillId + 1;
    r := Created201(row);
  }
}
