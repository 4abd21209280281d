/**
 * The admin tech-stack page: grouping the fetched rows by category for
 * display, the number coercion of the form's proficiency field, and the
 * choice between creating and updating on submit.
 */
module TechStackPage {
  import opened Wrappers
  import opened Js
  import opened Tables
  import opened Store
  import TechStackController
  import ApiClient

  /** A tech-stack row as the page receives it. */
  type Item = Row<Tech>

  predicate HasCategory(items: seq<Item>, c: string) {
    exists i :: 0 <= i < |items| && items[i].data.category == c
  }

  /** The rows of category `c`, in input order. */
  function InCategory(items: seq<Item>, c: string): seq<Item> {
    if items == [] then []
    else
      var last := items[|items| - 1];
      InCategory(items[..|items| - 1], c) + (if last.data.category == c then [last] else [])
  }

  /** The distinct categories in order of first appearance: the key order `Object.entries` reports. */
  function Order(items: seq<Item>): seq<string> {
    if items == [] then []
    else
      var c := items[|items| - 1].data.category;
      var o := Order(items[..|items| - 1]);
      if c in o then o else o + [c]
  }

  /** The accumulator the `reduce` builds: one entry per category, holding that category's rows. */
  function Grouped(items: seq<Item>): map<string, seq<Item>> {
    map c | c in Order(items) :: InCategory(items, c)
  }

  lemma {:induction false} HasCategorySnoc(items: seq<Item>, t: Item, c: string)
    ensures HasCategory(items + [t], c) <==> HasCategory(items, c) || t.data.category == c
  {
    var s := items + [t];
    if HasCategory(s, c) && t.data.category != c {
      var i :| 0 <= i < |s| && s[i].data.category == c;
      assert items[i] == s[i];
    }
    if HasCategory(items, c) {
      var i :| 0 <= i < |items| && items[i].data.category == c;
      assert s[i] == items[i];
    }
    if t.data.category == c {
      assert s[|items|] == t;
    }
  }

  /** A group holds the rows of its category and nothing else. */
  lemma {:induction false} InCategoryMembers(items: seq<Item>, c: string, t: Item)
    ensures t in InCategory(items, c) <==> t in items && t.data.category == c
    decreases |items|
  {
    if items != [] {
      var prefix, last := items[..|items| - 1], items[|items| - 1];
      assert items == prefix + [last];
      InCategoryMembers(prefix, c, t);
    }
  }

  /** The key order lists each category present exactly once. */
  lemma {:induction false} OrderMembers(items: seq<Item>, c: string)
    ensures c in Order(items) <==> HasCategory(items, c)
    decreases |items|
  {
    if items != [] {
      var prefix, last := items[..|items| - 1], items[|items| - 1];
      assert items == prefix + [last];
      OrderMembers(prefix, c);
      HasCategorySnoc(prefix, last, c);
    }
  }

  lemma {:induction false} OrderDistinct(items: seq<Item>)
    ensures forall i, j :: 0 <= i < j < |Order(items)| ==> Order(items)[i] != Order(items)[j]
    decreases |items|
  {
    if items != [] {
      OrderDistinct(items[..|items| - 1]);
    }
  }

  /** One step of the `reduce`: create the category's array if missing, then push the row. */
  function Pushed(groups: map<string, seq<Item>>, t: Item): map<string, seq<Item>> {
    var c := t.data.category;
    groups[c := (if c in groups then groups[c] else []) + [t]]
  }

  lemma InCategorySnoc(items: seq<Item>, t: Item, c: string)
    ensures InCategory(items + [t], c) == InCategory(items, c) + (if t.data.category == c then [t] else [])
  {
    var s := items + [t];
    assert s[..|s| - 1] == items;
  }

  lemma OrderSnoc(items: seq<Item>, t: Item)
    ensures Order(items + [t]) == if t.data.category in Order(items) then Order(items) else Order(items) + [t.data.category]
  {
    var s := items + [t];
    assert s[..|s| - 1] == items;
  }

  lemma NoCategoryNoGroup(items: seq<Item>, c: string)
    requires !HasCategory(items, c)
    ensures InCategory(items, c) == []
  {
    if InCategory(items, c) != [] {
      var x := InCategory(items, c)[0];
      InCategoryMembers(items, c, x);
    }
  }

  lemma GroupedSnoc(items: seq<Item>, t: Item)
    ensures Grouped(items + [t]) == Pushed(Grouped(items), t)
  {
    OrderSnoc(items, t);
    var g, p := Grouped(items + [t]), Pushed(Grouped(items), t);
    assert g.Keys == p.Keys;
    forall c | c in g ensures g[c] == p[c] {
      InCategorySnoc(items, t, c);
      if c !in Grouped(items) {
        OrderMembers(items, c);
        NoCategoryNoGroup(items, c);
      }
    }
  }

  /**
   * `techCategories`: `{}` without data; otherwise the `reduce` over the
   * rows, returned with the order in which its keys were created.
   */
  method GroupByCategory(techStack: Option<seq<Item>>) returns (groups: map<string, seq<Item>>, order: seq<string>)
    ensures techStack.None? ==> groups == map[] && order == []
    ensures techStack.Some? ==> groups == Grouped(techStack.value) && order == Order(techStack.value)
  {
    if techStack.None? {
      return map[], [];
    }
    var items := techStack.value;
    groups, order := map[], [];
    for i := 0 to |items|
      invariant groups == Grouped(items[..i])
      invariant order == Order(items[..i])
    {
      var tech := items[i];
      ghost var before := groups;
      ReduceStep(items, i);
      if tech.data.category !in groups {
        groups := groups[tech.data.category := []];
        order := order + [tech.data.category];
      }
      groups := groups[tech.data.category := groups[tech.data.category] + [tech]];
      assert groups == Pushed(before, tech);
    }
    assert items[..|items|] == items;
  }

  /** The prefix of one more row: the group map gains the row, the key order gains a new category. */
  lemma ReduceStep(items: seq<Item>, i: int)
    requires 0 <= i < |items|
    ensures Grouped(items[..i + 1]) == Pushed(Grouped(items[..i]), items[i])
    ensures items[i].data.category in Grouped(items[..i]) <==> items[i].data.category in Order(items[..i])
    ensures Order(items[..i + 1]) ==
              if items[i].data.category in Order(items[..i]) then Order(items[..i]) else Order(items[..i]) + [items[i].data.category]
  {
    assert items[..i + 1] == items[..i] + [items[i]];
    GroupedSnoc(items[..i], items[i]);
    OrderSnoc(items[..i], items[i]);
  }

  /** Every row sits in the group of its own category, and in no other. */
  lemma EachRowInItsGroup(items: seq<Item>, t: Item, c: string)
    requires t in items
    ensures t.data.category in Grouped(items) && t in Grouped(items)[t.data.category]
    ensures c in Grouped(items) && t in Grouped(items)[c] ==> c == t.data.category
  {
    var i :| 0 <= i < |items| && items[i] == t;
    assert HasCategory(items, t.data.category);
    OrderMembers(items, t.data.category);
    InCategoryMembers(items, t.data.category, t);
    InCategoryMembers(items, c, t);
  }

  /** The group keys are exactly the categories present, each once. */
  lemma KeysAreCategories(items: seq<Item>, c: string)
    ensures c in Grouped(items) <==> HasCategory(items, c)
    ensures |Order(items)| == |Grouped(items).Keys|
  {
    OrderMembers(items, c);
    OrderDistinct(items);
    DistinctCardinality(Order(items));
    assert Grouped(items).Keys == set d | d in Order(items);
  }

  lemma {:induction false} DistinctCardinality(o: seq<string>)
    requires forall i, j :: 0 <= i < j < |o| ==> o[i] != o[j]
    ensures |set d | d in o| == |o|
  {
    if o != [] {
      var prefix := o[..|o| - 1];
      DistinctCardinality(prefix);
      assert (set d | d in o) == (set d | d in prefix) + {o[|o| - 1]};
      assert o[|o| - 1] !in prefix;
    }
  }

  /**
   * The indices of the rows of category `c`, increasing: the group is the
   * subsequence of the input at exactly these positions.
   */
  function Positions(items: seq<Item>, c: string): (r: seq<nat>)
    ensures forall k :: 0 <= k < |r| ==> r[k] < |items| && items[r[k]].data.category == c
    ensures forall k, l :: 0 <= k < l < |r| ==> r[k] < r[l]
    ensures forall i :: 0 <= i < |items| && items[i].data.category == c ==> i in r
  {
    if items == [] then []
    else
      var prefix := items[..|items| - 1];
      Positions(prefix, c) + (if items[|items| - 1].data.category == c then [|items| - 1] else [])
  }

  /** Within a group the rows keep their input order. */
  lemma {:induction false} GroupKeepsOrder(items: seq<Item>, c: string)
    ensures |InCategory(items, c)| == |Positions(items, c)|
    ensures forall k :: 0 <= k < |Positions(items, c)| ==> InCategory(items, c)[k] == items[Positions(items, c)[k]]
  {
    if items != [] {
      var prefix := items[..|items| - 1];
      GroupKeepsOrder(prefix, c);
    }
  }

  /** The sum of the group sizes, taken over `order`. */
  function Total(order: seq<string>, groups: map<string, seq<Item>>): nat {
    if order == [] then 0
    else
      var c := order[|order| - 1];
      Total(order[..|order| - 1], groups) + (if c in groups then |groups[c]| else 0)
  }

  lemma {:induction false} TotalFrame(order: seq<string>, groups: map<string, seq<Item>>, c: string, v: seq<Item>)
    requires c !in order
    ensures Total(order, groups[c := v]) == Total(order, groups)
  {
    if order != [] {
      TotalFrame(order[..|order| - 1], groups, c, v);
    }
  }

  lemma {:induction false} TotalBump(order: seq<string>, groups: map<string, seq<Item>>, c: string, v: seq<Item>)
    requires forall i, j :: 0 <= i < j < |order| ==> order[i] != order[j]
    requires c in order && c in groups
    ensures Total(order, groups[c := v]) == Total(order, groups) - |groups[c]| + |v|
  {
    var prefix := order[..|order| - 1];
    if order[|order| - 1] == c {
      assert c !in prefix;
      TotalFrame(prefix, groups, c, v);
    } else {
      TotalBump(prefix, groups, c, v);
    }
  }

  /** No row is lost or duplicated: the group sizes add up to the number of rows. */
  lemma {:induction false} TotalPreserved(items: seq<Item>)
    ensures Total(Order(items), Grouped(items)) == |items|
  {
    if items != [] {
      var prefix := items[..|items| - 1];
      var t := items[|items| - 1];
      assert items == prefix + [t];
      TotalPreserved(prefix);
      OrderDistinct(prefix);
      GroupedSnoc(prefix, t);
      OrderSnoc(prefix, t);
      var o, g, c := Order(prefix), Grouped(prefix), t.data.category;
      if c in o {
        TotalBump(o, g, c, g[c] + [t]);
      } else {
        assert [] + [t] == [t];
        assert Grouped(items) == g[c := [t]];
        TotalFrame(o, g, c, [t]);
        assert (o + [c])[..|o + [c]| - 1] == o;
        assert Total(o + [c], g[c := [t]]) == Total(o, g[c := [t]]) + 1;
      }
    }
  }

  const TechStackPath := "/about/tech-stack"

  /** The form's values with `proficiency` converted by `Number`, every other field as typed. */
  function TechPayload(data: Fields): (r: Fields)
    ensures r.Keys == data.Keys + {"proficiency"}
    ensures r["proficiency"] == ToNumber(Get(data, "proficiency"))
    ensures forall k :: k in data && k != "proficiency" ==> r[k] == data[k]
  {
    data["proficiency" := ToNumber(Get(data, "proficiency"))]
  }

  /**
   * The form field holds text.  Integer text arrives at the server as a
   * number, so the server's range check applies (the unchecked string branch
   * is never taken from this page); other text arrives as null and is refused.
   */
  lemma ProficiencyOnTheWire(data: Fields, n: int)
    requires Get(data, "proficiency") == Str(IntToString(n))
    ensures WireFields(TechPayload(data))["proficiency"] == Num(n)
    ensures TechStackController.Proficiency(Num(n)).Parsed? <==> 0 <= n <= 100
  {
    StringToNumberOfIntToString(n);
  }

  lemma NonNumericProficiencyRefused(data: Fields)
    requires ToNumber(Get(data, "proficiency")).NaN?
    ensures WireFields(TechPayload(data))["proficiency"] == Null
    ensures TechStackController.Proficiency(Null).ZodError?
  {
  }

  /** Form text above 100 is refused by the server, although the same text sent as a string would be stored. */
  lemma OutOfRangeTextRefused(data: Fields, n: int)
    requires n > 100 && Get(data, "proficiency") == Str(IntToString(n))
    ensures WireFields(TechPayload(data))["proficiency"] == Num(n)
    ensures TechStackController.Proficiency(Num(n)).ZodError?
    ensures TechStackController.Proficiency(Str(IntToString(n))).Parsed?
  {
    ProficiencyOnTheWire(data, n);
    TechStackController.StringProficiencyUnbounded(n);
  }

  /** `onSubmit`: update the selected row, or create a new one when none is selected. */
  function OnSubmit(selectedTech: Option<Item>, data: Fields): (r: ApiClient.Call)
    ensures selectedTech.None? ==> r.PostCall? && r.path == TechStackPath
    ensures selectedTech.Some? ==> r.PutCall? && r.path == TechStackPath + "/" + IntToString(selectedTech.value.id)
    ensures (r.PostCall? || r.PutCall?) && r.body == TechPayload(data)
  {
    match selectedTech
    case None => ApiClient.PostCall(TechStackPath, TechPayload(data))
    case Some(tech) => ApiClient.PutCall(TechStackPath + "/" + IntToString(tech.id), TechPayload(data))
  }

  /** An update addresses the selected row: the server's `parseInt` of the path segment is its id. */
  lemma UpdateTargetsSelected(tech: Item, data: Fields)
    ensures var call := OnSubmit(Some(tech), data);
            call.path[..|TechStackPath| + 1] == TechStackPath + "/"
            && ParseInt(call.path[|TechStackPath| + 1..]) == Some(tech.id)
  {
    var call := OnSubmit(Some(tech), data);
    assert call.path[|TechStackPath| + 1..] == IntToString(tech.id);
    ParseIntOfIntToString(tech.id);
  }
}
