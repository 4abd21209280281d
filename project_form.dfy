/**
 * The admin project form: its default values, the skill toggle, the quick
 * "add skill" guard and the shaping of the submitted data.
 */
module ProjectForm {
  import opened Wrappers
  import opened Js
  import Schema
  import ApiClient

  /** `s` with every occurrence of `x` removed, the rest in order (`filter(id => id !== x)`). */
  function Without(s: seq<int>, x: int): (r: seq<int>)
    ensures x !in r
    ensures forall y :: y != x ==> (y in r <==> y in s)
    ensures x !in s ==> r == s
    decreases |s|
  {
    if s == [] then []
    else (if s[0] == x then [] else [s[0]]) + Without(s[1..], x)
  }

  /** `toggleSkill`: drop a selected id (every copy of it), or append an unselected one. */
  function Toggled(selected: seq<int>, id: int): (r: seq<int>)
    ensures id in selected ==> id !in r
    ensures id !in selected ==> r == selected + [id]
    ensures Without(r, id) == Without(selected, id)
  {
    if id in selected then Without(selected, id)
    else
      WithoutAppended(selected, id);
      selected + [id]
  }

  lemma {:induction false} WithoutAppended(s: seq<int>, x: int)
    ensures Without(s + [x], x) == Without(s, x)
    decreases |s|
  {
    if s == [] {
      assert [] + [x] == [x];
      assert Without([x], x) == [] + Without([], x);
    } else {
      assert (s + [x])[1..] == s[1..] + [x];
      WithoutAppended(s[1..], x);
    }
  }

  /** Toggling an unselected id twice gives back the selection; a selected one ends up once, at the end. */
  lemma ToggleTwice(selected: seq<int>, id: int)
    ensures id !in selected ==> Toggled(Toggled(selected, id), id) == selected
    ensures id in selected ==> Toggled(Toggled(selected, id), id) == Without(selected, id) + [id]
  {
  }

  /** The form's watched state, written by `setValue('skills', ...)`. */
  class FormState {
    var skills: seq<int>

    constructor(skills: seq<int>)
      ensures this.skills == skills
    {
      this.skills := skills;
    }
  }

  method ToggleSkill(form: FormState, id: int)
    modifies form`skills
    ensures form.skills == Toggled(old(form.skills), id)
  {
    form.skills := Toggled(form.skills, id);
  }

  /** The values a new project form starts with. */
  const NewForm: Fields := map["title" := Str(""), "description" := Str(""), "logo" := Str(""), "image" := Str(""),
                               "categoryId" := Undefined, "skills" := Arr([])]

  /** `project.skills.map(s => s.id)` */
  function SkillIds(items: seq<Value>): (r: seq<Value>)
    ensures |r| == |items| && forall i :: 0 <= i < |items| ==> r[i] == Prop(items[i], "id")
  {
    seq(|items|, i requires 0 <= i < |items| => Prop(items[i], "id"))
  }

  /** `defaultValues`: the edited project with its skills as ids, or the empty form. */
  function Defaults(project: Option<Fields>): (r: Fields)
    requires project.Some? ==> Get(project.value, "skills").Arr?
    ensures project.None? ==> r == NewForm
    ensures project.Some? ==>
              && r.Keys == project.value.Keys + {"skills"}
              && r["skills"] == Arr(SkillIds(Get(project.value, "skills").items))
              && forall k :: k in project.value && k != "skills" ==> r[k] == project.value[k]
  {
    match project
    case None => NewForm
    case Some(p) => p["skills" := Arr(SkillIds(Get(p, "skills").items))]
  }

  /**
   * `handleFormSubmit`'s payload: the category id converted by `Number`, a
   * falsy skills value replaced by an empty array and a falsy description by "".
   */
  function FormatSubmit(data: Fields): (r: Fields)
    ensures r.Keys == data.Keys + {"categoryId", "skills", "description"}
    ensures r["categoryId"] == ToNumber(Get(data, "categoryId"))
    ensures r["skills"] == Or(Get(data, "skills"), Arr([]))
    ensures r["description"] == Or(Get(data, "description"), Str(""))
    ensures forall k :: k in data && k != "categoryId" && k != "skills" && k != "description" ==> r[k] == data[k]
  {
    data["categoryId" := ToNumber(Get(data, "categoryId"))]
        ["skills" := Or(Get(data, "skills"), Arr([]))]
        ["description" := Or(Get(data, "description"), Str(""))]
  }

  /**
   * The client shapes the payload twice, once in the form and once in the
   * API layer; the second pass changes nothing unless `skills` held a truthy
   * non-array, which the form keeps and the API layer replaces by `[]`.
   */
  lemma SubmitThenFormat(data: Fields)
    ensures Get(data, "skills").Arr? || !Truthy(Get(data, "skills")) ==>
              ApiClient.FormatProject(FormatSubmit(data)) == FormatSubmit(data)
    ensures Truthy(Get(data, "skills")) && !Get(data, "skills").Arr? ==>
              FormatSubmit(data)["skills"] == Get(data, "skills") && ApiClient.FormatProject(FormatSubmit(data))["skills"] == Arr([])
  {
    ToNumberIdempotent(Get(data, "categoryId"));
  }

  /** `handleAddSkill`: nothing is sent for blank input; otherwise the trimmed name. */
  function AddSkill(newSkill: string): (r: Option<Value>)
    ensures r.None? <==> AllWhitespace(newSkill)
    ensures r.Some? ==> r.value == Obj(map["name" := Str(Trim(newSkill))])
  {
    TrimEmpty(newSkill);
    if Trim(newSkill) == "" then None else Some(Obj(map["name" := Str(Trim(newSkill))]))
  }

  /** Whatever the guard lets through passes the server's name schema, with the trimmed name. */
  lemma AddedSkillAccepted(newSkill: string)
    requires AddSkill(newSkill).Some?
    ensures Schema.NameSchema(Wire(AddSkill(newSkill).value)).Pass?
    ensures Schema.NameSchema(Wire(AddSkill(newSkill).value)).value == Trim(newSkill)
  {
    var body := AddSkill(newSkill).value;
    TrimEmpty(newSkill);
    assert IsJson(body) by {
      assert forall k :: k in body.fields ==> body.fields[k] == Str(Trim(newSkill));
    }
    WireOfJson(body);
  }
}
