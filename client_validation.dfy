/**
 * The browser-side zod schemas and the date-range check used by the admin
 * forms.  The e-mail and URL patterns of zod are parameters.
 */
module ClientValidation {
  import opened Wrappers
  import opened Js
  import opened Schema
  import LocationController
  import ExperienceController

  const InvalidEmail := "Invalid email address"
  const PasswordTooShort := "Password must be at least 6 characters"
  const MinPasswordLength := 6
  const TitleRequired := "Title is required"
  const LogoRequired := "Logo is required"
  const InvalidImageUrl := "Invalid image URL"
  const CategoryRequired := "Category is required"

  /** `z.string().min(n, message)`, which compares the string's `length` in UTF-16 code units. */
  function MinLength(o: Fields, key: string, n: nat, message: string): (r: Check<string>)
    ensures r.Pass? <==> Get(o, key).Str? && Utf16Length(Get(o, key).s) >= n
    ensures r.Pass? ==> r.value == Get(o, key).s
    ensures Get(o, key).Str? && Utf16Length(Get(o, key).s) < n ==> r == Fail([Issue([key], message)])
  {
    var v := Get(o, key);
    if !v.Str? then Fail([Mismatch([key], "string", v)])
    else if Utf16Length(v.s) < n then Fail([Issue([key], message)])
    else Pass(v.s)
  }

  /** `z.string().email(message)` or `.url(message)`, with the pattern given as `accepts`. */
  function Matching(o: Fields, key: string, accepts: string -> bool, message: string): (r: Check<string>)
    ensures r.Pass? <==> Get(o, key).Str? && accepts(Get(o, key).s)
    ensures r.Pass? ==> r.value == Get(o, key).s
    ensures Get(o, key).Str? && !accepts(Get(o, key).s) ==> r == Fail([Issue([key], message)])
  {
    var v := Get(o, key);
    if !v.Str? then Fail([Mismatch([key], "string", v)])
    else if !accepts(v.s) then Fail([Issue([key], message)])
    else Pass(v.s)
  }

  datatype Credentials = Credentials(email: string, password: string)

  /** `loginSchema` */
  function LoginSchema(body: Value, isEmail: string -> bool): (r: Check<Credentials>)
    ensures r.Pass? <==>
              && body.Obj?
              && Get(body.fields, "email").Str? && isEmail(Get(body.fields, "email").s)
              && Get(body.fields, "password").Str? && Utf16Length(Get(body.fields, "password").s) >= MinPasswordLength
    ensures r.Pass? ==> Str(r.value.email) == Get(body.fields, "email") && Str(r.value.password) == Get(body.fields, "password")
    ensures body.Obj? && Get(body.fields, "password").Str? && Utf16Length(Get(body.fields, "password").s) < MinPasswordLength ==>
              r.Fail? && Issue(["password"], PasswordTooShort) in r.issues
    ensures body.Obj? && Get(body.fields, "email").Str? && !isEmail(Get(body.fields, "email").s) ==>
              r.Fail? && Issue(["email"], InvalidEmail) in r.issues
  {
    match AsObject(body)
    case Fail(issues) => Fail(issues)
    case Pass(o) =>
      var email := Matching(o, "email", isEmail, InvalidEmail);
      var password := MinLength(o, "password", MinPasswordLength, PasswordTooShort);
      if email.Pass? && password.Pass? then Pass(Credentials(email.value, password.value))
      else Fail(IssuesOf(email) + IssuesOf(password))
  }

  /** The length rule counts code units, so a password of three emoji is long enough. */
  lemma EmojiPasswordLongEnough(email: string, isEmail: string -> bool)
    requires isEmail(email)
    ensures LoginSchema(Obj(map["email" := Str(email), "password" := Str("\U{1F600}\U{1F600}\U{1F600}")]), isEmail).Pass?
  {
    EmojiLength();
  }

  datatype ProjectDraft = ProjectDraft(title: string, description: Option<string>, logo: string, image: string, category: string)

  /** `projectSchema` */
  function ProjectSchema(body: Value, isUrl: string -> bool): (r: Check<ProjectDraft>)
    ensures r.Pass? <==>
              && body.Obj?
              && Get(body.fields, "title").Str? && Get(body.fields, "title").s != ""
              && (Get(body.fields, "description").Undefined? || Get(body.fields, "description").Str?)
              && Get(body.fields, "logo").Str? && Get(body.fields, "logo").s != ""
              && Get(body.fields, "image").Str? && isUrl(Get(body.fields, "image").s)
              && Get(body.fields, "category").Str? && Get(body.fields, "category").s != ""
    ensures r.Pass? ==>
              && Str(r.value.title) == Get(body.fields, "title")
              && Str(r.value.logo) == Get(body.fields, "logo")
              && Str(r.value.image) == Get(body.fields, "image")
              && Str(r.value.category) == Get(body.fields, "category")
              && (r.value.description.Some? <==> Get(body.fields, "description").Str?)
              && (r.value.description.Some? ==> Str(r.value.description.value) == Get(body.fields, "description"))
    ensures body.Obj? && Get(body.fields, "title") == Str("") ==> r.Fail? && Issue(["title"], TitleRequired) in r.issues
    ensures body.Obj? && Get(body.fields, "logo") == Str("") ==> r.Fail? && Issue(["logo"], LogoRequired) in r.issues
    ensures body.Obj? && Get(body.fields, "category") == Str("") ==> r.Fail? && Issue(["category"], CategoryRequired) in r.issues
  {
    match AsObject(body)
    case Fail(issues) => Fail(issues)
    case Pass(o) =>
      var title := MinLength(o, "title", 1, TitleRequired);
      var description := OptionalString(o, "description");
      var logo := MinLength(o, "logo", 1, LogoRequired);
      var image := Matching(o, "image", isUrl, InvalidImageUrl);
      var category := MinLength(o, "category", 1, CategoryRequired);
      if title.Pass? && description.Pass? && logo.Pass? && image.Pass? && category.Pass? then
        Pass(ProjectDraft(title.value, description.value, logo.value, image.value, category.value))
      else
        Fail(IssuesOf(title) + IssuesOf(description) + IssuesOf(logo) + IssuesOf(image) + IssuesOf(category))
  }

  /** `locationSchema` */
  function LocationSchema(body: Value): (r: Check<LocationController.LocationInput>)
    ensures r.Pass? <==>
              && body.Obj?
              && Get(body.fields, "city").Str? && Get(body.fields, "city").s != ""
              && Get(body.fields, "officeHours").Str? && Get(body.fields, "officeHours").s != ""
    ensures r.Pass? ==> Str(r.value.city) == Get(body.fields, "city") && Str(r.value.officeHours) == Get(body.fields, "officeHours")
  {
    match AsObject(body)
    case Fail(issues) => Fail(issues)
    case Pass(o) =>
      var city := MinLength(o, "city", 1, "City is required");
      var officeHours := MinLength(o, "officeHours", 1, "Office hours are required");
      if city.Pass? && officeHours.Pass? then Pass(LocationController.LocationInput(city.value, officeHours.value))
      else Fail(IssuesOf(city) + IssuesOf(officeHours))
  }

  /** The browser and the server judge a location body alike, down to the messages. */
  lemma LocationSchemasAgree(body: Value)
    ensures LocationSchema(body) == LocationController.LocationSchema(body)
  {
    if body.Obj? {
      var o := body.fields;
      assert MinLength(o, "city", 1, "City is required") == NonEmptyString(o, "city", "City is required");
      assert MinLength(o, "officeHours", 1, "Office hours are required") == NonEmptyString(o, "officeHours", "Office hours are required");
    }
  }

  /**
   * `validateDateRange`: an absent or empty end date is fine; otherwise both
   * dates must be valid (an Invalid Date compares false) and in order.
   */
  function ValidateDateRange(startDate: string, endDate: Option<string>, parse: DateParser): (r: bool)
    ensures endDate.None? || endDate.value == "" ==> r
    ensures endDate.Some? && endDate.value != "" ==>
              (r <==> parse(startDate).Some? && parse(endDate.value).Some? && parse(startDate).value <= parse(endDate.value).value)
  {
    if endDate.None? || endDate.value == "" then true
    else
      match (parse(startDate), parse(endDate.value))
      case (Some(start), Some(end)) => start <= end
      case _ => false
  }

  /** Equal dates pass; an Invalid Date fails even against itself. */
  lemma DateRangeReflexive(d: string, parse: DateParser)
    requires d != ""
    ensures ValidateDateRange(d, Some(d), parse) <==> parse(d).Some?
  {
  }

  /** Two ranges that chain make a valid range. */
  lemma DateRangeTransitive(a: string, b: string, c: string, parse: DateParser)
    requires b != "" && c != ""
    requires ValidateDateRange(a, Some(b), parse) && ValidateDateRange(b, Some(c), parse)
    ensures ValidateDateRange(a, Some(c), parse)
  {
  }

  /** Date order is checked in the browser only: the server stores an experience that ends before it starts. */
  lemma OnlyTheBrowserOrdersDates(body: Value, parse: DateParser)
    requires parse("2021-01-01") == Some(2) && parse("2020-01-01") == Some(1)
    requires body == Obj(map["title" := Str("Engineer"), "company" := Str("Acme"), "startDate" := Str("2021-01-01"),
                             "endDate" := Str("2020-01-01"), "description" := Str("Built things")])
    ensures !ValidateDateRange("2021-01-01", Some("2020-01-01"), parse)
    ensures ExperienceController.ExperienceSchema(body, parse).Pass?
    ensures ExperienceController.ExperienceSchema(body, parse).value.endDate == Some(Some(1))
  {
    assert "current" !in body.fields;
  }
}
