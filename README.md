# Dynamic MERN portfolio — a Dafny model of its core

The portfolio is an Express + Prisma back end with a React admin client.
The back end's parts:

- A public API serves:
  - projects (filtered, paginated and newest first);
  - categories with their project counts;
  - skills, tech stack, education, experience, the "about" text and the office location.
- The admin client edits all of these behind a JSON-Web-Token gate.
- A per-address request limiter protects the whole API.
- An upload service takes images and résumé PDFs.
- A seed script initialises the database.

The model has one module per source file, plus shared modules for the values the code works on:

- `Js`: JavaScript values, `parseInt` with and without a radix, `Number`, `String(n)`, `trim`, `split`, `includes`, `length` in UTF-16 code units and the JSON round trip.
- `Schema`: the zod field checks and their issues.
- `Tables`: Prisma tables as sequences of rows with auto-increment ids.
- `Ordering`: a verified insertion sort, and a string order by code point that stands in for the database collation.
- `Store`: the entity records, the `Db` class with one field per table, its consistency invariant, and the HTTP `Reply`.

Each request handler has two forms:

- A pure function `Name(snapshot, request): Step` gives the reply and the snapshot after the call.
- A method on the `Db` object does the same step by changing the table fields in place. It is proved to keep `Db.Valid()`. Its `ensures` ties its reply and its new state to the function.

On each function, lemmas prove:

- the handler's promises: the validation rules, the error replies, what changes and what is kept;
- that the consistency invariant is preserved. The invariant covers distinct ids below the next auto-increment value, unique user e-mails and category and skill names, project references to existing categories and skills, and at most one About and Location row.

The stateful parts of the middleware and the client are Dafny classes whose methods update their fields:

- the limiter's map;
- the request's `user` slot;
- the axios config's headers;
- the zustand auth store;
- the project form's selected skills.

Outside inputs are parameters:

- clocks (`now`);
- the date parser behind `new Date(...)`;
- `jwt.verify` (a `Verifier` from token and secret to an optional identity);
- the e-mail and URL patterns of the client schemas;
- the generated upload id;
- the bcrypt hash in the seed.

## Model

| member | source | states |
|---|---|---|
| Security.NothingStale | server/middleware/security.ts:24-31 | after any request every kept record is inside the 15-minute window ending now |
| Security.RequesterCounted | server/middleware/security.ts:34-44 | a requester with a live record has its count raised by one, timestamp kept (fixed window); otherwise it gets count 1 at now; the reset at lines 37-40 never changes anything |
| Security.OthersUntouched | server/middleware/security.ts:27-31 | another address's record is dropped only if stale and otherwise kept unchanged |
| Security.RejectedIffOverLimit | server/middleware/security.ts:19-52 | a request is answered 429 with the fixed message iff its count, itself included, exceeds 500; otherwise `next` runs |
| Security.BurstCounted | server/middleware/security.ts:34-44 | a burst inside one window from a fresh address accumulates exactly one count per request, rejected ones included, on the first request's timestamp |
| Security.BurstLimit | server/middleware/security.ts:19-50 | in such a burst a request passes iff it is among the first 500 |
| Security.RequestLimiter.constructor | server/middleware/security.ts:17 | the limiter starts with an empty map |
| Security.RequestLimiter.Handle | server/middleware/security.ts:21-53 | the in-place sweep loop and update leave exactly the map `Recorded` describes, and the outcome is `Decision` |
| Security.Swept | server/middleware/security.ts:24-31 | the sweep keeps exactly the records not older than the window start, unchanged |
| Security.Recorded | server/middleware/security.ts:24-42 | after one request the keys are the swept ones plus the requester, and every other kept record is unchanged |
| Security.Decision | server/middleware/security.ts:44-50 | a refusal carries the fixed "Too many requests" message |
| Auth.Secret | server/middleware/auth.ts:21 | the secret is `JWT_SECRET` when set and non-empty, else `"secret"` |
| Auth.Token | server/middleware/auth.ts:14 | an extracted token is non-empty and space-free |
| Auth.TokenOfFields | server/middleware/auth.ts:14 | for a header made of space-free fields the token is the second field when it exists and is non-empty, else none |
| Auth.SchemeIgnored | server/middleware/auth.ts:14 | the first word is not checked: any scheme word gives the same token |
| Auth.NoSpaceNoToken | server/middleware/auth.ts:14-18 | a header without a space yields no token |
| Auth.EmptySecondField | server/middleware/auth.ts:14-18 | `"Bearer "` and `"Bearer  x"` yield no token |
| Auth.Authenticate | server/middleware/auth.ts:13-26 | 401 "No token provided" iff there is no token (a missing header included); 403 "Invalid token" iff verification fails; otherwise proceed with the decoded payload |
| Auth.AuthRequest.constructor | server/middleware/auth.ts:4-6 | a request starts with its header and no `user` |
| Auth.AuthenticateToken | server/middleware/auth.ts:8-27 | the outcome is `Authenticate`'s; `req.user` is set to the payload exactly when the request proceeds, and left alone otherwise |
| AuthStore.Apply | src/admin/hooks/useAuth.ts:18-23 | login sets token, user and the flag together; logout clears all three; the result is always coherent |
| AuthStore.LogoutIdempotent | src/admin/hooks/useAuth.ts:21-23 | logging out twice equals logging out once |
| AuthStore.RunKeepsCoherent | src/admin/hooks/useAuth.ts:15-24 | over any login/logout sequence, signed in ⇔ token present ⇔ user present |
| AuthStore.LastActionDecides | src/admin/hooks/useAuth.ts:18-23 | the state after a sequence depends only on the sequence, and a final login leaves exactly that session |
| AuthStore.AuthState.constructor | src/admin/hooks/useAuth.ts:15-17 | the store starts signed out: no token, no user, not authenticated |
| AuthStore.AuthState.Login | src/admin/hooks/useAuth.ts:18-20 | the fields become the login's session, replacing any previous one |
| AuthStore.AuthState.Logout | src/admin/hooks/useAuth.ts:21-23 | the fields become the signed-out state |
| ApiClient.WithAuth | src/services/api.ts:13-17 | the `Authorization: Bearer <token>` header is added iff a non-empty token is stored; other headers are untouched |
| ApiClient.RequestConfig.constructor | src/services/api.ts:11 | a config starts with the given headers |
| ApiClient.Intercept | src/services/api.ts:11-20 | the interceptor rewrites the config's headers in place to `WithAuth` of the stored token |
| ApiClient.BearerRoundTrip | src/services/api.ts:16 | the server's second-field extraction reads back exactly the attached token, for a non-empty space-free token |
| ApiClient.LoggedInRequestsPass | src/services/api.ts:11-20 | after login with a token the verifier accepts, requests pass the server's gate as that identity |
| ApiClient.SignedOutRequestsRefused | src/services/api.ts:15 | after logout no header is added and the gate answers 401 |
| ApiClient.FormatProject | src/services/api.ts:75-80 | `categoryId` becomes `Number(categoryId)`, `skills` is kept only if it is an array, `description` becomes `description \|\| ''`, all other fields pass through |
| ApiClient.FormatProjectIdempotent | src/services/api.ts:75-80 | formatting a formatted payload changes nothing |
| ApiClient.CategoryIdOnTheWire | src/services/api.ts:77 | a category id typed as digits reaches the server as that number |
| ApiClient.NonNumericCategoryIdOnTheWire | src/services/api.ts:77 | a non-numeric category id becomes NaN and is sent as null |
| ApiClient.GetById | src/services/api.ts:62-71 | throws "Project ID is required" iff the id is falsy (`""` or 0); otherwise requests `/projects/{id}` |
| ApiClient.Create | src/services/api.ts:73-88 | posts the formatted payload to `/projects` |
| ApiClient.Update | src/services/api.ts:90-105 | puts the formatted payload to `/projects/{id}` |
| ApiClient.Delete | src/services/api.ts:107-115 | deletes `/projects/{id}` |
| ApiClient.ProjectPathRoundTrip | src/services/api.ts:62-115 | the server's `parseInt` of the segment after `/projects/` in the update, delete and get paths is the client's id |
| CategoryController.ProjectCount | server/controllers/categoryController.ts:84-86 | the count is zero iff no project has that category |
| CategoryController.ByNameTotalPreorder | server/controllers/categoryController.ts:17 | ordering by name is a total preorder |
| CategoryController.Listing | server/controllers/categoryController.ts:9-24 | the list is sorted by name and is a permutation of the categories paired with their project counts |
| CategoryController.ListingComplete | server/controllers/categoryController.ts:11-18 | every category is listed exactly once with its own project count, and nothing else is |
| CategoryController.Create | server/controllers/categoryController.ts:26-50 | 201 with one new row iff the name is valid and unused; 400 "Category already exists" for a used name; 400 with zod issues for a bad body; otherwise nothing changes |
| CategoryController.Update | server/controllers/categoryController.ts:52-78 | a bad body gives 400 with issues; a name held by another row, or by any row when the id is NaN, gives 400 "Category name already exists"; a free name with a NaN or missing id gives 500 "Failed to update category"; an existing id whose name is free or its own is renamed; failures change nothing |
| CategoryController.UpdateSucceedsIff | server/controllers/categoryController.ts:57-68 | with unique names, a rename succeeds iff the id exists and no other row holds the name; re-saving a row under its own name succeeds |
| CategoryController.Delete | server/controllers/categoryController.ts:80-102 | 204 removing only that row iff the id parses, exists and has no projects; in use gives 400; a NaN id, or a missing one with no projects, gives 500 "Failed to delete category"; failures change nothing |
| CategoryController.CreateKeepsConsistent | server/controllers/categoryController.ts:38-42 | creating keeps the store consistent, names unique included |
| CategoryController.UpdateKeepsConsistent | server/controllers/categoryController.ts:65-68 | updating keeps the store consistent |
| CategoryController.DeleteKeepsConsistent | server/controllers/categoryController.ts:94-98 | deleting keeps the store consistent: no project is left pointing at a removed category |
| CategoryController.DuplicateCreateRefused | server/controllers/categoryController.ts:30-36 | a second create of the same name is refused and changes nothing |
| CategoryController.DeleteInUseChangesNothing | server/controllers/categoryController.ts:84-92 | deleting a category in use is a 400 that leaves categories and projects unchanged |
| CategoryController.GetCategories | server/controllers/categoryController.ts:9-24 | the method's reply is the listing |
| CategoryController.CreateCategory | server/controllers/categoryController.ts:26-50 | the method's reply and new store are `Create`'s, and the store stays valid |
| CategoryController.UpdateCategory | server/controllers/categoryController.ts:52-78 | the method's reply and new store are `Update`'s |
| CategoryController.DeleteCategory | server/controllers/categoryController.ts:80-102 | the method's reply and new store are `Delete`'s |
| SkillController.ByNameTotalPreorder | server/controllers/skillController.ts:12 | ordering by name is a total preorder |
| SkillController.Listing | server/controllers/skillController.ts:9-18 | the list is sorted by name and is a permutation of the skills |
| SkillController.ListingStrictlyAscending | server/controllers/skillController.ts:11-13 | with unique names the list ascends strictly |
| SkillController.OnlyOnce | server/controllers/skillController.ts:11-13 | in a table of distinct names each row occurs once |
| SkillController.Create | server/controllers/skillController.ts:20-44 | 201 with one new row iff the name is valid and unused; "Skill already exists" or "Invalid skill data" with 400 otherwise, and nothing changes |
| SkillController.CreateKeepsConsistent | server/controllers/skillController.ts:32-34 | creating keeps the store consistent |
| SkillController.GetSkills | server/controllers/skillController.ts:9-18 | the method's reply is the listing |
| SkillController.CreateSkill | server/controllers/skillController.ts:20-44 | the method's reply and new store are `Create`'s |
| ProjectController.ProjectSchema | server/controllers/projectController.ts:7-14 | accepts iff title, logo and image are non-empty strings, description is absent or a string, categoryId is a positive integer and skills is absent or an array of numbers |
| ProjectController.SkillIds | server/controllers/projectController.ts:103-146 | the connected ids are exactly the supplied ones, none when omitted |
| ProjectController.QueryNumber | server/controllers/projectController.ts:18-19 | an absent query value takes its default; a present one is a number or NaN |
| ProjectController.QueryNumberSpellings | server/controllers/projectController.ts:18-19 | `Number` reads "2.0" and "0x2" as 2 and "1e1" as 10, as JavaScript does |
| ProjectController.PageSpellingsAgree | server/controllers/projectController.ts:16-64 | `?page=2.0` lists exactly what `?page=2` lists |
| ProjectController.SamePageNumberSameList | server/controllers/projectController.ts:16-64 | two queries with the same search, category and limit whose page texts read as the same number list the same page |
| ProjectController.FilteredIgnoresPaging | server/controllers/projectController.ts:21-33 | which projects match depends on `search` and `category` only |
| ProjectController.Matches | server/controllers/projectController.ts:21-33 | empty or absent filters accept every project; a search absent from the title of a project without description rejects it |
| ProjectController.Connectable | server/controllers/projectController.ts:96-104 | a project can be linked only when its category exists; without skills that is the whole condition |
| ProjectController.Skip | server/controllers/projectController.ts:19 | `(page - 1) * limit` is never negative for a page of at least 1 and a non-negative limit, and is 0 on page 1 |
| ProjectController.Filtered | server/controllers/projectController.ts:21-33 | keeps exactly the projects matching the search (title or description) and the category name, each as often as it occurs in the table; empty filters keep all |
| ProjectController.NewestFirstTotalPreorder | server/controllers/projectController.ts:42 | newest-first ordering is a total preorder |
| ProjectController.Matching | server/controllers/projectController.ts:35-45 | the matches, newest first, are a permutation of the filtered rows, so exactly the matching projects with their multiplicity |
| ProjectController.MatchCount | server/controllers/projectController.ts:35-45 | with distinct ids, the number of matches is the number of distinct matching projects |
| ProjectController.Window | server/controllers/projectController.ts:43-44 | skip/take: at most `take` rows, the ones at `skip` onward in order |
| ProjectController.Pages | server/controllers/projectController.ts:54 | `pages` is the least count of `limit`-sized pages covering `total`; a zero limit gives null |
| ProjectController.List | server/controllers/projectController.ts:16-62 | the listing never changes the store; it is 200 iff page and limit are numbers and the skip is not negative, else 500 "Failed to fetch projects" |
| ProjectController.WindowSorted | server/controllers/projectController.ts:42-44 | a window of a sorted list is sorted |
| ProjectController.ListedPage | server/controllers/projectController.ts:42-57 | a page holds at most `limit` matches, newest first, with `total` the number of matches (the number of distinct matching projects in a well-formed table) and `currentPage` the requested page |
| ProjectController.PageOfIndex | server/controllers/projectController.ts:19-57 | the k-th match is listed on page ⌊k/limit⌋+1 and no other, and that page is within `pages` |
| ProjectController.ListOfNumbers | server/controllers/projectController.ts:18-57 | for numeric page and limit the listing is the window of the matches at `(page-1)*limit` with the stated pagination |
| ProjectController.PageWithinPages | server/controllers/projectController.ts:54 | a page that holds an index below the total is within `pages` |
| ProjectController.PageUnique | server/controllers/projectController.ts:19 | the pages' index ranges do not overlap |
| ProjectController.SkipMonotone | server/controllers/projectController.ts:19 | later pages skip more |
| ProjectController.SecondPageOfTwentyFive | server/controllers/projectController.ts:18-57 | with 25 projects and no filters, page 2 with limit 10 returns ten items and reports three pages |
| ProjectController.GetById | server/controllers/projectController.ts:64-90 | a NaN id gives 400 "Invalid project ID" before the store; a missing id gives 404; otherwise the row with that id; nothing changes |
| ProjectController.Create | server/controllers/projectController.ts:92-122 | 201 with one new row linking exactly the supplied skills iff the body is valid and its category and skills exist; else 400 with issues or 500, and nothing changes |
| ProjectController.Updated | server/controllers/projectController.ts:137-146 | the skill set is replaced wholesale, `createdAt` is kept, an absent description keeps the stored one |
| ProjectController.Update | server/controllers/projectController.ts:124-163 | NaN id gives 400; bad body gives 400 with issues; success iff the id exists and the references exist, replacing the row; every other parsed id with a valid body gives 500 "Failed to update project"; failures change nothing |
| ProjectController.UpdateReplacesSkills | server/controllers/projectController.ts:143-146 | after an update the project's skills are exactly the supplied ids, `[3]` giving `{3}` |
| ProjectController.Delete | server/controllers/projectController.ts:165-183 | NaN id gives 400; 204 removing only that row iff it exists; a missing id gives 500 |
| ProjectController.CreateKeepsConsistent | server/controllers/projectController.ts:98-112 | creating keeps the store consistent, references included |
| ProjectController.UpdateKeepsConsistent | server/controllers/projectController.ts:135-150 | updating keeps the store consistent |
| ProjectController.DeleteKeepsConsistent | server/controllers/projectController.ts:174-176 | deleting keeps the store consistent |
| ProjectController.GetProjects | server/controllers/projectController.ts:16-62 | the method's reply is `List`'s |
| ProjectController.GetProjectById | server/controllers/projectController.ts:64-90 | the method's reply is `GetById`'s |
| ProjectController.CreateProject | server/controllers/projectController.ts:92-122 | the method's reply and new store are `Create`'s |
| ProjectController.UpdateProject | server/controllers/projectController.ts:124-163 | the method's reply and new store are `Update`'s |
| ProjectController.DeleteProject | server/controllers/projectController.ts:165-183 | the method's reply and new store are `Delete`'s |
| TechStackController.Proficiency | server/controllers/techStackController.ts:9-16 | a number passes iff in 0..100; a string passes as its `parseInt(val, 10)` when that is a number and otherwise throws a plain error |
| TechStackController.TechSchema | server/controllers/techStackController.ts:5-17 | passes iff name, icon and category are non-empty strings and proficiency passes; the thrown error escapes regardless of other fields |
| TechStackController.StringProficiencyUnbounded | server/controllers/techStackController.ts:10-15 | the text of a number above 100 is stored as that number, while the number itself is refused |
| TechStackController.ByCategoryThenProficiencyTotalPreorder | server/controllers/techStackController.ts:22-25 | category ascending, then proficiency descending, is a total preorder |
| TechStackController.Listing | server/controllers/techStackController.ts:19-32 | the list is sorted by that order and is a permutation of the rows |
| TechStackController.ListingWithinCategory | server/controllers/techStackController.ts:24 | within one category the list runs from the highest proficiency down |
| TechStackController.Create | server/controllers/techStackController.ts:34-54 | 201 with one new row iff the schema passes; zod issues give 400; the thrown error gives 500; failures change nothing |
| TechStackController.Update | server/controllers/techStackController.ts:56-80 | success iff the schema passes and the id exists, overwriting all four fields; zod issues give 400; otherwise 500 |
| TechStackController.Delete | server/controllers/techStackController.ts:82-93 | 204 removing the row iff the id parses and exists; else 500 |
| TechStackController.CreateKeepsConsistent | server/controllers/techStackController.ts:37-44 | creating keeps the store consistent |
| TechStackController.UpdateKeepsConsistent | server/controllers/techStackController.ts:61-69 | updating keeps the store consistent |
| TechStackController.DeleteKeepsConsistent | server/controllers/techStackController.ts:85-87 | deleting keeps the store consistent |
| TechStackController.GetTechStack | server/controllers/techStackController.ts:19-32 | the method's reply is the listing |
| TechStackController.CreateTechStack | server/controllers/techStackController.ts:34-54 | the method's reply and new store are `Create`'s |
| TechStackController.UpdateTechStack | server/controllers/techStackController.ts:56-80 | the method's reply and new store are `Update`'s |
| TechStackController.DeleteTechStack | server/controllers/techStackController.ts:82-93 | the method's reply and new store are `Delete`'s |
| EducationController.EducationSchema | server/controllers/educationController.ts:5-21 | accepts iff institution, degree and field are non-empty, dates are strings, `current` defaults to false, and current or a non-empty end date holds; otherwise the refinement issue "End date is required when not current" on `endDate` |
| EducationController.Updated | server/controllers/educationController.ts:53-58 | an undefined end date or description keeps the stored value |
| EducationController.Listing | server/controllers/educationController.ts:23-33 | sorted by start date, latest first, a permutation of the rows |
| EducationController.Create | server/controllers/educationController.ts:35-48 | 201 with one new row iff the schema passes with valid dates; 400 "Invalid education data" with issues; otherwise 500 |
| EducationController.Update | server/controllers/educationController.ts:50-69 | success iff the schema passes, dates are valid and the id exists; 400 with issues; otherwise 500 |
| EducationController.Delete | server/controllers/educationController.ts:71-82 | 204 removing the row iff the id parses and exists; else 500 |
| EducationController.CreatedIsDated | server/controllers/educationController.ts:13-21 | a created entry is current or has an end date |
| EducationController.UpdateKeepsDated | server/controllers/educationController.ts:13-58 | updates keep every entry current or with an end date |
| EducationController.CreateKeepsConsistent | server/controllers/educationController.ts:38 | creating keeps the store consistent |
| EducationController.UpdateKeepsConsistent | server/controllers/educationController.ts:55-58 | updating keeps the store consistent |
| EducationController.DeleteKeepsConsistent | server/controllers/educationController.ts:74-76 | deleting keeps the store consistent |
| EducationController.GetEducation | server/controllers/educationController.ts:23-33 | the method's reply is the listing |
| EducationController.CreateEducation | server/controllers/educationController.ts:35-48 | the method's reply and new store are `Create`'s |
| EducationController.UpdateEducation | server/controllers/educationController.ts:50-69 | the method's reply and new store are `Update`'s |
| EducationController.DeleteEducation | server/controllers/educationController.ts:71-82 | the method's reply and new store are `Delete`'s |
| ExperienceController.ExperienceSchema | server/controllers/experienceController.ts:5-12 | accepts iff title, company and description are non-empty, dates are strings and `current` is absent or boolean (default false); the fields are the body's, the start date is its parse, an absent or empty end date becomes undefined and a present one is the parse of its text |
| ExperienceController.NoEndDateAccepted | server/controllers/experienceController.ts:5-12 | a past position with no end date passes: there is no cross-field rule |
| ExperienceController.Updated | server/controllers/experienceController.ts:46-49 | an undefined end date keeps the stored one |
| ExperienceController.Listing | server/controllers/experienceController.ts:14-24 | sorted by start date, latest first, a permutation of the rows |
| ExperienceController.Create | server/controllers/experienceController.ts:26-39 | 201 with one new row iff the schema passes with valid dates; 400 with issues; otherwise 500 |
| ExperienceController.Update | server/controllers/experienceController.ts:41-60 | success iff the schema passes, dates are valid and the id exists; else 400 or 500, nothing changed |
| ExperienceController.Delete | server/controllers/experienceController.ts:62-73 | 204 removing only that row iff the id parses and exists; else 500 |
| ExperienceController.CreateKeepsConsistent | server/controllers/experienceController.ts:29 | creating keeps the store consistent |
| ExperienceController.UpdateKeepsConsistent | server/controllers/experienceController.ts:46-49 | updating keeps the store consistent |
| ExperienceController.DeleteKeepsConsistent | server/controllers/experienceController.ts:65-67 | deleting keeps the store consistent |
| ExperienceController.GetExperiences | server/controllers/experienceController.ts:14-24 | the method's reply is the listing |
| ExperienceController.CreateExperience | server/controllers/experienceController.ts:26-39 | the method's reply and new store are `Create`'s |
| ExperienceController.UpdateExperience | server/controllers/experienceController.ts:41-60 | the method's reply and new store are `Update`'s |
| ExperienceController.DeleteExperience | server/controllers/experienceController.ts:62-73 | the method's reply and new store are `Delete`'s |
| AboutController.NullableUrl | server/controllers/aboutController.ts:7 | `resumeUrl` may be absent, null or a non-empty string, with no URL check |
| AboutController.AboutSchema | server/controllers/aboutController.ts:5-8 | accepts iff the biography is a non-empty string and `resumeUrl` passes; an empty biography is refused with "Biography is required" |
| AboutController.Created | server/controllers/aboutController.ts:41 | a created row stores an absent url as null |
| AboutController.Updated | server/controllers/aboutController.ts:40 | an update overwrites the biography and, when supplied, the url |
| AboutController.Fetch | server/controllers/aboutController.ts:10-32 | with rows, the most recently updated one and nothing changes; with none, exactly one blank row is created and returned |
| AboutController.Update | server/controllers/aboutController.ts:34-53 | bad body gives 400 "Invalid data" with issues; otherwise row 1 is updated, or created when absent |
| AboutController.FetchKeepsConsistent | server/controllers/aboutController.ts:16-25 | reading leaves exactly one row, row 1, in a consistent store |
| AboutController.UpdateKeepsConsistent | server/controllers/aboutController.ts:38-42 | a valid body always ends with exactly one row, row 1, holding the reply |
| AboutController.FetchIdempotent | server/controllers/aboutController.ts:12-25 | a second read returns the first read's row and creates nothing |
| AboutController.UpdateThenFetch | server/controllers/aboutController.ts:12-42 | after an update, reading returns the row written |
| AboutController.GetAbout | server/controllers/aboutController.ts:10-32 | the method's reply and new store are `Fetch`'s |
| AboutController.UpdateAbout | server/controllers/aboutController.ts:34-53 | the method's reply and new store are `Update`'s |
| LocationController.LocationSchema | server/controllers/locationController.ts:5-8 | accepts iff city and office hours are non-empty strings |
| LocationController.Fetch | server/controllers/locationController.ts:10-25 | the most recently updated row, or 404 "Location not found"; never changes the store |
| LocationController.Update | server/controllers/locationController.ts:27-55 | bad body gives 400 with issues; otherwise row 1 gets exactly the new city and office hours, created when absent; no other row is touched |
| LocationController.UpdateKeepsConsistent | server/controllers/locationController.ts:31-41 | a valid update leaves exactly row 1 in a consistent store |
| LocationController.RepeatedUpdate | server/controllers/locationController.ts:31-41 | repeating the same update leaves the same city and office hours in row 1 |
| LocationController.UpdateThenFetch | server/controllers/locationController.ts:12-41 | after an update, reading returns the row written |
| LocationController.GetLocation | server/controllers/locationController.ts:10-25 | the method's reply is `Fetch`'s |
| LocationController.UpdateLocation | server/controllers/locationController.ts:27-55 | the method's reply and new store are `Update`'s |
| Upload.FileFilter | server/services/uploadService.ts:14-36 | on a resume path a file is accepted iff it is a PDF, elsewhere iff it is JPEG, PNG or GIF; a refusal carries the path's message |
| Upload.ResumePathIsResume | server/services/uploadService.ts:19 | the résumé route's path counts as a résumé upload |
| Upload.ImagePathIsNotResume | server/services/uploadService.ts:19 | the image route's path does not |
| Upload.ExtName | server/services/uploadService.ts:9 | `path.extname`: a non-empty result is the suffix of the base name from its last dot, the dot not first; the result is empty iff the base name has no dot after its first character or is ".." |
| Upload.BaseName | server/services/uploadService.ts:9 | the part after the last slash (what `path.basename` gives for a name with no trailing slash): a slash-free suffix, the whole name when it has no slash |
| Upload.StoredName | server/services/uploadService.ts:8-11 | the stored name is the generated id followed by the original name's extension |
| Upload.StoredNameKeepsExtension | server/services/uploadService.ts:8-11 | the stored name has the original file's extension |
| Upload.Receive | server/routes/upload.ts:9-26 | no file gives 400 "No file uploaded"; the url `/uploads/<id><ext>` is returned iff the field, type and 10 MiB size all pass; a file that arrives and fails is answered 500 with "Unexpected field", the filter's message or "File too large" |
| Upload.Post | server/routes/upload.ts:9-19 | both routes refuse every request the token gate refuses, and otherwise receive the file |
| Upload.ResumeRouteTypes | server/routes/upload.ts:19-26 | the résumé route stores a PDF and refuses anything else with the PDF-only message |
| Upload.ImageRouteTypes | server/routes/upload.ts:9-16 | the image route stores the three image types and refuses anything else, a PDF included, with the images-only message |
| Seed.UpsertCategoryKeepsConsistent | prisma/seed.ts:23-27 | upserting a name keeps the store consistent, makes the name present and keeps every name present |
| Seed.UpsertCategoriesKeepsConsistent | prisma/seed.ts:21-28 | after the loop each listed name is present, only categories changed, and existing rows are kept in front |
| Seed.UpsertCategoriesNoop | prisma/seed.ts:23-27 | upserting names already present changes nothing |
| Seed.UpsertAdminKeepsConsistent | prisma/seed.ts:9-18 | after the admin upsert a user with the admin e-mail exists and the store is consistent |
| Seed.UpsertLocationKeepsConsistent | prisma/seed.ts:31-38 | location 1 is left alone if present, else created with the Nashville defaults |
| Seed.SeedKeepsConsistent | prisma/seed.ts:9-38 | seeding keeps the store consistent |
| Seed.SeedEstablishesAdmin | prisma/seed.ts:9-18 | the admin exists after seeding, and an existing one is left unchanged |
| Seed.SeedEstablishesCategories | prisma/seed.ts:21-28 | each seeded category name exists, exactly once, and existing rows are kept |
| Seed.SeedEstablishesLocation | prisma/seed.ts:31-38 | location 1 is created with the defaults if absent and otherwise unchanged |
| Seed.SeedIdempotent | prisma/seed.ts:9-38 | seeding twice gives the state of seeding once |
| Seed.SeedAdmin | prisma/seed.ts:9-18 | the method's new store is the admin upsert's |
| Seed.SeedCategories | prisma/seed.ts:21-28 | the loop's new store is the upsert of the names in order |
| Seed.SeedLocation | prisma/seed.ts:31-38 | the method's new store is the location upsert's |
| Seed.RunSeed | prisma/seed.ts:6-41 | the whole run leaves the seeded state and a valid store |
| ProjectForm.Without | src/admin/components/ProjectForm.tsx:71 | removes every copy of the id and keeps every other id |
| ProjectForm.Toggled | src/admin/components/ProjectForm.tsx:68-74 | a present id is removed everywhere; an absent one is appended; other ids keep their order |
| ProjectForm.ToggleTwice | src/admin/components/ProjectForm.tsx:70-72 | toggling an absent id twice restores the list |
| ProjectForm.FormState.constructor | src/admin/components/ProjectForm.tsx:19-31 | the form starts with the given selection |
| ProjectForm.ToggleSkill | src/admin/components/ProjectForm.tsx:68-74 | the selection in the form becomes `Toggled` of the old one |
| ProjectForm.SkillIds | src/admin/components/ProjectForm.tsx:22 | the skills become their ids, position by position |
| ProjectForm.Defaults | src/admin/components/ProjectForm.tsx:20-30 | editing starts from the project with skills as ids; a new form starts from empty strings, no category and no skills |
| ProjectForm.FormatSubmit | src/admin/components/ProjectForm.tsx:76-84 | `categoryId` becomes `Number(...)`, `skills` becomes `skills \|\| []`, `description` becomes `description \|\| ''`, other fields pass through |
| ProjectForm.SubmitThenFormat | src/admin/components/ProjectForm.tsx:76-84 | the client library's formatting after submit agrees with submit's, except for a truthy non-array `skills` |
| ProjectForm.AddSkill | src/admin/components/ProjectForm.tsx:57-66 | blank input sends nothing; otherwise the trimmed name is sent |
| ProjectForm.AddedSkillAccepted | src/admin/components/ProjectForm.tsx:59-62 | whatever the guard sends passes the server's name schema with the trimmed name |
| TechStackPage.GroupByCategory | src/admin/pages/TechStack.tsx:85-94 | no data gives `{}`; otherwise the loop builds exactly the grouping and its key order |
| TechStackPage.ReduceStep | src/admin/pages/TechStack.tsx:88-91 | one step of the reduce adds the row to its category, creating the key when new |
| TechStackPage.EachRowInItsGroup | src/admin/pages/TechStack.tsx:87-93 | every row is in the group of its own category and in no other |
| TechStackPage.KeysAreCategories | src/admin/pages/TechStack.tsx:88-90 | the keys are exactly the categories present, each once |
| TechStackPage.GroupKeepsOrder | src/admin/pages/TechStack.tsx:91 | within a group the rows keep their input order |
| TechStackPage.TotalPreserved | src/admin/pages/TechStack.tsx:87-93 | the group sizes add up to the number of rows |
| TechStackPage.TechPayload | src/admin/pages/TechStack.tsx:30-52 | `proficiency` becomes exactly `Number(proficiency)`; other fields are unchanged |
| TechStackPage.ProficiencyOnTheWire | src/admin/pages/TechStack.tsx:32 | digits typed in the form arrive as that number, accepted iff within 0..100 |
| TechStackPage.NonNumericProficiencyRefused | src/admin/pages/TechStack.tsx:32 | non-numeric text arrives as null and is a validation error |
| TechStackPage.OutOfRangeTextRefused | src/admin/pages/TechStack.tsx:32 | text above 100 is refused, though the same text sent as a string would be stored |
| TechStackPage.OnSubmit | src/admin/pages/TechStack.tsx:77-83 | with a tech selected, a put to its path; otherwise a post; both send the payload |
| TechStackPage.UpdateTargetsSelected | src/admin/pages/TechStack.tsx:77-79 | the server's `parseInt` of the update path is the selected tech's id |
| Errors.NewApiError | src/utils/errors.ts:1-10 | an `APIError` carries its name, message, status and errors |
| Errors.HandleApiError | src/utils/errors.ts:12-22 | an `APIError` is returned as it is; another `Error` keeps its message with status 500 and no errors; anything else becomes "An unexpected error occurred" with 500 |
| Errors.HandleApiErrorIdempotent | src/utils/errors.ts:12-22 | normalising a normalised error changes nothing |
| Errors.StatusKeptOnlyForApiErrors | src/utils/errors.ts:13-21 | only an `APIError` input yields a status other than 500 |
| ClientValidation.LoginSchema | src/utils/validation.ts:3-6 | accepts iff the e-mail matches and the password is at least 6 UTF-16 code units long, each failure with its message |
| ClientValidation.EmojiPasswordLongEnough | src/utils/validation.ts:5 | a password of three emoji (six code units) is long enough |
| ClientValidation.ProjectSchema | src/utils/validation.ts:8-14 | accepts iff title, logo and category are non-empty and the image is a URL, each failure with its message; the accepted values are the body's, the description present exactly when the body gives a string and then equal to it |
| ClientValidation.LocationSchema | src/utils/validation.ts:16-19 | accepts iff city and office hours are non-empty |
| ClientValidation.LocationSchemasAgree | src/utils/validation.ts:16-19 | the browser and server location schemas give the same result, messages included |
| ClientValidation.ValidateDateRange | src/utils/validation.ts:26-29 | true when the end date is absent or empty; otherwise true iff start ≤ end as parsed dates |
| ClientValidation.DateRangeReflexive | src/utils/validation.ts:28 | equal valid dates pass, an Invalid Date fails even against itself |
| ClientValidation.DateRangeTransitive | src/utils/validation.ts:28 | chained ranges compose |
| ClientValidation.OnlyTheBrowserOrdersDates | src/utils/validation.ts:26-29 | an experience ending before it starts is refused by the browser but stored by the server |
| Js.ParseInt | server/controllers/projectController.ts:67 | `parseInt(s)` without a radix: a `0x` after the sign switches to base 16 and needs a hex digit; otherwise it reads as `parseInt(s, 10)` |
| Js.ParseIntDecimal | server/controllers/techStackController.ts:12 | `parseInt(s, 10)` fails exactly when no digit follows the optional sign after leading whitespace |
| Js.ParseIntReadsHex | server/controllers/projectController.ts:67 | "0x1A" is 26 and a bare "0x" is NaN |
| Js.ParseIntDecimalStopsAtX | server/controllers/techStackController.ts:12 | with radix 10 "0x1A" and "0x" are both 0 |
| Js.ParseIntSignedHex | server/controllers/projectController.ts:67 | a sign may precede the `0x`: "-0x10" is -16 |
| Js.ParseIntOfIntToString | server/controllers/projectController.ts:67 | `parseInt(String(n))` is n |
| Js.ParseIntDecimalOfIntToString | server/controllers/techStackController.ts:12 | `parseInt(String(n), 10)` is n |
| Js.StringToNumber | server/controllers/projectController.ts:19 | `Number` of a string is a number or NaN; a `0x`, `0o` or `0b` literal is its value in that base when all its digits belong to it, else NaN |
| Js.ToNumber | src/services/api.ts:77 | `Number(v)` is a number or NaN, keeps a number, and is `StringToNumber` on a string |
| Js.NumberReadsDecimalSpellings | server/controllers/projectController.ts:19 | "2.0" is 2 and "1e1" is 10 |
| Js.NumberReadsHexSpelling | server/controllers/projectController.ts:19 | "0x2" is 2 |
| Js.NumberReadsBinarySpelling | server/controllers/projectController.ts:19 | "0b10" is 2 |
| Js.NumberRefusesSignedOrEmptyHex | server/controllers/projectController.ts:19 | "-0x2" and "0x" are NaN |
| Js.ToNumberOfNestedArray | src/services/api.ts:77 | `Number([[5]])` is 5, through the array's string form |
| Js.Utf16Length | src/utils/validation.ts:5 | `length` counts code units: between one and two per character, zero only for "", and one per character iff none lies above U+FFFF |
| Js.EmojiLength | src/utils/validation.ts:5 | three emoji are three characters and six code units |
| Js.ToNumberIdempotent | src/services/api.ts:77 | `Number(Number(v))` is `Number(v)` |
| Js.JoinSplit | server/middleware/auth.ts:14 | joining the fields of a split gives back the string |
| Js.SplitJoin | server/middleware/auth.ts:14 | splitting a join of separator-free fields gives back the fields |
| Js.TrimEmpty | src/admin/components/ProjectForm.tsx:59 | `trim()` is empty exactly for blank input |
| Js.Trim | src/admin/components/ProjectForm.tsx:59 | `trim()` is a slice of the input with only whitespace cut on either side and no whitespace left at its ends |
| Js.Split | server/middleware/auth.ts:14 | `split(' ')` gives at least one field, none holding the separator |
| Js.Contains | server/services/uploadService.ts:19 | `includes` holds for the empty string and only for strings no longer than the subject |
| Schema.NameSchema | server/controllers/categoryController.ts:5-7 | a name body passes iff it is an object with a non-empty string `name`, and fails with one issue on `name` |
| Schema.OptionalDateString | server/controllers/experienceController.ts:9 | an absent or empty end date becomes undefined; otherwise the parsed date |
| Ordering.Sort | server/controllers/categoryController.ts:17 | the sorted list is ordered and a permutation of the input |
| Tables.Latest | server/controllers/locationController.ts:12-14 | the row returned has the greatest stamp; none only for an empty table |
| Tables.DeleteWellFormed | server/controllers/categoryController.ts:94-98 | deleting an existing id removes exactly one row and keeps ids well-formed |

## Left out

- Cryptography. JWT signing and verification and bcrypt hashing are outside the model: `jwt.verify` is a `Verifier` parameter and the admin password hash is a parameter of the seed.
- Prisma internals. The store is in-memory sequences. Constraint failures are modelled as the 500 replies they cause: a missing row on update or delete, a NaN id, an Invalid Date, a dangling category or skill reference. Database failures of reads are not modelled, so the 500 branches of the read handlers are reached only where the model's own inputs cause them (a NaN page or limit in the project list).
- The `include` of a project's category and skills in replies is not modelled: replies carry the stored row, with the category id and the skill-id set.
- The login route and user handling are not part of this model; only the admin seed writes users.
- Js.StringToNumber: numbers are integers. A text with an integral value is read as JavaScript does ("2.0", "1e1", "0x2", "0o7", "0b10"), but a fractional value such as "1.5" or "0.5e1" is NaN here, and `Infinity` and "1e400" are not modelled; nor is the rounding of integers beyond 2^53. For a limit text this still gives the source's 500, because a fractional `take` fails in the store. For a page text it does not always: a fractional page whose skip `(page - 1) * limit` is an integer is accepted by the store (see the `ProjectController.List` line).
- `Pages` returns none where JavaScript would produce `Infinity` or `NaN` for a zero limit.
- Integer width. Prisma `Int` columns are 32-bit, and the model's ids and proficiencies are unbounded. An id outside the 32-bit range fails in the query engine, so `GET /projects/99999999999` is answered 500 in the source and 404 here, and `TechStackController.Create` stores the text proficiency "3000000000" where the database refuses it with 500.
- ProjectController.Query: holds each query parameter as absent or one string. Express's query parser gives an array for a repeated key and an object for a bracketed one: `?page=1&page=2` makes `Number` NaN (500) and `?search=a&search=b` searches for "a,b". These shapes are not modelled.
- Ordering.LexLeq: orders names by code point. The listings sorted by name (categories, skills, tech stack) are sorted by the database's collation, which the model does not capture.
- ProjectController.List: requires a non-negative numeric `limit` (`LimitSupported`), because the store's backward paging for a negative `take` is not modelled. It also answers 500 for a fractional page, but the source answers some of them 200: `?page=1.5` with the default limit 10 gives `skip = 5`, which the store accepts, so the source returns the sixth to fifteenth matches with `currentPage: 1.5`.
- ProjectController.GetProjects: has the same requirement as `List`, and the same 500 for a fractional page.
- Concurrency. The `Promise.all` of the count and the page query is modelled as two sequential reads. Interleaved requests are not modelled: each handler is one atomic step.
- `localStorage` persistence of the auth store is not modelled; the interceptor's token is the store's state.
- Errors.HandleApiError: returns an equal value for an `APIError` input; object identity is not modelled.
- React rendering, toasts, query invalidation and navigation are not modelled: only the data the pages compute and send is.
- The e-mail and URL patterns of the client schemas are parameters (`isEmail`, `isUrl`), not the regular expressions zod uses.
- Multer internals. The disk write, the UUID generator (a parameter) and multer's multipart parsing are not modelled; the size limit is a comparison against the file's size. `Destination` is recorded as a constant and not otherwise used.
- Express wiring, `helmet`, CORS and static file serving are not modelled. The upload routes are modelled behind the token gate, as the route file mounts them.
- TechStackPage.GroupByCategory: uses the order of first appearance for the keys; JavaScript lists integer-like keys first, and a category named like an `Object.prototype` member (e.g. `constructor`) would find an inherited value. Neither case is modelled.
- The client `projectSchema` checks a `category` field, while the form and server use `categoryId`; the model states the client schema as written and does not connect it to the form.
- The time utilities (`server/utils/time.ts`, `src/utils/time.ts`), the Redux `portfolioSlice`, the `projectStore`, and the grouping repeated on the public About page are not part of this model.
- Security.RequestLimiter.Handle: takes the address as a string; an undefined `req.ip` (all such requests share one key) is not modelled separately.
- Floating point and the clock are outside the model: `now` and the date parser are parameters.

## Where the code and its description differ

The model follows the code:

- Experience has no rule tying `current` to `endDate`; education has one.
- A string proficiency is not range-checked, and non-numeric text throws a plain error, so it is answered with 500, not 400.
- The About biography must be non-empty, so the blank row `getAbout` creates cannot be saved back unchanged.
- Updating or deleting a missing id is answered with 500, not 404. Only the project handlers check the id first, and they answer 400 for a NaN id.
- Upload filter, field and size errors reach Express's default error handler, which answers 500. The server's own error middleware is registered before the routes and never sees them.
