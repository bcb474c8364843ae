# Profile routes of a social-network API, modelled in Dafny

The model covers the profile routes of the REST API (`routes/api/profile.js`).
Without the web framework and the ORM, these routes are a small sequential
state machine over three things:

- a table from user id to profile;
- the set of user ids;
- the counter the database draws entry identifiers from.

A profile holds optional scalar fields, a list of skills, a `social` record and
two lists of entries, `experience` and `education`. Each entry carries a
generated identifier. Each route handler is an operation of the
`ProfileStore` class:

- create-or-update of the caller's profile;
- fetching one's own profile, a profile by user id, or all profiles;
- deletion of the caller's profile together with their user record;
- putting a new entry at the front of either entry list;
- removing an entry by identifier from either list.

Files:

- `wrappers.dfy` (`Wrappers`): `Option` and `Result`.
- `skills.dfy` (`Skills`): the skills parser, which splits on every `,` and
  trims each piece as ECMAScript's `String.prototype.split` and
  `String.prototype.trim` do. `Trim` is pinned down by an existence half (its
  contract) and a uniqueness half (`TrimUnique`). `SplitComma` is pinned down
  the same way by `JoinSplit` and `SplitUnique`.
- `profiles.dfy` (`Profiles`): the records, the not-empty validation rules,
  the sparse field set that create-or-update assembles, the `$set` merge, and
  the `indexOf`/`splice` removal. It also holds the table invariant: each
  profile belongs to its key, and entry identifiers are distinct and below the
  counter.
- `profile_api.dfy` (`ProfileApi`): the `ProfileStore` class, whose methods are
  the route handlers. It also holds the step-by-step field assembly and the
  as-written model of GET `/me` (see Findings).

Modelling choices:

- The authenticated caller's id is an input of every private operation.
- A request value is `Option<string>`: `None` means the key is absent. A value
  counts as given when it is a non-empty string. For strings, that is both
  what the `not().isEmpty()` validator accepts and what JavaScript treats as
  truthy.
- Dates and booleans (`from`, `to`, `current`) are carried as opaque text.
- Entry identifiers are the natural numbers issued by the store's counter.
- When validation fails, the handler answers `Invalid` with the field errors
  in rule order, and the store is unchanged.
- When a handler dereferences a missing profile (lines 190, 206, 256 and 273),
  the `TypeError` lands in the catch block. The model answers `ServerError`
  and leaves the store unchanged.
- Removal with an identifier that is not in the list is kept as written.
  `indexOf` gives -1, and `splice(-1, 1)` then drops the last entry, or
  nothing when the list is empty (`Profiles.RemoveAbsent`).
- A deleted user's token can still create a new profile. The handlers never
  check the user set, so the model keeps no "every profile has a user"
  invariant.

## Model

| member | source | states |
|---|---|---|
| `Skills.Trim` | routes/api/profile.js:67 | the trimmed piece has no leading or trailing whitespace, and it is an infix of the piece with only whitespace around it |
| `Skills.TrimUnique` | routes/api/profile.js:67 | if a string is a trimmed string `t` with only whitespace around it, trimming the string gives `t`, so `Trim` is fully determined |
| `Skills.TrimIdempotent` | routes/api/profile.js:67 | trimming twice is the same as trimming once |
| `Skills.SplitComma` | routes/api/profile.js:67 | `split(',')` gives one more piece than there are commas, no piece contains a comma, and empty pieces are kept |
| `Skills.JoinSplit` | routes/api/profile.js:67 | joining the pieces with `,` gives back the input |
| `Skills.SplitUnique` | routes/api/profile.js:67 | any comma-free pieces that join to the input are exactly the pieces of the split |
| `Skills.ParseSkills` | routes/api/profile.js:66-68 | there are as many skills as commas plus one, and no skill has surrounding whitespace |
| `Skills.ParseSkillsOfPieces` | routes/api/profile.js:67 | for comma-free pieces joined by `,`, the k-th parsed skill is the k-th piece trimmed |
| `Skills.SkillsExample` | routes/api/profile.js:67 | `"html, css,node "` is stored as `["html", "css", "node"]` |
| `Profiles.NotEmptyErrors` | routes/api/profile.js:34-42 | a chain of not-empty checks reports no error exactly when every value is a non-empty string; every error comes from a failing check, and every failing check is reported |
| `Profiles.Supplied` | routes/api/profile.js:58-75 | a value is given exactly when it is a non-empty string: the test both the `not().isEmpty()` checks (lines 34-35, 159-161, 226-228) and the `if (x)` truthiness tests apply; no contract of its own, it is the condition the validation and assembly contracts are stated in |
| `Profiles.NotEmptyErrorsSingle` | routes/api/profile.js:34-42 | one check contributes exactly one error, with its parameter and message, when its value is missing or empty, and none otherwise |
| `Profiles.NotEmptyErrorsConcat` | routes/api/profile.js:34-42 | the errors of a chain are those of its first checks followed by those of the rest, so the list holds one error per failing check in chain order |
| `Profiles.ProfileErrors` | routes/api/profile.js:34-42 | a create-or-update request is rejected exactly when `status` or `skills` is missing or empty; the error list is exactly the status error (if status fails) followed by the skills error (if skills fails) |
| `Profiles.ExperienceErrors` | routes/api/profile.js:159-169 | a new experience entry is rejected exactly when `title`, `company` or `from` is missing or empty; the error list is exactly one error per failing field, in the order title, company, from |
| `Profiles.EducationErrors` | routes/api/profile.js:226-235 | a new education entry is rejected exactly when `school`, `degree` or `from` is missing or empty; the error list is exactly one error per failing field, in the order school, degree, from |
| `Profiles.BuildSocial` | routes/api/profile.js:70-75 | each social link is present exactly when its request value is given, and then equals it |
| `Profiles.BuildFields` | routes/api/profile.js:58-75 | the field set always has `user` equal to the caller and a `social` object; every other field is present only when its request value is given; the skills are `ParseSkills` of the request value (the trimmed comma-separated pieces, as many as commas plus one) |
| `Profiles.Upsert` | routes/api/profile.js:77-90 | afterwards the table has an entry for the caller, and every other user's profile is unchanged |
| `Profiles.CreateFromRequest` | routes/api/profile.js:87-90 | a caller without a profile gets one holding exactly the assembled fields and no entries |
| `Profiles.UpdateFromRequest` | routes/api/profile.js:78-84 | on update, given top-level fields overwrite, omitted ones keep their stored values, `social` is replaced whole and both entry lists are untouched |
| `Profiles.UpsertIdempotent` | routes/api/profile.js:77-90 | applying the same field set twice gives the same table as applying it once |
| `Profiles.UpsertKeepsValid` | routes/api/profile.js:77-90 | create-or-update keeps every profile keyed by its own user, with valid entry identifiers |
| `Profiles.Created` | routes/api/profile.js:88 | `new Profile(profiledFields)`; no contract of its own, `CreateFromRequest` pins every field: the assembled values, skills defaulting to empty, and empty entry lists |
| `Profiles.Merged` | routes/api/profile.js:80-84 | `$set: profiledFields` on the stored profile; no contract of its own, `UpdateFromRequest` pins every field: given fields overwrite, omitted ones stay, `social` is replaced, lists untouched |
| `Profiles.Lookup` | routes/api/profile.js:77 | `findOne({ user })` as used at lines 77, 114, 189, 204, 255 and 271: a profile exactly when the user has one, and then the stored one |
| `Profiles.NewExperience` | routes/api/profile.js:179-187 | the `newExp` object; no contract of its own, `AddExperience` states that the prepended entry carries it with the fresh identifier |
| `Profiles.NewEducation` | routes/api/profile.js:245-253 | the `newEdu` object; no contract of its own, `AddEducation` states that the prepended entry carries it with the fresh identifier |
| `Profiles.Ids` | routes/api/profile.js:207 | `map((item) => item.id)`: one identifier per entry, the k-th being the k-th entry's |
| `Profiles.IndexOf` | routes/api/profile.js:206-208 | the result is -1 exactly when the id is absent; otherwise it is the first position holding the id |
| `Profiles.SpliceStart` | routes/api/profile.js:210 | the start `splice` resolves lies within the list; the contents it leads to are pinned by `RemoveFirstMatch` and `RemoveAbsent` |
| `Profiles.SpliceOne` | routes/api/profile.js:210 | `splice(start, 1)` shortens the list by one exactly when the resolved start is inside it |
| `Profiles.RemoveById` | routes/api/profile.js:206-210 | the removal of lines 206-210 and 273-277: exactly one entry goes from a non-empty list and none from an empty one, and nothing new appears; `RemoveFirstMatch`, `RemovePresent` and `RemoveAbsent` pin which entry goes |
| `Profiles.RemoveFirstMatch` | routes/api/profile.js:206-210 | removing an id whose first occurrence is at index `i` gives `l[..i] + l[i+1..]` |
| `Profiles.RemovePresent` | routes/api/profile.js:273-277 | with distinct identifiers, removing the id found at index `i` gives `l[..i] + l[i+1..]`, so the other entries keep their order |
| `Profiles.RemoveAbsent` | routes/api/profile.js:206-210 | removing an absent id drops the last entry, or nothing from an empty list |
| `Profiles.RemoveKeepsValid` | routes/api/profile.js:206-210 | removal keeps entry identifiers distinct and below the counter |
| `Profiles.PrependKeepsValid` | routes/api/profile.js:190 | putting an entry with the fresh identifier at the front keeps identifiers distinct and below the advanced counter |
| `Profiles.TableValidBump` | routes/api/profile.js:190 | issuing a new identifier keeps every stored profile valid |
| `ProfileApi.AssembleFields` | routes/api/profile.js:58-75 | the step-by-step conditional assignments build exactly the sparse field set `BuildFields` describes |
| `ProfileApi.AssembleSocial` | routes/api/profile.js:70-75 | the step-by-step assignments build exactly the `social` object `BuildSocial` describes |
| `ProfileApi.MeAsWritten` | routes/api/profile.js:15-21 | as written, GET `/me` answers with the stored profile when there is one |
| `ProfileApi.MeAsWrittenMissesNotFound` | routes/api/profile.js:15-19 | as written, a caller without a profile gets a server error and never the "no profile" answer |
| `ProfileApi.ProfileStore.GetMe` | routes/api/profile.js:13-26 | answers with the caller's profile when there is one, otherwise with "There is no profile for this user"; the store is not changed |
| `ProfileApi.ProfileStore.GetByUser` | routes/api/profile.js:112-130 | answers with that user's profile when there is one, otherwise with "Profile not found"; the store is not changed |
| `ProfileApi.ProfileStore.GetAll` | routes/api/profile.js:100-108 | lists every stored profile once and nothing else, one per user |
| `ProfileApi.ProfileStore.CreateOrUpdate` | routes/api/profile.js:30-96 | on a validation failure, answers with the field errors and changes nothing; otherwise updates or creates the caller's profile only, as `Upsert` of the assembled fields, and answers with it |
| `ProfileApi.ProfileStore.DeleteAccount` | routes/api/profile.js:134-140 | removes the caller's profile and the caller's user id, also when there was no profile; nothing else changes |
| `ProfileApi.ProfileStore.AddExperience` | routes/api/profile.js:154-198 | on a validation failure or a missing profile, answers with the error and changes nothing; otherwise the new entry, with a fresh id, goes at the front, the old list is the tail, and no other field or profile changes |
| `ProfileApi.ProfileStore.RemoveExperience` | routes/api/profile.js:202-217 | a missing profile is a server error and nothing changes; otherwise only the caller's experience list changes, to the code's id removal; the education list and other profiles are unchanged |
| `ProfileApi.ProfileStore.AddEducation` | routes/api/profile.js:221-265 | the same as AddExperience, for the education list with the school, degree and from checks |
| `ProfileApi.ProfileStore.RemoveEducation` | routes/api/profile.js:269-284 | the same as RemoveExperience, for the education list |
| `ProfileApi.CreateOrUpdateTwice` | routes/api/profile.js:77-90 | two identical create-or-update requests answer alike and leave the table as one request does |

## Left out

- Post removal on account deletion: the route comment at line 132 promises to delete the user's posts, but line 136 leaves it as a todo, so the code removes only the profile and the user; the model follows the code.
- Validation source: `check(...)` reads the body, cookies, headers, query string and route parameters, while the handlers destructure only `req.body` (lines 43-56, 170-178, 236-244). The model feeds one value to both, so it assumes the validated value and the body value coincide. A request with no body `status` but a `?status=` query value passes validation in the code and stores no status; the model rejects it with `Invalid`.
- Token verification (`middleware/auth.js`): it wraps a JWT library. The caller id is given instead, and the 401 answers are not modelled.
- GET `/github/:username` (lines 288-310): an outbound HTTP call, and JSON parsing of a third-party answer.
- `populate` of the user's name and avatar (lines 17, 102, 116): a join done by the database. It does not change the store.
- `mongoose.Types.ObjectId.isValid` and other catch paths for storage faults (lines 121-129, 141-149). A malformed user id keys no profile, so the model answers it as "Profile not found", which is what the code does in that case.
- HTTP status codes, response bodies and logging: only the success value and the named error are modelled.
- Asynchronous sequencing, and the race between `findOne` and create: the model is sequential.
- The schema's own validation and defaults, apart from empty entry lists and an empty skills array (`models/Profile` is not part of this model).
- Non-string request values, such as a `skills` array: every request value is treated as text.
- JavaScript strings are UTF-16. Here a `string` is a sequence of Unicode scalar values.
- The React client (`client/src/App.js`, `client/src/components/dashboard/Dashboard.js`): routing and rendering only.
- `ProfileApi.ProfileStore.GetAll`: the order in which the database yields profiles is not modelled. Any order is allowed.

## Findings

| source | as written | input that shows it | evidently intended | confidence | as-written member | corrected member |
|---|---|---|---|---|---|---|
| routes/api/profile.js:15-19 | `(await Profile.findOne(...)).populate(...)` calls `.populate` on the result of `findOne` before the null check on line 18 | GET `/me` by a caller with no profile: `findOne` gives null, `.populate` throws, and the answer is 500 "Server error" | 400 with "There is no profile for this user" (line 19) | high; not executed | `ProfileApi.MeAsWritten` (with `ProfileApi.MeAsWrittenMissesNotFound`) | `ProfileApi.ProfileStore.GetMe` |
