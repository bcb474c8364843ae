/**
 * The profile aggregate of the profile routes: the stored record, the
 * request bodies, the validation the routes run before touching the store,
 * the sparse field set a create-or-update request assembles, and the
 * operations on the two nested entry lists.
 */
module Profiles {
  import opened Wrappers
  import opened Skills

  type UserId = string

  /** Identifier the database assigns to an experience or education entry. */
  type EntryId = nat

  /** A value of the request body: None when the key is absent. Every value is
      kept as its text, so dates and booleans are carried without meaning. */
  type Field = Option<string>

  /** A request value counts as given when it is a non-empty string. For a
      string this is both what express-validator's `not().isEmpty()` accepts
      and what JavaScript treats as truthy. */
  predicate Supplied(v: Field)
  {
    v.Some? && v.value != ""
  }

  /** `o` is the sparse copy of `v`: present exactly when `v` is given, and
      then equal to it. */
  predicate SparseCopy(v: Field, o: Option<string>)
  {
    (o.Some? <==> Supplied(v)) && (o.Some? ==> o == v)
  }

  // ----- Stored records -----

  datatype Social = Social(
    youtube: Option<string>,
    twitter: Option<string>,
    instagram: Option<string>,
    linkedin: Option<string>,
    facebook: Option<string>)

  const NoSocial := Social(None, None, None, None, None)

  datatype Experience = Experience(
    title: Field, company: Field, location: Field,
    from: Field, to: Field, current: Field, description: Field)

  datatype Education = Education(
    school: Field, degree: Field, fieldofstudy: Field,
    from: Field, to: Field, current: Field, description: Field)

  /** A sub-document of one of the two lists, with its generated identifier. */
  datatype Entry<D> = Entry(id: EntryId, data: D)

  datatype Profile = Profile(
    user: UserId,
    company: Option<string>,
    website: Option<string>,
    location: Option<string>,
    bio: Option<string>,
    status: Option<string>,
    githubusername: Option<string>,
    skills: seq<string>,
    social: Social,
    experience: seq<Entry<Experience>>,
    education: seq<Entry<Education>>)

  /** The `profiledFields` object a create-or-update request assembles. */
  datatype ProfileFields = ProfileFields(
    user: UserId,
    company: Option<string>,
    website: Option<string>,
    location: Option<string>,
    bio: Option<string>,
    status: Option<string>,
    githubusername: Option<string>,
    skills: Option<seq<string>>,
    social: Social)

  // ----- Request bodies -----

  datatype ProfileRequest = ProfileRequest(
    company: Field, location: Field, website: Field, bio: Field,
    skills: Field, status: Field, githubusername: Field,
    youtube: Field, twitter: Field, instagram: Field,
    linkedin: Field, facebook: Field)

  datatype ExperienceRequest = ExperienceRequest(
    title: Field, company: Field, from: Field, to: Field,
    location: Field, current: Field, description: Field)

  datatype EducationRequest = EducationRequest(
    school: Field, degree: Field, from: Field, to: Field,
    fieldofstudy: Field, current: Field, description: Field)

  // ----- Errors -----

  /** One entry of express-validator's `error.array()`. */
  datatype FieldError = FieldError(param: string, msg: string)

  datatype Error =
    | Invalid(errors: seq<FieldError>)  // 400 with the list of field errors
    | NotFound(msg: string)             // 400 with a message
    | ServerError                       // 500: an exception reached the catch block

  // ----- Validation -----

  /** One `check(param, msg).not().isEmpty()` rule applied to a value. */
  datatype Rule = Rule(param: string, value: Field, msg: string)

  function ErrorOf(r: Rule): FieldError
  {
    FieldError(r.param, r.msg)
  }

  /** The errors of a chain of not-empty rules, in rule order: there are none
      exactly when every value is given, and there is one for each rule whose
      value is missing or empty and for no other. */
  function NotEmptyErrors(rules: seq<Rule>): (errs: seq<FieldError>)
    ensures |errs| <= |rules|
    ensures errs == [] <==> forall k :: 0 <= k < |rules| ==> Supplied(rules[k].value)
    ensures forall e :: e in errs ==> exists r :: r in rules && !Supplied(r.value) && e == ErrorOf(r)
    ensures forall r :: r in rules && !Supplied(r.value) ==> ErrorOf(r) in errs
  {
    if rules == [] then []
    else
      var rest := NotEmptyErrors(rules[1..]);
      assert forall r :: r in rules[1..] ==> r in rules;
      assert forall r :: r in rules ==> r == rules[0] || r in rules[1..];
      (if Supplied(rules[0].value) then [] else [ErrorOf(rules[0])]) + rest
  }

  /** A single rule contributes exactly one error when its value is missing
      or empty, and none otherwise. */
  lemma NotEmptyErrorsSingle(r: Rule)
    ensures NotEmptyErrors([r]) == if Supplied(r.value) then [] else [ErrorOf(r)]
  {
    assert [r][1..] == [];
  }

  /** The errors of a chain are the errors of its first part followed by
      those of the rest: one per failing rule, in rule order. */
  lemma {:induction false} NotEmptyErrorsConcat(a: seq<Rule>, b: seq<Rule>)
    ensures NotEmptyErrors(a + b) == NotEmptyErrors(a) + NotEmptyErrors(b)
  {
    if a == [] {
      assert a + b == b;
    } else {
      assert (a + b)[0] == a[0];
      assert (a + b)[1..] == a[1..] + b;
      NotEmptyErrorsConcat(a[1..], b);
    }
  }

  /** Validation of a create-or-update request: `status` and `skills`. */
  function ProfileErrors(req: ProfileRequest): (errs: seq<FieldError>)
    ensures errs == [] <==> Supplied(req.status) && Supplied(req.skills)
    ensures errs ==
              (if Supplied(req.status) then [] else [FieldError("status", "Status is required")]) +
              (if Supplied(req.skills) then [] else [FieldError("skills", "Skill is required")])
  {
    var r0 := Rule("status", req.status, "Status is required");
    var r1 := Rule("skills", req.skills, "Skill is required");
    assert [r0, r1] == [r0] + [r1];
    NotEmptyErrorsConcat([r0], [r1]);
    NotEmptyErrorsSingle(r0);
    NotEmptyErrorsSingle(r1);
    NotEmptyErrors([r0, r1])
  }

  /** Validation of an added experience: `title`, `company` and `from`. */
  function ExperienceErrors(req: ExperienceRequest): (errs: seq<FieldError>)
    ensures errs == [] <==> Supplied(req.title) && Supplied(req.company) && Supplied(req.from)
    ensures errs ==
              (if Supplied(req.title) then [] else [FieldError("title", "Title is required")]) +
              (if Supplied(req.company) then [] else [FieldError("company", "Company is required")]) +
              (if Supplied(req.from) then [] else [FieldError("from", "From date is required")])
  {
    var r0 := Rule("title", req.title, "Title is required");
    var r1 := Rule("company", req.company, "Company is required");
    var r2 := Rule("from", req.from, "From date is required");
    assert [r0, r1, r2] == ([r0] + [r1]) + [r2];
    NotEmptyErrorsConcat([r0] + [r1], [r2]);
    NotEmptyErrorsConcat([r0], [r1]);
    NotEmptyErrorsSingle(r0);
    NotEmptyErrorsSingle(r1);
    NotEmptyErrorsSingle(r2);
    NotEmptyErrors([r0, r1, r2])
  }

  /** Validation of an added education: `school`, `degree` and `from`. */
  function EducationErrors(req: EducationRequest): (errs: seq<FieldError>)
    ensures errs == [] <==> Supplied(req.school) && Supplied(req.degree) && Supplied(req.from)
    ensures errs ==
              (if Supplied(req.school) then [] else [FieldError("school", "School is not empty")]) +
              (if Supplied(req.degree) then [] else [FieldError("degree", "Degree is not empty")]) +
              (if Supplied(req.from) then [] else [FieldError("from", "From date is not empty")])
  {
    var r0 := Rule("school", req.school, "School is not empty");
    var r1 := Rule("degree", req.degree, "Degree is not empty");
    var r2 := Rule("from", req.from, "From date is not empty");
    assert [r0, r1, r2] == ([r0] + [r1]) + [r2];
    NotEmptyErrorsConcat([r0] + [r1], [r2]);
    NotEmptyErrorsConcat([r0], [r1]);
    NotEmptyErrorsSingle(r0);
    NotEmptyErrorsSingle(r1);
    NotEmptyErrorsSingle(r2);
    NotEmptyErrors([r0, r1, r2])
  }

  // ----- Field assembly -----

  function Kept(v: Field): Option<string>
  {
    if Supplied(v) then v else None
  }

  /** The `social` object: always present, holding only the given links. */
  function BuildSocial(req: ProfileRequest): (s: Social)
    ensures SparseCopy(req.youtube, s.youtube) && SparseCopy(req.twitter, s.twitter)
    ensures SparseCopy(req.instagram, s.instagram) && SparseCopy(req.linkedin, s.linkedin)
    ensures SparseCopy(req.facebook, s.facebook)
  {
    Social(Kept(req.youtube), Kept(req.twitter), Kept(req.instagram),
           Kept(req.linkedin), Kept(req.facebook))
  }

  /** The assembled field set: always the caller as `user` and a `social`
      object; every other field only when its request value is given; the
      skills as the trimmed comma-separated pieces. */
  function BuildFields(caller: UserId, req: ProfileRequest): (f: ProfileFields)
    ensures f.user == caller
    ensures SparseCopy(req.company, f.company) && SparseCopy(req.website, f.website)
    ensures SparseCopy(req.location, f.location) && SparseCopy(req.bio, f.bio)
    ensures SparseCopy(req.status, f.status) && SparseCopy(req.githubusername, f.githubusername)
    ensures f.skills.Some? <==> Supplied(req.skills)
    ensures f.skills.Some? ==>
              |f.skills.value| == Occurrences(req.skills.value, ',') + 1 &&
              forall k :: 0 <= k < |f.skills.value| ==> IsTrimmed(f.skills.value[k])
    ensures f.skills.Some? ==> f.skills.value == ParseSkills(req.skills.value)
    ensures f.social == BuildSocial(req)
  {
    ProfileFields(
      caller,
      Kept(req.company), Kept(req.website), Kept(req.location), Kept(req.bio),
      Kept(req.status), Kept(req.githubusername),
      if Supplied(req.skills) then Some(ParseSkills(req.skills.value)) else None,
      BuildSocial(req))
  }

  // ----- Create or update -----

  /** `new Profile(profiledFields)`: both entry lists start empty and an
      absent skills array defaults to the empty one. */
  function Created(f: ProfileFields): Profile
  {
    Profile(f.user, f.company, f.website, f.location, f.bio, f.status,
            f.githubusername, f.skills.GetOr([]), f.social, [], [])
  }

  function Override<T>(given: Option<T>, stored: T): T
  {
    if given.Some? then given.value else stored
  }

  function OverrideOpt<T>(given: Option<T>, stored: Option<T>): Option<T>
  {
    if given.Some? then given else stored
  }

  /** `$set: profiledFields` on a stored profile: the fields present in the
      set replace the stored ones; `social` is always present, so it is
      replaced whole; the entry lists are not part of the set. */
  function Merged(p: Profile, f: ProfileFields): Profile
  {
    Profile(f.user,
            OverrideOpt(f.company, p.company), OverrideOpt(f.website, p.website),
            OverrideOpt(f.location, p.location), OverrideOpt(f.bio, p.bio),
            OverrideOpt(f.status, p.status),
            OverrideOpt(f.githubusername, p.githubusername),
            Override(f.skills, p.skills), f.social,
            p.experience, p.education)
  }

  function Lookup(m: map<UserId, Profile>, u: UserId): (r: Option<Profile>)
    ensures r.Some? <==> u in m
    ensures r.Some? ==> r.value == m[u]
  {
    if u in m then Some(m[u]) else None
  }

  /** Find-then-update-or-create keyed by the caller. */
  function Upsert(m: map<UserId, Profile>, caller: UserId, f: ProfileFields): (m': map<UserId, Profile>)
    ensures m'.Keys == m.Keys + {caller}
    ensures forall u :: u in m && u != caller ==> m'[u] == m[u]
  {
    var p := match Lookup(m, caller)
      case Some(stored) => Merged(stored, f)
      case None => Created(f);
    m[caller := p]
  }

  /** A request from a caller without a profile creates one holding exactly
      the assembled fields and no entries. */
  lemma CreateFromRequest(m: map<UserId, Profile>, caller: UserId, req: ProfileRequest)
    requires caller !in m
    requires ProfileErrors(req) == []
    ensures var p := Upsert(m, caller, BuildFields(caller, req))[caller];
      && p.user == caller
      && p.status == req.status
      && p.skills == ParseSkills(req.skills.value)
      && SparseCopy(req.company, p.company) && SparseCopy(req.website, p.website)
      && SparseCopy(req.location, p.location) && SparseCopy(req.bio, p.bio)
      && SparseCopy(req.githubusername, p.githubusername)
      && p.social == BuildSocial(req)
      && p.experience == [] && p.education == []
  {
  }

  /** A request from a caller with a profile overwrites the given top-level
      fields, keeps the omitted ones, replaces `social` whole and leaves both
      entry lists alone. */
  lemma UpdateFromRequest(m: map<UserId, Profile>, caller: UserId, req: ProfileRequest)
    requires caller in m
    ensures var before := m[caller];
      var p := Upsert(m, caller, BuildFields(caller, req))[caller];
      && p.user == caller
      && p.company == (if Supplied(req.company) then req.company else before.company)
      && p.website == (if Supplied(req.website) then req.website else before.website)
      && p.location == (if Supplied(req.location) then req.location else before.location)
      && p.bio == (if Supplied(req.bio) then req.bio else before.bio)
      && p.status == (if Supplied(req.status) then req.status else before.status)
      && p.githubusername == (if Supplied(req.githubusername) then req.githubusername else before.githubusername)
      && p.skills == (if Supplied(req.skills) then ParseSkills(req.skills.value) else before.skills)
      && p.social == BuildSocial(req)
      && p.experience == before.experience && p.education == before.education
  {
  }

  /** Applying the same field set twice leaves the table as applying it once. */
  lemma UpsertIdempotent(m: map<UserId, Profile>, caller: UserId, f: ProfileFields)
    ensures Upsert(Upsert(m, caller, f), caller, f) == Upsert(m, caller, f)
  {
    var once := Upsert(m, caller, f);
    assert Merged(once[caller], f) == once[caller];
  }

  // ----- Entry lists -----

  /** The `newExp` object: the request values copied as they are. */
  function NewExperience(req: ExperienceRequest): Experience
  {
    Experience(req.title, req.company, req.location, req.from, req.to,
               req.current, req.description)
  }

  /** The `newEdu` object: the request values copied as they are. */
  function NewEducation(req: EducationRequest): Education
  {
    Education(req.school, req.degree, req.fieldofstudy, req.from, req.to,
              req.current, req.description)
  }

  /** `list.map((item) => item.id)`. */
  function Ids<D>(l: seq<Entry<D>>): (ids: seq<EntryId>)
    ensures |ids| == |l|
    ensures forall k :: 0 <= k < |l| ==> ids[k] == l[k].id
  {
    seq(|l|, k requires 0 <= k < |l| => l[k].id)
  }

  /** `Array.prototype.indexOf`: the first position of `x`, or -1. */
  function IndexOf(ids: seq<EntryId>, x: EntryId): (r: int)
    ensures -1 <= r < |ids|
    ensures r == -1 <==> x !in ids
    ensures 0 <= r ==> ids[r] == x && x !in ids[..r]
  {
    if ids == [] then -1
    else if ids[0] == x then 0
    else
      var k := IndexOf(ids[1..], x);
      assert x in ids[1..] ==> x in ids;
      assert x in ids ==> x in ids[1..];
      if k == -1 then -1
      else
        assert ids[..k + 1] == [ids[0]] + ids[1..][..k];
        k + 1
  }

  /** Where `splice(start, 1)` starts on a list of length `len`: a negative
      start counts from the end and is clamped at 0; a start past the end is
      clamped to the length. */
  function SpliceStart(len: nat, start: int): (k: nat)
    ensures k <= len
  {
    if start < 0 then (if len + start < 0 then 0 else len + start)
    else if start > len then len
    else start
  }

  /** `list.splice(start, 1)`: drops the element at the resolved start, if any. */
  function SpliceOne<T>(l: seq<T>, start: int): (r: seq<T>)
    ensures |r| == if SpliceStart(|l|, start) < |l| then |l| - 1 else |l|
  {
    var k := SpliceStart(|l|, start);
    if k < |l| then l[..k] + l[k + 1..] else l
  }

  /** The removal of lines 206-210 and 273-277: the index `indexOf` gives is
      handed to `splice(i, 1)` unchecked. */
  function RemoveById<D>(l: seq<Entry<D>>, id: EntryId): (r: seq<Entry<D>>)
    ensures |r| == if l == [] then 0 else |l| - 1
    ensures forall e :: e in r ==> e in l
  {
    SpliceOne(l, IndexOf(Ids(l), id))
  }

  predicate DistinctIds<D>(l: seq<Entry<D>>)
  {
    forall j, k :: 0 <= j < k < |l| ==> l[j].id != l[k].id
  }

  /** Every identifier is below `bound` and no two entries share one. */
  predicate EntriesValid<D>(l: seq<Entry<D>>, bound: EntryId)
  {
    (forall k :: 0 <= k < |l| ==> l[k].id < bound) && DistinctIds(l)
  }

  /** Removing the first entry carrying `id` keeps the others in order. */
  lemma RemoveFirstMatch<D>(l: seq<Entry<D>>, id: EntryId, i: nat)
    requires i < |l| && l[i].id == id
    requires forall j :: 0 <= j < i ==> l[j].id != id
    ensures RemoveById(l, id) == l[..i] + l[i + 1..]
  {
    var ids := Ids(l);
    var r := IndexOf(ids, id);
    assert id in ids by { assert ids[i] == id; }
  }

  /** With distinct identifiers, removing the id found at index `i` yields
      `l[..i] + l[i+1..]`: the other entries keep their relative order. */
  lemma RemovePresent<D>(l: seq<Entry<D>>, i: nat)
    requires DistinctIds(l) && i < |l|
    ensures RemoveById(l, l[i].id) == l[..i] + l[i + 1..]
  {
    RemoveFirstMatch(l, l[i].id, i);
  }

  /** An id carried by no entry still removes something: `indexOf` gives -1
      and `splice(-1, 1)` drops the last entry, or nothing from an empty list. */
  lemma RemoveAbsent<D>(l: seq<Entry<D>>, id: EntryId)
    requires forall k :: 0 <= k < |l| ==> l[k].id != id
    ensures RemoveById(l, id) == if l == [] then [] else l[..|l| - 1]
  {
    assert id !in Ids(l);
  }

  /** Dropping one entry keeps identifiers bounded and distinct. */
  lemma DropOneValid<D>(l: seq<Entry<D>>, k: nat, bound: EntryId)
    requires EntriesValid(l, bound) && k < |l|
    ensures EntriesValid(l[..k] + l[k + 1..], bound)
  {
    var r := l[..k] + l[k + 1..];
    forall j | 0 <= j < |r| ensures r[j] == l[if j < k then j else j + 1] {
    }
  }

  lemma RemoveKeepsValid<D>(l: seq<Entry<D>>, id: EntryId, bound: EntryId)
    requires EntriesValid(l, bound)
    ensures EntriesValid(RemoveById(l, id), bound)
  {
    var k := SpliceStart(|l|, IndexOf(Ids(l), id));
    if k < |l| {
      DropOneValid(l, k, bound);
    }
  }

  /** Prepending an entry with the fresh identifier `bound` keeps identifiers
      distinct and below the next counter value. */
  lemma PrependKeepsValid<D>(l: seq<Entry<D>>, d: D, bound: EntryId)
    requires EntriesValid(l, bound)
    ensures EntriesValid([Entry(bound, d)] + l, bound + 1)
  {
    var r := [Entry(bound, d)] + l;
    forall j | 1 <= j < |r| ensures r[j] == l[j - 1] {
    }
  }

  // ----- The table invariant -----

  /** A stored profile belongs to the user it is keyed by, and both of its
      lists have distinct identifiers below the next one to be issued. */
  predicate ProfileValid(u: UserId, p: Profile, bound: EntryId)
  {
    p.user == u && EntriesValid(p.experience, bound) && EntriesValid(p.education, bound)
  }

  predicate TableValid(m: map<UserId, Profile>, bound: EntryId)
  {
    forall u :: u in m ==> ProfileValid(u, m[u], bound)
  }

  /** Issuing a new identifier keeps every stored profile valid. */
  lemma TableValidBump(m: map<UserId, Profile>, bound: EntryId)
    requires TableValid(m, bound)
    ensures TableValid(m, bound + 1)
  {
    forall u | u in m ensures ProfileValid(u, m[u], bound + 1) {
      assert ProfileValid(u, m[u], bound);
    }
  }

  /** Create-or-update keeps the table valid. */
  lemma UpsertKeepsValid(m: map<UserId, Profile>, caller: UserId, f: ProfileFields, bound: EntryId)
    requires TableValid(m, bound) && f.user == caller
    ensures TableValid(Upsert(m, caller, f), bound)
  {
    if caller in m {
      assert ProfileValid(caller, m[caller], bound);
    }
  }
}
