/**
 * The handlers of the profile routes as operations of one store: a table
 * from user id to profile, the set of user ids, and the counter the
 * database draws entry identifiers from. The authenticated caller's id is
 * an input of every private operation.
 */
module ProfileApi {
  import opened Wrappers
  import opened Skills
  import opened Profiles

  /** Lines 58-75: the field set is built up one conditional assignment at a
      time, starting from `{ user }`; the `social` object is always set. */
  method AssembleFields(caller: UserId, req: ProfileRequest) returns (f: ProfileFields)
    ensures f == BuildFields(caller, req)
  {
    f := ProfileFields(caller, None, None, None, None, None, None, None, NoSocial);
    if Supplied(req.company) { f := f.(company := req.company); }
    assert f.company == Kept(req.company);
    if Supplied(req.website) { f := f.(website := req.website); }
    assert f.website == Kept(req.website);
    if Supplied(req.location) { f := f.(location := req.location); }
    assert f.location == Kept(req.location);
    if Supplied(req.bio) { f := f.(bio := req.bio); }
    assert f.bio == Kept(req.bio);
    if Supplied(req.status) { f := f.(status := req.status); }
    assert f.status == Kept(req.status);
    if Supplied(req.githubusername) { f := f.(githubusername := req.githubusername); }
    assert f.githubusername == Kept(req.githubusername);
    if Supplied(req.skills) { f := f.(skills := Some(ParseSkills(req.skills.value))); }
    assert f == BuildFields(caller, req).(social := NoSocial);
    var social := AssembleSocial(req);
    f := f.(social := social);
  }

  /** Lines 70-75: the `social` object starts empty and gains each given link. */
  method AssembleSocial(req: ProfileRequest) returns (social: Social)
    ensures social == BuildSocial(req)
  {
    social := NoSocial;
    if Supplied(req.youtube) { social := social.(youtube := req.youtube); }
    assert social.youtube == Kept(req.youtube);
    if Supplied(req.facebook) { social := social.(facebook := req.facebook); }
    assert social.facebook == Kept(req.facebook);
    if Supplied(req.twitter) { social := social.(twitter := req.twitter); }
    assert social.twitter == Kept(req.twitter);
    if Supplied(req.linkedin) { social := social.(linkedin := req.linkedin); }
    assert social.linkedin == Kept(req.linkedin);
    if Supplied(req.instagram) { social := social.(instagram := req.instagram); }
  }

  /** GET /me as lines 15-21 run it: `findOne` yields null for a caller
      without a profile and `.populate` on null throws, so the request ends
      in the catch block and the "no profile" answer of line 19 is never
      given. */
  function MeAsWritten(profiles: map<UserId, Profile>, caller: UserId): (r: Result<Profile, Error>)
    ensures caller in profiles ==> r == Success(profiles[caller])
  {
    match Lookup(profiles, caller)
    case Some(p) => Success(p)
    case None => Failure(ServerError)
  }

  /** The "There is no profile for this user" answer is unreachable as
      written: a caller without a profile gets a server error instead. */
  lemma MeAsWrittenMissesNotFound(profiles: map<UserId, Profile>, caller: UserId)
    requires caller !in profiles
    ensures MeAsWritten(profiles, caller) == Failure(ServerError)
    ensures forall r :: MeAsWritten(profiles, caller) != Failure(NotFound(r))
  {
  }

  const NoProfileForUser := "There is no profile for this user"
  const ProfileNotFound := "Profile not found"

  class ProfileStore {
    var profiles: map<UserId, Profile>
    var users: set<UserId>
    var nextEntryId: EntryId

    ghost predicate Valid()
      reads this
    {
      TableValid(profiles, nextEntryId)
    }

    constructor (registered: set<UserId>)
      ensures Valid()
      ensures profiles == map[] && users == registered && nextEntryId == 0
    {
      profiles := map[];
      users := registered;
      nextEntryId := 0;
    }

    /** GET /me (lines 13-26), with the not-found answer line 19 intends. */
    method GetMe(caller: UserId) returns (r: Result<Profile, Error>)
      ensures r.Success? <==> caller in profiles
      ensures r.Success? ==> r.value == profiles[caller]
      ensures r.Failure? ==> r.error == NotFound(NoProfileForUser)
    {
      var found := Lookup(profiles, caller);
      if found.None? {
        return Failure(NotFound(NoProfileForUser));
      }
      r := Success(found.value);
    }

    /** GET /user/:user_id (lines 112-130). An identifier that is not a valid
        database id keys no profile and gets the same answer. */
    method GetByUser(userId: UserId) returns (r: Result<Profile, Error>)
      requires Valid()
      ensures r.Success? <==> userId in profiles
      ensures r.Success? ==> r.value == profiles[userId] && r.value.user == userId
      ensures r.Failure? ==> r.error == NotFound(ProfileNotFound)
    {
      var found := Lookup(profiles, userId);
      if found.None? {
        return Failure(NotFound(ProfileNotFound));
      }
      r := Success(found.value);
    }

    /** GET / (lines 100-108): every stored profile once, in the order the
        database yields them, which the model leaves open. */
    method GetAll() returns (ps: seq<Profile>)
      requires Valid()
      ensures |ps| == |profiles|
      ensures forall p :: p in ps <==> p in profiles.Values
      ensures forall j, k :: 0 <= j < k < |ps| ==> ps[j].user != ps[k].user
    {
      ps := [];
      var left := profiles.Keys;
      while left != {}
        invariant left <= profiles.Keys
        invariant |ps| + |left| == |profiles.Keys|
        invariant forall k :: 0 <= k < |ps| ==>
                    ps[k].user in profiles && ps[k].user !in left && profiles[ps[k].user] == ps[k]
        invariant forall u :: u in profiles && u !in left ==> profiles[u] in ps
        invariant forall j, k :: 0 <= j < k < |ps| ==> ps[j].user != ps[k].user
        decreases |left|
      {
        var u :| u in left;
        assert ProfileValid(u, profiles[u], nextEntryId);
        ps := ps + [profiles[u]];
        left := left - {u};
      }
      forall p | p in profiles.Values ensures p in ps {
        var u :| u in profiles && profiles[u] == p;
      }
    }

    /** POST / (lines 30-96): validate, assemble the field set, then update
        the caller's profile if there is one and create it otherwise. */
    method CreateOrUpdate(caller: UserId, req: ProfileRequest) returns (r: Result<Profile, Error>)
      requires Valid()
      modifies this
      ensures Valid()
      ensures users == old(users) && nextEntryId == old(nextEntryId)
      ensures ProfileErrors(req) != [] ==>
                r == Failure(Invalid(ProfileErrors(req))) && profiles == old(profiles)
      ensures ProfileErrors(req) == [] ==>
                profiles == Upsert(old(profiles), caller, BuildFields(caller, req)) &&
                r == Success(profiles[caller])
    {
      var errs := ProfileErrors(req);
      if errs != [] {
        return Failure(Invalid(errs));
      }
      var f := AssembleFields(caller, req);
      var existing := Lookup(profiles, caller);
      var p: Profile;
      if existing.Some? {
        p := Merged(existing.value, f);
      } else {
        p := Created(f);
      }
      UpsertKeepsValid(profiles, caller, f, nextEntryId);
      profiles := profiles[caller := p];
      r := Success(p);
    }

    /** DELETE / (lines 134-150): the caller's profile and the caller's user
        record go; a caller without a profile is not an error. */
    method DeleteAccount(caller: UserId)
      requires Valid()
      modifies this
      ensures Valid()
      ensures profiles == old(profiles) - {caller}
      ensures users == old(users) - {caller}
      ensures nextEntryId == old(nextEntryId)
    {
      profiles := profiles - {caller};
      users := users - {caller};
    }

    /** PUT /experience (lines 154-198): validate, then put the new entry,
        with a fresh identifier, at the front of the caller's list. A caller
        without a profile makes line 190 dereference null. */
    method AddExperience(caller: UserId, req: ExperienceRequest) returns (r: Result<Profile, Error>)
      requires Valid()
      modifies this
      ensures Valid()
      ensures users == old(users)
      ensures ExperienceErrors(req) != [] ==>
                r == Failure(Invalid(ExperienceErrors(req))) &&
                profiles == old(profiles) && nextEntryId == old(nextEntryId)
      ensures ExperienceErrors(req) == [] && caller !in old(profiles) ==>
                r == Failure(ServerError) &&
                profiles == old(profiles) && nextEntryId == old(nextEntryId)
      ensures ExperienceErrors(req) == [] && caller in old(profiles) ==>
                var p := old(profiles)[caller];
                var e := Entry(old(nextEntryId), NewExperience(req));
                && nextEntryId == old(nextEntryId) + 1
                && profiles == old(profiles)[caller := p.(experience := [e] + p.experience)]
                && r == Success(profiles[caller])
    {
      var errs := ExperienceErrors(req);
      if errs != [] {
        return Failure(Invalid(errs));
      }
      var found := Lookup(profiles, caller);
      if found.None? {
        return Failure(ServerError);
      }
      var p := found.value;
      assert ProfileValid(caller, p, nextEntryId);
      var e := Entry(nextEntryId, NewExperience(req));
      PrependKeepsValid(p.experience, e.data, nextEntryId);
      TableValidBump(profiles, nextEntryId);
      p := p.(experience := [e] + p.experience);
      nextEntryId := nextEntryId + 1;
      profiles := profiles[caller := p];
      r := Success(p);
    }

    /** DELETE /experience/:exp_id (lines 202-217): the position `indexOf`
        finds is spliced out unchecked. A caller without a profile makes
        line 206 dereference null. */
    method RemoveExperience(caller: UserId, id: EntryId) returns (r: Result<Profile, Error>)
      requires Valid()
      modifies this
      ensures Valid()
      ensures users == old(users) && nextEntryId == old(nextEntryId)
      ensures caller !in old(profiles) ==> r == Failure(ServerError) && profiles == old(profiles)
      ensures caller in old(profiles) ==>
                var p := old(profiles)[caller];
                && profiles == old(profiles)[caller := p.(experience := RemoveById(p.experience, id))]
                && r == Success(profiles[caller])
    {
      var found := Lookup(profiles, caller);
      if found.None? {
        return Failure(ServerError);
      }
      var p := found.value;
      assert ProfileValid(caller, p, nextEntryId);
      var removedIndex := IndexOf(Ids(p.experience), id);
      RemoveKeepsValid(p.experience, id, nextEntryId);
      p := p.(experience := SpliceOne(p.experience, removedIndex));
      profiles := profiles[caller := p];
      r := Success(p);
    }

    /** PUT /education (lines 221-265): as for experience, with the school,
        degree and from checks; line 256 dereferences null without a profile. */
    method AddEducation(caller: UserId, req: EducationRequest) returns (r: Result<Profile, Error>)
      requires Valid()
      modifies this
      ensures Valid()
      ensures users == old(users)
      ensures EducationErrors(req) != [] ==>
                r == Failure(Invalid(EducationErrors(req))) &&
                profiles == old(profiles) && nextEntryId == old(nextEntryId)
      ensures EducationErrors(req) == [] && caller !in old(profiles) ==>
                r == Failure(ServerError) &&
                profiles == old(profiles) && nextEntryId == old(nextEntryId)
      ensures EducationErrors(req) == [] && caller in old(profiles) ==>
                var p := old(profiles)[caller];
                var e := Entry(old(nextEntryId), NewEducation(req));
                && nextEntryId == old(nextEntryId) + 1
                && profiles == old(profiles)[caller := p.(education := [e] + p.education)]
                && r == Success(profiles[caller])
    {
      var errs := EducationErrors(req);
      if errs != [] {
        return Failure(Invalid(errs));
      }
      var found := Lookup(profiles, caller);
      if found.None? {
        return Failure(ServerError);
      }
      var p := found.value;
      assert ProfileValid(caller, p, nextEntryId);
      var e := Entry(nextEntryId, NewEducation(req));
      PrependKeepsValid(p.education, e.data, nextEntryId);
      TableValidBump(profiles, nextEntryId);
      p := p.(education := [e] + p.education);
      nextEntryId := nextEntryId + 1;
      profiles := profiles[caller := p];
      r := Success(p);
    }

    /** DELETE /education/:edu_id (lines 269-284): as for experience; line
        273 dereferences null without a profile. */
    method RemoveEducation(caller: UserId, id: EntryId) returns (r: Result<Profile, Error>)
      requires Valid()
      modifies this
      ensures Valid()
      ensures users == old(users) && nextEntryId == old(nextEntryId)
      ensures caller !in old(profiles) ==> r == Failure(ServerError) && profiles == old(profiles)
      ensures caller in old(profiles) ==>
                var p := old(profiles)[caller];
                && profiles == old(profiles)[caller := p.(education := RemoveById(p.education, id))]
                && r == Success(profiles[caller])
    {
      var found := Lookup(profiles, caller);
      if found.None? {
        return Failure(ServerError);
      }
      var p := found.value;
      assert ProfileValid(caller, p, nextEntryId);
      var removedIndex := IndexOf(Ids(p.education), id);
      RemoveKeepsValid(p.education, id, nextEntryId);
      p := p.(education := SpliceOne(p.education, removedIndex));
      profiles := profiles[caller := p];
      r := Success(p);
    }
  }

  /** Sending the same create-or-update request twice leaves the table as
      sending it once, and both calls answer with the same profile. */
  method CreateOrUpdateTwice(store: ProfileStore, caller: UserId, req: ProfileRequest)
    returns (first: Result<Profile, Error>, second: Result<Profile, Error>)
    requires store.Valid()
    modifies store
    ensures store.Valid()
    ensures second == first
    ensures ProfileErrors(req) == [] ==>
              store.profiles == Upsert(old(store.profiles), caller, BuildFields(caller, req))
    ensures ProfileErrors(req) != [] ==> store.profiles == old(store.profiles)
  {
    first := store.CreateOrUpdate(caller, req);
    second := store.CreateOrUpdate(caller, req);
    if ProfileErrors(req) == [] {
      UpsertIdempotent(old(store.profiles), caller, BuildFields(caller, req));
    }
  }
}
