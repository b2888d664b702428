/**
 * The profile routes: reading the caller's profile and creating or updating
 * it. The handler assembles `profileFields` from the request body (skills
 * split on ",", optional and social fields copied only when truthy), then
 * updates the caller's existing profile, or creates one unless another
 * profile already holds the handle. The profiles collection is a map from
 * user id to profile held by a ProfileStore object; the authenticated caller
 * is a plain user id, and the verdict of the profile validator comes in as
 * its error map.
 */
module Profiles {
  import opened Js

  type UserId = string

  /** The `social` sub-document: each link is present or absent. */
  datatype Social = Social(
    youtube: Option<string>,
    twitter: Option<string>,
    facebook: Option<string>,
    linkedin: Option<string>,
    instagram: Option<string>)

  /**
   * A profile, and equally the `profileFields` object the handler builds:
   * an absent optional field is a key that was never set.
   */
  datatype Profile = Profile(
    user: UserId,
    handle: string,
    status: string,
    skills: seq<string>,
    company: Option<string>,
    website: Option<string>,
    location: Option<string>,
    social: Social)

  /** The request body fields the create-or-update route reads. */
  datatype ProfileBody = ProfileBody(
    handle: string,
    status: string,
    skills: string,
    company: Option<string>,
    website: Option<string>,
    location: Option<string>,
    youtube: Option<string>,
    twitter: Option<string>,
    facebook: Option<string>,
    linkedin: Option<string>,
    instagram: Option<string>)

  /** What a profile route answers. */
  datatype ProfileReply =
    | Found(profile: Profile)                // 200 with the profile
    | NotFound                               // 404 "There is no profile for this user"
    | Conflict                               // 409 "Handle already exists"
    | Invalid(errors: map<string, string>)   // 422 with the validator's errors

  /** `if (value) target = value` on a field that starts out unset. */
  function KeepTruthy(value: Option<string>): (field: Option<string>)
    ensures field.Some? <==> Truthy(value)
    ensures field.Some? ==> field == value
  {
    if Truthy(value) then value else None
  }

  const NoLinks := Social(None, None, None, None, None)

  /** The `social` object of profileFields: exactly the truthy links among the five. */
  function SocialFields(body: ProfileBody): (social: Social)
    ensures social.youtube.Some? <==> Truthy(body.youtube)
    ensures social.twitter.Some? <==> Truthy(body.twitter)
    ensures social.facebook.Some? <==> Truthy(body.facebook)
    ensures social.linkedin.Some? <==> Truthy(body.linkedin)
    ensures social.instagram.Some? <==> Truthy(body.instagram)
    ensures social.youtube.Some? ==> social.youtube == body.youtube
    ensures social.twitter.Some? ==> social.twitter == body.twitter
    ensures social.facebook.Some? ==> social.facebook == body.facebook
    ensures social.linkedin.Some? ==> social.linkedin == body.linkedin
    ensures social.instagram.Some? ==> social.instagram == body.instagram
  {
    Social(KeepTruthy(body.youtube), KeepTruthy(body.twitter), KeepTruthy(body.facebook),
           KeepTruthy(body.linkedin), KeepTruthy(body.instagram))
  }

  /**
   * The `profileFields` object: user, handle and status from the caller and
   * the body, skills split on ",", company, website and location present
   * only when truthy, and a social object that is always there and holds
   * only the truthy links.
   */
  function ProfileFields(caller: UserId, body: ProfileBody): (f: Profile)
    ensures f.user == caller && f.handle == body.handle && f.status == body.status
    ensures f.skills == Split(body.skills, ',')
    ensures f.company.Some? <==> Truthy(body.company)
    ensures f.website.Some? <==> Truthy(body.website)
    ensures f.location.Some? <==> Truthy(body.location)
    ensures f.social.youtube.Some? <==> Truthy(body.youtube)
    ensures f.social.twitter.Some? <==> Truthy(body.twitter)
    ensures f.social.facebook.Some? <==> Truthy(body.facebook)
    ensures f.social.linkedin.Some? <==> Truthy(body.linkedin)
    ensures f.social.instagram.Some? <==> Truthy(body.instagram)
    ensures f.company.Some? ==> f.company == body.company
    ensures f.website.Some? ==> f.website == body.website
    ensures f.location.Some? ==> f.location == body.location
    ensures f.social.youtube.Some? ==> f.social.youtube == body.youtube
    ensures f.social.twitter.Some? ==> f.social.twitter == body.twitter
    ensures f.social.facebook.Some? ==> f.social.facebook == body.facebook
    ensures f.social.linkedin.Some? ==> f.social.linkedin == body.linkedin
    ensures f.social.instagram.Some? ==> f.social.instagram == body.instagram
  {
    Profile(caller, body.handle, body.status, Split(body.skills, ','),
            KeepTruthy(body.company), KeepTruthy(body.website), KeepTruthy(body.location),
            SocialFields(body))
  }

  /**
   * The assembly of `profileFields` as the handler does it: start from the
   * required fields and set each optional field and each social link when
   * the body's value is truthy.
   */
  method BuildProfileFields(caller: UserId, body: ProfileBody) returns (f: Profile)
    ensures f == ProfileFields(caller, body)
  {
    f := Profile(caller, body.handle, body.status, Split(body.skills, ','), None, None, None, NoLinks);
    if Truthy(body.company) { f := f.(company := body.company); }
    if Truthy(body.website) { f := f.(website := body.website); }
    if Truthy(body.location) { f := f.(location := body.location); }
    var social := BuildSocial(body);
    f := f.(social := social);
  }

  /**
   * The `social` part of profileFields: start from an empty object and set
   * each link whose body value is truthy.
   */
  method BuildSocial(body: ProfileBody) returns (social: Social)
    ensures social == SocialFields(body)
  {
    social := NoLinks;
    if Truthy(body.youtube) { social := social.(youtube := body.youtube); }
    if Truthy(body.twitter) { social := social.(twitter := body.twitter); }
    if Truthy(body.facebook) { social := social.(facebook := body.facebook); }
    if Truthy(body.linkedin) { social := social.(linkedin := body.linkedin); }
    if Truthy(body.instagram) { social := social.(instagram := body.instagram); }
  }

  /**
   * The skills list is the body's skills string cut at every ",": no piece
   * holds a comma, there is one piece more than there are commas, and
   * joining the pieces with "," gives the string back.
   */
  lemma SkillsRoundTrip(caller: UserId, body: ProfileBody)
    ensures var skills := ProfileFields(caller, body).skills;
            && (forall i :: 0 <= i < |skills| ==> ',' !in skills[i])
            && |skills| == Count(body.skills, ',') + 1
            && Join(skills, ',') == body.skills
  {
    JoinSplit(body.skills, ',');
  }

  /**
   * `$set: profileFields` on a stored profile: every key of profileFields
   * overwrites the stored one (the whole social object included); an
   * optional field that profileFields does not carry keeps its stored value.
   */
  function SetFields(current: Profile, f: Profile): (p: Profile)
    ensures p.user == f.user && p.handle == f.handle && p.status == f.status
    ensures p.skills == f.skills && p.social == f.social
    ensures p.company == if f.company.Some? then f.company else current.company
    ensures p.website == if f.website.Some? then f.website else current.website
    ensures p.location == if f.location.Some? then f.location else current.location
  {
    Profile(f.user, f.handle, f.status, f.skills,
            if f.company.Some? then f.company else current.company,
            if f.website.Some? then f.website else current.website,
            if f.location.Some? then f.location else current.location,
            f.social)
  }

  /**
   * An update whose body leaves company, website or location falsy keeps the
   * stored value and a truthy one replaces it, while the social links are
   * replaced as a whole, so a falsy link clears the stored one.
   */
  lemma UpdateKeepsFalsyOptionalFields(current: Profile, caller: UserId, body: ProfileBody)
    ensures var p := SetFields(current, ProfileFields(caller, body));
            && (!Truthy(body.company) ==> p.company == current.company)
            && (!Truthy(body.website) ==> p.website == current.website)
            && (!Truthy(body.location) ==> p.location == current.location)
            && (Truthy(body.company) ==> p.company == body.company)
            && (Truthy(body.website) ==> p.website == body.website)
            && (Truthy(body.location) ==> p.location == body.location)
            && (!Truthy(body.youtube) ==> p.social.youtube == None)
            && (!Truthy(body.twitter) ==> p.social.twitter == None)
            && (!Truthy(body.facebook) ==> p.social.facebook == None)
            && (!Truthy(body.linkedin) ==> p.social.linkedin == None)
            && (!Truthy(body.instagram) ==> p.social.instagram == None)
  {
  }

  /** No two stored profiles share a handle. */
  ghost predicate UniqueHandles(m: map<UserId, Profile>) {
    forall u, v :: u in m && v in m && u != v ==> m[u].handle != m[v].handle
  }

  /** Some stored profile holds `handle`. */
  predicate HandleIn(m: map<UserId, Profile>, handle: string) {
    exists u :: u in m && m[u].handle == handle
  }

  /** The create path keeps handles unique: it only inserts when the handle is free. */
  lemma CreateKeepsHandlesUnique(m: map<UserId, Profile>, caller: UserId, body: ProfileBody)
    requires UniqueHandles(m)
    requires caller !in m && !HandleIn(m, body.handle)
    ensures UniqueHandles(m[caller := ProfileFields(caller, body)])
  {
  }

  /**
   * The update path makes no handle check: when another user already holds
   * the handle in the body, the update leaves two profiles with one handle.
   */
  lemma UpdateCanDuplicateHandle(m: map<UserId, Profile>, caller: UserId, body: ProfileBody)
    requires caller in m
    requires exists u :: u in m && u != caller && m[u].handle == body.handle
    ensures !UniqueHandles(m[caller := SetFields(m[caller], ProfileFields(caller, body))])
  {
    var u :| u in m && u != caller && m[u].handle == body.handle;
    var m' := m[caller := SetFields(m[caller], ProfileFields(caller, body))];
    assert m'[u].handle == m'[caller].handle;
  }

  /** The profiles collection. */
  class ProfileStore {
    var profiles: map<UserId, Profile>

    /** Every profile is filed under its own user. */
    ghost predicate Valid()
      reads this
    {
      forall u :: u in profiles ==> profiles[u].user == u
    }

    constructor ()
      ensures Valid() && profiles == map[]
    {
      profiles := map[];
    }

    /** Profile.findOne({handle}): does some stored profile hold this handle? */
    predicate HandleTaken(handle: string)
      reads this
      ensures HandleTaken(handle) <==> exists u :: u in profiles && profiles[u].handle == handle
      ensures profiles == map[] ==> !HandleTaken(handle)
    {
      HandleIn(profiles, handle)
    }

    /** GET api/profile: the caller's profile, or 404 when the caller has none. */
    method Get(caller: UserId) returns (reply: ProfileReply)
      ensures caller !in profiles <==> reply == NotFound
      ensures caller in profiles ==> reply == Found(profiles[caller])
    {
      if caller !in profiles {
        return NotFound;
      }
      reply := Found(profiles[caller]);
    }

    /**
     * POST api/profile. A non-empty error map from the profile validator
     * answers 422 before the store is looked at. Otherwise the caller's
     * existing profile is updated with profileFields, without any handle
     * check; a caller without a profile gets 409 when the handle is taken and
     * a new profile made of profileFields when it is not.
     */
    method CreateOrUpdate(caller: UserId, body: ProfileBody, errors: map<string, string>)
      returns (reply: ProfileReply)
      requires Valid()
      modifies this
      ensures Valid()
      ensures errors != map[] ==> reply == Invalid(errors) && profiles == old(profiles)
      ensures errors == map[] && caller in old(profiles) ==>
                var p := SetFields(old(profiles)[caller], ProfileFields(caller, body));
                profiles == old(profiles)[caller := p] && reply == Found(p)
      ensures errors == map[] && caller !in old(profiles) && old(HandleTaken(body.handle)) ==>
                reply == Conflict && profiles == old(profiles)
      ensures errors == map[] && caller !in old(profiles) && !old(HandleTaken(body.handle)) ==>
                var p := ProfileFields(caller, body);
                profiles == old(profiles)[caller := p] && reply == Found(p)
    {
      if errors != map[] {
        return Invalid(errors);
      }
      var profileFields := BuildProfileFields(caller, body);
      if caller in profiles {
        var updated := SetFields(profiles[caller], profileFields);
        profiles := profiles[caller := updated];
        reply := Found(updated);
      } else {
        if HandleTaken(profileFields.handle) {
          return Conflict;
        }
        profiles := profiles[caller := profileFields];
        reply := Found(profileFields);
      }
    }
  }
}
