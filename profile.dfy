/**
 * The reading-profile endpoint (`routers/profile`): one in-memory profile,
 * read whole, and updated in place field by field — a field is overwritten
 * only when the update supplies a truthy value (Python truthiness: a
 * non-empty string, a non-zero number).
 */
module ReadingProfile {
  import opened Wrappers

  datatype Profile = Profile(
    dyslexiaType: string,
    fontFamily: string,
    fontSize: int,
    backgroundColor: string,
    textColor: string,
    speechSpeed: real,
    language: string)

  /** The profile the server starts with. */
  const Defaults: Profile := Profile("visual", "OpenDyslexic", 18, "#FDF6E3", "#333333", 1.0, "en")

  /** A partial update: absent fields are None. */
  datatype ProfileUpdate = ProfileUpdate(
    dyslexiaType: Option<string>,
    fontFamily: Option<string>,
    fontSize: Option<int>,
    backgroundColor: Option<string>,
    textColor: Option<string>,
    speechSpeed: Option<real>,
    language: Option<string>)

  predicate TruthyText(o: Option<string>) { o.Some? && o.value != "" }
  predicate TruthyInt(o: Option<int>) { o.Some? && o.value != 0 }
  predicate TruthyReal(o: Option<real>) { o.Some? && o.value != 0.0 }

  function PickText(o: Option<string>, current: string): string {
    if TruthyText(o) then o.value else current
  }
  function PickInt(o: Option<int>, current: int): int {
    if TruthyInt(o) then o.value else current
  }
  function PickReal(o: Option<real>, current: real): real {
    if TruthyReal(o) then o.value else current
  }

  /** The profile after the update, field by field. */
  function Apply(p: Profile, u: ProfileUpdate): Profile {
    Profile(
      PickText(u.dyslexiaType, p.dyslexiaType),
      PickText(u.fontFamily, p.fontFamily),
      PickInt(u.fontSize, p.fontSize),
      PickText(u.backgroundColor, p.backgroundColor),
      PickText(u.textColor, p.textColor),
      PickReal(u.speechSpeed, p.speechSpeed),
      PickText(u.language, p.language))
  }

  /** The update that supplies nothing. */
  const NoChange: ProfileUpdate := ProfileUpdate(None, None, None, None, None, None, None)

  /**
   * A field changes only when the update supplies a truthy value for it, and
   * then it takes that value; falsy values (None, "", 0, 0.0) leave it alone.
   */
  lemma OnlyTruthyFieldsChange(p: Profile, u: ProfileUpdate)
    ensures var r := Apply(p, u);
            && (r.dyslexiaType != p.dyslexiaType ==> TruthyText(u.dyslexiaType) && r.dyslexiaType == u.dyslexiaType.value)
            && (r.fontFamily != p.fontFamily ==> TruthyText(u.fontFamily) && r.fontFamily == u.fontFamily.value)
            && (r.fontSize != p.fontSize ==> TruthyInt(u.fontSize) && r.fontSize == u.fontSize.value)
            && (r.backgroundColor != p.backgroundColor ==> TruthyText(u.backgroundColor) && r.backgroundColor == u.backgroundColor.value)
            && (r.textColor != p.textColor ==> TruthyText(u.textColor) && r.textColor == u.textColor.value)
            && (r.speechSpeed != p.speechSpeed ==> TruthyReal(u.speechSpeed) && r.speechSpeed == u.speechSpeed.value)
            && (r.language != p.language ==> TruthyText(u.language) && r.language == u.language.value)
    ensures Apply(p, NoChange) == p
    ensures Apply(p, u.(fontSize := Some(0), speechSpeed := Some(0.0), language := Some(""))) ==
            Apply(p, u.(fontSize := None, speechSpeed := None, language := None))
  {
  }

  /** Applying the same update twice is the same as applying it once. */
  lemma ApplyIdempotent(p: Profile, u: ProfileUpdate)
    ensures Apply(Apply(p, u), u) == Apply(p, u)
  {
  }

  function LaterText(earlier: Option<string>, later: Option<string>): Option<string> {
    if TruthyText(later) then later else earlier
  }
  function LaterInt(earlier: Option<int>, later: Option<int>): Option<int> {
    if TruthyInt(later) then later else earlier
  }
  function LaterReal(earlier: Option<real>, later: Option<real>): Option<real> {
    if TruthyReal(later) then later else earlier
  }

  /** The single update that does what `u` then `v` do: field by field, `v`'s value when truthy, else `u`'s. */
  function Merge(u: ProfileUpdate, v: ProfileUpdate): ProfileUpdate {
    ProfileUpdate(
      LaterText(u.dyslexiaType, v.dyslexiaType),
      LaterText(u.fontFamily, v.fontFamily),
      LaterInt(u.fontSize, v.fontSize),
      LaterText(u.backgroundColor, v.backgroundColor),
      LaterText(u.textColor, v.textColor),
      LaterReal(u.speechSpeed, v.speechSpeed),
      LaterText(u.language, v.language))
  }

  /**
   * Two updates in a row act as their merge: in each of the seven fields the
   * later truthy value wins, and a field neither supplies truthily keeps its value.
   */
  lemma ApplyTwice(p: Profile, u: ProfileUpdate, v: ProfileUpdate)
    ensures Apply(Apply(p, u), v) == Apply(p, Merge(u, v))
  {
  }

  datatype UpdateResponse = UpdateResponse(message: string, profile: Profile)

  /** The module-level `user_profile` dictionary. */
  class ProfileStore {
    var profile: Profile

    constructor ()
      ensures profile == Defaults
    {
      profile := Defaults;
    }

    /** `get_profile`: the stored profile. */
    function GetProfile(): (p: Profile)
      reads this
      ensures p == profile
    {
      profile
    }

    /** `update_profile`: one `if` per field, then the stored profile in the response. */
    method UpdateProfile(u: ProfileUpdate) returns (response: UpdateResponse)
      modifies this
      ensures profile == Apply(old(profile), u)
      ensures response == UpdateResponse("Profile updated", profile)
    {
      if TruthyText(u.dyslexiaType) {
        profile := profile.(dyslexiaType := u.dyslexiaType.value);
      }
      if TruthyText(u.fontFamily) {
        profile := profile.(fontFamily := u.fontFamily.value);
      }
      if TruthyInt(u.fontSize) {
        profile := profile.(fontSize := u.fontSize.value);
      }
      if TruthyText(u.backgroundColor) {
        profile := profile.(backgroundColor := u.backgroundColor.value);
      }
      if TruthyText(u.textColor) {
        profile := profile.(textColor := u.textColor.value);
      }
      if TruthyReal(u.speechSpeed) {
        profile := profile.(speechSpeed := u.speechSpeed.value);
      }
      if TruthyText(u.language) {
        profile := profile.(language := u.language.value);
      }
      response := UpdateResponse("Profile updated", profile);
    }
  }

  /** Posting the same update twice leaves the store as one post did. */
  method PostTwice(store: ProfileStore, u: ProfileUpdate) returns (first: UpdateResponse, second: UpdateResponse)
    modifies store
    ensures first.profile == second.profile == store.GetProfile()
  {
    first := store.UpdateProfile(u);
    second := store.UpdateProfile(u);
    ApplyIdempotent(first.profile, u);
  }
}
