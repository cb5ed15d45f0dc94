/** The profile editor's form hook: the skill and social list handlers, the
    wallet-format check that guards a save, the assembly of the `user_type`
    object that is sent, and the decomposition of a loaded profile back into
    form fields. */
module ProfileForm {
  import opened Wrappers
  import opened Strings
  import opened Lists

  /** The form fields. An optional string the form leaves unset is `""`. */
  datatype FormValues = FormValues(
    name: string, username: string, bio: string, email: string,
    notificationEmail: string, image: string, country: string,
    isStudent: bool, isFounder: bool, isEmployee: bool, isEnthusiast: bool,
    founderCompanyName: string, employeeCompanyName: string, employeeRole: string,
    studentInstitution: string, companyName: string, role: string,
    github: string, wallet: string, socials: seq<string>, skills: seq<string>,
    notifications: bool, profilePrivacy: string, telegramUser: string)

  /** The `user_type` object: four flags that are always present, and the
      string details that are present only when non-empty. */
  datatype UserType = UserType(
    isStudent: bool, isFounder: bool, isEmployee: bool, isEnthusiast: bool,
    details: map<string, string>)

  /** A profile as the server returns it; `None` is a missing or null field. */
  datatype Profile = Profile(
    name: Option<string>, username: Option<string>, bio: Option<string>,
    email: Option<string>, notificationEmail: Option<string>, image: Option<string>,
    country: Option<string>, userType: Option<UserType>, github: Option<string>,
    wallet: Option<string>, socials: Option<seq<string>>, skills: Option<seq<string>>,
    notifications: Option<bool>, profilePrivacy: Option<string>, telegramUser: Option<string>)

  /** The body of the `PUT`: the schema's fields outside `user_type`, the
      image to keep, and the assembled `user_type`. The notification email is
      not a schema field, so parsing strips it and the body never carries it. */
  datatype ProfileData = ProfileData(
    name: string, username: string, bio: string, email: string,
    image: string, country: string,
    github: string, wallet: string, socials: seq<string>, skills: seq<string>,
    notifications: bool, profilePrivacy: string, telegramUser: string,
    userType: UserType)

  // ---------------------------------------------------------------------
  // Skills and socials

  /** `text.trim()` is truthy and not yet listed. */
  predicate SkillAccepted(skills: seq<string>, text: string) {
    !TrimIsEmpty(text) && Trim(text) !in skills
  }

  /** The skills after `handleAddSkill(text)`. */
  function AddSkill(skills: seq<string>, text: string): (r: seq<string>)
    ensures |r| == if SkillAccepted(skills, text) then |skills| + 1 else |skills|
    ensures r[..|skills|] == skills
    ensures forall x :: x in r <==> x in skills || (x == Trim(text) && !IsBlank(text))
    ensures Distinct(skills) ==> Distinct(r)
  {
    if SkillAccepted(skills, text) then
      var r := skills + [Trim(text)];
      assert r[..|skills|] == skills;
      r
    else
      assert skills[..|skills|] == skills;
      skills
  }

  /** The skills after `handleRemoveSkill(skill)`: every equal entry goes. */
  function RemoveSkill(skills: seq<string>, skill: string): (r: seq<string>)
    ensures skill !in r
    ensures forall x :: x in r <==> x in skills && x != skill
    ensures Distinct(skills) ==> Distinct(r)
  {
    FilterKeepsDistinct(skills, x => x != skill);
    var p := x => x != skill;
    FilterFacts(skills, p);
    Filter(skills, p)
  }

  /** Adding a skill that is already there, or adding the same text again,
      changes nothing. */
  lemma AddSkillIdempotent(skills: seq<string>, text: string)
    ensures AddSkill(AddSkill(skills, text), text) == AddSkill(skills, text)
  {
  }

  /** Removing a freshly added skill gives back the list it was added to. */
  lemma {:induction false} RemoveUndoesAdd(skills: seq<string>, text: string)
    requires Trim(text) !in skills
    ensures RemoveSkill(AddSkill(skills, text), Trim(text)) == skills
  {
    var p := (x: string) => x != Trim(text);
    forall i | 0 <= i < |skills| ensures p(skills[i]) {
    }
    FilterKeepsAll(skills, p);
    if SkillAccepted(skills, text) {
      FilterAppend(skills, [Trim(text)], p);
    }
  }

  /** In a list without repeats, removing a skill deletes its one position
      and keeps the others in order. */
  lemma RemoveSkillAt(skills: seq<string>, k: nat)
    requires Distinct(skills) && k < |skills|
    ensures RemoveSkill(skills, skills[k]) == skills[..k] + skills[k + 1..]
  {
    FilterRemovesOne(skills, k, x => x != skills[k]);
  }

  /** The socials after `handleAddSocial`: one more, empty, entry. */
  function AddSocial(socials: seq<string>): (r: seq<string>)
    ensures |r| == |socials| + 1 && r[..|socials|] == socials && r[|socials|] == ""
  {
    socials + [""]
  }

  /** `socials.filter((_, i) => i !== index)`: an index outside the list
      removes nothing. */
  function RemoveAt(socials: seq<string>, index: int): (r: seq<string>)
    ensures 0 <= index < |socials| ==> |r| == |socials| - 1
    ensures 0 <= index < |socials| ==>
      forall j :: 0 <= j < |r| ==> r[j] == socials[if j < index then j else j + 1]
    ensures !(0 <= index < |socials|) ==> r == socials
  {
    if 0 <= index < |socials| then socials[..index] + socials[index + 1..] else socials
  }

  /** Removing the entry just added restores the list. */
  lemma RemoveUndoesAddSocial(socials: seq<string>)
    ensures RemoveAt(AddSocial(socials), |socials|) == socials
  {
    var r := RemoveAt(AddSocial(socials), |socials|);
    assert forall j :: 0 <= j < |r| ==> r[j] == socials[j];
  }

  // ---------------------------------------------------------------------
  // Wallet

  predicate IsHexDigit(c: char) {
    ('0' <= c <= '9') || ('a' <= c <= 'f') || ('A' <= c <= 'F')
  }

  /** `/^0x[a-fA-F0-9]{40}$/`, matched against the untrimmed value. */
  predicate IsAddress(w: string) {
    |w| == 42 && w[0] == '0' && w[1] == 'x' && forall i :: 2 <= i < 42 ==> IsHexDigit(w[i])
  }

  /** The submit-time wallet check fails: the value is neither blank nor an
      address. */
  function WalletRejected(w: string): (b: bool)
    ensures b <==> !IsBlank(w) && !IsAddress(w)
    ensures IsAddress(w) ==> !b
  {
    !TrimIsEmpty(w) && !IsAddress(w)
  }

  // ---------------------------------------------------------------------
  // The schema

  /** The longest bio the schema accepts. */
  const MaxBio := 250

  /** The zod schema's checks that the form's values can fail: the bio is at
      most 250 characters as JavaScript counts them (UTF-16 code units, so an
      emoji counts twice) and the email, always a string here, is an email
      address as `isEmail` judges one (so `""` fails unless `isEmail` accepts
      it). Every other field is an optional string, a boolean or a string
      list, which the form's values always are. */
  predicate SchemaValid(v: FormValues, isEmail: string -> bool) {
    Utf16Length(v.bio) <= MaxBio && isEmail(v.email)
  }

  // ---------------------------------------------------------------------
  // user_type

  /** The optional `user_type` keys, in the order they are spread. */
  const DetailKeys: seq<string> := [
    "founder_company_name", "employee_company_name", "employee_role",
    "student_institution", "company_name", "role"]

  /** The form field each of `DetailKeys` is filled from, key by key. */
  function DetailValues(v: FormValues): (d: seq<string>)
    ensures |d| == |DetailKeys|
    ensures DetailKeys[0] == "founder_company_name" && d[0] == v.founderCompanyName
    ensures DetailKeys[1] == "employee_company_name" && d[1] == v.employeeCompanyName
    ensures DetailKeys[2] == "employee_role" && d[2] == v.employeeRole
    ensures DetailKeys[3] == "student_institution" && d[3] == v.studentInstitution
    ensures DetailKeys[4] == "company_name" && d[4] == v.companyName
    ensures DetailKeys[5] == "role" && d[5] == v.role
  {
    [v.founderCompanyName, v.employeeCompanyName, v.employeeRole,
     v.studentInstitution, v.companyName, v.role]
  }

  /** `...(value && { key: value })` for each pair in turn. */
  function Spread(keys: seq<string>, values: seq<string>): map<string, string>
    requires |keys| == |values|
  {
    if keys == [] then map[]
    else
      var n := |keys| - 1;
      var m := Spread(keys[..n], values[..n]);
      if values[n] != "" then m[keys[n] := values[n]] else m
  }

  /** With distinct keys, a key is present exactly when its value is
      non-empty, and then it holds that value. */
  lemma {:induction false} SpreadFacts(keys: seq<string>, values: seq<string>)
    requires |keys| == |values| && Distinct(keys)
    ensures forall k :: k in Spread(keys, values) ==> k in keys
    ensures forall i :: 0 <= i < |keys| ==>
      (keys[i] in Spread(keys, values) <==> values[i] != "")
    ensures forall i :: 0 <= i < |keys| && values[i] != "" ==>
      Spread(keys, values)[keys[i]] == values[i]
  {
    if keys != [] {
      var n := |keys| - 1;
      assert Distinct(keys[..n]);
      SpreadFacts(keys[..n], values[..n]);
      forall i | 0 <= i < n ensures keys[i] != keys[n] && keys[..n][i] == keys[i] && values[..n][i] == values[i] {
      }
      assert keys[n] !in keys[..n];
    }
  }

  /** The `user_type` built from the form. */
  function UserTypeOf(v: FormValues): UserType {
    UserType(v.isStudent, v.isFounder, v.isEmployee, v.isEnthusiast,
             Spread(DetailKeys, DetailValues(v)))
  }

  /** The assembled `user_type` carries the four flags as they are, and each
      detail key exactly when the form's value for it is non-empty. */
  lemma UserTypeFacts(v: FormValues)
    ensures var u := UserTypeOf(v);
      && u.isStudent == v.isStudent && u.isFounder == v.isFounder
      && u.isEmployee == v.isEmployee && u.isEnthusiast == v.isEnthusiast
    ensures forall k :: k in UserTypeOf(v).details ==> k in DetailKeys
    ensures forall i :: 0 <= i < |DetailKeys| ==>
      (DetailKeys[i] in UserTypeOf(v).details <==> DetailValues(v)[i] != "")
    ensures forall i :: 0 <= i < |DetailKeys| && DetailValues(v)[i] != "" ==>
      UserTypeOf(v).details[DetailKeys[i]] == DetailValues(v)[i]
  {
    SpreadFacts(DetailKeys, DetailValues(v));
  }

  /** The `PUT` body: `image` is the uploaded URL or the value already held. */
  function ProfileDataOf(v: FormValues, imageUrl: string): ProfileData {
    ProfileData(v.name, v.username, v.bio, v.email, imageUrl,
                v.country, v.github, v.wallet, v.socials, v.skills, v.notifications,
                v.profilePrivacy, v.telegramUser, UserTypeOf(v))
  }

  // ---------------------------------------------------------------------
  // Loading

  /** `value || fallback` for a string that may be missing. */
  function StrOr(o: Option<string>, fallback: string): (s: string)
    ensures o.Some? && o.value != "" ==> s == o.value
    ensures (o.None? || o.value == "") ==> s == fallback
  {
    if o.Some? && o.value != "" then o.value else fallback
  }

  /** `user_type?.[key] || ""`. */
  function DetailOf(u: Option<UserType>, key: string): string {
    if u.Some? && key in u.value.details then u.value.details[key] else ""
  }

  /** The form values a loaded profile decomposes into. */
  function FromProfile(p: Profile, sessionEmail: string): FormValues {
    FormValues(
      StrOr(p.name, ""), StrOr(p.username, ""), StrOr(p.bio, ""),
      StrOr(p.email, sessionEmail), StrOr(p.notificationEmail, ""),
      StrOr(p.image, ""), StrOr(p.country, ""),
      p.userType.Some? && p.userType.value.isStudent,
      p.userType.Some? && p.userType.value.isFounder,
      p.userType.Some? && p.userType.value.isEmployee,
      p.userType.Some? && p.userType.value.isEnthusiast,
      DetailOf(p.userType, "founder_company_name"),
      DetailOf(p.userType, "employee_company_name"),
      DetailOf(p.userType, "employee_role"),
      DetailOf(p.userType, "student_institution"),
      DetailOf(p.userType, "company_name"),
      DetailOf(p.userType, "role"),
      StrOr(p.github, ""), StrOr(p.wallet, ""),
      p.socials.GetOr([]), p.skills.GetOr([]),
      p.notifications.Some? && p.notifications.value,
      StrOr(p.profilePrivacy, "public"), StrOr(p.telegramUser, ""))
  }

  /** The form's initial values. */
  function Defaults(sessionEmail: string): FormValues {
    FormValues("", "", "", sessionEmail, "", "", "", false, false, false, false,
               "", "", "", "", "", "", "", "", [], [], false, "public", "")
  }

  const NoProfile := Profile(None, None, None, None, None, None, None, None, None,
                             None, None, None, None, None, None)

  /** A profile with every field missing loads as the form's initial values. */
  lemma MissingFieldsDefault(sessionEmail: string)
    ensures FromProfile(NoProfile, sessionEmail) == Defaults(sessionEmail)
  {
  }

  /** The profile a server stores for a `PUT` body, echoed back unchanged. */
  function Echo(d: ProfileData): Profile {
    Profile(Some(d.name), Some(d.username), Some(d.bio), Some(d.email),
            None, Some(d.image), Some(d.country), Some(d.userType),
            Some(d.github), Some(d.wallet), Some(d.socials), Some(d.skills),
            Some(d.notifications), Some(d.profilePrivacy), Some(d.telegramUser))
  }

  /** Decomposing the assembled `user_type` gives back the four flags and the
      six detail fields. */
  lemma UserTypeRoundTrip(v: FormValues)
    ensures var w := FromProfile(Echo(ProfileDataOf(v, v.image)), "");
      && w.isStudent == v.isStudent && w.isFounder == v.isFounder
      && w.isEmployee == v.isEmployee && w.isEnthusiast == v.isEnthusiast
      && w.founderCompanyName == v.founderCompanyName
      && w.employeeCompanyName == v.employeeCompanyName
      && w.employeeRole == v.employeeRole
      && w.studentInstitution == v.studentInstitution
      && w.companyName == v.companyName && w.role == v.role
  {
    var u := UserTypeOf(v);
    var d := DetailValues(v);
    UserTypeFacts(v);
    forall i | 0 <= i < |DetailKeys| ensures DetailOf(Some(u), DetailKeys[i]) == d[i] {
    }
    assert DetailOf(Some(u), DetailKeys[0]) == d[0];
    assert DetailOf(Some(u), DetailKeys[1]) == d[1];
    assert DetailOf(Some(u), DetailKeys[2]) == d[2];
    assert DetailOf(Some(u), DetailKeys[3]) == d[3];
    assert DetailOf(Some(u), DetailKeys[4]) == d[4];
    assert DetailOf(Some(u), DetailKeys[5]) == d[5];
  }

  /** Saving the form and reading the stored profile back gives the same
      form, provided the email and privacy fields are non-empty (an empty one
      reads back as its fallback), except that the notification email, which
      the body does not carry, reads back empty. */
  lemma SaveThenLoad(v: FormValues, sessionEmail: string)
    requires v.email != "" && v.profilePrivacy != ""
    ensures FromProfile(Echo(ProfileDataOf(v, v.image)), sessionEmail) == v.(notificationEmail := "")
    ensures WithSessionEmail(FromProfile(Echo(ProfileDataOf(v, v.image)), sessionEmail), sessionEmail)
      == WithSessionEmail(v, sessionEmail).(notificationEmail := "")
  {
    UserTypeRoundTrip(v);
  }

  /** The session-email effect: once loading is over, a non-empty session
      email replaces whatever email the form holds. */
  function WithSessionEmail(v: FormValues, sessionEmail: string): (r: FormValues)
    ensures sessionEmail != "" ==> r.email == sessionEmail
    ensures sessionEmail == "" ==> r == v
    ensures r.(email := v.email) == v
  {
    if sessionEmail != "" then v.(email := sessionEmail) else v
  }

  // ---------------------------------------------------------------------
  // The hook's state

  /** The image a save sends: the uploaded URL when a picked file was
      uploaded, otherwise the value the form already holds, also when the
      upload failed. */
  function ImageToSend(pendingFile: bool, uploadedUrl: Option<string>, image: string): string {
    if pendingFile && uploadedUrl.Some? then uploadedUrl.value else image
  }

  class ProfileEditor {
    var values: FormValues
    var isLoading: bool
    var isSaving: bool
    var walletError: bool
    /** A picked avatar file waits in the upload buffer. */
    var pendingFile: bool

    constructor(sessionEmail: string)
      ensures values == Defaults(sessionEmail)
      ensures isLoading && !isSaving && !walletError && !pendingFile
    {
      values := Defaults(sessionEmail);
      isLoading := true;
      isSaving := false;
      walletError := false;
      pendingFile := false;
    }

    /** The mount-time load: a loaded profile resets the form; without a
        user or a successful response the values stay. Loading then ends,
        which runs the session-email effect, so a non-empty session email
        overrides the email the profile supplied. */
    method LoadProfile(signedIn: bool, response: Option<Profile>, sessionEmail: string)
      modifies this
      ensures values == WithSessionEmail(
        if signedIn && response.Some? then FromProfile(response.value, sessionEmail) else old(values),
        sessionEmail)
      ensures sessionEmail != "" ==> values.email == sessionEmail
      ensures !isLoading
      ensures isSaving == old(isSaving) && walletError == old(walletError) && pendingFile == old(pendingFile)
    {
      if signedIn && response.Some? {
        values := FromProfile(response.value, sessionEmail);
      }
      isLoading := false;
      SessionEmailEffect(sessionEmail);
    }

    /** The effect that runs when loading ends (or the session email
        changes after it): `form.setValue("email", session.user.email)`
        when the session has an email. */
    method SessionEmailEffect(sessionEmail: string)
      requires !isLoading
      modifies this`values
      ensures values == WithSessionEmail(old(values), sessionEmail)
    {
      if sessionEmail != "" {
        values := values.(email := sessionEmail);
      }
    }

    /** `handleFileSelect`: the file waits for the next save and the preview
        URL shows in the meantime. */
    method SelectFile(previewUrl: string)
      modifies this
      ensures pendingFile && values == old(values).(image := previewUrl)
      ensures isLoading == old(isLoading) && isSaving == old(isSaving) && walletError == old(walletError)
    {
      pendingFile := true;
      values := values.(image := previewUrl);
    }

    /** `handleAddSkill`; `cleared` tells whether the input was emptied. */
    method HandleAddSkill(text: string) returns (cleared: bool)
      modifies this`values
      ensures values == old(values).(skills := AddSkill(old(values.skills), text))
      ensures cleared <==> SkillAccepted(old(values.skills), text)
    {
      cleared := SkillAccepted(values.skills, text);
      values := values.(skills := AddSkill(values.skills, text));
    }

    method HandleRemoveSkill(skill: string)
      modifies this`values
      ensures values == old(values).(skills := RemoveSkill(old(values.skills), skill))
    {
      values := values.(skills := RemoveSkill(values.skills, skill));
    }

    method HandleAddSocial()
      modifies this`values
      ensures values == old(values).(socials := AddSocial(old(values.socials)))
    {
      values := values.(socials := AddSocial(values.socials));
    }

    method HandleRemoveSocial(index: int)
      modifies this`values
      ensures values == old(values).(socials := RemoveAt(old(values.socials), index))
    {
      values := values.(socials := RemoveAt(values.socials, index));
    }

    /** `form.handleSubmit(onSubmit)` with its calls' outcomes as
        parameters: `isEmail` is the schema's email test, `uploadedUrl` the
        upload's URL or `None` when it failed, `saved` the profile the `PUT`
        returned or `None` when it failed. `sent` is the body of the `PUT`,
        `None` when the submit stopped before it. Values that fail the schema
        never reach `onSubmit`. Every submit replaces the form's errors with
        the schema's, which never include the wallet, so the manual wallet
        error shows afterwards exactly when `onSubmit` set it again. */
    method Submit(isEmail: string -> bool, signedIn: bool, uploadedUrl: Option<string>,
                  saved: Option<Profile>, sessionEmail: string)
      returns (sent: Option<ProfileData>)
      modifies this
      ensures isLoading == old(isLoading)
      ensures walletError == (signedIn && SchemaValid(old(values), isEmail) && WalletRejected(old(values.wallet)))
      ensures !SchemaValid(old(values), isEmail) ==> sent.None? && values == old(values)
      ensures !signedIn ==> sent.None? && values == old(values)
      ensures signedIn && SchemaValid(old(values), isEmail) && WalletRejected(old(values.wallet)) ==> sent.None?
      ensures sent.None? ==>
        values == old(values) && pendingFile == old(pendingFile) && isSaving == old(isSaving)
      ensures signedIn && SchemaValid(old(values), isEmail) && !WalletRejected(old(values.wallet)) ==>
        sent == Some(ProfileDataOf(old(values), ImageToSend(old(pendingFile), uploadedUrl, old(values.image))))
      ensures sent.Some? ==>
        && pendingFile == (old(pendingFile) && uploadedUrl.None?)
        && values == (if saved.Some? then FromProfile(saved.value, sessionEmail) else old(values))
        && !isSaving
    {
      walletError := false;
      if !SchemaValid(values, isEmail) {
        return None;
      }
      if !signedIn {
        return None;
      }
      var rejected := WalletRejected(values.wallet);
      if rejected {
        walletError := true;
        return None;
      }
      isSaving := true;
      var imageUrl := ImageToSend(pendingFile, uploadedUrl, values.image);
      if pendingFile && uploadedUrl.Some? {
        pendingFile := false;
      }
      sent := Some(ProfileDataOf(values, imageUrl));
      if saved.Some? {
        values := FromProfile(saved.value, sessionEmail);
      }
      isSaving := false;
    }
  }

  /** A wallet that is neither blank nor an address never reaches the
      `PUT`, whatever the other outcomes. */
  method BadWalletNeverSaved(e: ProfileEditor, isEmail: string -> bool, uploadedUrl: Option<string>,
                             saved: Option<Profile>, sessionEmail: string)
    requires !IsBlank(e.values.wallet) && !IsAddress(e.values.wallet)
    modifies e
    ensures e.values == old(e.values)
    ensures SchemaValid(old(e.values), isEmail) ==> e.walletError
  {
    var sent := e.Submit(isEmail, true, uploadedUrl, saved, sessionEmail);
    assert sent.None?;
  }

  /** A bio of 200 emoji is 200 code points but 400 UTF-16 code units, so
      the schema rejects it although it is shorter than 250 code points. */
  lemma AstralBioRejected(v: FormValues, isEmail: string -> bool)
    requires |v.bio| == 200 && forall i :: 0 <= i < |v.bio| ==> IsAstral(v.bio[i])
    ensures |v.bio| <= MaxBio && !SchemaValid(v, isEmail)
  {
    assert Utf16Length(v.bio) == 400;
  }

  /** A bio over 250 code points, and so over 250 UTF-16 code units, is
      never saved and leaves the form as it was, whatever the session and
      the other outcomes; an earlier wallet error is cleared. */
  method LongBioNeverSaved(e: ProfileEditor, isEmail: string -> bool, signedIn: bool,
                           uploadedUrl: Option<string>, saved: Option<Profile>, sessionEmail: string)
      returns (sent: Option<ProfileData>)
    requires |e.values.bio| > MaxBio
    modifies e
    ensures sent.None? && e.values == old(e.values) && !e.walletError
  {
    sent := e.Submit(isEmail, signedIn, uploadedUrl, saved, sessionEmail);
  }
}
