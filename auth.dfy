/** Sign-in bookkeeping: the user row is created on first sign-in and
    refreshed on later ones, and the authentication mode collects the
    providers the user has signed in with. */
module Auth {
  import opened Wrappers
  import opened Json
  import opened Strings
  import NotificationDefaults

  /** The fields of the signed-in `User` the service reads. */
  datatype AuthUser = AuthUser(email: Option<string>, name: Option<string>, image: Option<string>)

  /** A user row. `image` and `authMode` may be `null` in the database. */
  datatype UserRecord = UserRecord(
    email: string,
    notificationEmail: Option<string>,
    name: string,
    image: Option<string>,
    authMode: Option<string>,
    lastLogin: int,
    userName: string,
    notifications: Json,
    notificationMeans: map<string, NotificationDefaults.Channels>)

  /** The provider as the template literal prints it: a missing account
      prints as `undefined`. */
  function ProviderText(provider: Option<string>): string {
    if provider.Some? then provider.value else "undefined"
  }

  /** `.replace(/^,/, "")`. */
  function DropLeadingComma(s: string): (r: string)
    ensures |s| > 0 && s[0] == ',' ==> r == s[1..]
    ensures !(|s| > 0 && s[0] == ',') ==> r == s
  {
    if |s| > 0 && s[0] == ',' then s[1..] else s
  }

  /** `updatedAuthMode` for an existing row whose mode is `mode` (`None`
      for `null`) and an account whose provider is `provider` (`None`
      without an account). */
  function UpdatedAuthMode(mode: Option<string>, provider: Option<string>): string {
    if mode.Some? && Includes(mode.value, provider.GetOr("")) then mode.value
    else DropLeadingComma(mode.GetOr("") + "," + ProviderText(provider))
  }

  /** A mode that already mentions the provider, even inside a longer
      name, is kept; otherwise the provider is appended after a comma, with
      no comma in front when the old mode was missing or empty. */
  lemma AuthModeMerge(mode: Option<string>, provider: Option<string>)
    ensures mode.Some? && Includes(mode.value, provider.GetOr("")) ==> UpdatedAuthMode(mode, provider) == mode.value
    ensures !(mode.Some? && Includes(mode.value, provider.GetOr(""))) && mode.GetOr("") == "" ==>
      UpdatedAuthMode(mode, provider) == ProviderText(provider)
    ensures !(mode.Some? && Includes(mode.value, provider.GetOr(""))) && mode.GetOr("") != "" ==>
      UpdatedAuthMode(mode, provider) == DropLeadingComma(mode.value) + "," + ProviderText(provider)
  {
    if !(mode.Some? && Includes(mode.value, provider.GetOr(""))) {
      var m := mode.GetOr("");
      var s := m + "," + ProviderText(provider);
      if m == "" {
        assert s == "," + ProviderText(provider);
      } else if m[0] == ',' {
        assert s[1..] == m[1..] + "," + ProviderText(provider);
      }
    }
  }

  /** After a sign-in with a provider the mode mentions it, so a second
      sign-in with the same provider leaves the mode as it is. */
  lemma AuthModeIdempotent(mode: Option<string>, p: string)
    ensures Includes(UpdatedAuthMode(mode, Some(p)), p)
    ensures UpdatedAuthMode(Some(UpdatedAuthMode(mode, Some(p))), Some(p)) == UpdatedAuthMode(mode, Some(p))
  {
    if !(mode.Some? && Includes(mode.value, p)) {
      AuthModeMerge(mode, Some(p));
      assert Includes(p, p) by {
        assert OccursAt(p, p, 0);
      }
      if mode.GetOr("") != "" {
        IncludesOfPart(DropLeadingComma(mode.value) + ",", p, "", p);
        assert DropLeadingComma(mode.value) + "," + p + "" == DropLeadingComma(mode.value) + "," + p;
      }
    }
  }

  /** A row without a mode, refreshed by a sign-in without an account,
      gets the mode `"undefined"`; with any mode, such a sign-in keeps it. */
  lemma NoAccountSignIn(mode: Option<string>)
    ensures mode.None? ==> UpdatedAuthMode(mode, None) == "undefined"
    ensures mode.Some? ==> UpdatedAuthMode(mode, None) == mode.value
  {
    if mode.Some? {
      assert OccursAt(mode.value, "", 0);
    } else {
      assert ("" + "," + "undefined")[1..] == "undefined";
    }
  }

  /** `user.name || ""` and the like. */
  function OrEmpty(s: Option<string>): string {
    if s.Some? then s.value else ""
  }

  /** The refreshed row: the stored image wins over the provider's. */
  function Refreshed(existing: UserRecord, user: AuthUser, provider: Option<string>, login: Option<string>, now: int): (r: UserRecord)
    ensures existing.image.Some? && existing.image.value != "" ==> r.image == existing.image
    ensures r.email == existing.email && r.notificationEmail == existing.notificationEmail
    ensures r.notifications == existing.notifications && r.notificationMeans == existing.notificationMeans
  {
    var image := if OrEmpty(existing.image) != "" then existing.image.value else OrEmpty(user.image);
    existing.(name := OrEmpty(user.name), image := Some(image), authMode := Some(UpdatedAuthMode(existing.authMode, provider)),
              lastLogin := now, userName := OrEmpty(login))
  }

  /** The new row: notifications go to the sign-in email, none are stored
      yet, and every channel takes its default. */
  function Created(email: string, user: AuthUser, provider: Option<string>, login: Option<string>, now: int,
                   defaults: map<string, NotificationDefaults.Channels>): (r: UserRecord)
    ensures r.email == email && r.notificationEmail == Some(email)
    ensures r.notifications == JNull && r.notificationMeans == defaults
    ensures r.authMode == Some(provider.GetOr(""))
  {
    UserRecord(email, Some(email), OrEmpty(user.name), Some(OrEmpty(user.image)), Some(provider.GetOr("")),
               now, OrEmpty(login), JNull, defaults)
  }

  /** The user table, keyed by email. */
  class UserStore {
    var users: map<string, UserRecord>

    constructor(users: map<string, UserRecord>)
      ensures this.users == users
    {
      this.users := users;
    }

    /** `upsertUser`. `login` is the profile's `login`, `now` the time of
        the call and `categories` the notification configuration the new
        row's defaults come from. The HubSpot sync that follows is left
        out: its failure is caught and never changes the result. */
    method UpsertUser(user: AuthUser, provider: Option<string>, login: Option<string>, now: int,
                      categories: seq<NotificationDefaults.Category>) returns (r: Result<UserRecord, string>)
      modifies this
      ensures user.email.None? || user.email.value == "" ==> r.Err? && users == old(users)
      ensures user.email.Some? && user.email.value != "" && user.email.value in old(users) ==>
        r == Ok(Refreshed(old(users)[user.email.value], user, provider, login, now)) &&
        users == old(users)[user.email.value := r.value]
      ensures user.email.Some? && user.email.value != "" && user.email.value !in old(users) ==>
        r == Ok(Created(user.email.value, user, provider, login, now, NotificationDefaults.DefaultsOf(categories))) &&
        users == old(users)[user.email.value := r.value]
    {
      if user.email.None? || user.email.value == "" {
        return Err("El usuario debe tener un email válido");
      }
      var email := user.email.value;
      var row: UserRecord;
      if email in users {
        row := Refreshed(users[email], user, provider, login, now);
      } else {
        var defaults := NotificationDefaults.GetDefaultNotificationMeans(categories);
        row := Created(email, user, provider, login, now, defaults);
      }
      users := users[email := row];
      r := Ok(row);
    }
  }
}
