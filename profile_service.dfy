/** The extended-profile service: reading a user row as the profile the
    front end uses, writing a partial profile back, and checking whether a
    username is free. Rows are loosely typed JSON objects keyed by id. */
module ProfileService {
  import opened Wrappers
  import opened Json

  type Row = map<string, Json>

  /** The four `user_type` flags, all false. */
  const NoUserType: Json := JObj(map[
    "is_student" := JBool(false), "is_founder" := JBool(false),
    "is_employee" := JBool(false), "is_enthusiast" := JBool(false)])

  /** `user_type`: a stored string is parsed with `parse` (`JSON.parse`),
      a stored object is used as is, and a missing one means no flags. */
  function UserTypeOf(row: Row, parse: string -> Json): (r: Json)
    ensures !Truthy(Get(row, "user_type")) ==> r == NoUserType
    ensures Get(row, "user_type").JObj? ==> r == Get(row, "user_type")
  {
    var t := Get(row, "user_type");
    if !Truthy(t) then NoUserType
    else if t.JStr? then parse(t.s)
    else t
  }

  /** `ExtendedProfile`. */
  datatype Profile = Profile(
    id: Json, name: Json, username: Json, bio: Json, email: Json, notificationEmail: Json, image: Json,
    country: Json, userType: Json, github: Json, wallet: Json, socials: Json, skills: Json,
    notifications: Json, profilePrivacy: Json, telegramUser: Json)

  /** The profile a row reads as: the column `user_name` is the username and
      `social_media` the socials, and missing values read as empty. */
  function ProfileOf(row: Row, parse: string -> Json): (p: Profile)
    ensures p.username == Or(Get(row, "user_name"), JStr(""))
    ensures p.socials == Or(Get(row, "social_media"), JArr([]))
    ensures p.skills == Or(Get(row, "skills"), JArr([]))
    ensures p.userType == UserTypeOf(row, parse)
  {
    Profile(
      Get(row, "id"), Get(row, "name"), Or(Get(row, "user_name"), JStr("")), Get(row, "bio"), Get(row, "email"),
      Get(row, "notification_email"), Get(row, "image"), Or(Get(row, "country"), JNull), UserTypeOf(row, parse),
      Or(Get(row, "github"), JNull), Or(Get(row, "wallet"), JNull), Or(Get(row, "social_media"), JArr([])),
      Or(Get(row, "skills"), JArr([])), Get(row, "notifications"), Get(row, "profile_privacy"),
      Or(Get(row, "telegram_user"), JNull))
  }

  /** `getExtendedProfile`. */
  function GetExtendedProfile(rows: map<string, Row>, id: string, parse: string -> Json): (r: Option<Profile>)
    ensures r.None? <==> id !in rows
    ensures r.Some? ==> r.value == ProfileOf(rows[id], parse)
  {
    if id in rows then Some(ProfileOf(rows[id], parse)) else None
  }

  /** A row with no `user_name`, `social_media` or `skills` reads as an
      empty username and empty lists, and one with no `user_type` as four
      false flags. */
  lemma EmptyRowDefaults(parse: string -> Json)
    ensures var p := ProfileOf(map[], parse);
      p.username == JStr("") && p.socials == JArr([]) && p.skills == JArr([]) &&
      p.userType == NoUserType && p.country == JNull
  {
  }

  /** What Prisma writes for `data`: keys whose value is `undefined` are
      skipped, every other key overwrites the row's. */
  function Written(row: Row, data: map<string, Json>): (r: Row)
    ensures forall k :: k in data && data[k] != JUndefined ==> k in r && r[k] == data[k]
    ensures forall k :: k !in data || data[k] == JUndefined ==> (k in r <==> k in row) && (k in row ==> r[k] == row[k])
  {
    map k | k in row.Keys + (set k | k in data && data[k] != JUndefined) ::
      if k in data && data[k] != JUndefined then data[k] else row[k]
  }

  /** `updateData`: the rest of the profile, the login time, and the three
      front-end keys under their column names. */
  function UpdateData(data: map<string, Json>, now: int): (u: map<string, Json>)
    ensures "username" !in u && "socials" !in u
    ensures "last_login" in u && u["last_login"] == JNum(now)
    ensures Get(data, "username") != JUndefined ==> "user_name" in u && u["user_name"] == data["username"]
    ensures Get(data, "socials") != JUndefined ==> "social_media" in u && u["social_media"] == data["socials"]
    ensures Get(data, "user_type") != JUndefined ==> "user_type" in u && u["user_type"] == data["user_type"]
    ensures forall k :: k in data && k !in {"username", "socials", "user_type", "last_login", "user_name", "social_media"} ==>
      k in u && u[k] == data[k]
  {
    var rest := map k | k in data && k !in {"username", "socials", "user_type"} :: data[k];
    var u := rest["last_login" := JNum(now)];
    var u := if Get(data, "username") != JUndefined then u["user_name" := data["username"]] else u;
    var u := if Get(data, "socials") != JUndefined then u["social_media" := data["socials"]] else u;
    if Get(data, "user_type") != JUndefined then u["user_type" := data["user_type"]] else u
  }

  /** Whether user `id` is the current user the check leaves out; an empty
      current id leaves out nobody. */
  predicate Excluded(id: string, currentUserId: Option<string>) {
    currentUserId.Some? && currentUserId.value != "" && id == currentUserId.value
  }

  predicate Holds(rows: map<string, Row>, id: string, username: string) {
    id in rows && Get(rows[id], "user_name") == JStr(username)
  }

  /** `isUsernameAvailable`: no user other than the current one holds the
      name. */
  function IsUsernameAvailable(rows: map<string, Row>, username: string, currentUserId: Option<string>): (r: bool)
    ensures r <==> forall id :: Holds(rows, id, username) ==> Excluded(id, currentUserId)
  {
    !exists id | id in rows :: Holds(rows, id, username) && !Excluded(id, currentUserId)
  }

  /** The user table. */
  class ProfileStore {
    var rows: map<string, Row>

    constructor(rows: map<string, Row>)
      ensures this.rows == rows
    {
      this.rows := rows;
    }

    /** `updateExtendedProfile`, returning the profile read back. */
    method UpdateExtendedProfile(id: string, data: map<string, Json>, now: int, parse: string -> Json)
      returns (r: Result<Profile, string>)
      modifies this
      ensures id !in old(rows) ==> r == Err("User not found") && rows == old(rows)
      ensures id in old(rows) && |data| == 0 ==> rows == old(rows)[id := old(rows)[id]["last_login" := JNum(now)]]
      ensures id in old(rows) && |data| > 0 ==> rows == old(rows)[id := Written(old(rows)[id], UpdateData(data, now))]
      ensures id in old(rows) ==> r == Ok(ProfileOf(rows[id], parse))
    {
      if id !in rows {
        return Err("User not found");
      }
      if |data| == 0 {
        rows := rows[id := rows[id]["last_login" := JNum(now)]];
      } else {
        var updateData := UpdateData(data, now);
        rows := rows[id := Written(rows[id], updateData)];
      }
      var profile := GetExtendedProfile(rows, id, parse);
      r := Ok(profile.value);
    }
  }

  /** A user who saves a username can keep it: it stays available to them,
      and it is taken for everybody else. */
  lemma SavedUsernameIsTheirs(rows: map<string, Row>, id: string, other: string, username: string, now: int)
    requires id in rows && id != "" && other != id && other != ""
    requires forall x :: x in rows && x != id ==> Get(rows[x], "user_name") != JStr(username)
    ensures var rows' := rows[id := Written(rows[id], UpdateData(map["username" := JStr(username)], now))];
      IsUsernameAvailable(rows', username, Some(id)) && !IsUsernameAvailable(rows', username, Some(other)) &&
      !IsUsernameAvailable(rows', username, None)
  {
    var u := UpdateData(map["username" := JStr(username)], now);
    var rows' := rows[id := Written(rows[id], u)];
    assert Holds(rows', id, username);
  }
}
