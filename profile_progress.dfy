/** The profile-completion percentage: the form values are normalised
    (anything that is not a string reads as `""`, anything that is not an
    array as `[]`), thirteen fields are checked, and the share of completed
    ones is rounded to a whole percent. */
module ProfileProgress {
  import opened Json
  import opened Strings
  import opened Wrappers

  /** The form values as the hook receives them, of any runtime type. */
  datatype ProfileValues = ProfileValues(
    name: Json, username: Json, bio: Json, notificationEmail: Json, image: Json,
    country: Json, companyName: Json, role: Json, github: Json, wallet: Json,
    socials: Json, skills: Json, telegramUser: Json)

  /** The values after normalisation. */
  datatype StableValues = StableValues(
    name: string, username: string, bio: string, notificationEmail: string, image: string,
    country: string, companyName: string, role: string, github: string, wallet: string,
    socials: seq<Json>, skills: seq<Json>, telegramUser: string)

  /** `typeof v === "string" ? v : ""`. */
  function StringOr(v: Json): (s: string)
    ensures v.JStr? ==> s == v.s
    ensures !v.JStr? ==> s == ""
  {
    if v.JStr? then v.s else ""
  }

  /** `Array.isArray(v) ? v : []`. */
  function ArrayOr(v: Json): (a: seq<Json>)
    ensures v.JArr? ==> a == v.items
    ensures !v.JArr? ==> a == []
  {
    if v.JArr? then v.items else []
  }

  function Normalise(v: ProfileValues): StableValues {
    StableValues(
      StringOr(v.name), StringOr(v.username), StringOr(v.bio), StringOr(v.notificationEmail),
      StringOr(v.image), StringOr(v.country), StringOr(v.companyName), StringOr(v.role),
      StringOr(v.github), StringOr(v.wallet), ArrayOr(v.socials), ArrayOr(v.skills),
      StringOr(v.telegramUser))
  }

  /** `s?.trim()` throws a TypeError on an entry that is neither a string
      nor nullish: such a value has no `trim` method. */
  predicate SocialThrows(s: Json) {
    !s.JStr? && !Nullish(s)
  }

  /** `s?.trim() !== ""` on an entry that does not throw: a string must hold
      more than whitespace, and a nullish entry (`undefined !== ""`) counts. */
  predicate SocialFilled(s: Json) {
    Nullish(s) || (s.JStr? && !IsBlank(s.s))
  }

  /** Every entry before position `i` is a blank string, so `some` reaches
      entry `i`. */
  predicate BlankBefore(socials: seq<Json>, i: int) {
    forall j :: 0 <= j < i && j < |socials| ==> socials[j].JStr? && IsBlank(socials[j].s)
  }

  /** `socials.some(s => s?.trim() !== "")`, which scans in order and stops
      at the first filled entry; `None` when an entry it reaches throws. */
  function SomeSocial(socials: seq<Json>): (r: Option<bool>)
    ensures r == Some(true) <==>
      (exists i :: 0 <= i < |socials| && SocialFilled(socials[i]) && BlankBefore(socials, i))
    ensures r == None <==>
      (exists i :: 0 <= i < |socials| && SocialThrows(socials[i]) && BlankBefore(socials, i))
  {
    if socials == [] then Some(false)
    else if SocialThrows(socials[0]) then
      assert BlankBefore(socials, 0);
      None
    else if SocialFilled(socials[0]) then
      assert BlankBefore(socials, 0);
      Some(true)
    else
      var r := SomeSocial(socials[1..]);
      ShiftBlankBefore(socials);
      r
  }

  /** Past a blank first entry, reaching `i + 1` in the list is reaching `i`
      in its tail. */
  lemma ShiftBlankBefore(socials: seq<Json>)
    requires socials != [] && socials[0].JStr? && IsBlank(socials[0].s)
    ensures forall i :: 0 <= i < |socials| - 1 ==> (BlankBefore(socials[1..], i) <==> BlankBefore(socials, i + 1))
    ensures forall i :: 0 <= i < |socials| - 1 ==> socials[1..][i] == socials[i + 1]
  {
    forall i | 0 <= i < |socials| - 1
      ensures BlankBefore(socials[1..], i) <==> BlankBefore(socials, i + 1)
    {
      if BlankBefore(socials[1..], i) {
        forall j | 0 <= j < i + 1 && j < |socials|
          ensures socials[j].JStr? && IsBlank(socials[j].s)
        {
          if j > 0 { assert socials[j] == socials[1..][j - 1]; }
        }
      }
    }
  }

  /** The scan of the socials throws, and the hook's `catch` returns 0. */
  predicate SocialsThrow(v: ProfileValues) {
    SomeSocial(Normalise(v).socials).None?
  }

  /** `s.trim() !== ""`. */
  function Filled(s: string): (b: bool)
    ensures b <==> !IsBlank(s)
  {
    !TrimIsEmpty(s)
  }

  /** The socials are complete when the scan meets a filled entry before any
      entry that throws. */
  predicate AnySocial(socials: seq<Json>) {
    exists i :: 0 <= i < |socials| && SocialFilled(socials[i]) && BlankBefore(socials, i)
  }

  /** Check `k` of the thirteen, in the order the hook lists them. */
  function Check(v: StableValues, k: nat): bool
    requires k < 13
  {
    match k
    case 0 => Filled(v.name)
    case 1 => Filled(v.username) && v.username != "username"
    case 2 => Filled(v.bio)
    case 3 => Filled(v.notificationEmail)
    case 4 => Filled(v.image)
    case 5 => Filled(v.country)
    case 6 => Filled(v.companyName)
    case 7 => Filled(v.role)
    case 8 => Filled(v.github)
    case 9 => Filled(v.wallet)
    case 10 => |v.socials| > 0 && SomeSocial(v.socials) == Some(true)
    case 11 => |v.skills| > 0
    case 12 => Filled(v.telegramUser)
  }

  /** The thirteen checks. */
  function Checks(v: StableValues): (f: seq<bool>)
    ensures |f| == 13
    ensures forall k :: 0 <= k < 13 ==> f[k] == Check(v, k)
  {
    seq(13, k requires 0 <= k < 13 => Check(v, k))
  }

  /** A string field is complete when it holds more than whitespace. */
  lemma ChecksStrings(v: StableValues)
    ensures Checks(v)[0] <==> Filled(v.name)
    ensures Checks(v)[2] <==> Filled(v.bio)
    ensures Checks(v)[3] <==> Filled(v.notificationEmail)
    ensures Checks(v)[4] <==> Filled(v.image)
    ensures Checks(v)[5] <==> Filled(v.country)
    ensures Checks(v)[6] <==> Filled(v.companyName)
    ensures Checks(v)[7] <==> Filled(v.role)
    ensures Checks(v)[8] <==> Filled(v.github)
    ensures Checks(v)[9] <==> Filled(v.wallet)
    ensures Checks(v)[12] <==> Filled(v.telegramUser)
  {
  }

  /** The username is complete when it holds more than whitespace and is not
      the placeholder "username". */
  lemma ChecksUsername(v: StableValues)
    ensures Checks(v)[1] <==> Filled(v.username) && v.username != "username"
  {
  }

  /** The socials are complete when the scan meets a non-blank or nullish
      entry before any entry of another type, the skills when there is at
      least one. */
  lemma ChecksCollections(v: StableValues)
    ensures Checks(v)[10] <==> AnySocial(v.socials)
    ensures Checks(v)[11] <==> |v.skills| > 0
  {
  }

  /** `fields.filter(Boolean).length`. */
  function CountTrue(f: seq<bool>): (n: nat)
    ensures n <= |f|
    ensures n == 0 <==> forall i :: 0 <= i < |f| ==> !f[i]
    ensures n == |f| <==> forall i :: 0 <= i < |f| ==> f[i]
  {
    if f == [] then 0
    else
      var rest := CountTrue(f[1..]);
      assert forall i :: 1 <= i < |f| ==> f[i] == f[1..][i - 1];
      (if f[0] then 1 else 0) + rest
  }

  /** `Math.round(completed / 13 * 100)`. The exact quotient `100c/13` is
      never a half, so rounding it is the integer division below. */
  function Percent(completed: nat): (p: int)
    requires completed <= 13
    ensures 0 <= p <= 100
    ensures -13 < 26 * p - 200 * completed <= 13
  {
    (200 * completed + 13) / 26
  }

  /** The percentage is the one integer nearest to `100c/13`. */
  lemma PercentIsNearest(completed: nat, k: int)
    requires completed <= 13
    requires -13 <= 26 * k - 200 * completed <= 13
    ensures k == Percent(completed)
  {
  }

  lemma PercentEnds()
    ensures Percent(0) == 0 && Percent(13) == 100
  {
  }

  /** Completing more fields never lowers the percentage. */
  lemma PercentMonotone(a: nat, b: nat)
    requires a <= b <= 13
    ensures Percent(a) <= Percent(b)
  {
  }

  /** The hook's result for the given form values: 0 when the socials scan
      throws, otherwise the nearest whole percent of completed checks. */
  function Progress(v: ProfileValues): (p: int)
    ensures 0 <= p <= 100
    ensures SocialsThrow(v) ==> p == 0
    ensures !SocialsThrow(v) ==> -13 < 26 * p - 200 * CountTrue(Checks(Normalise(v))) <= 13
  {
    if SocialsThrow(v) then 0 else Percent(CountTrue(Checks(Normalise(v))))
  }

  lemma {:induction false} CountTrueMonotone(f: seq<bool>, g: seq<bool>)
    requires |f| == |g|
    requires forall i :: 0 <= i < |f| && f[i] ==> g[i]
    ensures CountTrue(f) <= CountTrue(g)
  {
    if f != [] {
      CountTrueMonotone(f[1..], g[1..]);
    }
  }

  /** Filling in a field (every check that held still holds) never lowers
      the progress, as long as the new socials do not make the scan throw. */
  lemma ProgressMonotone(v: ProfileValues, w: ProfileValues)
    requires var f, g := Checks(Normalise(v)), Checks(Normalise(w));
      forall i :: 0 <= i < 13 && f[i] ==> g[i]
    requires !SocialsThrow(w)
    ensures Progress(v) <= Progress(w)
  {
    CountTrueMonotone(Checks(Normalise(v)), Checks(Normalise(w)));
    PercentMonotone(CountTrue(Checks(Normalise(v))), CountTrue(Checks(Normalise(w))));
  }

  /** No field holds anything but whitespace, and both lists are empty. */
  predicate NothingFilled(s: StableValues) {
    && IsBlank(s.name) && IsBlank(s.username) && IsBlank(s.bio) && IsBlank(s.notificationEmail)
    && IsBlank(s.image) && IsBlank(s.country) && IsBlank(s.companyName) && IsBlank(s.role)
    && IsBlank(s.github) && IsBlank(s.wallet) && s.socials == [] && s.skills == []
    && IsBlank(s.telegramUser)
  }

  /** Values of the wrong type, or holding only whitespace, give 0. */
  lemma EmptyProfileIsZero(v: ProfileValues)
    requires NothingFilled(Normalise(v))
    ensures Progress(v) == 0
  {
    var s := Normalise(v);
    forall k | 0 <= k < 13
      ensures !Check(s, k)
    {
    }
  }

  /** Every check passing gives 100. */
  lemma FullProfileIsHundred(v: ProfileValues)
    requires forall k :: 0 <= k < 13 ==> Check(Normalise(v), k)
    ensures Progress(v) == 100
  {
    var f := Checks(Normalise(v));
    assert Check(Normalise(v), 10);
    assert CountTrue(f) == 13;
  }

  /** A number among the socials, reached before any filled entry, makes
      the scan throw, so the progress is 0 whatever else is filled. */
  lemma NonStringSocialGivesZero(v: ProfileValues, n: int)
    requires v.socials.JArr? && |v.socials.items| > 0 && v.socials.items[0] == JNum(n)
    ensures Progress(v) == 0
  {
    assert SocialThrows(Normalise(v).socials[0]) && BlankBefore(Normalise(v).socials, 0);
  }
}
