/** The infraBUIDL grant application route: the caller and project checks,
    the copy of the form into HubSpot's field names with defaults for the
    conditional fields, and the consent block of the submission. The
    HubSpot request itself is an outcome supplied by the caller. */
module InfrabuidlRoute {
  import opened Wrappers
  import opened Json
  import opened Strings
  import opened Lists
  import FormData

  // ---------------------------------------------------------------------
  // Project membership

  /** A project member as `GetProjectByIdWithMembers` returns it. */
  datatype Member = Member(userId: string, status: string, email: Json)

  /** The `find` predicate: the caller's own membership, unless removed. */
  predicate Counts(m: Member, userId: Json) {
    userId == JStr(m.userId) && m.status != "Removed"
  }

  /** `members.find(...)`. */
  function FindMember(members: seq<Member>, userId: Json): (r: Option<Member>)
    ensures r.None? <==> forall i :: 0 <= i < |members| ==> !Counts(members[i], userId)
    ensures r.Some? ==> exists i :: 0 <= i < |members| && members[i] == r.value && Counts(r.value, userId) && NoneBefore(members, userId, i)
  {
    if members == [] then None
    else if Counts(members[0], userId) then Some(members[0])
    else
      var r := FindMember(members[1..], userId);
      assert forall i :: 1 <= i < |members| ==> members[i] == members[1..][i - 1];
      if r.Some? then
        ghost var i :| 0 <= i < |members[1..]| && members[1..][i] == r.value && Counts(r.value, userId) && NoneBefore(members[1..], userId, i);
        assert members[i + 1] == r.value && NoneBefore(members, userId, i + 1);
        r
      else r
  }

  predicate NoneBefore(members: seq<Member>, userId: Json, i: int)
    requires 0 <= i <= |members|
  {
    forall j :: 0 <= j < i ==> !Counts(members[j], userId)
  }

  // ---------------------------------------------------------------------
  // The HubSpot field names

  const Prefix: string := "2-44649732/"

  /** The keys sent under their own name. */
  const Unprefixed: seq<string> := ["firstname", "lastname", "email", "gdpr", "marketing_consent"]

  /** The HubSpot field name a form key is copied to. */
  function Renamed(k: string): string {
    if k in Unprefixed then k else Prefix + k
  }

  lemma PrefixedNotUnprefixed(k: string)
    ensures Prefix + k !in Unprefixed
  {
    assert (Prefix + k)[0] == '2';
  }

  /** Distinct form keys land on distinct field names. */
  lemma RenamedInjective(a: string, b: string)
    requires Renamed(a) == Renamed(b)
    ensures a == b
  {
    if a !in Unprefixed && b !in Unprefixed {
      assert a == (Prefix + a)[|Prefix|..];
      assert b == (Prefix + b)[|Prefix|..];
    } else if a !in Unprefixed {
      PrefixedNotUnprefixed(a);
    } else if b !in Unprefixed {
      PrefixedNotUnprefixed(b);
    }
  }

  lemma RenamedInjectiveAll()
    ensures forall a, b :: Renamed(a) == Renamed(b) ==> a == b
  {
    forall a, b | Renamed(a) == Renamed(b) {
      RenamedInjective(a, b);
    }
  }

  /** What the `forEach` over `Object.entries(formData)` has put in
      `processedFormData` once the keys in `done` are copied. */
  function CopiedOf(form: map<string, Json>, done: set<string>): map<string, Json>
  {
    RenamedInjectiveAll();
    map k | k in form && k in done :: Renamed(k) := form[k]
  }

  /** The whole copy: every key is sent, unprefixed when it is one of the
      five listed keys and prefixed otherwise, and nothing else is sent. */
  function Copied(form: map<string, Json>): (r: map<string, Json>)
    ensures forall k :: k in form ==> Renamed(k) in r && r[Renamed(k)] == form[k]
    ensures forall n :: n in r ==> exists k :: k in form && n == Renamed(k)
  {
    RenamedInjectiveAll();
    var r := CopiedOf(form, form.Keys);
    assert forall k :: k in form ==> Renamed(k) in r && r[Renamed(k)] == form[k] by {
      forall k | k in form
        ensures Renamed(k) in r && r[Renamed(k)] == form[k]
      {
        var n := Renamed(k);
        assert n in r;
        var k' :| k' in form && Renamed(k') == n && r[n] == form[k'];
      }
    }
    r
  }

  lemma CopiedStep(form: map<string, Json>, done: set<string>, k: string)
    requires k in form && k !in done
    ensures CopiedOf(form, done + {k}) == CopiedOf(form, done)[Renamed(k) := form[k]]
  {
    RenamedInjectiveAll();
    var a := CopiedOf(form, done + {k});
    var b := CopiedOf(form, done)[Renamed(k) := form[k]];
    forall n | n in a
      ensures n in b && a[n] == b[n]
    {
    }
    forall n | n in b
      ensures n in a
    {
    }
  }

  /** The `forEach` copy. */
  method CopyEntries(form: map<string, Json>) returns (processed: map<string, Json>)
    ensures processed == Copied(form)
  {
    processed := map[];
    var rest := form.Keys;
    while rest != {}
      invariant rest <= form.Keys
      invariant processed == CopiedOf(form, form.Keys - rest)
      decreases |rest|
    {
      var k :| k in rest;
      CopiedStep(form, form.Keys - rest, k);
      assert form.Keys - (rest - {k}) == (form.Keys - rest) + {k};
      processed := processed[Renamed(k) := form[k]];
      rest := rest - {k};
    }
  }

  // ---------------------------------------------------------------------
  // The explicit assignments after the copy

  /** Where an explicitly assigned field takes its value from. */
  datatype Source =
    | OrNA(field: string)       // `formData.field || "N/A"`
    | OrZero(field: string)     // `formData.field || "0"`
    | Copy(field: string)       // `formData.field`
    | NA                        // the constant `"N/A"`
    | HasLabel(text: string)    // `"Yes"` when `previousFunding` holds the label, else `"No"`

  /** `previous_funding`, wrapped into a list unless it already is one. */
  function PreviousFunding(form: map<string, Json>): (r: seq<Json>)
    ensures Get(form, "previous_funding").JArr? ==> r == Get(form, "previous_funding").items
    ensures !Get(form, "previous_funding").JArr? ==> r == [Get(form, "previous_funding")]
  {
    match Get(form, "previous_funding")
    case JArr(items) => items
    case v => [v]
  }

  /** The value an assignment writes: truthy for every source but a plain
      copy, so only the applicant's names can reach HubSpot empty. */
  function Eval(form: map<string, Json>, src: Source): (v: Json)
    ensures !src.Copy? ==> Truthy(v)
  {
    match src
    case OrNA(f) => Or(Get(form, f), JStr("N/A"))
    case OrZero(f) => Or(Get(form, f), JStr("0"))
    case Copy(f) => Get(form, f)
    case NA => JStr("N/A")
    case HasLabel(l) => if JStr(l) in PreviousFunding(form) then JStr("Yes") else JStr("No")
  }

  /** The assignments, in source order, each a field name without the
      prefix and where its value comes from. */
  const Assignments: seq<(string, Source)> :=
    ConditionalFields + LegacyFields + FundingAmounts + FundingFlags + SimilarProject

  /** The conditional fields and the applicant's names. */
  const ConditionalFields: seq<(string, Source)> := [
    ("project_type_ai", OrNA("project_type")),
    ("project_type_other", OrNA("project_type_other")),
    ("token_launch_other", OrNA("token_launch_other")),
    ("direct_competitor_1", OrNA("direct_competitor_1")),
    ("applicant_job_role_other", OrNA("applicant_job_role_other")),
    ("avalanche_l1_project_benefited_1", OrNA("avalanche_l1_project_benefited_1")),
    ("previous_avalanche_project_info", OrNA("previous_avalanche_project_info")),
    ("direct_competitor_1_website", OrNA("direct_competitor_1_website")),
    ("program_referrer", OrNA("program_referrer")),
    ("multichain_chains", OrNA("multichain_chains")),
    ("avalanche_l1_project_benefited_1_website", OrNA("avalanche_l1_project_benefited_1_website")),
    ("applicant_first_name", Copy("firstname")),
    ("applicant_last_name", Copy("lastname"))
  ]

  /** The fields of the old funding structure. */
  const LegacyFields: seq<(string, Source)> := [
    ("funding_round", NA),
    ("funding_amount", NA),
    ("funding_entity", NA),
    ("requested_funding_range", OrNA("requested_funding_range_milestone"))
  ]

  /** The previous funding amounts, defaulting to `"0"`. */
  const FundingAmounts: seq<(string, Source)> := [
    ("previous_funding_amount_codebase", OrZero("funding_amount_codebase")),
    ("previous_funding_amount_infrabuidl", OrZero("funding_amount_infrabuidl")),
    ("previous_funding_amount_infrabuidl_ai", OrZero("funding_amount_infrabuidl_ai")),
    ("retro9000_previous_funding_amount", OrZero("funding_amount_retro9000")),
    ("previous_funding_amount_blizzard", OrZero("funding_amount_blizzard")),
    ("previous_funding_amount_ava_labs", OrZero("funding_amount_ava_labs")),
    ("previous_funding_amount_entity_other", OrZero("funding_amount_other_avalanche"))
  ]

  /** The non-Avalanche funding flags. */
  const FundingFlags: seq<(string, Source)> := [
    ("previous_funding_non_avalanche_grant", HasLabel("Grant")),
    ("previous_funding_non_avalanche___angel_investment", HasLabel("Angel Investment")),
    ("previous_funding_non_avalanche___pre_seed", HasLabel("Pre-Seed")),
    ("previous_funding_non_avalanche___seed", HasLabel("Seed")),
    ("previous_funding_non_avalanche___series_a", HasLabel("Series A"))
  ]

  /** The similar project. */
  const SimilarProject: seq<(string, Source)> := [
    ("similar_project_name_1", OrNA("similar_project_name_1")),
    ("similar_project_website_1", OrNA("similar_project_website_1"))
  ]

  /** No two assignments in `t` name the same field. */
  predicate NamesDistinct(t: seq<(string, Source)>) {
    forall i, j :: 0 <= i < j < |t| ==> t[i].0 != t[j].0
  }

  /** No assignment of `a` names a field that one of `b` names. */
  predicate NamesApart(a: seq<(string, Source)>, b: seq<(string, Source)>) {
    forall i, j :: 0 <= i < |a| && 0 <= j < |b| ==> a[i].0 != b[j].0
  }

  lemma DistinctAppend(a: seq<(string, Source)>, b: seq<(string, Source)>)
    requires NamesDistinct(a) && NamesDistinct(b) && NamesApart(a, b)
    ensures NamesDistinct(a + b)
  {
    forall i, j | 0 <= i < j < |a + b|
      ensures (a + b)[i].0 != (a + b)[j].0
    {
      if j < |a| {
      } else if i < |a| {
        assert (a + b)[j] == b[j - |a|];
      } else {
        assert (a + b)[i] == b[i - |a|] && (a + b)[j] == b[j - |a|];
      }
    }
  }

  lemma ApartAppend(a: seq<(string, Source)>, b: seq<(string, Source)>, c: seq<(string, Source)>)
    requires NamesApart(a, b) && NamesApart(a, c)
    ensures NamesApart(a, b + c)
  {
    forall i, j | 0 <= i < |a| && 0 <= j < |b + c|
      ensures a[i].0 != (b + c)[j].0
    {
      if j >= |b| {
        assert (b + c)[j] == c[j - |b|];
      }
    }
  }

  lemma ConditionalFieldsDistinct()
    ensures NamesDistinct(ConditionalFields)
  {
  }

  lemma OtherBlocksDistinct()
    ensures NamesDistinct(LegacyFields) && NamesDistinct(FundingAmounts)
    ensures NamesDistinct(FundingFlags) && NamesDistinct(SimilarProject)
  {
  }

  lemma ConditionalFieldsApartFromFunding()
    ensures NamesApart(ConditionalFields, LegacyFields) && NamesApart(ConditionalFields, FundingAmounts)
  {
  }

  lemma ConditionalFieldsApartFromRest()
    ensures NamesApart(ConditionalFields, FundingFlags) && NamesApart(ConditionalFields, SimilarProject)
  {
  }

  lemma FundingBlocksApart()
    ensures NamesApart(LegacyFields, FundingAmounts) && NamesApart(LegacyFields, FundingFlags)
    ensures NamesApart(LegacyFields, SimilarProject)
  {
  }

  lemma LaterBlocksApart()
    ensures NamesApart(FundingAmounts, FundingFlags)
    ensures NamesApart(FundingAmounts, SimilarProject) && NamesApart(FundingFlags, SimilarProject)
  {
  }

  /** No field is assigned twice. */
  lemma AssignmentNamesDistinct()
    ensures NamesDistinct(Assignments)
  {
    ConditionalFieldsDistinct();
    OtherBlocksDistinct();
    ConditionalFieldsApartFromFunding();
    ConditionalFieldsApartFromRest();
    FundingBlocksApart();
    LaterBlocksApart();
    var d := FundingFlags + SimilarProject;
    DistinctAppend(FundingFlags, SimilarProject);
    ApartAppend(FundingAmounts, FundingFlags, SimilarProject);
    DistinctAppend(FundingAmounts, d);
    ApartAppend(LegacyFields, FundingFlags, SimilarProject);
    ApartAppend(LegacyFields, FundingAmounts, d);
    DistinctAppend(LegacyFields, FundingAmounts + d);
    ApartAppend(ConditionalFields, FundingFlags, SimilarProject);
    ApartAppend(ConditionalFields, FundingAmounts, d);
    ApartAppend(ConditionalFields, LegacyFields, FundingAmounts + d);
    DistinctAppend(ConditionalFields, LegacyFields + (FundingAmounts + d));
    assert Assignments == ConditionalFields + (LegacyFields + (FundingAmounts + d));
  }

  /** The field an assignment writes. */
  function Target(a: (string, Source)): string {
    Prefix + a.0
  }

  lemma TargetInjective(a: (string, Source), b: (string, Source))
    requires Target(a) == Target(b)
    ensures a.0 == b.0
  {
    assert a.0 == Target(a)[|Prefix|..];
    assert b.0 == Target(b)[|Prefix|..];
  }

  /** `processedFormData` after the assignments of `table`, in order. */
  function Assigned(m: map<string, Json>, form: map<string, Json>, table: seq<(string, Source)>): map<string, Json> {
    if table == [] then m
    else
      var last := table[|table| - 1];
      Assigned(m, form, table[..|table| - 1])[Target(last) := Eval(form, last.1)]
  }

  /** A field no assignment names. */
  predicate Untouched(k: string, table: seq<(string, Source)>) {
    forall i :: 0 <= i < |table| ==> k != Target(table[i])
  }

  /** The source of the last assignment to field `k`, if any. */
  function LastWrite(table: seq<(string, Source)>, k: string): Option<Source> {
    if table == [] then None
    else if Target(table[|table| - 1]) == k then Some(table[|table| - 1].1)
    else LastWrite(table[..|table| - 1], k)
  }

  /** The last assignment to a field decides its value. */
  lemma {:induction false} AssignedAt(m: map<string, Json>, form: map<string, Json>, table: seq<(string, Source)>, k: string)
    ensures LastWrite(table, k).Some? ==>
      k in Assigned(m, form, table) && Assigned(m, form, table)[k] == Eval(form, LastWrite(table, k).value)
    ensures LastWrite(table, k).None? ==>
      (k in Assigned(m, form, table) <==> k in m) && (k in m ==> Assigned(m, form, table)[k] == m[k])
  {
    if table != [] {
      AssignedAt(m, form, table[..|table| - 1], k);
    }
  }

  /** With no field named twice, an assignment is the last one to its field,
      and a field no assignment names has no last write. */
  lemma {:induction false} LastWriteDistinct(table: seq<(string, Source)>, i: nat, k: string)
    requires NamesDistinct(table) && i < |table|
    ensures LastWrite(table, Target(table[i])) == Some(table[i].1)
    ensures Untouched(k, table) ==> LastWrite(table, k) == None
  {
    var n := |table| - 1;
    var init := table[..n];
    assert NamesDistinct(init);
    if i < n {
      if Target(table[n]) == Target(table[i]) {
        TargetInjective(table[n], table[i]);
      }
      LastWriteDistinct(init, i, k);
      assert init[i] == table[i];
    } else if n > 0 {
      LastWriteDistinct(init, 0, k);
    }
    if Untouched(k, table) {
      assert Untouched(k, init) by {
        assert forall j :: 0 <= j < n ==> init[j] == table[j];
      }
      if n == 0 {
        assert LastWrite(table, k) == LastWrite(init, k);
      }
    }
  }

  /** The assignment loop. */
  method AssignAll(m: map<string, Json>, form: map<string, Json>, table: seq<(string, Source)>) returns (processed: map<string, Json>)
    ensures processed == Assigned(m, form, table)
  {
    processed := m;
    for i := 0 to |table|
      invariant processed == Assigned(m, form, table[..i])
    {
      assert table[..i + 1][..i] == table[..i];
      processed := processed[Target(table[i]) := Eval(form, table[i].1)];
    }
    assert table[..|table|] == table;
  }

  /** The complete `processedFormData`. */
  function Processed(form: map<string, Json>): map<string, Json> {
    Assigned(Copied(form), form, Assignments)
  }

  /** Every assignment's field holds that assignment's value; every other
      form key is sent with its value under its HubSpot name; and nothing
      else is sent. */
  lemma ProcessedFields(form: map<string, Json>)
    ensures forall i :: 0 <= i < |Assignments| ==>
      Target(Assignments[i]) in Processed(form) && Processed(form)[Target(Assignments[i])] == Eval(form, Assignments[i].1)
    ensures forall k :: k in form && Untouched(Renamed(k), Assignments) ==>
      Renamed(k) in Processed(form) && Processed(form)[Renamed(k)] == form[k]
    ensures forall n :: n in Processed(form) ==>
      (exists k :: k in form && n == Renamed(k)) || (exists i :: 0 <= i < |Assignments| && n == Target(Assignments[i]))
  {
    AssignmentNamesDistinct();
    var c := Copied(form);
    forall i | 0 <= i < |Assignments|
      ensures Target(Assignments[i]) in Processed(form) && Processed(form)[Target(Assignments[i])] == Eval(form, Assignments[i].1)
    {
      LastWriteDistinct(Assignments, i, "");
      AssignedAt(c, form, Assignments, Target(Assignments[i]));
    }
    forall k | k in form && Untouched(Renamed(k), Assignments)
      ensures Renamed(k) in Processed(form) && Processed(form)[Renamed(k)] == form[k]
    {
      LastWriteDistinct(Assignments, 0, Renamed(k));
      AssignedAt(c, form, Assignments, Renamed(k));
    }
    forall n | n in Processed(form)
      ensures (exists k :: k in form && n == Renamed(k)) || (exists i :: 0 <= i < |Assignments| && n == Target(Assignments[i]))
    {
      AssignedAt(c, form, Assignments, n);
      if LastWrite(Assignments, n).None? {
        LastWriteNone(Assignments, n);
      } else {
        LastWriteSome(Assignments, n);
      }
    }
  }

  lemma {:induction false} LastWriteSome(table: seq<(string, Source)>, k: string)
    requires LastWrite(table, k).Some?
    ensures exists i :: 0 <= i < |table| && k == Target(table[i])
  {
    var n := |table| - 1;
    if Target(table[n]) != k {
      LastWriteSome(table[..n], k);
      var i :| 0 <= i < n && k == Target(table[..n][i]);
      assert table[..n][i] == table[i];
    }
  }

  lemma LastWriteNone(table: seq<(string, Source)>, k: string)
    requires LastWrite(table, k).None?
    ensures Untouched(k, table)
  {
    if !Untouched(k, table) {
      var i :| 0 <= i < |table| && k == Target(table[i]);
      LastWriteFound(table, i, k);
    }
  }

  lemma {:induction false} LastWriteFound(table: seq<(string, Source)>, i: nat, k: string)
    requires i < |table| && k == Target(table[i])
    ensures LastWrite(table, k).Some?
  {
    var n := |table| - 1;
    if i < n && Target(table[n]) != k {
      LastWriteFound(table[..n], i, k);
    }
  }

  /** `processedFormData` built as the route builds it. */
  method ProcessFormData(form: map<string, Json>) returns (processed: map<string, Json>)
    ensures processed == Processed(form)
  {
    processed := CopyEntries(form);
    processed := AssignAll(processed, form, Assignments);
  }

  // ---------------------------------------------------------------------
  // The `fields` of the HubSpot payload

  /** How `Array.prototype.join` renders one element: `null` and
      `undefined` as nothing, nested arrays joined by commas. */
  function ElementText(v: Json): string
    decreases v
  {
    match v
    case JNull => ""
    case JUndefined => ""
    case JBool(b) => if b then "true" else "false"
    case JNum(n) => IntToString(n)
    case JStr(s) => s
    case JArr(items) => Join(seq(|items|, i requires 0 <= i < |items| => ElementText(items[i])), ",")
    case JObj(_) => "[object Object]"
  }

  function Texts(items: seq<Json>): (r: seq<string>)
    ensures |r| == |items| && forall i :: 0 <= i < |items| ==> r[i] == ElementText(items[i])
  {
    seq(|items|, i requires 0 <= i < |items| => ElementText(items[i]))
  }

  /** The value sent for a field: arrays joined with `;`, anything else as
      it is. */
  function Format(v: Json): Json {
    if v.JArr? then JStr(Join(Texts(v.items), ";")) else v
  }

  /** `fields`, keyed by name. */
  function Fields(processed: map<string, Json>): (r: map<string, Json>)
    ensures r.Keys == processed.Keys
  {
    map k | k in processed :: Format(processed[k])
  }

  /** A field's value is sent unchanged unless it is an array, and an array
      of one or more elements none of whose texts holds `;` is recovered by
      splitting what is sent at `;`. */
  lemma FieldsRoundTrip(processed: map<string, Json>, k: string)
    requires k in processed
    ensures !processed[k].JArr? ==> Fields(processed)[k] == processed[k]
    ensures processed[k].JArr? && |processed[k].items| >= 1 && SepFree(Texts(processed[k].items), ';') ==>
      Fields(processed)[k].JStr? && Split(Fields(processed)[k].s, ';') == Texts(processed[k].items)
  {
    if processed[k].JArr? && |processed[k].items| >= 1 && SepFree(Texts(processed[k].items), ';') {
      SplitJoin(Texts(processed[k].items), ';');
    }
  }

  // ---------------------------------------------------------------------
  // The payload and the route

  /** The consent block; its two texts are constants of the route and are
      not modelled. */
  datatype Consent = Consent(consentToProcess: bool, marketing: bool, subscriptionTypeId: int)

  /** Present exactly when `gdpr` is `true` itself, with marketing consent
      exactly when `marketing_consent` is `true` itself. */
  function ConsentOf(form: map<string, Json>): (r: Option<Consent>)
    ensures r.Some? <==> Get(form, "gdpr") == JBool(true)
    ensures r.Some? ==> r.value.consentToProcess && (r.value.marketing <==> Get(form, "marketing_consent") == JBool(true))
  {
    if Get(form, "gdpr") == JBool(true) then
      Some(Consent(true, Get(form, "marketing_consent") == JBool(true), 999))
    else None
  }

  datatype Payload = Payload(fields: map<string, Json>, pageUri: string, pageName: string, consent: Option<Consent>)

  /** The referer header, unless absent or empty. */
  function PageUri(referer: Option<string>): (r: string)
    ensures referer.Some? && referer.value != "" ==> r == referer.value
  {
    if referer.Some? && referer.value != "" then referer.value else "https://build.avax.network"
  }

  /** The JSON reply of the route. */
  datatype Reply = Reply(status: int, success: bool, message: string)

  /** The `UpdateStatusMember` call. */
  datatype StatusUpdate = StatusUpdate(userId: string, projectId: string, status: string, email: Json)

  /** The `createProject` call, with its single confirmed member. */
  datatype NewProject = NewProject(name: Json, description: Json, memberId: string, origin: string)

  /** What the route asks of the database and of HubSpot. */
  datatype Effects = Effects(
    statusUpdate: Option<StatusUpdate>,
    newProject: Option<NewProject>,
    saved: Option<FormData.FormRecord>,
    payload: Option<Payload>)

  const NoEffects: Effects := Effects(None, None, None, None)

  /** The object the request body parsed to: a body that is not an object
      has no properties. */
  function FormOf(body: Json): map<string, Json> {
    if body.JObj? then body.fields else map[]
  }

  /** The project check for an existing project, or the creation of a new
      one: the final project id, the member status update and the new
      project, or the reply that ends the request. */
  function Admit(form: map<string, Json>, userId: string, projects: map<string, seq<Member>>, created: Option<string>)
    : Result<(string, Option<StatusUpdate>, Option<NewProject>), Reply>
  {
    var projectId := Get(form, "projectId");
    if Truthy(projectId) then
      if !projectId.JStr? || projectId.s !in projects then Err(Reply(404, false, "Project not found"))
      else
        var member := FindMember(projects[projectId.s], JStr(userId));
        if member.None? then Err(Reply(403, false, "User is not a member of this project"))
        else
          var update := if member.value.status != "Confirmed"
            then Some(StatusUpdate(userId, projectId.s, "Confirmed", Or(Or(member.value.email, Get(form, "email")), JStr(""))))
            else None;
          Ok((projectId.s, update, None))
    else if created.None? then Err(Reply(500, false, "Failed to create project"))
    else
      var project := NewProject(Get(form, "project"), Or(Get(form, "project_abstract_objective"), JStr("")), userId, "infrabuidl");
      Ok((created.value, None, Some(project)))
  }

  /** The whole handler. `configured` says whether the three HubSpot
      settings are present, `body` is the parsed body (`None` when it is not
      JSON), `users` the ids `getUserById` finds, `projects` the members of
      each project, `created` the id `createProject` returns (`None` when it
      throws), and `hubspotStatus` the status of HubSpot's answer. A `null`
      body makes the read of `projectId` throw, and the catch answers 500
      with the error's message. */
  function Handle(configured: bool, body: Option<Json>, users: set<string>, projects: map<string, seq<Member>>,
                  created: Option<string>, referer: Option<string>, hubspotStatus: int): (Reply, Effects)
  {
    if !configured then (Reply(500, false, "Server configuration error"), NoEffects)
    else if body.None? then (Reply(400, false, "Invalid request body"), NoEffects)
    else if Nullish(body.value) then (Reply(500, false, ReadPropertyError(body.value, "projectId")), NoEffects)
    else
      var form := FormOf(body.value);
      var userId := Get(form, "userId");
      if !Truthy(userId) then (Reply(401, false, "User ID is required"), NoEffects)
      else if !userId.JStr? || userId.s !in users then (Reply(401, false, "Invalid user ID"), NoEffects)
      else
        match Admit(form, userId.s, projects, created)
        case Err(reply) => (reply, NoEffects)
        case Ok((finalId, update, project)) => Submit(form, finalId, update, project, referer, hubspotStatus)
  }

  /** The part of the route after the project checks: the form is stored
      when there is a project id, and the payload goes to HubSpot. */
  function Submit(form: map<string, Json>, finalId: string, update: Option<StatusUpdate>, project: Option<NewProject>,
                  referer: Option<string>, hubspotStatus: int): (r: (Reply, Effects))
    ensures r.1.statusUpdate == update && r.1.newProject == project
    ensures r.1.saved == (if finalId != "" then Some(FormData.CreateFormData(form, finalId, "infrabuidl")) else None)
    ensures r.1.payload == Some(Payload(Fields(Processed(form)), PageUri(referer), "infraBUIDL Grant Application", ConsentOf(form)))
    ensures r.0.success <==> 200 <= hubspotStatus < 300
    ensures !r.0.success ==> r.0.status == hubspotStatus
  {
    var saved := if finalId != "" then Some(FormData.CreateFormData(form, finalId, "infrabuidl")) else None;
    var payload := Payload(Fields(Processed(form)), PageUri(referer), "infraBUIDL Grant Application", ConsentOf(form));
    var reply := if 200 <= hubspotStatus < 300 then Reply(200, true, "") else Reply(hubspotStatus, false, "");
    (reply, Effects(update, project, saved, Some(payload)))
  }

  /** A `null` or undefined body is answered 500 with the message of the
      TypeError its first property read throws, and nothing is written. */
  lemma NullBodyFails(body: Json, users: set<string>, projects: map<string, seq<Member>>, created: Option<string>,
                      referer: Option<string>, hubspotStatus: int)
    requires Nullish(body)
    ensures Handle(true, Some(body), users, projects, created, referer, hubspotStatus) ==
      (Reply(500, false, ReadPropertyError(body, "projectId")), NoEffects)
  {
  }

  /** The caller checks: a missing user id or an unknown user is answered
      with 401 before anything is written, whatever the projects and
      HubSpot would say; a known user never gets that answer. */
  lemma CallerChecks(body: Json, users: set<string>, projects: map<string, seq<Member>>, created: Option<string>,
                     referer: Option<string>, hubspotStatus: int)
    requires body != JNull && body != JUndefined
    ensures var userId := Get(FormOf(body), "userId");
      var (reply, effects) := Handle(true, Some(body), users, projects, created, referer, hubspotStatus);
      (reply.status == 401 && effects == NoEffects) <==> !(userId.JStr? && userId.s != "" && userId.s in users)
  {
  }

  /** For an existing project the caller must be a member that was not
      removed: 404 for an unknown project, 403 for a non-member, and the
      status update only for a member not yet confirmed. */
  lemma MembershipDecision(form: map<string, Json>, userId: string, projects: map<string, seq<Member>>, created: Option<string>, p: string)
    requires Get(form, "projectId") == JStr(p) && p != ""
    ensures p !in projects <==> Admit(form, userId, projects, created) == Err(Reply(404, false, "Project not found"))
    ensures p in projects ==>
      ((forall i :: 0 <= i < |projects[p]| ==> !Counts(projects[p][i], JStr(userId))) <==>
       Admit(form, userId, projects, created) == Err(Reply(403, false, "User is not a member of this project")))
    ensures Admit(form, userId, projects, created).Ok? ==>
      var (finalId, update, project) := Admit(form, userId, projects, created).value;
      var m := FindMember(projects[p], JStr(userId)).value;
      finalId == p && project == None && m.userId == userId && m.status != "Removed" &&
      (update.Some? <==> m.status != "Confirmed")
  {
  }

  /** Without a project id a project is created with the caller as its only
      member, and its id becomes the final one. */
  lemma CreatesProject(form: map<string, Json>, userId: string, projects: map<string, seq<Member>>, created: Option<string>)
    requires !Truthy(Get(form, "projectId"))
    ensures created.None? <==> Admit(form, userId, projects, created).Err?
    ensures created.Some? ==>
      Admit(form, userId, projects, created) == Ok((created.value, None, Some(NewProject(Get(form, "project"), Or(Get(form, "project_abstract_objective"), JStr("")), userId, "infrabuidl"))))
  {
  }

  /** The route, step by step. */
  method Post(configured: bool, body: Option<Json>, users: set<string>, projects: map<string, seq<Member>>,
              created: Option<string>, referer: Option<string>, hubspotStatus: int) returns (reply: Reply, effects: Effects)
    ensures (reply, effects) == Handle(configured, body, users, projects, created, referer, hubspotStatus)
  {
    effects := NoEffects;
    if !configured {
      return Reply(500, false, "Server configuration error"), effects;
    }
    if body.None? {
      return Reply(400, false, "Invalid request body"), effects;
    }
    if Nullish(body.value) {
      return Reply(500, false, ReadPropertyError(body.value, "projectId")), effects;
    }
    var form := FormOf(body.value);
    var userId := Get(form, "userId");
    if !Truthy(userId) {
      return Reply(401, false, "User ID is required"), effects;
    }
    if !userId.JStr? || userId.s !in users {
      return Reply(401, false, "Invalid user ID"), effects;
    }
    var admitted := AdmitStep(form, userId.s, projects, created);
    if admitted.Err? {
      return admitted.error, effects;
    }
    var (finalProjectId, update, project) := admitted.value;
    reply, effects := SubmitStep(form, finalProjectId, update, project, referer, hubspotStatus);
  }

  /** The project checks, with `finalProjectId` reassigned on each branch. */
  method AdmitStep(form: map<string, Json>, userId: string, projects: map<string, seq<Member>>, created: Option<string>)
    returns (r: Result<(string, Option<StatusUpdate>, Option<NewProject>), Reply>)
    ensures r == Admit(form, userId, projects, created)
  {
    var projectId := Get(form, "projectId");
    var finalProjectId := "";
    var update: Option<StatusUpdate> := None;
    var project: Option<NewProject> := None;
    if Truthy(projectId) {
      if !projectId.JStr? || projectId.s !in projects {
        return Err(Reply(404, false, "Project not found"));
      }
      finalProjectId := projectId.s;
      var member := FindMember(projects[finalProjectId], JStr(userId));
      if member.None? {
        return Err(Reply(403, false, "User is not a member of this project"));
      }
      if member.value.status != "Confirmed" {
        update := Some(StatusUpdate(userId, finalProjectId, "Confirmed", Or(Or(member.value.email, Get(form, "email")), JStr(""))));
      }
    } else {
      if created.None? {
        return Err(Reply(500, false, "Failed to create project"));
      }
      project := Some(NewProject(Get(form, "project"), Or(Get(form, "project_abstract_objective"), JStr("")), userId, "infrabuidl"));
      finalProjectId := created.value;
    }
    r := Ok((finalProjectId, update, project));
  }

  method SubmitStep(form: map<string, Json>, finalId: string, update: Option<StatusUpdate>, project: Option<NewProject>,
                    referer: Option<string>, hubspotStatus: int) returns (reply: Reply, effects: Effects)
    ensures (reply, effects) == Submit(form, finalId, update, project, referer, hubspotStatus)
  {
    var saved: Option<FormData.FormRecord> := None;
    if finalId != "" {
      saved := Some(FormData.CreateFormData(form, finalId, "infrabuidl"));
    }
    var processed := ProcessFormData(form);
    var payload := Payload(Fields(processed), PageUri(referer), "infraBUIDL Grant Application", ConsentOf(form));
    effects := Effects(update, project, saved, Some(payload));
    if 200 <= hubspotStatus < 300 {
      reply := Reply(200, true, "");
    } else {
      reply := Reply(hubspotStatus, false, "");
    }
  }
}
