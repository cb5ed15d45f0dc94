/** The three-step hackathon registration form: the schema its values must
    satisfy, the fields each step validates, the step counter, the
    conversion of stored list fields and the data sent on the last step. */
module RegistrationForm {
  import opened Wrappers
  import opened Strings
  import opened Lists
  import Json

  /** A form value: a string, a list of strings or a boolean. */
  datatype FieldValue = Text(s: string) | Items(items: seq<string>) | Flag(b: bool)

  /** The sixteen fields of `registerSchema`. */
  datatype Field =
    | Name | Email | CompanyName | Role | City | Interests | Web3Proficiency | Tools
    | Roles | Languages | HackathonParticipation | Dietary | GithubPortfolio
    | TermsEventConditions | NewsletterSubscription | ProhibitedItems

  /** The name a schema field is registered under. */
  function FieldName(f: Field): string {
    match f
    case Name => "name"
    case Email => "email"
    case CompanyName => "company_name"
    case Role => "role"
    case City => "city"
    case Interests => "interests"
    case Web3Proficiency => "web3_proficiency"
    case Tools => "tools"
    case Roles => "roles"
    case Languages => "languages"
    case HackathonParticipation => "hackathon_participation"
    case Dietary => "dietary"
    case GithubPortfolio => "github_portfolio"
    case TermsEventConditions => "terms_event_conditions"
    case NewsletterSubscription => "newsletter_subscription"
    case ProhibitedItems => "prohibited_items"
  }

  /** A key of the form's values: a schema field, or any other name an
      input registers, which the schema never reads. */
  datatype Key = Schema(field: Field) | Unlisted(name: string)

  /** The key an input's `name` registers. */
  function KeyOf(name: string): (k: Key)
    ensures k.Schema? ==> FieldName(k.field) == name
    ensures k.Unlisted? ==> k.name == name && forall f: Field :: FieldName(f) != name
  {
    if name == "name" then Schema(Name)
    else if name == "email" then Schema(Email)
    else if name == "company_name" then Schema(CompanyName)
    else if name == "role" then Schema(Role)
    else if name == "city" then Schema(City)
    else if name == "interests" then Schema(Interests)
    else if name == "web3_proficiency" then Schema(Web3Proficiency)
    else if name == "tools" then Schema(Tools)
    else if name == "roles" then Schema(Roles)
    else if name == "languages" then Schema(Languages)
    else if name == "hackathon_participation" then Schema(HackathonParticipation)
    else if name == "dietary" then Schema(Dietary)
    else if name == "github_portfolio" then Schema(GithubPortfolio)
    else if name == "terms_event_conditions" then Schema(TermsEventConditions)
    else if name == "newsletter_subscription" then Schema(NewsletterSubscription)
    else if name == "prohibited_items" then Schema(ProhibitedItems)
    else Unlisted(name)
  }

  type Form = map<Key, FieldValue>

  /** The constraint the schema puts on one field. */
  datatype Rule = NonEmptyText | EmailText | OptionalText | NonEmptyList | MustBeTrue

  const SchemaFields: seq<Field> := [
    Name, Email, CompanyName, Role, City, Interests, Web3Proficiency, Tools,
    Roles, Languages, HackathonParticipation, Dietary, GithubPortfolio,
    TermsEventConditions, NewsletterSubscription, ProhibitedItems]

  /** `registerSchema`, field by field. */
  function RuleOf(f: Field): Rule {
    match f
    case Name | City | Web3Proficiency | HackathonParticipation => NonEmptyText
    case Email => EmailText
    case CompanyName | Role | Dietary | GithubPortfolio => OptionalText
    case Interests | Tools | Roles | Languages => NonEmptyList
    case TermsEventConditions | NewsletterSubscription | ProhibitedItems => MustBeTrue
  }

  /** One value against its rule; the e-mail format check is a parameter. */
  predicate Satisfies(rule: Rule, v: Option<FieldValue>, isEmail: string -> bool) {
    match rule
    case NonEmptyText => v.Some? && v.value.Text? && |v.value.s| >= 1
    case EmailText => v.Some? && v.value.Text? && isEmail(v.value.s)
    case OptionalText => v.None? || v.value.Text?
    case NonEmptyList => v.Some? && v.value.Items? && |v.value.items| >= 1
    case MustBeTrue => v == Some(Flag(true))
  }

  function Lookup(form: Form, k: Key): Option<FieldValue> {
    if k in form then Some(form[k]) else None
  }

  /** `form.trigger(fields)`: every listed field passes its rule. */
  predicate Valid(form: Form, fields: seq<Field>, isEmail: string -> bool) {
    forall i :: 0 <= i < |fields| ==> Satisfies(RuleOf(fields[i]), Lookup(form, Schema(fields[i])), isEmail)
  }

  /** The fields `onNextStep` validates on each step. */
  function StepFields(step: int): seq<Field> {
    if step == 1 then [Name, Email, CompanyName, Dietary, Role, City]
    else if step == 2 then [Web3Proficiency, Tools, Roles, Languages, Interests, HackathonParticipation, GithubPortfolio]
    else if step == 3 then [NewsletterSubscription, TermsEventConditions, ProhibitedItems]
    else []
  }

  /** The position of each field in `SchemaFields`. */
  function SchemaPosition(f: Field): nat {
    match f
    case Name => 0 case Email => 1 case CompanyName => 2 case Role => 3
    case City => 4 case Interests => 5 case Web3Proficiency => 6 case Tools => 7
    case Roles => 8 case Languages => 9 case HackathonParticipation => 10 case Dietary => 11
    case GithubPortfolio => 12 case TermsEventConditions => 13 case NewsletterSubscription => 14
    case ProhibitedItems => 15
  }

  /** The position of each field in the three step lists laid end to end. */
  function StepPosition(f: Field): nat {
    match f
    case Name => 0 case Email => 1 case CompanyName => 2 case Dietary => 3
    case Role => 4 case City => 5 case Web3Proficiency => 6 case Tools => 7
    case Roles => 8 case Languages => 9 case Interests => 10 case HackathonParticipation => 11
    case GithubPortfolio => 12 case NewsletterSubscription => 13 case TermsEventConditions => 14
    case ProhibitedItems => 15
  }

  /** A list whose every element sits at the position `pos` gives it has no
      repeats. */
  lemma PositionedDistinct(s: seq<Field>, pos: Field -> nat)
    requires forall i :: 0 <= i < |s| ==> pos(s[i]) == i
    ensures Distinct(s)
  {
  }

  lemma SchemaPositionFinds(f: Field)
    ensures SchemaPosition(f) < |SchemaFields| && SchemaFields[SchemaPosition(f)] == f
  {
  }

  /** The schema lists each of its sixteen fields once. */
  lemma SchemaListsEveryField()
    ensures |SchemaFields| == 16 && Distinct(SchemaFields)
    ensures forall f: Field :: f in SchemaFields
  {
    PositionedDistinct(SchemaFields, SchemaPosition);
    forall f: Field ensures f in SchemaFields {
      SchemaPositionFinds(f);
    }
  }

  /** The three step lists share no field and together list every schema
      field exactly once. */
  lemma StepsPartitionSchema()
    ensures |StepFields(1) + StepFields(2) + StepFields(3)| == |SchemaFields|
    ensures Distinct(StepFields(1) + StepFields(2) + StepFields(3))
    ensures forall f: Field :: f in StepFields(1) + StepFields(2) + StepFields(3)
  {
    var all := StepFields(1) + StepFields(2) + StepFields(3);
    assert all == [
      Name, Email, CompanyName, Dietary, Role, City,
      Web3Proficiency, Tools, Roles, Languages, Interests, HackathonParticipation, GithubPortfolio,
      NewsletterSubscription, TermsEventConditions, ProhibitedItems];
    PositionedDistinct(all, StepPosition);
    forall f: Field ensures f in all {
      assert all[StepPosition(f)] == f;
    }
  }

  /** A form the whole schema accepts holds a non-empty list in every list
      field (interests, tools, roles, languages) and `true` in every
      consent (terms, newsletter, prohibited items). */
  lemma SchemaConstraints(form: Form, isEmail: string -> bool)
    requires Valid(form, SchemaFields, isEmail)
    ensures forall f: Field :: RuleOf(f) == NonEmptyList ==>
      Schema(f) in form && form[Schema(f)].Items? && |form[Schema(f)].items| >= 1
    ensures forall f: Field :: RuleOf(f) == MustBeTrue ==> Schema(f) in form && form[Schema(f)] == Flag(true)
  {
    forall f: Field ensures Satisfies(RuleOf(f), Lookup(form, Schema(f)), isEmail) {
      SchemaPositionFinds(f);
    }
  }

  /** `defaultValues`, with the signed-in user's name and e-mail (empty
      when absent). */
  function Defaults(userName: string, userEmail: string): Form {
    map[
      Schema(Name) := Text(userName), Schema(Email) := Text(userEmail), Schema(CompanyName) := Text(""),
      Schema(Role) := Text(""), Schema(City) := Text(""), Schema(Dietary) := Text(""),
      Schema(Interests) := Items([]), Schema(Web3Proficiency) := Text(""), Schema(Tools) := Items([]),
      Schema(Roles) := Items([]), Schema(Languages) := Items([]), Schema(HackathonParticipation) := Text(""),
      Schema(GithubPortfolio) := Text(""), Schema(TermsEventConditions) := Flag(false),
      Schema(NewsletterSubscription) := Flag(false), Schema(ProhibitedItems) := Flag(false)]
  }

  /** The defaults fail every step: a fresh form cannot skip ahead. */
  lemma DefaultsFailEachStep(userName: string, userEmail: string, isEmail: string -> bool)
    ensures !Valid(Defaults(userName, userEmail), StepFields(1), isEmail)
    ensures !Valid(Defaults(userName, userEmail), StepFields(2), isEmail)
    ensures !Valid(Defaults(userName, userEmail), StepFields(3), isEmail)
  {
    assert StepFields(1)[5] == City;
    assert StepFields(2)[0] == Web3Proficiency;
    assert StepFields(3)[0] == NewsletterSubscription;
  }

  /** `parseArrayField`: a falsy value gives nothing, an array is kept, a
      string is parsed as JSON (`parse` is `None` when it throws) and split
      on commas unless it holds an array. */
  function ParseArrayField(value: Json.Json, parse: string -> Option<Json.Json>): (r: seq<Json.Json>)
    ensures !Json.Truthy(value) ==> r == []
    ensures value.JArr? ==> r == value.items
  {
    if !Json.Truthy(value) then []
    else if value.JArr? then value.items
    else if value.JStr? then
      var parsed := parse(value.s);
      if parsed.Some? && parsed.value.JArr? then parsed.value.items
      else
        var parts := Split(value.s, ',');
        seq(|parts|, i requires 0 <= i < |parts| => Json.JStr(parts[i]))
    else []
  }

  /** A stored string that is not a JSON array comes back as its
      comma-separated parts, which join back to it. */
  lemma ParseArrayFieldSplits(s: string, parse: string -> Option<Json.Json>)
    requires s != "" && (parse(s).None? || !parse(s).value.JArr?)
    ensures var r := ParseArrayField(Json.JStr(s), parse);
      |r| == |Split(s, ',')| && (forall i :: 0 <= i < |r| ==> r[i] == Json.JStr(Split(s, ',')[i]))
      && Join(Split(s, ','), ",") == s
  {
  }

  /** `a || b` on strings: the first when non-empty, else the second. It
      picks the utm sent (the query's, else the saved one) and the stored
      name and email (the stored one, else the signed-in user's). */
  function FirstText(a: string, b: string): (r: string)
    ensures a != "" ==> r == a
    ensures a == "" ==> r == b
  {
    if a != "" then a else b
  }

  /** `progressPosition`. */
  function ProgressPosition(step: int): (r: string)
    ensures step !in {2, 3} ==> r == "left-0"
  {
    if step == 2 then "left-1/2 transform -translate-x-1/2"
    else if step == 3 then "right-0"
    else "left-0"
  }

  lemma ProgressPositionsDistinct()
    ensures ProgressPosition(1) != ProgressPosition(2) && ProgressPosition(2) != ProgressPosition(3)
    ensures ProgressPosition(1) != ProgressPosition(3)
  {
  }

  /** What the last step posts, and what "save for later" stores. */
  datatype FinalData = FinalData(values: Form, hackathonId: string, utm: string)

  /** The values the schema's parse hands to `onSubmit`: keys outside the
      schema are dropped, and a missing `dietary` or `github_portfolio`
      takes the schema's default `""`. */
  function Parsed(form: Form): (r: Form)
    ensures forall k :: k in r <==> (k in form && k.Schema?) || k == Schema(Dietary) || k == Schema(GithubPortfolio)
    ensures forall k :: k in form && k.Schema? ==> r[k] == form[k]
    ensures Schema(Dietary) !in form ==> r[Schema(Dietary)] == Text("")
    ensures Schema(GithubPortfolio) !in form ==> r[Schema(GithubPortfolio)] == Text("")
  {
    var kept := map k | k in form && k.Schema? :: form[k];
    var withDietary := if Schema(Dietary) in kept then kept else kept[Schema(Dietary) := Text("")];
    if Schema(GithubPortfolio) in withDietary then withDietary else withDietary[Schema(GithubPortfolio) := Text("")]
  }

  /** A registration stored on the server, as `/api/register-form` returns
      it; the list fields may hold an array or its text. */
  datatype StoredForm = StoredForm(
    name: string, email: string, companyName: string, role: string, city: string, dietary: string,
    interests: Json.Json, web3Proficiency: string, tools: Json.Json, roles: Json.Json, languages: Json.Json,
    hackathonParticipation: string, githubPortfolio: string,
    termsEventConditions: bool, newsletterSubscription: bool, prohibitedItems: bool,
    utm: string, hackathonId: string)

  /** The strings among a parsed list. */
  function Strs(items: seq<Json.Json>): (r: seq<string>)
    ensures |r| <= |items|
    ensures (forall i :: 0 <= i < |items| ==> items[i].JStr?) ==>
      |r| == |items| && forall i :: 0 <= i < |items| ==> r[i] == items[i].s
  {
    if items == [] then []
    else (if items[0].JStr? then [items[0].s] else []) + Strs(items[1..])
  }

  /** `loadedData.f ? parseArrayField(loadedData.f) : []`. */
  function StoredList(v: Json.Json, parse: string -> Option<Json.Json>): FieldValue {
    Items(Strs(ParseArrayField(v, parse)))
  }

  /** The `parsedData` that `getRegisterFormLoaded` resets the form to. */
  function StoredValues(d: StoredForm, userName: string, userEmail: string, parse: string -> Option<Json.Json>): (r: Form)
    ensures forall k :: k in r ==> k.Schema?
    ensures Schema(Name) in r && r[Schema(Name)] == Text(FirstText(d.name, userName))
    ensures Schema(Email) in r && r[Schema(Email)] == Text(FirstText(d.email, userEmail))
    ensures Schema(Web3Proficiency) in r && r[Schema(Web3Proficiency)] == Text(d.web3Proficiency)
    ensures Schema(TermsEventConditions) in r && r[Schema(TermsEventConditions)] == Flag(d.termsEventConditions)
  {
    map[
      Schema(Name) := Text(FirstText(d.name, userName)), Schema(Email) := Text(FirstText(d.email, userEmail)),
      Schema(CompanyName) := Text(d.companyName), Schema(Role) := Text(d.role), Schema(City) := Text(d.city),
      Schema(Dietary) := Text(d.dietary), Schema(Interests) := StoredList(d.interests, parse),
      Schema(Web3Proficiency) := Text(d.web3Proficiency), Schema(Tools) := StoredList(d.tools, parse),
      Schema(Roles) := StoredList(d.roles, parse), Schema(Languages) := StoredList(d.languages, parse),
      Schema(HackathonParticipation) := Text(d.hackathonParticipation), Schema(GithubPortfolio) := Text(d.githubPortfolio),
      Schema(TermsEventConditions) := Flag(d.termsEventConditions),
      Schema(NewsletterSubscription) := Flag(d.newsletterSubscription), Schema(ProhibitedItems) := Flag(d.prohibitedItems)]
  }

  /** The stored registration sets every schema field. */
  lemma StoredValuesComplete(d: StoredForm, userName: string, userEmail: string, parse: string -> Option<Json.Json>)
    ensures forall f: Field :: Schema(f) in StoredValues(d, userName, userEmail, parse)
  {
    var r := StoredValues(d, userName, userEmail, parse);
    forall f: Field ensures Schema(f) in r {
      match f
      case Name => case Email => case CompanyName => case Role => case City => case Interests =>
      case Web3Proficiency => case Tools => case Roles => case Languages => case HackathonParticipation =>
      case Dietary => case GithubPortfolio => case TermsEventConditions => case NewsletterSubscription =>
      case ProhibitedItems =>
    }
  }

  /** What "save for later" left in local storage, as the form reads it
      back: the saved values with `hackathon_id` and `utm` as two more keys,
      which the schema does not list. */
  function SavedValues(saved: FinalData): Form {
    saved.values[Unlisted("hackathon_id") := Text(saved.hackathonId)][Unlisted("utm") := Text(saved.utm)]
  }

  /** Saving for later and reading the data back restores every schema
      field, so the parsed values are those of the form that was saved. */
  lemma SaveLaterRoundTrip(values: Form, hackathonId: string, utm: string)
    ensures Parsed(SavedValues(FinalData(values, hackathonId, utm))) == Parsed(values)
  {
    var back := SavedValues(FinalData(values, hackathonId, utm));
    forall k: Key | k.Schema?
      ensures k in back <==> k in values
      ensures k in values ==> back[k] == values[k]
    {
    }
    assert forall k :: k in Parsed(back) <==> k in Parsed(values);
  }

  /** The wizard with the hackathon id and the saved utm kept as state, so
      that what a load stores in them reaches the handlers. The component
      as written keeps them in render-local variables instead: see
      `AsWrittenHandlerData`. */
  class Wizard {
    /** The e-mail format check of the schema. */
    const isEmail: string -> bool
    var step: int
    var values: Form
    var dialogOpen: bool
    /** `hackathon_id`: the query's `hackaId`, or `""`, until a load. */
    var hackathonId: string
    /** `utmSaved`: `""` until a load. */
    var utmSaved: string

    constructor(isEmail: string -> bool, userName: string, userEmail: string, queryHackathon: string)
      ensures this.isEmail == isEmail
      ensures step == 1 && values == Defaults(userName, userEmail) && !dialogOpen
      ensures hackathonId == queryHackathon && utmSaved == ""
    {
      this.isEmail := isEmail;
      step := 1;
      values := Defaults(userName, userEmail);
      dialogOpen := false;
      hackathonId := queryHackathon;
      utmSaved := "";
    }

    /** The `onChange` of an input registered under `name`. */
    method SetField(name: string, v: FieldValue)
      modifies this`values
      ensures values == old(values)[KeyOf(name) := v]
    {
      values := values[KeyOf(name) := v];
    }

    /** `onSaveLater`: all current values with the hackathon and the utm,
        the query's `utm` when non-empty, else the saved one. */
    method SaveLater(utm: string) returns (stored: FinalData)
      ensures stored.values == values && stored.hackathonId == hackathonId
      ensures stored.utm == FirstText(utm, utmSaved)
    {
      stored := FinalData(values, hackathonId, FirstText(utm, utmSaved));
    }

    /** `handleStepChange`: only steps 1 to 3 are accepted. */
    method HandleStepChange(newStep: int)
      modifies this`step
      ensures step == if 1 <= newStep <= 3 then newStep else old(step)
      ensures 1 <= old(step) <= 3 ==> 1 <= step <= 3
    {
      if newStep >= 1 && newStep <= 3 {
        step := newStep;
      }
    }

    /** `onNextStep`, offered on steps 1 and 2: the step advances when the
        step's fields pass. Like every handler, it is a closure of one
        render: `rendered` is the step of that render, which is `step` when
        nothing else has changed it since. The advance is the functional
        update `prev => prev + 1`. */
    method OnNextStep(rendered: int)
      modifies this`step
      ensures step == if Valid(values, StepFields(rendered), isEmail) then old(step) + 1 else old(step)
      ensures rendered == old(step) && 1 <= old(step) <= 2 ==> 1 <= step <= 3
    {
      if Valid(values, StepFields(rendered), isEmail) {
        step := step + 1;
      }
    }

    /** `onSubmit`, which only `form.handleSubmit` calls, once the whole
        schema passes: below step 3 it sets the step after the rendered
        one; from step 3 on it posts the parsed values and opens the
        dialog. */
    method OnSubmit(rendered: int, utm: string) returns (sent: Option<FinalData>)
      requires Valid(values, SchemaFields, isEmail)
      modifies this`step, this`dialogOpen
      ensures rendered < 3 ==> step == rendered + 1 && sent.None? && dialogOpen == old(dialogOpen)
      ensures rendered >= 3 ==>
        step == old(step) && dialogOpen && sent == Some(FinalData(Parsed(values), hackathonId, FirstText(utm, utmSaved)))
    {
      if rendered < 3 {
        step := rendered + 1;
        sent := None;
      } else {
        sent := Some(FinalData(Parsed(values), hackathonId, FirstText(utm, utmSaved)));
        dialogOpen := true;
      }
    }

    /** `form.handleSubmit(onSubmit)`, behind the Next arrow and the last
        step's button: values the schema rejects change nothing. */
    method HandleSubmit(rendered: int, utm: string) returns (sent: Option<FinalData>)
      modifies this`step, this`dialogOpen
      ensures !Valid(old(values), SchemaFields, isEmail) ==>
        sent.None? && step == old(step) && dialogOpen == old(dialogOpen)
      ensures Valid(old(values), SchemaFields, isEmail) && rendered < 3 ==>
        step == rendered + 1 && sent.None? && dialogOpen == old(dialogOpen)
      ensures Valid(old(values), SchemaFields, isEmail) && rendered >= 3 ==>
        step == old(step) && dialogOpen && sent == Some(FinalData(Parsed(values), hackathonId, FirstText(utm, utmSaved)))
    {
      if Valid(values, SchemaFields, isEmail) {
        sent := OnSubmit(rendered, utm);
      } else {
        sent := None;
      }
    }

    /** A press on Continue, shown on every step but 3. The button is a
        submit button whose click handler is `onNextStep` and does not
        prevent the default, so the press runs `onNextStep` and then the
        form's submit, `form.handleSubmit(onSubmit)`, both closures of the
        same render. Each awaits a validation before it sets the step, and
        `submitSettlesFirst` says which of the two gets there first. When
        the whole schema passes below step 3, the press advances two steps
        if the submit settles first; from step 4 on it posts the
        registration. */
    method PressContinue(utm: string, submitSettlesFirst: bool) returns (sent: Option<FinalData>)
      requires step != 3
      modifies this`step, this`dialogOpen
      ensures !Valid(values, SchemaFields, isEmail) ==>
        (sent.None? && dialogOpen == old(dialogOpen) &&
         step == if Valid(values, StepFields(old(step)), isEmail) then old(step) + 1 else old(step))
      ensures Valid(values, SchemaFields, isEmail) && old(step) < 3 ==>
        (sent.None? && dialogOpen == old(dialogOpen) &&
         step == if submitSettlesFirst then old(step) + 2 else old(step) + 1)
      ensures Valid(values, SchemaFields, isEmail) && old(step) > 3 ==>
        (step == old(step) + 1 && dialogOpen &&
         sent == Some(FinalData(Parsed(values), hackathonId, FirstText(utm, utmSaved))))
    {
      var rendered := step;
      if Valid(values, SchemaFields, isEmail) {
        SchemaCoversStep(values, isEmail, rendered);
      }
      if submitSettlesFirst {
        sent := HandleSubmit(rendered, utm);
        OnNextStep(rendered);
      } else {
        OnNextStep(rendered);
        sent := HandleSubmit(rendered, utm);
      }
    }

    /** Continue as a plain button (`type="button"`): the press runs
        `onNextStep` alone, so it advances at most one step, never past
        step 3, and posts nothing. */
    method PressContinueAsButton() returns (sent: Option<FinalData>)
      requires step != 3
      modifies this`step
      ensures sent.None?
      ensures step == if Valid(values, StepFields(old(step)), isEmail) then old(step) + 1 else old(step)
      ensures 1 <= old(step) <= 2 ==> 1 <= step <= 3
    {
      OnNextStep(step);
      sent := None;
    }

    /** The reset when the session becomes authenticated: the values become
        the user's name and e-mail alone, every other field undefined. */
    method ResetOnAuth(userName: string, userEmail: string)
      modifies this`values
      ensures values == map[Schema(Name) := Text(userName), Schema(Email) := Text(userEmail)]
    {
      values := map[Schema(Name) := Text(userName), Schema(Email) := Text(userEmail)];
    }

    /** `getRegisterFormLoaded` once its request returns: a stored
        registration resets the form to it; otherwise the data saved for
        later, when there is any that parses, resets the form. Either way
        the stored hackathon and utm are kept for the handlers. */
    method LoadRegistration(loaded: Option<StoredForm>, saved: Option<FinalData>, userName: string, userEmail: string,
                            parse: string -> Option<Json.Json>)
      modifies this`values, this`hackathonId, this`utmSaved
      ensures loaded.Some? ==> (values == StoredValues(loaded.value, userName, userEmail, parse) &&
        hackathonId == loaded.value.hackathonId && utmSaved == loaded.value.utm)
      ensures loaded.None? && saved.Some? ==> (values == SavedValues(saved.value) &&
        hackathonId == saved.value.hackathonId && utmSaved == saved.value.utm)
      ensures loaded.None? && saved.None? ==>
        values == old(values) && hackathonId == old(hackathonId) && utmSaved == old(utmSaved)
    {
      if loaded.Some? {
        values := StoredValues(loaded.value, userName, userEmail, parse);
        hackathonId, utmSaved := loaded.value.hackathonId, loaded.value.utm;
      } else if saved.Some? {
        values := SavedValues(saved.value);
        hackathonId, utmSaved := saved.value.hackathonId, saved.value.utm;
      }
    }
  }

  /** The data that `onSaveLater` and `onSubmit` build, as written. The
      hackathon id and the saved utm are `let` variables of the render, set
      from the query and to `""` at its start. A load assigns the stored
      ones to the variables of the render that started it, but the form
      reset it performs renders again, and the handlers on screen belong to
      the new render: they see the query's hackathon and `""`. */
  function AsWrittenHandlerData(values: Form, queryHackathon: string, utm: string): (d: FinalData)
    ensures d.hackathonId == queryHackathon && d.values == values
    ensures d.utm == FirstText(utm, "") == utm
  {
    FinalData(values, queryHackathon, FirstText(utm, ""))
  }

  /** As written, a registration resumed without a `utm` in the address
      sends an empty utm, whatever utm was stored with it. */
  lemma AsWrittenLosesStoredUtm(d: StoredForm, values: Form, queryHackathon: string)
    requires d.utm != ""
    ensures AsWrittenHandlerData(values, queryHackathon, "").utm != d.utm
  {
    assert AsWrittenHandlerData(values, queryHackathon, "").utm == "";
  }

  /** With the hackathon and the saved utm kept as state, resuming a stored
      registration and saving it for later again keeps its hackathon and,
      when the address has no `utm`, its utm. */
  method ResumeKeepsUtm(w: Wizard, d: StoredForm, userName: string, userEmail: string,
                        parse: string -> Option<Json.Json>) returns (stored: FinalData)
    modifies w
    ensures stored.utm == d.utm && stored.hackathonId == d.hackathonId
    ensures stored.values == StoredValues(d, userName, userEmail, parse)
  {
    w.LoadRegistration(Some(d), None, userName, userEmail, parse);
    stored := w.SaveLater("");
  }

  /** Values the whole schema accepts pass every step's fields. */
  lemma SchemaCoversStep(form: Form, isEmail: string -> bool, step: int)
    requires Valid(form, SchemaFields, isEmail)
    ensures Valid(form, StepFields(step), isEmail)
  {
    var fields := StepFields(step);
    forall i | 0 <= i < |fields|
      ensures Satisfies(RuleOf(fields[i]), Lookup(form, Schema(fields[i])), isEmail)
    {
      SchemaPositionFinds(fields[i]);
    }
  }

  /** As written, a registration resumed on step 2 with every answer in
      place, where the submit settles first, goes from step 2 to step 4 on
      one press of Continue, and a second press posts it without step 3
      having been shown. */
  method AsWrittenContinueSkipsStepThree(w: Wizard, utm: string) returns (sent: Option<FinalData>)
    requires w.step == 2 && Valid(w.values, SchemaFields, w.isEmail)
    modifies w
    ensures w.step == 5 && w.dialogOpen
    ensures sent == Some(FinalData(Parsed(w.values), w.hackathonId, FirstText(utm, w.utmSaved)))
  {
    var first := w.PressContinue(utm, true);
    assert w.step == 4;
    sent := w.PressContinue(utm, true);
  }

  /** A fresh form cannot be submitted: its defaults leave the city empty,
      so `handleSubmit` stops before `onSubmit`. */
  lemma DefaultsNeverSubmit(userName: string, userEmail: string, isEmail: string -> bool)
    ensures !Valid(Defaults(userName, userEmail), SchemaFields, isEmail)
  {
    assert SchemaFields[4] == City;
  }

  /** After the authentication reset only the name and e-mail are set, so
      the form cannot be submitted either. */
  lemma ResetFormNeverSubmits(userName: string, userEmail: string, isEmail: string -> bool)
    ensures !Valid(map[Schema(Name) := Text(userName), Schema(Email) := Text(userEmail)], SchemaFields, isEmail)
  {
    assert SchemaFields[4] == City;
  }
}
