/** Step 2 of the registration form: the multi-select toggles, the text of
    the select triggers, and which form fields the step's inputs write. */
module RegisterFormStep2 {
  import opened Wrappers
  import opened Lists
  import opened Strings
  import opened RegistrationForm

  /** A select option. */
  datatype SelectOption = SelectOption(value: string, caption: string)

  /** The list a multi-select reads: the field's list, or nothing when the
      field does not hold one. */
  function CurrentItems(v: Option<FieldValue>): seq<string> {
    if v.Some? && v.value.Items? then v.value.items else []
  }

  /** A multi-select's `onValueChange`: a chosen value is removed when
      present and appended otherwise. */
  function ToggleValue(current: seq<string>, value: string): seq<string> {
    if value in current then Filter(current, x => x != value) else current + [value]
  }

  /** A toggle flips the chosen value's membership and leaves the other
      values in their order. */
  lemma ToggleFlips(current: seq<string>, value: string)
    ensures value in ToggleValue(current, value) <==> value !in current
    ensures Filter(ToggleValue(current, value), x => x != value) == Filter(current, x => x != value)
  {
    var keep := (x: string) => x != value;
    FilterFacts(current, keep);
    if value in current {
      FilterIdempotent(current, keep);
    } else {
      FilterAppend(current, [value], keep);
      assert Filter([value], keep) == [];
    }
  }

  /** Choosing a value that was absent and then choosing it again restores
      the list. */
  lemma ToggleTwiceRestores(current: seq<string>, value: string)
    requires value !in current
    ensures ToggleValue(ToggleValue(current, value), value) == current
  {
    var keep := (x: string) => x != value;
    FilterAppend(current, [value], keep);
    assert Filter([value], keep) == [];
    FilterKeepsAll(current, keep);
  }

  /** The trigger text: the placeholder for no values, the label of a
      single value (empty when no option has it), else a count. */
  function FormatSelectedValues(values: Option<seq<string>>, options: seq<SelectOption>): (r: string)
    ensures values.None? || values.value == [] ==> r == "Select one or more options"
    ensures values.Some? && |values.value| >= 2 ==> r == NatToString(|values.value|) + " options selected"
    ensures values.Some? && |values.value| == 1 && (forall i :: 0 <= i < |options| ==> options[i].value != values.value[0]) ==> r == ""
    ensures forall i :: values.Some? && |values.value| == 1 && FirstMatch(options, values.value[0], i) ==> r == options[i].caption
  {
    if values.None? || |values.value| == 0 then "Select one or more options"
    else if |values.value| == 1 then
      var o := FindOption(options, values.value[0]);
      if o.Some? then o.value.caption else ""
    else NatToString(|values.value|) + " options selected"
  }

  /** `i` is the first position whose option has the value `v`. */
  predicate FirstMatch(options: seq<SelectOption>, v: string, i: int) {
    0 <= i < |options| && options[i].value == v && forall j :: 0 <= j < i ==> options[j].value != v
  }

  /** `options.find(o => o.value === v)`. */
  function FindOption(options: seq<SelectOption>, v: string): (r: Option<SelectOption>)
    ensures r.None? <==> forall i :: 0 <= i < |options| ==> options[i].value != v
    ensures r.Some? ==> exists i :: FirstMatch(options, v, i) && options[i] == r.value
  {
    if options == [] then None
    else if options[0].value == v then Some(options[0])
    else
      var r := FindOption(options[1..], v);
      if r.Some? then
        var i :| FirstMatch(options[1..], v, i) && options[1..][i] == r.value;
        assert FirstMatch(options, v, i + 1);
        r
      else
        r
  }

  // ---------------------------------------------------------------------
  // Which fields the step-2 inputs write.

  /** An input event of step 2: a single choice or text for input `input`,
      or a toggle of `value` in multi-select `input`. */
  datatype Event = Choose(input: nat, text: string) | Toggle(input: nat, value: string)

  /** The `name` each of the seven inputs is bound to, as written: the
      proficiency, participation and portfolio inputs use camelCase names
      the schema does not have. */
  const AsWrittenBindings: seq<string> := [
    "web3Proficiency", "roles", "interests", "tools", "languages", "hackathonParticipation", "githubPortfolio"]

  /** The bindings the schema and the step-2 validation list expect. */
  const Bindings: seq<string> := [
    "web3_proficiency", "roles", "interests", "tools", "languages", "hackathon_participation", "github_portfolio"]

  /** The keys a table of input names registers. */
  function KeysOf(names: seq<string>): (r: seq<Key>)
    ensures |r| == |names| && forall i :: 0 <= i < |names| ==> r[i] == KeyOf(names[i])
  {
    seq(|names|, i requires 0 <= i < |names| => KeyOf(names[i]))
  }

  /** The keys registered as written: three of the seven are not schema
      fields. */
  const AsWrittenKeys: seq<Key> := [
    Unlisted("web3Proficiency"), Schema(Roles), Schema(Interests), Schema(Tools), Schema(Languages),
    Unlisted("hackathonParticipation"), Unlisted("githubPortfolio")]

  /** The keys the corrected names register. */
  const BoundKeys: seq<Key> := [
    Schema(Web3Proficiency), Schema(Roles), Schema(Interests), Schema(Tools), Schema(Languages),
    Schema(HackathonParticipation), Schema(GithubPortfolio)]

  lemma AsWrittenRegisters()
    ensures KeysOf(AsWrittenBindings) == AsWrittenKeys
  {
  }

  lemma BindingsRegister()
    ensures KeysOf(Bindings) == BoundKeys
  {
  }

  /** Applying one event through the inputs' keys; an event for an input
      that does not exist changes nothing. */
  function Apply(form: Form, keys: seq<Key>, e: Event): Form {
    if e.input >= |keys| then form
    else
      var k := keys[e.input];
      match e
      case Choose(_, text) => form[k := Text(text)]
      case Toggle(_, value) => form[k := Items(ToggleValue(CurrentItems(Lookup(form, k)), value))]
  }

  function ApplyAll(form: Form, keys: seq<Key>, es: seq<Event>): Form
    decreases |es|
  {
    if es == [] then form else ApplyAll(Apply(form, keys, es[0]), keys, es[1..])
  }

  /** Inputs none of which registers `web3_proficiency` leave it as it
      was, so from the defaults step 2 never validates. */
  lemma {:induction false} ProficiencyNeverSet(form: Form, keys: seq<Key>, es: seq<Event>, isEmail: string -> bool)
    requires Schema(Web3Proficiency) !in keys
    requires Lookup(form, Schema(Web3Proficiency)) == Some(Text(""))
    ensures Lookup(ApplyAll(form, keys, es), Schema(Web3Proficiency)) == Some(Text(""))
    ensures !Valid(ApplyAll(form, keys, es), StepFields(2), isEmail)
    decreases |es|
  {
    if es != [] {
      var next := Apply(form, keys, es[0]);
      assert Lookup(next, Schema(Web3Proficiency)) == Some(Text(""));
      ProficiencyNeverSet(next, keys, es[1..], isEmail);
    }
    assert StepFields(2)[0] == Web3Proficiency;
  }

  /** As written, whatever the user does on step 2 from the defaults, the
      step never validates. */
  lemma AsWrittenNeverValidates(userName: string, userEmail: string, es: seq<Event>, isEmail: string -> bool)
    ensures !Valid(ApplyAll(Defaults(userName, userEmail), KeysOf(AsWrittenBindings), es), StepFields(2), isEmail)
  {
    AsWrittenRegisters();
    ProficiencyNeverSet(Defaults(userName, userEmail), AsWrittenKeys, es, isEmail);
  }

  /** As written, the proficiency is never set from the defaults, so the
      whole schema never passes either and `handleSubmit` never reaches
      `onSubmit`: the registration cannot be sent. */
  lemma AsWrittenNeverSubmits(userName: string, userEmail: string, es: seq<Event>, isEmail: string -> bool)
    ensures !Valid(ApplyAll(Defaults(userName, userEmail), KeysOf(AsWrittenBindings), es), SchemaFields, isEmail)
  {
    AsWrittenRegisters();
    ProficiencyNeverSet(Defaults(userName, userEmail), AsWrittenKeys, es, isEmail);
    assert SchemaFields[6] == Web3Proficiency;
  }

  /** The answers of a user who completes step 2: a proficiency, one value
      in each multi-select and a participation answer. */
  function CompleteAnswers(proficiency: string, role: string, interest: string, tool: string, language: string, participation: string): seq<Event> {
    [Choose(0, proficiency), Toggle(1, role), Toggle(2, interest), Toggle(3, tool), Toggle(4, language), Choose(5, participation)]
  }

  /** The counterexample: choosing proficiency "3", one value in every
      list and participation "yes" still fails step 2 as written. */
  lemma AsWrittenRejectsCompleteAnswers(userName: string, userEmail: string, isEmail: string -> bool)
    ensures !Valid(ApplyAll(Defaults(userName, userEmail), KeysOf(AsWrittenBindings),
      CompleteAnswers("3", "developer", "defi", "hardhat", "solidity", "yes")), StepFields(2), isEmail)
  {
    AsWrittenNeverValidates(userName, userEmail, CompleteAnswers("3", "developer", "defi", "hardhat", "solidity", "yes"), isEmail);
  }

  /** With the bindings the schema expects, the same answers pass step 2. */
  lemma CompleteAnswersPass(userName: string, userEmail: string, proficiency: string, role: string, interest: string,
                            tool: string, language: string, participation: string, isEmail: string -> bool)
    requires proficiency != "" && participation != ""
    ensures Valid(ApplyAll(Defaults(userName, userEmail), BoundKeys,
      CompleteAnswers(proficiency, role, interest, tool, language, participation)), StepFields(2), isEmail)
  {
    var f0 := Defaults(userName, userEmail);
    assert Lookup(f0, Schema(Roles)) == Some(Items([])) && Lookup(f0, Schema(Interests)) == Some(Items([]));
    assert Lookup(f0, Schema(Tools)) == Some(Items([])) && Lookup(f0, Schema(Languages)) == Some(Items([]));
    var f6 := CompleteAnswersFill(f0, proficiency, role, interest, tool, language, participation);
    StepTwoValid(f6, isEmail);
  }

  /** What the complete answers write into a form whose lists are empty. */
  lemma CompleteAnswersFill(f0: Form, proficiency: string, role: string, interest: string,
                            tool: string, language: string, participation: string) returns (f6: Form)
    requires Lookup(f0, Schema(Roles)) == Some(Items([])) && Lookup(f0, Schema(Interests)) == Some(Items([]))
    requires Lookup(f0, Schema(Tools)) == Some(Items([])) && Lookup(f0, Schema(Languages)) == Some(Items([]))
    ensures f6 == ApplyAll(f0, BoundKeys, CompleteAnswers(proficiency, role, interest, tool, language, participation))
    ensures f6 == f0[Schema(Web3Proficiency) := Text(proficiency)][Schema(Roles) := Items([role])]
      [Schema(Interests) := Items([interest])][Schema(Tools) := Items([tool])]
      [Schema(Languages) := Items([language])][Schema(HackathonParticipation) := Text(participation)]
  {
    var es := CompleteAnswers(proficiency, role, interest, tool, language, participation);
    var f1 := f0[Schema(Web3Proficiency) := Text(proficiency)];
    var f2 := f1[Schema(Roles) := Items([role])];
    var f3 := f2[Schema(Interests) := Items([interest])];
    var f4 := f3[Schema(Tools) := Items([tool])];
    var f5 := f4[Schema(Languages) := Items([language])];
    f6 := f5[Schema(HackathonParticipation) := Text(participation)];
    ToggleIntoEmpty(f1, 1, role);
    ToggleIntoEmpty(f2, 2, interest);
    ToggleIntoEmpty(f3, 3, tool);
    ToggleIntoEmpty(f4, 4, language);
    assert es[5..][1..] == [];
    assert ApplyAll(f5, BoundKeys, es[5..]) == f6;
    assert es[4..][1..] == es[5..];
    assert ApplyAll(f4, BoundKeys, es[4..]) == f6;
    assert es[3..][1..] == es[4..];
    assert ApplyAll(f3, BoundKeys, es[3..]) == f6;
    assert es[2..][1..] == es[3..];
    assert ApplyAll(f2, BoundKeys, es[2..]) == f6;
    assert es[1..][1..] == es[2..];
    assert ApplyAll(f1, BoundKeys, es[1..]) == f6;
  }

  /** Toggling a value into a list field that is still empty. */
  lemma ToggleIntoEmpty(form: Form, input: nat, v: string)
    requires 1 <= input <= 4
    requires Lookup(form, BoundKeys[input]) == Some(Items([]))
    ensures Apply(form, BoundKeys, Toggle(input, v)) == form[BoundKeys[input] := Items([v])]
  {
    assert ToggleValue([], v) == [v];
  }

  /** Step 2 passes when its seven fields hold acceptable values. */
  lemma StepTwoValid(form: Form, isEmail: string -> bool)
    requires Lookup(form, Schema(Web3Proficiency)).Some? && form[Schema(Web3Proficiency)].Text? && form[Schema(Web3Proficiency)].s != ""
    requires Lookup(form, Schema(HackathonParticipation)).Some? && form[Schema(HackathonParticipation)].Text?
    requires form[Schema(HackathonParticipation)].s != ""
    requires Lookup(form, Schema(Roles)).Some? && form[Schema(Roles)].Items? && form[Schema(Roles)].items != []
    requires Lookup(form, Schema(Interests)).Some? && form[Schema(Interests)].Items? && form[Schema(Interests)].items != []
    requires Lookup(form, Schema(Tools)).Some? && form[Schema(Tools)].Items? && form[Schema(Tools)].items != []
    requires Lookup(form, Schema(Languages)).Some? && form[Schema(Languages)].Items? && form[Schema(Languages)].items != []
    requires Lookup(form, Schema(GithubPortfolio)).Some? ==> form[Schema(GithubPortfolio)].Text?
    ensures Valid(form, StepFields(2), isEmail)
  {
  }
}
