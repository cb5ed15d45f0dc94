/** The skill input with suggestions: which suggestions are computed from
    the debounced input and the focus, when the list is open, and what
    Enter, Escape and a click select. */
module SkillsAutocomplete {
  import opened Wrappers
  import opened Strings
  import opened PopularSkills

  datatype Key = Enter | Escape | Other

  class Autocomplete {
    /** The loaded popular skills. */
    const catalogue: seq<PopularSkill>
    /** The skills the user already has. */
    const existingSkills: seq<string>
    /** The input's value, owned by the parent and changed through
        `onChange`. */
    var value: string
    /** The value after the debounce delay. */
    var debouncedValue: string
    var isFocused: bool
    var open: bool

    constructor(catalogue: seq<PopularSkill>, existingSkills: seq<string>, value: string)
      ensures this.catalogue == catalogue && this.existingSkills == existingSkills
      ensures this.value == value && debouncedValue == value && !isFocused && !open
    {
      this.catalogue := catalogue;
      this.existingSkills := existingSkills;
      this.value := value;
      debouncedValue := value;
      isFocused := false;
      open := false;
    }

    /** `suggestions`: a search for the debounced value, the top skills when
        it is empty but the input is focused, and nothing otherwise. */
    function Suggestions(): (r: seq<PopularSkill>)
      reads this
      ensures |r| <= MaxResults
      ensures debouncedValue == "" && !isFocused ==> r == []
    {
      if |debouncedValue| > 0 then SearchSkills(catalogue, debouncedValue, existingSkills)
      else if isFocused then SearchSkills(catalogue, "", existingSkills)
      else []
    }

    /** `showSuggestions`. */
    function ShowSuggestions(): (b: bool)
      reads this
      ensures b ==> open && Suggestions() != []
    {
      open && |Suggestions()| > 0
    }

    /** The effect that follows the suggestions: open exactly when there is
        something to suggest, and closed when the input is empty and
        unfocused. */
    method SyncOpen()
      modifies this`open
      ensures open <==> Suggestions() != []
      ensures debouncedValue == "" && !isFocused ==> !open
    {
      if |debouncedValue| > 0 {
        open := |Suggestions()| > 0;
      } else if isFocused {
        open := |Suggestions()| > 0;
      } else {
        open := false;
      }
    }

    /** The debounce timer firing. */
    method Debounce()
      modifies this`debouncedValue
      ensures debouncedValue == value
    {
      debouncedValue := value;
    }

    method Change(text: string)
      modifies this`value
      ensures value == text
    {
      value := text;
    }

    method Focus()
      modifies this`isFocused, this`open
      ensures isFocused && open
    {
      isFocused := true;
      open := true;
    }

    /** The delayed blur. */
    method Blur()
      modifies this`isFocused, this`open
      ensures !isFocused && !open
    {
      isFocused := false;
      open := false;
    }

    /** `handleSelectSkill`: the skill is handed to the parent, the input
        emptied and the list closed. */
    method SelectSkill(skill: string) returns (selected: string)
      modifies this`value, this`open
      ensures selected == skill && value == "" && !open
    {
      selected := skill;
      value := "";
      open := false;
    }

    /** `handleKeyDown`. */
    method KeyDown(key: Key) returns (selected: Option<string>)
      modifies this`value, this`open
      ensures key == Enter && !IsBlank(old(value)) ==>
        && selected == Some(if Suggestions() != [] then Suggestions()[0].name else Trim(old(value)))
        && value == "" && !open
      ensures key == Enter && IsBlank(old(value)) ==> selected == None && value == old(value) && open == old(open)
      ensures key == Escape ==> selected == None && value == old(value) && !open
      ensures key == Other ==> selected == None && value == old(value) && open == old(open)
    {
      var text := value;
      if key == Enter && !TrimIsEmpty(text) {
        var suggestions := Suggestions();
        var s;
        if |suggestions| > 0 {
          s := SelectSkill(suggestions[0].name);
        } else {
          s := SelectSkill(Trim(text));
        }
        selected := Some(s);
      } else if key == Escape {
        open := false;
        selected := None;
      } else {
        selected := None;
      }
    }
  }

  /** Typing a new skill nobody suggests and pressing Enter selects the
      trimmed text and leaves the input empty and the list closed. */
  method EnterTypedSkill(a: Autocomplete, text: string) returns (selected: Option<string>)
    requires !IsBlank(text)
    requires a.Suggestions() == []
    modifies a
    ensures selected == Some(Trim(text)) && a.value == "" && !a.ShowSuggestions()
  {
    a.Change(text);
    selected := a.KeyDown(Enter);
  }
}
