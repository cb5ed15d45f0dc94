/** The stand-alone profile page: the same skill and social handlers as the
    form hook, over the page's own state, with the skills list kept free of
    repeats from its initial value on. */
module ProfilePage {
  import opened Strings
  import opened Lists
  import ProfileForm

  /** The skills the page starts with. */
  const InitialSkills: seq<string> := ["Foundary", "solidity", "python"]

  lemma InitialSkillsDistinct()
    ensures Distinct(InitialSkills)
  {
  }

  /** `socials[index] = value` on a copy. */
  function UpdateAt(socials: seq<string>, index: nat, value: string): (r: seq<string>)
    requires index < |socials|
    ensures |r| == |socials| && r[index] == value
    ensures forall j :: 0 <= j < |r| && j != index ==> r[j] == socials[j]
  {
    socials[index := value]
  }

  class Page {
    var username: string
    var skills: seq<string>
    var socials: seq<string>
    var newSkill: string

    /** The skills list never holds the same skill twice. */
    predicate Valid()
      reads this
    {
      Distinct(skills)
    }

    constructor()
      ensures username == "username" && skills == InitialSkills && socials == [] && newSkill == ""
      ensures Valid()
    {
      username := "username";
      skills := InitialSkills;
      socials := [];
      newSkill := "";
      InitialSkillsDistinct();
    }

    /** Typing into the new-skill box. */
    method SetNewSkill(text: string)
      modifies this`newSkill
      ensures newSkill == text
    {
      newSkill := text;
    }

    /** `handleAddSkill`: the trimmed input is added when it is non-blank and
        new, and only then is the input cleared. */
    method AddSkill()
      requires Valid()
      modifies this`skills, this`newSkill
      ensures Valid()
      ensures skills == ProfileForm.AddSkill(old(skills), old(newSkill))
      ensures newSkill == if ProfileForm.SkillAccepted(old(skills), old(newSkill)) then "" else old(newSkill)
    {
      var text := newSkill;
      if ProfileForm.SkillAccepted(skills, text) {
        newSkill := "";
      }
      skills := ProfileForm.AddSkill(skills, text);
    }

    method RemoveSkill(skill: string)
      requires Valid()
      modifies this`skills
      ensures Valid()
      ensures skills == ProfileForm.RemoveSkill(old(skills), skill)
    {
      skills := ProfileForm.RemoveSkill(skills, skill);
    }

    method AddSocial()
      modifies this`socials
      ensures socials == ProfileForm.AddSocial(old(socials))
    {
      socials := ProfileForm.AddSocial(socials);
    }

    /** `handleUpdateSocial`, called with the index of a rendered entry. */
    method UpdateSocial(index: nat, value: string)
      requires index < |socials|
      modifies this`socials
      ensures socials == UpdateAt(old(socials), index, value)
    {
      socials := UpdateAt(socials, index, value);
    }

    method RemoveSocial(index: int)
      modifies this`socials
      ensures socials == ProfileForm.RemoveAt(old(socials), index)
    {
      socials := ProfileForm.RemoveAt(socials, index);
    }
  }
}
