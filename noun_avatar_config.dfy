/** The avatar configuration modal: its seed, enabled flag and saving flag,
    reset when the modal opens, stepped trait by trait, and saved with the
    enabled flag forced on. */
module NounAvatarConfig {
  import opened Wrappers
  import opened Nouns

  class ConfigModal {
    const maxima: Maxima
    var isOpen: bool
    var seed: Option<Seed>
    var enabled: bool
    var isSaving: bool

    /** The initial state: the seed passed in, if any. */
    constructor(maxima: Maxima, currentSeed: Option<Seed>, nounAvatarEnabled: bool)
      ensures this.maxima == maxima
      ensures !isOpen && seed == currentSeed && enabled == nounAvatarEnabled && !isSaving
    {
      this.maxima := maxima;
      isOpen := false;
      seed := currentSeed;
      enabled := nounAvatarEnabled;
      isSaving := false;
    }

    /** Opening the modal resets the seed to the current one, or to all
        zeros, and the flag to the one passed in. */
    method Open(currentSeed: Option<Seed>, nounAvatarEnabled: bool)
      modifies this`isOpen, this`seed, this`enabled
      ensures isOpen && seed == Some(currentSeed.GetOr(ZeroSeed)) && enabled == nounAvatarEnabled
    {
      isOpen := true;
      seed := Some(currentSeed.GetOr(ZeroSeed));
      enabled := nounAvatarEnabled;
    }

    method Adjust(t: Trait, dir: Direction)
      modifies this`seed
      ensures seed == AdjustTrait(old(seed), maxima, t, dir)
    {
      seed := AdjustTrait(seed, maxima, t, dir);
    }

    /** A generated seed replaces the local one; a failed request leaves it. */
    method Generated(response: Option<Seed>)
      modifies this`seed
      ensures seed == if response.Some? then response else old(seed)
    {
      if response.Some? {
        seed := response;
      }
    }

    /** `handleSave`: the request carries the seed, or all zeros, with
        `enabled` on; the modal closes only when both the request and the
        save callback succeed. */
    method Save(putOk: bool, onSaveOk: bool) returns (request: AvatarRequest, callbackRan: bool)
      modifies this`seed, this`isSaving, this`isOpen
      ensures request == AvatarRequest(old(seed).GetOr(ZeroSeed), true)
      ensures seed == Some(request.seed)
      ensures callbackRan == putOk
      ensures isOpen == (old(isOpen) && !(putOk && onSaveOk))
      ensures !isSaving
    {
      var toSave := seed.GetOr(ZeroSeed);
      if seed.None? {
        seed := Some(ZeroSeed);
      }
      isSaving := true;
      request := AvatarRequest(toSave, true);
      callbackRan := putOk;
      if putOk && onSaveOk {
        isOpen := false;
      }
      isSaving := false;
    }
  }

  /** Opening then stepping a trait forwards and back leaves the seed the
      modal opened with, whatever its trait values were, as long as they are
      valid indices. */
  method OpenAdjustUndo(c: ConfigModal, currentSeed: Seed, enabled: bool, t: Trait)
    requires InRange(currentSeed, c.maxima)
    modifies c
    ensures c.seed == Some(currentSeed) && c.isOpen
  {
    c.Open(Some(currentSeed), enabled);
    c.Adjust(t, Next);
    c.Adjust(t, Prev);
    AdjustUndo(currentSeed, c.maxima, t);
  }
}
