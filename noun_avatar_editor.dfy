/** The inline avatar editor: its seed starts at the current one or all
    zeros, follows a new current seed, and is saved with the enabled flag
    forced on. */
module NounAvatarEditor {
  import opened Wrappers
  import opened Nouns

  class Editor {
    const maxima: Maxima
    var seed: Option<Seed>
    var isSaving: bool

    constructor(maxima: Maxima, currentSeed: Option<Seed>)
      ensures this.maxima == maxima
      ensures seed == Some(currentSeed.GetOr(ZeroSeed)) && !isSaving
    {
      this.maxima := maxima;
      seed := Some(currentSeed.GetOr(ZeroSeed));
      isSaving := false;
    }

    /** A new non-null current seed replaces the local one. */
    method CurrentSeedChanged(currentSeed: Option<Seed>)
      modifies this`seed
      ensures seed == if currentSeed.Some? then currentSeed else old(seed)
    {
      if currentSeed.Some? {
        seed := currentSeed;
      }
    }

    method Adjust(t: Trait, dir: Direction)
      modifies this`seed
      ensures seed == AdjustTrait(old(seed), maxima, t, dir)
    {
      seed := AdjustTrait(seed, maxima, t, dir);
    }

    /** `handleSave`: nothing without a seed; otherwise the seed is sent
        with `enabled` on, and the callback runs only after the request
        succeeded. */
    method Save(putOk: bool) returns (request: Option<AvatarRequest>, callbackRan: bool)
      modifies this`isSaving
      ensures request.None? <==> seed.None?
      ensures request.Some? ==> request.value == AvatarRequest(seed.value, true)
      ensures callbackRan <==> request.Some? && putOk
      ensures isSaving == (old(isSaving) && seed.None?)
    {
      if seed.None? {
        return None, false;
      }
      isSaving := true;
      request := Some(AvatarRequest(seed.value, true));
      callbackRan := putOk;
      isSaving := false;
    }
  }

  /** A fresh editor never starts without a seed, so saving it always sends
      one. */
  method FreshEditorSaves(maxima: Maxima, currentSeed: Option<Seed>, putOk: bool) returns (request: Option<AvatarRequest>)
    ensures request == Some(AvatarRequest(currentSeed.GetOr(ZeroSeed), true))
  {
    var e := new Editor(maxima, currentSeed);
    var ran;
    request, ran := e.Save(putOk);
  }
}
