/** Noun avatar seeds: five trait indices, each stepped forwards or
    backwards around the number of images available for that trait. */
module Nouns {
  import opened Wrappers
  import opened JsArith

  datatype Trait = Background | Body | Accessory | Head | Glasses

  /** The traits in the order the seed lists them. */
  const Traits: seq<Trait> := [Background, Body, Accessory, Head, Glasses]

  datatype Seed = Seed(background: int, body: int, accessory: int, head: int, glasses: int)

  /** The seed the components fall back to. */
  const ZeroSeed: Seed := Seed(0, 0, 0, 0, 0)

  /** The number of images per trait (the lengths of the image lists of the
      Nouns asset package). */
  datatype Maxima = Maxima(background: Positive, body: Positive, accessory: Positive, head: Positive, glasses: Positive)

  /** `seed[trait]`. */
  function Get(s: Seed, t: Trait): int {
    match t
    case Background => s.background
    case Body => s.body
    case Accessory => s.accessory
    case Head => s.head
    case Glasses => s.glasses
  }

  function MaxOf(m: Maxima, t: Trait): Positive {
    match t
    case Background => m.background
    case Body => m.body
    case Accessory => m.accessory
    case Head => m.head
    case Glasses => m.glasses
  }

  /** `{ ...seed, [trait]: v }`. */
  function With(s: Seed, t: Trait, v: int): (r: Seed)
    ensures Get(r, t) == v
    ensures forall u :: u != t ==> Get(r, u) == Get(s, u)
  {
    match t
    case Background => s.(background := v)
    case Body => s.(body := v)
    case Accessory => s.(accessory := v)
    case Head => s.(head := v)
    case Glasses => s.(glasses := v)
  }

  /** Every trait is a valid image index. */
  predicate InRange(s: Seed, m: Maxima) {
    forall t :: 0 <= Get(s, t) < MaxOf(m, t)
  }

  datatype Direction = Prev | Next

  /** The arithmetic of `adjustTrait` for one trait. */
  function Step(v: int, max: Positive, dir: Direction): (r: int)
    ensures 0 <= v < max ==> 0 <= r < max
  {
    match dir
    case Next => JsRem(v + 1, max)
    case Prev => if v == 0 then max - 1 else v - 1
  }

  /** Stepping forwards then backwards, or backwards then forwards, returns
      to the starting index. */
  lemma StepInverse(v: int, max: Positive)
    requires 0 <= v < max
    ensures Step(Step(v, max, Next), max, Prev) == v
    ensures Step(Step(v, max, Prev), max, Next) == v
  {
    JsRemOfRange(v + 1, max);
    var p := Step(v, max, Prev);
    assert p + 1 == if v == 0 then max else v;
    JsRemOfRange(p + 1, max);
  }

  /** `adjustTrait`: nothing without a seed; otherwise only the chosen trait
      moves one step. */
  function AdjustTrait(seed: Option<Seed>, m: Maxima, t: Trait, dir: Direction): (r: Option<Seed>)
    ensures r.Some? <==> seed.Some?
    ensures r.Some? ==> Get(r.value, t) == Step(Get(seed.value, t), MaxOf(m, t), dir)
    ensures r.Some? ==> forall u :: u != t ==> Get(r.value, u) == Get(seed.value, u)
    ensures seed.Some? && InRange(seed.value, m) ==> InRange(r.value, m)
  {
    if seed.None? then None
    else
      var s := seed.value;
      var r := With(s, t, Step(Get(s, t), MaxOf(m, t), dir));
      assert forall u :: 0 <= Get(s, u) < MaxOf(m, u) ==> 0 <= Get(r, u) < MaxOf(m, u);
      Some(r)
  }

  /** Adjusting a trait one way and then the other restores the seed. */
  lemma AdjustUndo(s: Seed, m: Maxima, t: Trait)
    requires InRange(s, m)
    ensures AdjustTrait(AdjustTrait(Some(s), m, t, Next), m, t, Prev) == Some(s)
    ensures AdjustTrait(AdjustTrait(Some(s), m, t, Prev), m, t, Next) == Some(s)
  {
    StepInverse(Get(s, t), MaxOf(m, t));
    var a := AdjustTrait(AdjustTrait(Some(s), m, t, Next), m, t, Prev).value;
    var b := AdjustTrait(AdjustTrait(Some(s), m, t, Prev), m, t, Next).value;
    assert forall u :: Get(a, u) == Get(s, u);
    assert forall u :: Get(b, u) == Get(s, u);
    assert Get(a, Background) == Get(s, Background) && Get(a, Body) == Get(s, Body)
      && Get(a, Accessory) == Get(s, Accessory) && Get(a, Head) == Get(s, Head) && Get(a, Glasses) == Get(s, Glasses);
    assert Get(b, Background) == Get(s, Background) && Get(b, Body) == Get(s, Body)
      && Get(b, Accessory) == Get(s, Accessory) && Get(b, Head) == Get(s, Head) && Get(b, Glasses) == Get(s, Glasses);
  }

  /** The body of the avatar `PUT` both components send. */
  datatype AvatarRequest = AvatarRequest(seed: Seed, enabled: bool)
}
