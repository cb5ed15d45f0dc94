/** The notification-preference defaults: a list of category objects, each
    naming its category by its first key and mapping it to an object of
    notification keys and their `[Hub, Email]` channel flags. The defaults
    are every key of every category, a later category overriding an earlier
    one for a shared key. */
module NotificationDefaults {
  import opened Wrappers

  /** The `[Hub, Email]` flags of one notification. */
  datatype Channels = Channels(hub: bool, email: bool)

  /** The entries of a notifications object, in key order. */
  type Entries = seq<(string, Channels)>

  /** One category object: its fields in key order. The first field's value
      is the notifications object, or `None` when it is missing or null. */
  datatype Category = Category(fields: seq<(string, Option<Entries>)>)

  /** `categoryObj[Object.keys(categoryObj)[0]]`: only the first key is
      read; an object with no keys has no notifications. */
  function Notifications(c: Category): Option<Entries> {
    if c.fields == [] then None else c.fields[0].1
  }

  /** The notification entries of every category that has them, in order. */
  function AllEntries(cats: seq<Category>): Entries {
    if cats == [] then []
    else
      var last := cats[|cats| - 1];
      AllEntries(cats[..|cats| - 1]) + (if Notifications(last).Some? then Notifications(last).value else [])
  }

  /** Assigning `m[key] = value` for each entry in turn. */
  function PutAll(m: map<string, Channels>, es: Entries): map<string, Channels>
    decreases es
  {
    if es == [] then m else PutAll(m[es[0].0 := es[0].1], es[1..])
  }

  /** The defaults the function computes. */
  function DefaultsOf(cats: seq<Category>): map<string, Channels> {
    PutAll(map[], AllEntries(cats))
  }

  predicate HasKey(es: Entries, k: string) {
    exists i :: 0 <= i < |es| && es[i].0 == k
  }

  lemma {:induction false} PutAllAppend(m: map<string, Channels>, a: Entries, b: Entries)
    ensures PutAll(m, a + b) == PutAll(PutAll(m, a), b)
    decreases a
  {
    if a != [] {
      assert (a + b)[0] == a[0];
      assert (a + b)[1..] == a[1..] + b;
      PutAllAppend(m[a[0].0 := a[0].1], a[1..], b);
    } else {
      assert a + b == b;
    }
  }

  /** A key of a non-empty list is its head's or one of its tail's. */
  lemma HasKeyCons(es: Entries, k: string)
    requires HasKey(es, k)
    ensures es[0].0 == k || HasKey(es[1..], k)
  {
    var i :| 0 <= i < |es| && es[i].0 == k;
    if i > 0 {
      assert es[1..][i - 1] == es[i];
    }
  }

  /** A key no entry mentions keeps whatever the starting map had. */
  lemma {:induction false} PutAllOutside(m: map<string, Channels>, es: Entries, k: string)
    requires !HasKey(es, k)
    ensures k in PutAll(m, es) <==> k in m
    ensures k in m ==> PutAll(m, es)[k] == m[k]
    decreases es
  {
    if es != [] {
      assert es[0].0 != k;
      assert !HasKey(es[1..], k) by {
        forall i | 0 <= i < |es[1..]| ensures es[1..][i].0 != k {
          assert es[1..][i] == es[i + 1];
        }
      }
      PutAllOutside(m[es[0].0 := es[0].1], es[1..], k);
    }
  }

  /** A key some entry mentions is present, and its value does not depend on
      the starting map: the last entry for it wins. */
  lemma {:induction false} PutAllInside(m: map<string, Channels>, m': map<string, Channels>, es: Entries, k: string)
    requires HasKey(es, k)
    ensures k in PutAll(m, es) && k in PutAll(m', es)
    ensures PutAll(m, es)[k] == PutAll(m', es)[k]
    decreases es
  {
    var rest := es[1..];
    if HasKey(rest, k) {
      PutAllInside(m[es[0].0 := es[0].1], m'[es[0].0 := es[0].1], rest, k);
    } else {
      HasKeyCons(es, k);
      PutAllOutside(m[es[0].0 := es[0].1], rest, k);
      PutAllOutside(m'[es[0].0 := es[0].1], rest, k);
    }
  }

  /** `getDefaultNotificationMeans`, with the defaults file as a parameter. */
  method GetDefaultNotificationMeans(cats: seq<Category>) returns (defaults: map<string, Channels>)
    ensures defaults == DefaultsOf(cats)
  {
    defaults := map[];
    var i := 0;
    while i < |cats|
      invariant 0 <= i <= |cats|
      invariant defaults == DefaultsOf(cats[..i])
    {
      var n := Notifications(cats[i]);
      assert cats[..i + 1][..i] == cats[..i];
      if n.Some? {
        var items := n.value;
        var j := 0;
        while j < |items|
          invariant 0 <= j <= |items|
          invariant defaults == PutAll(DefaultsOf(cats[..i]), items[..j])
        {
          PutAllAppend(DefaultsOf(cats[..i]), items[..j], [items[j]]);
          assert items[..j + 1] == items[..j] + [items[j]];
          defaults := defaults[items[j].0 := items[j].1];
          j := j + 1;
        }
        assert items[..j] == items;
        assert cats[..i + 1][i] == cats[i];
        assert AllEntries(cats[..i + 1]) == AllEntries(cats[..i]) + items;
        PutAllAppend(map[], AllEntries(cats[..i]), items);
        assert defaults == DefaultsOf(cats[..i + 1]);
      } else {
        assert cats[..i + 1][i] == cats[i];
        assert AllEntries(cats[..i + 1]) == AllEntries(cats[..i]);
      }
      i := i + 1;
    }
    assert cats[..i] == cats;
  }

  /** The categories up to and including `c`: every key of `c`'s
      notifications is in the defaults with the value `c` gives it, whatever
      earlier categories said. */
  lemma LaterCategoryWins(cats: seq<Category>, c: Category, k: string)
    requires Notifications(c).Some? && HasKey(Notifications(c).value, k)
    ensures k in DefaultsOf(cats + [c]) && k in PutAll(map[], Notifications(c).value)
    ensures DefaultsOf(cats + [c])[k] == PutAll(map[], Notifications(c).value)[k]
  {
    var items := Notifications(c).value;
    assert (cats + [c])[..|cats|] == cats;
    PutAllAppend(map[], AllEntries(cats), items);
    PutAllInside(DefaultsOf(cats), map[], items, k);
  }

  /** A category leaves every key it does not list as it was, and one
      without notifications contributes nothing. */
  lemma OtherKeysKept(cats: seq<Category>, c: Category, k: string)
    requires Notifications(c).None? || !HasKey(Notifications(c).value, k)
    ensures k in DefaultsOf(cats + [c]) <==> k in DefaultsOf(cats)
    ensures k in DefaultsOf(cats) ==> DefaultsOf(cats + [c])[k] == DefaultsOf(cats)[k]
  {
    assert (cats + [c])[..|cats|] == cats;
    var items := if Notifications(c).Some? then Notifications(c).value else [];
    PutAllAppend(map[], AllEntries(cats), items);
    PutAllOutside(DefaultsOf(cats), items, k);
  }

  /** Every key of every category with notifications is in the defaults,
      and no other key. */
  lemma {:induction false} DefaultsDomain(cats: seq<Category>, k: string)
    ensures k in DefaultsOf(cats) <==>
      exists ci :: 0 <= ci < |cats| && Notifications(cats[ci]).Some? && HasKey(Notifications(cats[ci]).value, k)
  {
    if cats != [] {
      var init, c := cats[..|cats| - 1], cats[|cats| - 1];
      assert cats == init + [c];
      DefaultsDomain(init, k);
      if Notifications(c).Some? && HasKey(Notifications(c).value, k) {
        LaterCategoryWins(init, c, k);
      } else {
        OtherKeysKept(init, c, k);
        if exists ci :: 0 <= ci < |cats| && Notifications(cats[ci]).Some? && HasKey(Notifications(cats[ci]).value, k) {
          var ci :| 0 <= ci < |cats| && Notifications(cats[ci]).Some? && HasKey(Notifications(cats[ci]).value, k);
          assert ci < |init| && init[ci] == cats[ci];
        }
      }
    } else {
      assert DefaultsOf(cats) == map[];
    }
  }
}
