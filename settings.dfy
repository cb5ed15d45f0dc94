/** The notification settings panel: label formatting, merging the saved
    preferences over the defaults file, and the optimistic per-channel
    toggle that is rolled back when saving fails. */
module Settings {
  import opened Wrappers
  import opened Strings
  import opened NotificationDefaults

  // ---------------------------------------------------------------------
  // formatLabel

  /** Every `_` replaced by a space and a space put before every `A`-`Z`. */
  function Spaced(s: string): (r: string)
    ensures '_' !in r
  {
    if s == [] then []
    else
      var head := if s[0] == '_' then " " else if IsAsciiUpper(s[0]) then [' ', s[0]] else [s[0]];
      head + Spaced(s[1..])
  }

  /** A word whose first character is not a lower-case letter and whose
      other characters are not upper-case letters. */
  predicate Capitalised(w: string) {
    w == [] || (!IsAsciiLower(w[0]) && forall i :: 1 <= i < |w| ==> !IsAsciiUpper(w[i]))
  }

  /** `word.charAt(0).toUpperCase() + word.slice(1).toLowerCase()`. */
  function Capitalise(w: string): (r: string)
    ensures |r| == |w| && Capitalised(r)
    ensures ToLower(r) == ToLower(w)
  {
    if w == [] then []
    else
      var r := [UpperChar(w[0])] + ToLower(w[1..]);
      forall i | 0 <= i < |w| ensures LowerChar(r[i]) == LowerChar(w[i]) {
        CaseFacts(w[i]);
      }
      assert forall i :: 0 <= i < |w| ==> ToLower(r)[i] == ToLower(w)[i];
      r
  }

  /** The capitalised words of the spaced, trimmed label. */
  function LabelWords(s: string): seq<string> {
    var words := Split(Trim(Spaced(s)), ' ');
    seq(|words|, k requires 0 <= k < |words| => Capitalise(words[k]))
  }

  /** `formatLabel`. */
  function FormatLabel(s: string): string {
    Join(LabelWords(s), " ")
  }

  lemma {:induction false} JoinLower(ps: seq<string>, qs: seq<string>, sep: string)
    requires |ps| == |qs|
    requires forall k :: 0 <= k < |ps| ==> ToLower(ps[k]) == ToLower(qs[k])
    ensures ToLower(Join(ps, sep)) == ToLower(Join(qs, sep))
  {
    if |ps| > 1 {
      JoinLower(ps[1..], qs[1..], sep);
      ToLowerAppend(ps[0] + sep, Join(ps[1..], sep));
      ToLowerAppend(qs[0] + sep, Join(qs[1..], sep));
      ToLowerAppend(ps[0], sep);
      ToLowerAppend(qs[0], sep);
    }
  }

  /** Formatting changes only the case of letters: lower-cased, the label is
      the spaced, trimmed input lower-cased. */
  lemma FormatLabelCaseOnly(s: string)
    ensures ToLower(FormatLabel(s)) == ToLower(Trim(Spaced(s)))
  {
    var t := Trim(Spaced(s));
    var words := Split(t, ' ');
    JoinLower(LabelWords(s), words, " ");
    assert [' '] == " ";
  }

  /** The label holds no underscore. */
  lemma FormatLabelNoUnderscore(s: string)
    ensures '_' !in FormatLabel(s)
  {
    var f, t := FormatLabel(s), Trim(Spaced(s));
    FormatLabelCaseOnly(s);
    TrimChars(Spaced(s));
    forall i | 0 <= i < |f| ensures f[i] != '_' {
      CaseFacts(f[i]);
      CaseFacts(t[i]);
      assert ToLower(f)[i] == ToLower(t)[i];
      assert t[i] in t;
    }
  }

  /** Splitting the label at its spaces gives back its words, and every
      word has its first character upper-cased and the rest lower-cased. */
  lemma FormatLabelWords(s: string)
    ensures Split(FormatLabel(s), ' ') == LabelWords(s)
    ensures forall k :: 0 <= k < |LabelWords(s)| ==> Capitalised(LabelWords(s)[k]) && ' ' !in LabelWords(s)[k]
  {
    var words := Split(Trim(Spaced(s)), ' ');
    forall k | 0 <= k < |words| ensures ' ' !in Capitalise(words[k]) {
      var w, c := words[k], Capitalise(words[k]);
      forall i | 0 <= i < |c| ensures c[i] != ' ' {
        CaseFacts(c[i]);
        CaseFacts(w[i]);
        assert ToLower(c)[i] == ToLower(w)[i];
      }
    }
    var ws := LabelWords(s);
    assert SepFree(ws, ' ') by {
      forall k, i | 0 <= k < |ws| && 0 <= i < |ws[k]| ensures ws[k][i] != ' ' {
        assert ws[k] == Capitalise(words[k]);
        assert ws[k][i] in ws[k];
      }
    }
    assert [' '] == " ";
    SplitJoin(ws, ' ');
  }

  // ---------------------------------------------------------------------
  // mergeWithDefaults

  /** `userPreferences?.[key] || defaultValue`: a saved value wins. */
  function Pick(user: Option<map<string, Channels>>, key: string, default: Channels): Channels {
    if user.Some? && key in user.value then user.value[key] else default
  }

  /** The entries with each value replaced by the one the merge picks. */
  function Overlaid(es: Entries, user: Option<map<string, Channels>>): (r: Entries)
    ensures |r| == |es|
  {
    seq(|es|, i requires 0 <= i < |es| => (es[i].0, Pick(user, es[i].0, es[i].1)))
  }

  /** `m` with every value replaced by the one the merge picks. */
  function Over(m: map<string, Channels>, user: Option<map<string, Channels>>): map<string, Channels> {
    map k | k in m :: Pick(user, k, m[k])
  }

  predicate AllHaveNotifications(cats: seq<Category>) {
    forall i :: 0 <= i < |cats| ==> Notifications(cats[i]).Some?
  }

  /** What `mergeWithDefaults` returns; `Object.entries` of a missing
      notifications object throws, which is the error. */
  function MergeOf(user: Option<map<string, Channels>>, cats: seq<Category>): Result<map<string, Channels>, string> {
    if AllHaveNotifications(cats) then Ok(PutAll(map[], Overlaid(AllEntries(cats), user)))
    else Err("TypeError")
  }

  lemma {:induction false} PutAllOver(m: map<string, Channels>, es: Entries, user: Option<map<string, Channels>>)
    ensures PutAll(Over(m, user), Overlaid(es, user)) == Over(PutAll(m, es), user)
    decreases es
  {
    if es != [] {
      var e := es[0];
      assert Overlaid(es, user)[0] == (e.0, Pick(user, e.0, e.1));
      assert Overlaid(es, user)[1..] == Overlaid(es[1..], user);
      assert Over(m, user)[e.0 := Pick(user, e.0, e.1)] == Over(m[e.0 := e.1], user);
      PutAllOver(m[e.0 := e.1], es[1..], user);
    } else {
      assert Overlaid(es, user) == [];
    }
  }

  /** The merge has exactly the default keys, each with the saved value
      when there is one and the default otherwise; saved keys that are not
      defaults are dropped. */
  lemma MergeIsOverlay(user: Option<map<string, Channels>>, cats: seq<Category>)
    requires AllHaveNotifications(cats)
    ensures MergeOf(user, cats).Ok?
    ensures MergeOf(user, cats).value == map k | k in DefaultsOf(cats) :: Pick(user, k, DefaultsOf(cats)[k])
  {
    assert Over(map[], user) == map[];
    PutAllOver(map[], AllEntries(cats), user);
  }

  /** With nothing saved the panel shows the same defaults as the
      new-user default function. */
  lemma MergeWithoutPrefs(cats: seq<Category>)
    requires AllHaveNotifications(cats)
    ensures MergeOf(None, cats) == Ok(DefaultsOf(cats))
  {
    MergeIsOverlay(None, cats);
    var d := DefaultsOf(cats);
    assert (map k | k in d :: Pick(None, k, d[k])) == d;
  }

  /** A category without notifications makes the merge fail whatever was
      saved. */
  lemma MergeFailsOnMissingCategory(user: Option<map<string, Channels>>, cats: seq<Category>, i: nat)
    requires i < |cats| && Notifications(cats[i]).None?
    ensures MergeOf(user, cats).Err?
  {
    assert !Notifications(cats[i]).Some?;
  }

  /** One more category's entries extend the merge by their overlay. */
  lemma MergeStep(user: Option<map<string, Channels>>, cats: seq<Category>, i: nat)
    requires i < |cats| && Notifications(cats[i]).Some?
    ensures PutAll(map[], Overlaid(AllEntries(cats[..i + 1]), user))
      == PutAll(PutAll(map[], Overlaid(AllEntries(cats[..i]), user)), Overlaid(Notifications(cats[i]).value, user))
  {
    var items := Notifications(cats[i]).value;
    assert cats[..i + 1][..i] == cats[..i];
    assert cats[..i + 1][i] == cats[i];
    assert AllEntries(cats[..i + 1]) == AllEntries(cats[..i]) + items;
    assert Overlaid(AllEntries(cats[..i + 1]), user) == Overlaid(AllEntries(cats[..i]), user) + Overlaid(items, user);
    PutAllAppend(map[], Overlaid(AllEntries(cats[..i]), user), Overlaid(items, user));
  }

  lemma PrefixHasNotifications(cats: seq<Category>, i: nat)
    requires i < |cats| && AllHaveNotifications(cats[..i]) && Notifications(cats[i]).Some?
    ensures AllHaveNotifications(cats[..i + 1])
  {
    assert forall k :: 0 <= k < i ==> cats[..i + 1][k] == cats[..i][k];
  }

  /** The inner `forEach` of `mergeWithDefaults`: each entry of one
      category is assigned its merged value. */
  method OverlayOnto(merged: map<string, Channels>, items: Entries, user: Option<map<string, Channels>>)
    returns (m: map<string, Channels>)
    ensures m == PutAll(merged, Overlaid(items, user))
  {
    m := merged;
    var j := 0;
    while j < |items|
      invariant 0 <= j <= |items|
      invariant m == PutAll(merged, Overlaid(items[..j], user))
    {
      var key := items[j].0;
      assert Overlaid(items[..j + 1], user) == Overlaid(items[..j], user) + [(key, Pick(user, key, items[j].1))];
      PutAllAppend(merged, Overlaid(items[..j], user), [(key, Pick(user, key, items[j].1))]);
      m := m[key := Pick(user, key, items[j].1)];
      j := j + 1;
    }
    assert items[..j] == items;
  }

  /** `mergeWithDefaults`, with the defaults file as a parameter. */
  method MergeWithDefaults(user: Option<map<string, Channels>>, cats: seq<Category>) returns (r: Result<map<string, Channels>, string>)
    ensures r == MergeOf(user, cats)
  {
    var merged := map[];
    var i := 0;
    while i < |cats|
      invariant 0 <= i <= |cats|
      invariant AllHaveNotifications(cats[..i])
      invariant merged == PutAll(map[], Overlaid(AllEntries(cats[..i]), user))
    {
      var n := Notifications(cats[i]);
      if n.None? {
        MergeFailsOnMissingCategory(user, cats, i);
        return Err("TypeError");
      }
      merged := OverlayOnto(merged, n.value, user);
      MergeStep(user, cats, i);
      PrefixHasNotifications(cats, i);
      i := i + 1;
    }
    assert cats[..i] == cats;
    r := Ok(merged);
  }

  // ---------------------------------------------------------------------
  // handleToggle

  /** The two channels, in the order of the flags. */
  datatype Channel = Hub | Email

  function ChannelIndex(c: Channel): nat {
    if c == Hub then 0 else 1
  }

  function Flag(v: Channels, c: Channel): bool {
    if c == Hub then v.hub else v.email
  }

  function Other(c: Channel): Channel {
    if c == Hub then Email else Hub
  }

  /** `values[channelIndex] = b` on a copy. */
  function WithChannel(v: Channels, c: Channel, b: bool): (r: Channels)
    ensures Flag(r, c) == b && Flag(r, Other(c)) == Flag(v, Other(c))
  {
    if c == Hub then v.(hub := b) else v.(email := b)
  }

  /** `means[key] || [false, false]`. */
  function CurrentOf(means: map<string, Channels>, key: string): Channels {
    if key in means then means[key] else Channels(false, false)
  }

  /** `${notificationKey}-${channelIndex}`. */
  function ToggleKey(key: string, c: Channel): string {
    key + "-" + NatToString(ChannelIndex(c))
  }

  /** The optimistic update. */
  function Optimistic(means: map<string, Channels>, key: string, c: Channel, b: bool): map<string, Channels> {
    means[key := WithChannel(CurrentOf(means, key), c, b)]
  }

  /** The rollback: the map as it was before the toggle, with the toggled
      values copied again and the channel set to `!newValue`. */
  function Reverted(before: map<string, Channels>, key: string, c: Channel, b: bool): map<string, Channels> {
    before[key := WithChannel(WithChannel(CurrentOf(before, key), c, b), c, !b)]
  }

  /** The optimistic update sets the chosen channel of the chosen key, keeps
      its other channel (false for a key not yet present) and every other
      key. */
  lemma OptimisticTouchesOneChannel(means: map<string, Channels>, key: string, c: Channel, b: bool)
    ensures key in Optimistic(means, key, c, b)
    ensures Flag(Optimistic(means, key, c, b)[key], c) == b
    ensures Flag(Optimistic(means, key, c, b)[key], Other(c)) == (key in means && Flag(means[key], Other(c)))
    ensures forall k :: k != key ==> (k in Optimistic(means, key, c, b) <==> k in means)
    ensures forall k :: k != key && k in means ==> Optimistic(means, key, c, b)[k] == means[k]
  {
  }

  /** The rollback differs from the pre-toggle map only at the key, whose
      toggled channel becomes `!newValue`; when the toggle flipped a stored
      value, the rollback is exactly the pre-toggle map. */
  lemma RevertRestores(before: map<string, Channels>, key: string, c: Channel, b: bool)
    ensures Reverted(before, key, c, b) == before[key := WithChannel(CurrentOf(before, key), c, !b)]
    ensures key in before && Flag(before[key], c) == !b ==> Reverted(before, key, c, b) == before
  {
    var v := CurrentOf(before, key);
    var w := WithChannel(WithChannel(v, c, b), c, !b);
    assert Flag(w, c) == Flag(WithChannel(v, c, !b), c);
    assert Flag(w, Other(c)) == Flag(WithChannel(v, c, !b), Other(c));
    assert w == WithChannel(v, c, !b);
    if key in before && Flag(before[key], c) == !b {
      assert WithChannel(v, c, !b) == v;
    }
  }

  /** What a started toggle remembers for its rollback. */
  datatype ToggleTicket = ToggleTicket(key: string, channel: Channel, newValue: bool, before: map<string, Channels>)

  class SettingsPanel {
    /** The defaults file. */
    const categories: seq<Category>
    var notificationMeans: map<string, Channels>
    var isLoading: bool
    var savingKey: Option<string>

    constructor(categories: seq<Category>)
      ensures this.categories == categories
      ensures notificationMeans == map[] && isLoading && savingKey == None
    {
      this.categories := categories;
      notificationMeans := map[];
      isLoading := true;
      savingKey := None;
    }

    /** `loadNotificationMeans`: `fetched` is `None` when the request failed
        and otherwise the saved preferences, if any. A merge that throws
        leaves the map as it was. */
    method Load(signedIn: bool, fetched: Option<Option<map<string, Channels>>>)
      modifies this`notificationMeans, this`isLoading
      ensures !isLoading
      ensures var prefs := if fetched.Some? then fetched.value else None;
        notificationMeans == if signedIn && MergeOf(prefs, categories).Ok? then MergeOf(prefs, categories).value else old(notificationMeans)
    {
      if signedIn {
        var prefs := if fetched.Some? then fetched.value else None;
        var r := MergeWithDefaults(prefs, categories);
        if r.Ok? {
          notificationMeans := r.value;
        } else {
          var fallback := MergeWithDefaults(None, categories);
          if fallback.Ok? {
            assert false;
          }
        }
      }
      isLoading := false;
    }

    /** The synchronous part of `handleToggle`: ignored without a session or
        while a save is in flight; otherwise marks the save and applies the
        optimistic update. */
    method BeginToggle(signedIn: bool, key: string, channel: Channel, newValue: bool) returns (ticket: Option<ToggleTicket>)
      modifies this`notificationMeans, this`savingKey
      ensures !signedIn || old(savingKey).Some? ==>
        ticket == None && notificationMeans == old(notificationMeans) && savingKey == old(savingKey)
      ensures signedIn && old(savingKey).None? ==>
        && ticket == Some(ToggleTicket(key, channel, newValue, old(notificationMeans)))
        && savingKey == Some(ToggleKey(key, channel))
        && notificationMeans == Optimistic(old(notificationMeans), key, channel, newValue)
    {
      if !signedIn || savingKey.Some? {
        return None;
      }
      var before := notificationMeans;
      savingKey := Some(ToggleKey(key, channel));
      notificationMeans := Optimistic(before, key, channel, newValue);
      ticket := Some(ToggleTicket(key, channel, newValue, before));
    }

    /** The end of `handleToggle`: a failed save rolls back, and the save
        mark is always cleared. */
    method FinishToggle(ticket: ToggleTicket, saved: bool)
      modifies this`notificationMeans, this`savingKey
      ensures savingKey == None
      ensures notificationMeans == if saved then old(notificationMeans)
        else Reverted(ticket.before, ticket.key, ticket.channel, ticket.newValue)
    {
      if !saved {
        notificationMeans := Reverted(ticket.before, ticket.key, ticket.channel, ticket.newValue);
      }
      savingKey := None;
    }
  }

  /** Flipping a shown switch whose save fails leaves the preferences
      exactly as they were and no save in flight. */
  method ToggleThenFail(p: SettingsPanel, key: string, channel: Channel)
    requires p.savingKey == None && key in p.notificationMeans
    modifies p
    ensures p.notificationMeans == old(p.notificationMeans) && p.savingKey == None
  {
    var newValue := !Flag(p.notificationMeans[key], channel);
    var ticket := p.BeginToggle(true, key, channel, newValue);
    p.FinishToggle(ticket.value, false);
    RevertRestores(ticket.value.before, key, channel, newValue);
  }
}
