/** The hackathon schedule: activities grouped by their UTC day, each day
    in time order, the date range of the whole schedule, and the countdown
    to the registration deadline. Times are integer milliseconds since the
    epoch. */
module Schedule {
  import opened Lists
  import opened Strings
  import opened Sorting
  import opened JsArith

  /** A schedule activity; `time` is its `date` as a millisecond timestamp. */
  datatype Activity = Activity(time: int, name: string, stage: string, location: string, category: string)

  const MinuteMs: Positive := 60000
  const HourMs: Positive := 3600000
  const DayMs: Positive := 86400000

  /** The UTC day of a timestamp: what the `YYYY-MM-DD` part of
      `toISOString()` names. */
  function Day(time: int): int {
    time / 86400000
  }

  /** The sort comparator `a.time - b.time`, as "may come first". */
  function Earlier(a: Activity, b: Activity): bool {
    a.time <= b.time
  }

  lemma EarlierIsOrder()
    ensures Total(Earlier) && Transitive(Earlier)
  {
  }

  /** The activities of day `k`, in input order. */
  function OnDay(acts: seq<Activity>, k: int): seq<Activity> {
    if acts == [] then []
    else
      var a := acts[|acts| - 1];
      OnDay(acts[..|acts| - 1], k) + (if Day(a.time) == k then [a] else [])
  }

  /** The groups object: its keys in insertion order and the array of each. */
  datatype Groups = Groups(keys: seq<int>, days: map<int, seq<Activity>>)

  /** One step of the `reduce` in `groupActivitiesByDay`: the activity is
      pushed onto its day's array, created if needed, which is re-sorted. */
  function Push(g: Groups, a: Activity): Groups {
    var k := Day(a.time);
    var current := if k in g.days then g.days[k] else [];
    Groups(if k in g.days then g.keys else g.keys + [k], g.days[k := SortBy(current + [a], Earlier)])
  }

  /** The whole `reduce`. */
  function GroupsOf(acts: seq<Activity>): Groups {
    if acts == [] then Groups([], map[]) else Push(GroupsOf(acts[..|acts| - 1]), acts[|acts| - 1])
  }

  lemma GroupsOfPrefix(acts: seq<Activity>, i: nat)
    requires i < |acts|
    ensures GroupsOf(acts[..i + 1]) == Push(GroupsOf(acts[..i]), acts[i])
  {
    assert acts[..i + 1][..i] == acts[..i];
  }

  /** `groupActivitiesByDay`. */
  method GroupActivitiesByDay(acts: seq<Activity>) returns (groups: Groups)
    ensures groups == GroupsOf(acts)
  {
    var keys: seq<int> := [];
    var days: map<int, seq<Activity>> := map[];
    var i := 0;
    while i < |acts|
      invariant 0 <= i <= |acts|
      invariant keys == GroupsOf(acts[..i]).keys && days == GroupsOf(acts[..i]).days
    {
      GroupsOfPrefix(acts, i);
      var a := acts[i];
      var k := Day(a.time);
      var current := if k in days then days[k] else [];
      if k !in days {
        keys := keys + [k];
      }
      days := days[k := SortBy(current + [a], Earlier)];
      i := i + 1;
    }
    assert acts[..i] == acts;
    groups := Groups(keys, days);
  }

  /** The total number of activities over the listed keys. */
  function Sizes(keys: seq<int>, days: map<int, seq<Activity>>): nat {
    if keys == [] then 0
    else
      var k := keys[|keys| - 1];
      Sizes(keys[..|keys| - 1], days) + (if k in days then |days[k]| else 0)
  }

  lemma {:induction false} SizesFrame(keys: seq<int>, days: map<int, seq<Activity>>, k: int, v: seq<Activity>)
    requires k !in keys
    ensures Sizes(keys, days[k := v]) == Sizes(keys, days)
  {
    if keys != [] {
      SizesFrame(keys[..|keys| - 1], days, k, v);
    }
  }

  lemma {:induction false} SizesUpdate(keys: seq<int>, days: map<int, seq<Activity>>, k: int, v: seq<Activity>)
    requires Distinct(keys) && k in keys && k in days
    ensures Sizes(keys, days[k := v]) == Sizes(keys, days) - |days[k]| + |v|
  {
    var init := keys[..|keys| - 1];
    assert Distinct(init);
    if keys[|keys| - 1] == k {
      assert k !in init;
      SizesFrame(init, days, k, v);
    } else {
      assert k in init by {
        var j :| 0 <= j < |keys| && keys[j] == k;
        assert init[j] == k;
      }
      SizesUpdate(init, days, k, v);
    }
  }

  /** The keys are distinct and are exactly the days that have a group. */
  lemma {:induction false} GroupKeys(acts: seq<Activity>)
    ensures Distinct(GroupsOf(acts).keys)
    ensures forall k :: k in GroupsOf(acts).keys <==> k in GroupsOf(acts).days
  {
    if acts != [] {
      GroupKeys(acts[..|acts| - 1]);
    }
  }

  /** Each group holds exactly the activities of its UTC day, and a day
      without a group has no activity. */
  lemma {:induction false} GroupContents(acts: seq<Activity>)
    ensures forall k :: k in GroupsOf(acts).days ==> multiset(GroupsOf(acts).days[k]) == multiset(OnDay(acts, k))
    ensures forall k :: k !in GroupsOf(acts).days ==> OnDay(acts, k) == []
  {
    forall k {
      GroupContentsAt(acts, k);
    }
  }

  /** `GroupContents` for one day. */
  lemma {:induction false} GroupContentsAt(acts: seq<Activity>, k: int)
    ensures k in GroupsOf(acts).days ==> multiset(GroupsOf(acts).days[k]) == multiset(OnDay(acts, k))
    ensures k !in GroupsOf(acts).days ==> OnDay(acts, k) == []
  {
    if acts != [] {
      var init := acts[..|acts| - 1];
      GroupContentsAt(init, k);
      var g0 := GroupsOf(init);
      var a := acts[|acts| - 1];
      var d := Day(a.time);
      var current := if d in g0.days then g0.days[d] else [];
      var g := GroupsOf(acts);
      assert g == Push(g0, a);
      assert OnDay(acts, k) == OnDay(init, k) + (if d == k then [a] else []);
      if d == k {
        assert k in g.days && g.days[k] == SortBy(current + [a], Earlier);
        assert multiset(current) == multiset(OnDay(init, k));
        assert multiset(g.days[k]) == multiset(current) + multiset{a};
      } else {
        assert k in g.days <==> k in g0.days;
        assert k in g0.days ==> g.days[k] == g0.days[k];
      }
    }
  }

  /** Each group is in ascending time. */
  lemma {:induction false} GroupsSorted(acts: seq<Activity>)
    ensures forall k :: k in GroupsOf(acts).days ==> SortedBy(GroupsOf(acts).days[k], Earlier)
  {
    if acts != [] {
      var init := acts[..|acts| - 1];
      GroupsSorted(init);
      var g0 := GroupsOf(init);
      var a := acts[|acts| - 1];
      var k := Day(a.time);
      var current := if k in g0.days then g0.days[k] else [];
      EarlierIsOrder();
      SortBySorted(current + [a], Earlier);
    }
  }

  /** The group sizes add up to the number of activities. */
  lemma {:induction false} GroupSizes(acts: seq<Activity>)
    ensures Sizes(GroupsOf(acts).keys, GroupsOf(acts).days) == |acts|
  {
    if acts != [] {
      var init := acts[..|acts| - 1];
      GroupSizes(init);
      GroupKeys(init);
      var g0 := GroupsOf(init);
      var a := acts[|acts| - 1];
      var k := Day(a.time);
      var current := if k in g0.days then g0.days[k] else [];
      var group := SortBy(current + [a], Earlier);
      if k in g0.days {
        SizesUpdate(g0.keys, g0.days, k, group);
      } else {
        SizesFrame(g0.keys, g0.days, k, group);
        assert (g0.keys + [k])[..|g0.keys|] == g0.keys;
      }
    }
  }

  /** A grouped activity sits under its own day. */
  lemma GroupedUnderItsDay(acts: seq<Activity>, k: int, x: Activity)
    requires k in GroupsOf(acts).days && x in GroupsOf(acts).days[k]
    ensures Day(x.time) == k && x in acts
  {
    GroupContents(acts);
    assert x in multiset(OnDay(acts, k));
    OnDayFacts(acts, k);
  }

  lemma {:induction false} OnDayFacts(acts: seq<Activity>, k: int)
    ensures forall x :: x in OnDay(acts, k) ==> Day(x.time) == k && x in acts
  {
    if acts != [] {
      OnDayFacts(acts[..|acts| - 1], k);
      assert forall x :: x in acts[..|acts| - 1] ==> x in acts;
    }
  }

  /** Only the first two day groups are rendered. */
  function RenderedDays(g: Groups): (r: seq<int>)
    ensures |r| <= 2 && r <= g.keys
    ensures |g.keys| >= 2 ==> r == g.keys[..2]
  {
    Take(g.keys, 2)
  }

  // ---------------------------------------------------------------------
  // getDateRange

  function EarliestTime(acts: seq<Activity>): (t: int)
    requires acts != []
    ensures forall i :: 0 <= i < |acts| ==> t <= acts[i].time
    ensures exists i :: 0 <= i < |acts| && acts[i].time == t
  {
    if |acts| == 1 then acts[0].time
    else
      var rest := EarliestTime(acts[1..]);
      assert forall i :: 1 <= i < |acts| ==> acts[i] == acts[1..][i - 1];
      if acts[0].time <= rest then acts[0].time else rest
  }

  function LatestTime(acts: seq<Activity>): (t: int)
    requires acts != []
    ensures forall i :: 0 <= i < |acts| ==> acts[i].time <= t
    ensures exists i :: 0 <= i < |acts| && acts[i].time == t
  {
    if |acts| == 1 then acts[0].time
    else
      var rest := LatestTime(acts[1..]);
      assert forall i :: 1 <= i < |acts| ==> acts[i] == acts[1..][i - 1];
      if acts[0].time >= rest then acts[0].time else rest
  }

  /** `getDateRange`, with the long US date format as a parameter. */
  function DateRange(acts: seq<Activity>, format: int -> string): (r: string)
    ensures acts == [] ==> r == "No dates available"
  {
    if acts == [] then "No dates available"
    else
      var earliest := EarliestTime(acts);
      var latest := LatestTime(acts);
      if earliest == latest then format(earliest)
      else format(earliest) + " - " + format(latest)
  }

  /** A schedule whose activities share one instant shows that date alone;
      otherwise the first and last instants are joined by a dash. */
  lemma DateRangeShape(acts: seq<Activity>, format: int -> string)
    requires acts != []
    ensures (forall i :: 0 <= i < |acts| ==> acts[i].time == acts[0].time) ==> DateRange(acts, format) == format(acts[0].time)
    ensures (exists i :: 0 <= i < |acts| && acts[i].time != acts[0].time) ==>
      DateRange(acts, format) == format(EarliestTime(acts)) + " - " + format(LatestTime(acts))
      && EarliestTime(acts) < LatestTime(acts)
  {
  }

  // ---------------------------------------------------------------------
  // The deadline countdown

  /** Whole days, and the hours and minutes of the remainder, with
      `Math.floor` over JavaScript's truncating `%`. */
  function CountdownParts(diffMs: int): (p: (int, int, int)) {
    (diffMs / DayMs, JsRem(diffMs, DayMs) / HourMs, JsRem(diffMs, HourMs) / MinuteMs)
  }

  /** The text shown for `diffMs` milliseconds left. */
  function Countdown(diffMs: int): (r: string) {
    var (days, hours, minutes) := CountdownParts(diffMs);
    if days > 0 then IntToString(days) + " days to deadline"
    else IntToString(hours) + "h " + IntToString(minutes) + "m to deadline"
  }

  /** Days are shown exactly when a whole day is left; a deadline less than
      a day away shows the hours and minutes left, rounded down; a passed
      deadline shows hours and minutes of zero or below. */
  lemma CountdownFacts(diffMs: int)
    ensures var (days, hours, minutes) := CountdownParts(diffMs);
      && (days > 0 <==> diffMs >= DayMs)
      && (days > 0 ==> Countdown(diffMs) == IntToString(days) + " days to deadline")
      && (diffMs >= 0 ==> 0 <= hours <= 23 && 0 <= minutes <= 59)
      && (0 <= diffMs < DayMs ==> hours * HourMs + minutes * MinuteMs <= diffMs < hours * HourMs + (minutes + 1) * MinuteMs)
      && (diffMs < 0 ==> -24 <= hours <= 0 && -60 <= minutes <= 0)
  {
  }
}
