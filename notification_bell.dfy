/** The notification bell: the notifications of the listed users, merged
    and de-duplicated by id the way a JavaScript `Map` keyed by id does it,
    and the unread badge derived from them. */
module NotificationBell {
  import opened Wrappers
  import opened Lists

  datatype Notification = Notification(
    id: int, audience: string, kind: string, title: string, content: string,
    contentType: string, shortDescription: string, template: string, status: string)

  /** `users.flatMap(u => payload[u] ?? [])`. */
  function Merged(users: seq<string>, payload: map<string, seq<Notification>>): seq<Notification> {
    if users == [] then []
    else
      var u := users[|users| - 1];
      Merged(users[..|users| - 1], payload) + (if u in payload then payload[u] else [])
  }

  /** The keys of the map after setting every notification in turn, in
      insertion order: an id already present keeps its place. */
  function FirstOrder(ns: seq<Notification>): seq<int> {
    if ns == [] then []
    else
      var keys := FirstOrder(ns[..|ns| - 1]);
      var id := ns[|ns| - 1].id;
      if id in keys then keys else keys + [id]
  }

  /** The values of that map: the last notification set for each id. */
  function LastById(ns: seq<Notification>): map<int, Notification> {
    if ns == [] then map[]
    else
      var n := ns[|ns| - 1];
      LastById(ns[..|ns| - 1])[n.id := n]
  }

  predicate HasId(ns: seq<Notification>, id: int) {
    exists i :: 0 <= i < |ns| && ns[i].id == id
  }

  /** The insertion order holds each id once, it holds exactly the ids of
      the map, which are the ids that occur, and every id maps to a
      notification with that id. */
  lemma {:induction false} MapFacts(ns: seq<Notification>)
    ensures Distinct(FirstOrder(ns))
    ensures forall id :: id in FirstOrder(ns) <==> id in LastById(ns)
    ensures forall id :: id in LastById(ns) <==> HasId(ns, id)
    ensures forall id :: id in LastById(ns) ==> LastById(ns)[id].id == id
    ensures forall i :: 0 <= i < |FirstOrder(ns)| ==> FirstOrder(ns)[i] in LastById(ns)
  {
    if ns != [] {
      var init := ns[..|ns| - 1];
      MapFacts(init);
      forall id ensures HasId(ns, id) <==> HasId(init, id) || ns[|ns| - 1].id == id {
        if HasId(init, id) {
          var i :| 0 <= i < |init| && init[i].id == id;
          assert ns[i] == init[i];
        }
        if HasId(ns, id) && ns[|ns| - 1].id != id {
          var i :| 0 <= i < |ns| && ns[i].id == id;
          assert init[i] == ns[i];
        }
      }
    }
    var keys := FirstOrder(ns);
    assert forall i :: 0 <= i < |keys| ==> keys[i] in keys;
  }

  /** `Array.from(uniqueById.values())`. */
  function UniqueById(ns: seq<Notification>): (r: seq<Notification>)
    ensures |r| == |FirstOrder(ns)|
  {
    var keys := FirstOrder(ns);
    MapFacts(ns);
    seq(|keys|, i requires 0 <= i < |keys| => LastById(ns)[keys[i]])
  }

  /** The `forEach` that fills the map, and the read-out of its values. */
  method DedupById(ns: seq<Notification>) returns (r: seq<Notification>)
    ensures r == UniqueById(ns)
  {
    var keys: seq<int> := [];
    var values: map<int, Notification> := map[];
    var i := 0;
    while i < |ns|
      invariant 0 <= i <= |ns|
      invariant keys == FirstOrder(ns[..i]) && values == LastById(ns[..i])
    {
      var n := ns[i];
      assert ns[..i + 1][..i] == ns[..i];
      if n.id !in keys {
        keys := keys + [n.id];
      }
      values := values[n.id := n];
      i := i + 1;
    }
    assert ns[..i] == ns;
    MapFacts(ns);
    r := [];
    var j := 0;
    while j < |keys|
      invariant 0 <= j <= |keys|
      invariant |r| == j
      invariant forall k :: 0 <= k < |keys| ==> keys[k] in values
      invariant forall k :: 0 <= k < j ==> r[k] == values[keys[k]]
    {
      r := r + [values[keys[j]]];
      j := j + 1;
    }
  }

  /** The memo: nothing without data. */
  function Notifications(users: seq<string>, data: Option<map<string, seq<Notification>>>): seq<Notification> {
    if data.None? then [] else UniqueById(Merged(users, data.value))
  }

  /** No two notifications shown share an id, and an id is shown exactly
      when some listed user's array holds it. */
  lemma UniqueIds(ns: seq<Notification>)
    ensures forall i, j :: 0 <= i < j < |UniqueById(ns)| ==> UniqueById(ns)[i].id != UniqueById(ns)[j].id
    ensures forall id :: HasId(ns, id) <==> exists i :: 0 <= i < |UniqueById(ns)| && UniqueById(ns)[i].id == id
  {
    MapFacts(ns);
    var r, keys := UniqueById(ns), FirstOrder(ns);
    assert forall i :: 0 <= i < |r| ==> r[i].id == keys[i];
    forall id | HasId(ns, id) ensures exists i :: 0 <= i < |r| && r[i].id == id {
      var i :| 0 <= i < |keys| && keys[i] == id;
      assert r[i].id == id;
    }
  }

  /** For a repeated id the last record is the one shown. */
  lemma {:induction false} LastRecordWins(ns: seq<Notification>, i: nat)
    requires i < |ns|
    requires forall j :: i < j < |ns| ==> ns[j].id != ns[i].id
    ensures ns[i] in UniqueById(ns)
  {
    if i < |ns| - 1 {
      var init := ns[..|ns| - 1];
      assert forall j :: i < j < |init| ==> init[j] == ns[j];
      LastRecordWins(init, i);
      MapFacts(init);
      MapFacts(ns);
      var p :| 0 <= p < |UniqueById(init)| && UniqueById(init)[p] == ns[i];
      assert FirstOrder(init) <= FirstOrder(ns);
      assert UniqueById(ns)[p] == LastById(ns)[FirstOrder(ns)[p]];
    } else {
      MapFacts(ns);
      var keys := FirstOrder(ns);
      var p :| 0 <= p < |keys| && keys[p] == ns[i].id;
      assert UniqueById(ns)[p] == ns[i];
    }
  }

  /** Later notifications never move an id already placed: the order of
      the ids is the order of their first appearance. */
  lemma {:induction false} FirstPlaceKept(ns: seq<Notification>, more: seq<Notification>)
    ensures FirstOrder(ns) <= FirstOrder(ns + more)
  {
    if more != [] {
      var all := ns + more;
      assert all[..|all| - 1] == ns + more[..|more| - 1];
      FirstPlaceKept(ns, more[..|more| - 1]);
    } else {
      assert ns + more == ns;
    }
  }

  /** A user absent from the payload contributes nothing. */
  lemma AbsentUserAddsNothing(users: seq<string>, u: string, payload: map<string, seq<Notification>>)
    requires u !in payload
    ensures Merged(users + [u], payload) == Merged(users, payload)
  {
    assert (users + [u])[..|users|] == users;
  }

  /** The bell shows a dot exactly when there is a notification, and the
      count is the number of notifications; without data there are none. */
  function HasUnread(users: seq<string>, data: Option<map<string, seq<Notification>>>): (b: bool)
    ensures data.None? ==> !b
    ensures b <==> UnreadCount(users, data) > 0
  {
    |Notifications(users, data)| > 0
  }

  /** The ids that occur in a list of notifications. */
  function Ids(ns: seq<Notification>): set<int> {
    set i | 0 <= i < |ns| :: ns[i].id
  }

  /** A list without repeats has as many elements as its set. */
  lemma {:induction false} DistinctCardinality(s: seq<int>)
    requires Distinct(s)
    ensures |set x | x in s| == |s|
  {
    if s != [] {
      var init := s[..|s| - 1];
      assert Distinct(init);
      DistinctCardinality(init);
      assert (set x | x in s) == (set x | x in init) + {s[|s| - 1]};
      assert s[|s| - 1] !in init;
    }
  }

  /** De-duplicating keeps one notification per distinct id. */
  lemma DedupCount(ns: seq<Notification>)
    ensures |UniqueById(ns)| == |Ids(ns)|
  {
    MapFacts(ns);
    DistinctCardinality(FirstOrder(ns));
    forall id ensures id in Ids(ns) <==> HasId(ns, id) {
      if HasId(ns, id) {
        var i :| 0 <= i < |ns| && ns[i].id == id;
        assert ns[i].id in Ids(ns);
      }
    }
    assert (set x | x in FirstOrder(ns)) == Ids(ns);
  }

  /** The badge count: the number of distinct ids among the listed users'
      notifications, and none without data. */
  function UnreadCount(users: seq<string>, data: Option<map<string, seq<Notification>>>): (n: nat)
    ensures data.None? ==> n == 0
    ensures data.Some? ==> n == |Ids(Merged(users, data.value))|
  {
    if data.Some? then DedupCount(Merged(users, data.value)); |Notifications(users, data)|
    else 0
  }
}
