/** The live feed of burned fees per block: each poll's new blocks are
    merged into the list shown so far, deduplicated by block number, sorted
    newest first and capped; a fetch guard and a block cursor drive the
    polling. Block numbers are the naturals the API's decimal strings
    denote, so keying the `Map` by the string and sorting by `parseInt` of it
    agree. The burned amount is an opaque number computed elsewhere. */
module LiveBlockBurns {
  import opened Wrappers
  import opened Strings
  import opened Lists
  import opened Sorting

  /** `MAX_BLOCKS`. */
  const MaxBlocks: nat := 15

  datatype BlockBurn = BlockBurn(blockNumber: nat, burnedAvax: int, timestamp: int, isNew: bool)

  /** A block as the explorer API returns it, its burn and timestamp
      already worked out. */
  datatype Block = Block(number: nat, burnedAvax: int, timestamp: int)

  /** A fresh entry for a fetched block, marked new. */
  function FromBlock(b: Block): BlockBurn {
    BlockBurn(b.number, b.burnedAvax, b.timestamp, true)
  }

  /** An entry already shown, as the merge copies it: `{ ...b, isNew: false }`. */
  function Stale(b: BlockBurn): BlockBurn {
    b.(isNew := false)
  }

  function Blocks(m: seq<BlockBurn>): set<nat> {
    set x | x in m :: x.blockNumber
  }

  predicate DistinctBlocks(m: seq<BlockBurn>) {
    forall i, j :: 0 <= i < j < |m| ==> m[i].blockNumber != m[j].blockNumber
  }

  function Number(b: BlockBurn): nat { b.blockNumber }

  /** The sort comparator `parseInt(b) - parseInt(a)`: `a` may come first
      when its block is no older. */
  function NewerFirst(a: BlockBurn, b: BlockBurn): bool {
    a.blockNumber >= b.blockNumber
  }

  lemma NewerFirstIsOrder()
    ensures Total(NewerFirst) && Transitive(NewerFirst)
  {
  }

  /** The entries of the list shown so far, as the merge copies them. */
  function StaleSet(prev: seq<BlockBurn>): set<BlockBurn> {
    set p | p in prev :: Stale(p)
  }

  lemma BlocksCons(x: BlockBurn, t: seq<BlockBurn>)
    ensures Blocks([x] + t) == {x.blockNumber} + Blocks(t)
  {
    assert forall y :: y in [x] + t <==> y == x || y in t;
  }

  lemma BlocksSnoc(t: seq<BlockBurn>, x: BlockBurn)
    ensures Blocks(t + [x]) == Blocks(t) + {x.blockNumber}
  {
    assert forall y :: y in t + [x] <==> y == x || y in t;
  }

  lemma DistinctCons(x: BlockBurn, t: seq<BlockBurn>)
    ensures DistinctBlocks([x] + t) <==> DistinctBlocks(t) && x.blockNumber !in Blocks(t)
  {
    var r := [x] + t;
    if DistinctBlocks(r) {
      assert t == r[1..];
      forall i, j | 0 <= i < j < |t| ensures t[i].blockNumber != t[j].blockNumber {
        assert t[i] == r[i + 1] && t[j] == r[j + 1];
      }
      forall y | y in t ensures y.blockNumber != x.blockNumber {
        var k :| 0 <= k < |t| && t[k] == y;
        assert r[k + 1] == y && r[0] == x;
        assert r[0].blockNumber != r[k + 1].blockNumber;
      }
    }
    if DistinctBlocks(t) && x.blockNumber !in Blocks(t) {
      forall i, j | 0 <= i < j < |r| ensures r[i].blockNumber != r[j].blockNumber {
        assert r[j] == t[j - 1];
        if i > 0 {
          assert r[i] == t[i - 1];
        } else {
          assert r[j] in t;
          assert r[j].blockNumber in Blocks(t);
        }
      }
    }
  }

  lemma DistinctSnoc(t: seq<BlockBurn>, x: BlockBurn)
    requires DistinctBlocks(t) && x.blockNumber !in Blocks(t)
    ensures DistinctBlocks(t + [x])
  {
    var r := t + [x];
    forall i, j | 0 <= i < j < |r| ensures r[i].blockNumber != r[j].blockNumber {
      assert r[i] == t[i];
      if j < |t| {
        assert r[j] == t[j];
      } else {
        assert r[i] in t;
      }
    }
  }

  /** `Map.prototype.set` on a map kept as its entries in insertion order: an
      existing key keeps its position and takes the new value, a new key is
      appended. */
  function Put(m: seq<BlockBurn>, b: BlockBurn): seq<BlockBurn> {
    if m == [] then [b]
    else if m[0].blockNumber == b.blockNumber then [b] + m[1..]
    else [m[0]] + Put(m[1..], b)
  }

  lemma {:induction false} PutFacts(m: seq<BlockBurn>, b: BlockBurn)
    ensures Blocks(Put(m, b)) == Blocks(m) + {b.blockNumber}
    ensures b in Put(m, b)
    ensures forall x :: x in Put(m, b) ==> x == b || x in m
    ensures forall x :: x in m && x.blockNumber != b.blockNumber ==> x in Put(m, b)
  {
    if m == [] {
      assert Put(m, b) == [b];
      assert Blocks([b]) == {b.blockNumber} by { BlocksSnoc([], b); }
    } else {
      assert m == [m[0]] + m[1..];
      BlocksCons(m[0], m[1..]);
      if m[0].blockNumber == b.blockNumber {
        BlocksCons(b, m[1..]);
      } else {
        PutFacts(m[1..], b);
        BlocksCons(m[0], Put(m[1..], b));
      }
    }
  }

  lemma {:induction false} PutDistinct(m: seq<BlockBurn>, b: BlockBurn)
    requires DistinctBlocks(m)
    ensures DistinctBlocks(Put(m, b))
  {
    if m != [] {
      assert m == [m[0]] + m[1..];
      DistinctCons(m[0], m[1..]);
      BlocksCons(m[0], m[1..]);
      if m[0].blockNumber == b.blockNumber {
        DistinctCons(b, m[1..]);
      } else {
        PutDistinct(m[1..], b);
        PutFacts(m[1..], b);
        DistinctCons(m[0], Put(m[1..], b));
      }
    }
  }

  /** The map built from the list shown so far, every entry marked not new:
      `new Map(prev.map(b => [b.blockNumber, { ...b, isNew: false }]))`. */
  function Seeded(prev: seq<BlockBurn>): seq<BlockBurn> {
    if prev == [] then []
    else Put(Seeded(prev[..|prev| - 1]), Stale(prev[|prev| - 1]))
  }

  lemma {:induction false} SeededFacts(prev: seq<BlockBurn>)
    ensures DistinctBlocks(Seeded(prev))
    ensures Blocks(Seeded(prev)) == Blocks(prev)
    ensures forall x :: x in Seeded(prev) ==> x in StaleSet(prev) && !x.isNew
  {
    if prev != [] {
      var init, last := prev[..|prev| - 1], prev[|prev| - 1];
      assert prev == init + [last];
      SeededFacts(init);
      PutFacts(Seeded(init), Stale(last));
      PutDistinct(Seeded(init), Stale(last));
      BlocksSnoc(init, last);
      assert StaleSet(prev) == StaleSet(init) + {Stale(last)} by {
        assert forall y :: y in prev <==> y == last || y in init;
      }
    }
  }

  /** With no block listed twice, every entry shown so far is in the map,
      unchanged but for its mark. */
  lemma {:induction false} SeededKeepsAll(prev: seq<BlockBurn>)
    requires DistinctBlocks(prev)
    ensures forall p :: p in prev ==> Stale(p) in Seeded(prev)
  {
    if prev != [] {
      var init, last := prev[..|prev| - 1], prev[|prev| - 1];
      assert prev == init + [last];
      assert DistinctBlocks(init);
      SeededKeepsAll(init);
      PutFacts(Seeded(init), Stale(last));
      forall p | p in init ensures p.blockNumber != last.blockNumber {
        var k :| 0 <= k < |init| && init[k] == p;
        assert prev[k] == p;
      }
    }
  }

  /** The `for` loop over the fetched blocks: a block whose number the map
      already has is skipped, so an existing entry is never overwritten. */
  function AddNew(m: seq<BlockBurn>, incoming: seq<BlockBurn>): seq<BlockBurn> {
    if incoming == [] then m
    else
      var r0 := AddNew(m, incoming[..|incoming| - 1]);
      var b := incoming[|incoming| - 1];
      if b.blockNumber in Blocks(r0) then r0 else r0 + [b]
  }

  lemma {:induction false} AddNewFacts(m: seq<BlockBurn>, incoming: seq<BlockBurn>)
    ensures DistinctBlocks(m) ==> DistinctBlocks(AddNew(m, incoming))
    ensures Blocks(AddNew(m, incoming)) == Blocks(m) + Blocks(incoming)
    ensures m <= AddNew(m, incoming)
    ensures forall x :: x in AddNew(m, incoming) ==> x in m || (x in incoming && x.blockNumber !in Blocks(m))
  {
    if incoming != [] {
      var init, b := incoming[..|incoming| - 1], incoming[|incoming| - 1];
      assert incoming == init + [b];
      AddNewFacts(m, init);
      BlocksSnoc(init, b);
      var r0 := AddNew(m, init);
      if b.blockNumber !in Blocks(r0) {
        BlocksSnoc(r0, b);
        if DistinctBlocks(m) {
          DistinctSnoc(r0, b);
        }
      }
    }
  }

  /** Everything the map holds before it is sorted and cut. */
  function Combined(prev: seq<BlockBurn>, incoming: seq<BlockBurn>): seq<BlockBurn> {
    AddNew(Seeded(prev), incoming)
  }

  /** The list shown after a poll. */
  function MergeBurns(prev: seq<BlockBurn>, incoming: seq<BlockBurn>): seq<BlockBurn> {
    Take(SortBy(Combined(prev, incoming), NewerFirst), MaxBlocks)
  }

  /** The `forEach` over the shown list: every shown entry goes into the
      map, marked as not new. */
  method SeedExisting(prev: seq<BlockBurn>) returns (existing: seq<BlockBurn>)
    ensures existing == Seeded(prev)
  {
    existing := [];
    var i := 0;
    while i < |prev|
      invariant 0 <= i <= |prev|
      invariant existing == Seeded(prev[..i])
    {
      assert prev[..i + 1][..i] == prev[..i];
      existing := Put(existing, Stale(prev[i]));
      i := i + 1;
    }
    assert prev[..|prev|] == prev;
  }

  /** The `forEach` over the fetched blocks: a block not yet in the map is
      added as it came. */
  method AddMissing(seeded: seq<BlockBurn>, newBurns: seq<BlockBurn>) returns (existing: seq<BlockBurn>)
    ensures existing == AddNew(seeded, newBurns)
  {
    existing := seeded;
    var j := 0;
    while j < |newBurns|
      invariant 0 <= j <= |newBurns|
      invariant existing == AddNew(seeded, newBurns[..j])
    {
      assert newBurns[..j + 1][..j] == newBurns[..j];
      if newBurns[j].blockNumber !in Blocks(existing) {
        existing := existing + [newBurns[j]];
      }
      j := j + 1;
    }
    assert newBurns[..|newBurns|] == newBurns;
  }

  /** The merge step inside `fetchData`: fill a map from the list shown so
      far, add the fetched blocks it lacks, then sort newest first and keep
      `MAX_BLOCKS`. */
  method MergeBurnLists(prev: seq<BlockBurn>, newBurns: seq<BlockBurn>) returns (merged: seq<BlockBurn>)
    ensures merged == MergeBurns(prev, newBurns)
  {
    var existing := SeedExisting(prev);
    existing := AddMissing(existing, newBurns);
    merged := Take(SortBy(existing, NewerFirst), MaxBlocks);
  }

  /** The combined entries, sorted newest first, carry distinct blocks. */
  lemma SortedCombined(prev: seq<BlockBurn>, incoming: seq<BlockBurn>)
    ensures var s := SortBy(Combined(prev, incoming), NewerFirst);
      DistinctBlocks(s) && SortedBy(s, NewerFirst)
  {
    var c := Combined(prev, incoming);
    SeededFacts(prev);
    AddNewFacts(Seeded(prev), incoming);
    NewerFirstIsOrder();
    SortBySorted(c, NewerFirst);
    assert DistinctBy(c, Number);
    SortByDistinct(c, NewerFirst, Number);
    assert DistinctBy(SortBy(c, NewerFirst), Number);
  }

  /** A merge gives at most `MAX_BLOCKS` entries, no two for the same block,
      strictly newest first. */
  lemma MergeOrdered(prev: seq<BlockBurn>, incoming: seq<BlockBurn>)
    ensures var r := MergeBurns(prev, incoming);
      && |r| <= MaxBlocks
      && DistinctBlocks(r)
      && (forall i, j :: 0 <= i < j < |r| ==> r[i].blockNumber > r[j].blockNumber)
  {
    SortedCombined(prev, incoming);
    var s := SortBy(Combined(prev, incoming), NewerFirst);
    var r := MergeBurns(prev, incoming);
    forall i, j | 0 <= i < j < |r| ensures r[i].blockNumber > r[j].blockNumber {
      assert r[i] == s[i] && r[j] == s[j];
      assert NewerFirst(s[i], s[j]);
    }
  }

  /** An entry of a merge marked new is a fetched block the list did not
      have; every other entry is one the list had, unchanged but for
      `isNew`. */
  lemma MergeMarks(prev: seq<BlockBurn>, incoming: seq<BlockBurn>)
    requires forall i :: 0 <= i < |incoming| ==> incoming[i].isNew
    ensures var r := MergeBurns(prev, incoming);
      && (forall i :: 0 <= i < |r| && r[i].isNew ==> r[i] in incoming && r[i].blockNumber !in Blocks(prev))
      && (forall i :: 0 <= i < |r| && !r[i].isNew ==> r[i] in StaleSet(prev))
  {
    var c := Combined(prev, incoming);
    var s := SortBy(c, NewerFirst);
    var r := MergeBurns(prev, incoming);
    SeededFacts(prev);
    AddNewFacts(Seeded(prev), incoming);
    forall i | 0 <= i < |r| ensures r[i] in c {
      assert r[i] == s[i];
      assert s[i] in multiset(c);
    }
  }

  /** A block the merge leaves out is older than every block it keeps, and
      then the list is full. */
  lemma MergeKeepsNewest(prev: seq<BlockBurn>, incoming: seq<BlockBurn>, x: BlockBurn)
    requires x in Combined(prev, incoming) && x !in MergeBurns(prev, incoming)
    ensures var r := MergeBurns(prev, incoming);
      |r| == MaxBlocks && forall i :: 0 <= i < |r| ==> r[i].blockNumber > x.blockNumber
  {
    SortedCombined(prev, incoming);
    var s := SortBy(Combined(prev, incoming), NewerFirst);
    var r := MergeBurns(prev, incoming);
    assert x in multiset(s);
    var k :| 0 <= k < |s| && s[k] == x;
    assert k >= |r|;
    forall i | 0 <= i < |r| ensures r[i].blockNumber > x.blockNumber {
      assert r[i] == s[i];
      assert NewerFirst(s[i], s[k]);
    }
  }

  /** A block the list already showed keeps the data it had. */
  lemma MergeKeepsExisting(prev: seq<BlockBurn>, incoming: seq<BlockBurn>, p: BlockBurn)
    requires DistinctBlocks(prev) && p in prev
    ensures Stale(p) in Combined(prev, incoming)
    ensures forall x :: x in Combined(prev, incoming) && x.blockNumber == p.blockNumber ==> x == Stale(p)
  {
    SeededFacts(prev);
    SeededKeepsAll(prev);
    AddNewFacts(Seeded(prev), incoming);
    var c := Combined(prev, incoming);
    assert p.blockNumber in Blocks(prev);
    forall x | x in c && x.blockNumber == p.blockNumber ensures x == Stale(p) {
      var m := Seeded(prev);
      assert x in m;
      var i :| 0 <= i < |m| && m[i] == x;
      var j :| 0 <= j < |m| && m[j] == Stale(p);
      assert i == j;
    }
  }

  /** The `setTimeout` callback after a merge: every entry loses its `isNew`
      mark and nothing else changes. */
  function ClearNew(s: seq<BlockBurn>): (r: seq<BlockBurn>)
    ensures |r| == |s|
    ensures forall i :: 0 <= i < |r| ==> !r[i].isNew && r[i].(isNew := s[i].isNew) == s[i]
  {
    seq(|s|, i requires 0 <= i < |s| => Stale(s[i]))
  }

  /** The query `fetchData` sends. */
  datatype FetchParams = LastFetchedBlock(block: int) | InitialLoad

  /** How a fetch ended: the explorer's answer (`latestBlock` is `None` when
      `stats` is missing) or a thrown error. */
  datatype FetchOutcome =
    | Received(latestBlock: Option<int>, blocks: seq<Block>)
    | Failed(message: string)

  /** The component state that `fetchData` reads and writes. */
  class BlockBurnFeed {
    var blockBurns: seq<BlockBurn>
    var isLoading: bool
    var error: Option<string>
    var lastFetchedBlock: Option<int>
    var isFetching: bool
    var isMounted: bool

    constructor ()
      ensures blockBurns == [] && isLoading && error.None? && lastFetchedBlock.None?
      ensures !isFetching && isMounted
    {
      blockBurns := [];
      isLoading := true;
      error := None;
      lastFetchedBlock := None;
      isFetching := false;
      isMounted := true;
    }

    /** `fetchData` up to its `await`: nothing while a fetch is in flight or
        after unmounting; otherwise the cursor once a block has been
        recorded, and the initial-load flag before. */
    method BeginFetch() returns (params: Option<FetchParams>)
      modifies this
      ensures old(isFetching) || !old(isMounted) ==> params.None? && isFetching == old(isFetching)
      ensures !old(isFetching) && old(isMounted) ==>
        isFetching &&
        params == Some(if lastFetchedBlock.Some? then LastFetchedBlock(lastFetchedBlock.value) else InitialLoad)
      ensures blockBurns == old(blockBurns) && isLoading == old(isLoading) && error == old(error)
      ensures lastFetchedBlock == old(lastFetchedBlock) && isMounted == old(isMounted)
    {
      if isFetching || !isMounted {
        return None;
      }
      isFetching := true;
      params := Some(if lastFetchedBlock.Some? then LastFetchedBlock(lastFetchedBlock.value) else InitialLoad);
    }

    /** `fetchData` after its `await`. A non-zero `latestBlock` moves the
        cursor; a non-empty block list is merged in; the `finally` clause
        always releases the guard. After unmounting nothing else changes. */
    method FinishFetch(outcome: FetchOutcome)
      modifies this
      ensures !isFetching && isMounted == old(isMounted)
      ensures !old(isMounted) ==>
        blockBurns == old(blockBurns) && lastFetchedBlock == old(lastFetchedBlock) &&
        isLoading == old(isLoading) && error == old(error)
      ensures old(isMounted) && outcome.Failed? ==>
        error == Some(outcome.message) && !isLoading &&
        blockBurns == old(blockBurns) && lastFetchedBlock == old(lastFetchedBlock)
      ensures old(isMounted) && outcome.Received? ==>
        error.None? && !isLoading &&
        lastFetchedBlock == (if outcome.latestBlock.Some? && outcome.latestBlock.value != 0
                             then outcome.latestBlock else old(lastFetchedBlock)) &&
        blockBurns == (if |outcome.blocks| > 0
                       then MergeBurns(old(blockBurns), seq(|outcome.blocks|, i requires 0 <= i < |outcome.blocks| => FromBlock(outcome.blocks[i])))
                       else old(blockBurns))
    {
      if isMounted {
        match outcome
        case Failed(message) =>
          error := Some(message);
          isLoading := false;
        case Received(latest, blocks) =>
          if latest.Some? && latest.value != 0 {
            lastFetchedBlock := latest;
          }
          if |blocks| > 0 {
            var newBurns := seq(|blocks|, i requires 0 <= i < |blocks| => FromBlock(blocks[i]));
            blockBurns := MergeBurnLists(blockBurns, newBurns);
          }
          error := None;
          isLoading := false;
      }
      isFetching := false;
    }

    /** The delayed callback that clears the new marks, if still mounted. */
    method ClearNewMarks()
      modifies this
      ensures blockBurns == (if old(isMounted) then ClearNew(old(blockBurns)) else old(blockBurns))
      ensures isLoading == old(isLoading) && error == old(error) && lastFetchedBlock == old(lastFetchedBlock)
      ensures isFetching == old(isFetching) && isMounted == old(isMounted)
    {
      if isMounted {
        blockBurns := ClearNew(blockBurns);
      }
    }

    /** The effect's cleanup. */
    method Unmount()
      modifies this
      ensures !isMounted && blockBurns == old(blockBurns) && isFetching == old(isFetching)
      ensures isLoading == old(isLoading) && error == old(error) && lastFetchedBlock == old(lastFetchedBlock)
    {
      isMounted := false;
    }
  }

  datatype TimeUnit = Second | Minute | Hour

  function UnitName(u: TimeUnit): string {
    match u
    case Second => "second"
    case Minute => "minute"
    case Hour => "hour"
  }

  /** The count and unit `formatTimeAgo` reports for an age of `elapsedMs`
      milliseconds, counted in whole seconds rounded down. */
  function Age(elapsedMs: int): (a: (int, TimeUnit))
    ensures var s := elapsedMs / 1000;
      && (s < 60 ==> a == (s, Second))
      && (60 <= s < 3600 ==> a.1 == Minute && 1 <= a.0 < 60 && a.0 * 60 <= s < (a.0 + 1) * 60)
      && (3600 <= s ==> a.1 == Hour && 1 <= a.0 && a.0 * 3600 <= s < (a.0 + 1) * 3600)
  {
    var seconds := elapsedMs / 1000;
    if seconds < 60 then (seconds, Second)
    else
      var minutes := seconds / 60;
      if minutes < 60 then (minutes, Minute)
      else (minutes / 60, Hour)
  }

  /** `formatTimeAgo(timestamp)` at time `now`: reading the text back gives
      the count and unit of the age. */
  function FormatTimeAgo(now: int, timestamp: int): (r: string)
    ensures ReadTimeAgo(r) == Some(Age(now - timestamp))
  {
    var a := Age(now - timestamp);
    var plural := if a.0 != 1 then "s" else "";
    TimeAgoReadable(a.0, a.1, plural);
    IntToString(a.0) + " " + UnitName(a.1) + plural + " ago"
  }

  /** The unit a word names, in the singular or the plural. */
  function UnitOf(word: string): (u: Option<TimeUnit>)
    ensures u.Some? ==> word == UnitName(u.value) || word == UnitName(u.value) + "s"
  {
    if word == "second" || word == "seconds" then Some(Second)
    else if word == "minute" || word == "minutes" then Some(Minute)
    else if word == "hour" || word == "hours" then Some(Hour)
    else None
  }

  /** The reading of a "<count> <unit> ago" text: the three space-separated
      words, the first an integer, the second a unit, the third "ago". */
  function ReadTimeAgo(text: string): Option<(int, TimeUnit)> {
    var words := Split(text, ' ');
    if |words| == 3 && words[2] == "ago" then
      match (ParseInt(words[0]), UnitOf(words[1]))
      case (Some(n), Some(u)) => Some((n, u))
      case _ => None
    else None
  }

  lemma TimeAgoReadable(n: int, u: TimeUnit, plural: string)
    requires plural in {"", "s"}
    ensures ReadTimeAgo(IntToString(n) + " " + UnitName(u) + plural + " ago") == Some((n, u))
  {
    var w0, w1 := IntToString(n), UnitName(u) + plural;
    var parts := [w0, w1, "ago"];
    assert Join(parts, [' ']) == IntToString(n) + " " + UnitName(u) + plural + " ago" by {
      assert parts[1..] == [w1, "ago"] && [w1, "ago"][1..] == ["ago"];
      assert Join([w1, "ago"], [' ']) == w1 + [' '] + "ago";
      assert Join(parts, [' ']) == w0 + [' '] + (w1 + [' '] + "ago");
      Regroup(w0, UnitName(u), plural);
    }
    TimeAgoWordsSepFree(n, u, plural);
    SplitJoin(parts, ' ');
    IntToStringRoundTrip(n);
    UnitOfName(u, plural);
  }

  lemma Regroup(a: string, b: string, c: string)
    ensures a + " " + b + c + " ago" == a + [' '] + ((b + c) + [' '] + "ago")
  {
    assert " ago" == [' '] + "ago";
  }

  /** None of the three words of a "<count> <unit> ago" text holds a space. */
  lemma TimeAgoWordsSepFree(n: int, u: TimeUnit, plural: string)
    requires plural in {"", "s"}
    ensures SepFree([IntToString(n), UnitName(u) + plural, "ago"], ' ')
  {
    var parts := [IntToString(n), UnitName(u) + plural, "ago"];
    forall k, i | 0 <= k < |parts| && 0 <= i < |parts[k]| ensures parts[k][i] != ' ' {
      if k == 0 {
      } else if k == 1 {
        if plural == "s" && i == |UnitName(u)| {
          assert parts[1][i] == 's';
        } else {
          assert parts[1][i] == UnitName(u)[i];
        }
      }
    }
  }

  /** A unit's name, singular or plural, reads back as that unit. */
  lemma UnitOfName(u: TimeUnit, plural: string)
    requires plural in {"", "s"}
    ensures UnitOf(UnitName(u) + plural) == Some(u)
  {
    if plural == "" {
      assert UnitName(u) + plural == UnitName(u);
    } else {
      match u
      case Second => assert UnitName(u) + plural == "seconds";
      case Minute => assert UnitName(u) + plural == "minutes";
      case Hour => assert UnitName(u) + plural == "hours";
    }
  }

  /** The unit is written in the singular exactly when the count is one,
      and every other count, 0 included, takes the plural "s". */
  lemma FormatTimeAgoSingular(now: int, timestamp: int)
    ensures var a := Age(now - timestamp);
      (a.0 == 1 <==> FormatTimeAgo(now, timestamp) == "1 " + UnitName(a.1) + " ago")
    ensures var a := Age(now - timestamp);
      a.0 != 1 ==> FormatTimeAgo(now, timestamp) == IntToString(a.0) + " " + UnitName(a.1) + "s ago"
  {
    var a := Age(now - timestamp);
    if a.0 == 1 {
      assert IntToString(a.0) == "1";
    } else if FormatTimeAgo(now, timestamp) == "1 " + UnitName(a.1) + " ago" {
      TimeAgoReadable(1, a.1, "");
      assert false;
    }
  }
}
