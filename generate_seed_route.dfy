/** The seed-generation endpoint: a deterministic seed reads one byte of
    the hash of the user id per trait, through the hash's lower-case hex
    rendering; otherwise a random seed is returned. The hash function and
    the random seed are parameters. */
module GenerateSeedRoute {
  import opened Wrappers
  import Json
  import opened JsArith
  import opened Nouns
  import opened ProtectedRoute

  type Byte = b: int | 0 <= b < 256

  /** A 32-byte keccak-256 digest. */
  type Digest = s: seq<Byte> | |s| == 32 witness seq(32, _ => 0)

  function HexDigitChar(n: nat): char
    requires n < 16
  {
    "0123456789abcdef"[n]
  }

  /** `bytesToHex`: two lower-case hex digits per byte. */
  function BytesToHex(bs: seq<Byte>): (r: string)
    ensures |r| == 2 * |bs|
  {
    if bs == [] then [] else [HexDigitChar(bs[0] / 16), HexDigitChar(bs[0] % 16)] + BytesToHex(bs[1..])
  }

  /** The value of a hex digit of either case. */
  function HexValue(c: char): Option<nat> {
    if '0' <= c <= '9' then Some(c as int - '0' as int)
    else if 'a' <= c <= 'f' then Some(c as int - 'a' as int + 10)
    else if 'A' <= c <= 'F' then Some(c as int - 'A' as int + 10)
    else None
  }

  /** The value of the leading run of hex digits of `s`, after `acc`. */
  function HexRun(s: string, acc: nat): nat {
    if s == [] || HexValue(s[0]).None? then acc else HexRun(s[1..], acc * 16 + HexValue(s[0]).value)
  }

  /** `parseInt(s, 16)` on strings of hex digits: `None` (NaN) when `s`
      does not start with one. */
  function ParseIntHex(s: string): Option<nat> {
    if s == [] || HexValue(s[0]).None? then None else Some(HexRun(s, 0))
  }

  /** Byte `k` is rendered at hex positions `2k` and `2k + 1`. */
  lemma {:induction false} BytesToHexAt(bs: seq<Byte>, k: nat)
    requires k < |bs|
    ensures BytesToHex(bs)[2 * k..2 * k + 2] == [HexDigitChar(bs[k] / 16), HexDigitChar(bs[k] % 16)]
  {
    if k > 0 {
      BytesToHexAt(bs[1..], k - 1);
      var head := [HexDigitChar(bs[0] / 16), HexDigitChar(bs[0] % 16)];
      assert BytesToHex(bs)[2 * k..2 * k + 2] == BytesToHex(bs[1..])[2 * (k - 1)..2 * (k - 1) + 2];
    }
  }

  /** Reading two rendered hex digits gives back the byte. */
  lemma HexPairRoundTrip(b: Byte)
    ensures ParseIntHex([HexDigitChar(b / 16), HexDigitChar(b % 16)]) == Some(b)
  {
    var hi, lo := HexDigitChar(b / 16), HexDigitChar(b % 16);
    assert HexValue(hi) == Some(b / 16);
    assert HexValue(lo) == Some(b % 16);
    assert [hi, lo][1..] == [lo];
    assert HexRun([lo], b / 16) == HexRun([], b / 16 * 16 + b % 16);
  }

  /** `parseInt(hashHex.slice(2k, 2k + 2), 16) % max`. */
  function TraitFromHex(hex: string, k: nat, max: Positive): int
    requires 2 * k + 2 <= |hex|
    requires ParseIntHex(hex[2 * k..2 * k + 2]).Some?
  {
    ParseIntHex(hex[2 * k..2 * k + 2]).value % max
  }

  /** The byte at position `k` of the digest, read back from its hex
      rendering. */
  lemma ReadByte(d: Digest, k: nat)
    requires k < 32
    ensures ParseIntHex(BytesToHex(d)[2 * k..2 * k + 2]) == Some(d[k])
  {
    BytesToHexAt(d, k);
    HexPairRoundTrip(d[k]);
  }

  /** The deterministic branch of `generateNounSeed`. */
  function DeterministicSeed(d: Digest, m: Maxima): (s: Seed)
    ensures InRange(s, m)
    ensures forall k :: 0 <= k < 5 ==> Get(s, Traits[k]) == d[k] % MaxOf(m, Traits[k])
  {
    var hex := BytesToHex(d);
    ReadByte(d, 0);
    ReadByte(d, 1);
    ReadByte(d, 2);
    ReadByte(d, 3);
    ReadByte(d, 4);
    var s := Seed(
      TraitFromHex(hex, 0, m.background),
      TraitFromHex(hex, 1, m.body),
      TraitFromHex(hex, 2, m.accessory),
      TraitFromHex(hex, 3, m.head),
      TraitFromHex(hex, 4, m.glasses));
    s
  }

  function SeedJson(s: Seed): Json.Json {
    Json.JObj(map[
      "background" := Json.JNum(s.background),
      "body" := Json.JNum(s.body),
      "accessory" := Json.JNum(s.accessory),
      "head" := Json.JNum(s.head),
      "glasses" := Json.JNum(s.glasses)])
  }

  /** `GET`: the query's `deterministic` value, the hash function and the
      seed `Math.random` would give are parameters. Each of that seed's
      traits is `Math.floor(Math.random() * max)` for a draw in `[0, 1)`, so
      it lies in `0..max - 1`. */
  function HandleGet(session: Option<Session>, deterministic: Option<string>, keccak: string -> Digest, randomSeed: Seed, m: Maxima): (r: Response)
    requires InRange(randomSeed, m)
    ensures session.None? ==> r.status == 401
    ensures session.Some? && MissingUserId(session.value) ==> r == ErrorResponse(400, "User ID is required")
    ensures session.Some? && !MissingUserId(session.value) ==>
      r.status == 200 && "seed" in r.body &&
      r.body["seed"] == SeedJson(if deterministic == Some("true") then DeterministicSeed(keccak(session.value.userId.value), m) else randomSeed)
    ensures session.Some? && !MissingUserId(session.value) ==>
      InRange(if deterministic == Some("true") then DeterministicSeed(keccak(session.value.userId.value), m) else randomSeed, m)
  {
    match WithAuth(session)
    case Err(denied) => denied
    case Ok(s) =>
      if MissingUserId(s) then ErrorResponse(400, "User ID is required")
      else
        var seed := if deterministic == Some("true") then DeterministicSeed(keccak(s.userId.value), m) else randomSeed;
        Response(200, map["seed" := SeedJson(seed)])
  }

  /** Asking twice for the deterministic seed of the same user gives the
      same seed, whatever the random source would have produced. */
  lemma DeterministicIsStable(s: Session, keccak: string -> Digest, r1: Seed, r2: Seed, m: Maxima)
    requires !MissingUserId(s) && InRange(r1, m) && InRange(r2, m)
    ensures HandleGet(Some(s), Some("true"), keccak, r1, m) == HandleGet(Some(s), Some("true"), keccak, r2, m)
    ensures var seed := DeterministicSeed(keccak(s.userId.value), m);
      InRange(seed, m) && HandleGet(Some(s), Some("true"), keccak, r1, m).body["seed"] == SeedJson(seed)
  {
  }
}
