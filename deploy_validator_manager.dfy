/** Deploying the validator manager: the library placeholder in its
    bytecode, linking the deployed library's address into it, and the
    stored address around a deploy. Keccak is not computed here: the
    hex digest of the library path is a parameter. */
module DeployValidatorManager {
  import opened Wrappers
  import opened Strings

  /** `s.slice(start)`: empty when `start` is past the end. */
  function SliceFrom(s: string, start: nat): (r: string)
    ensures start <= |s| ==> r == s[start..]
    ensures start > |s| ==> r == ""
  {
    if start <= |s| then s[start..] else ""
  }

  /** `s.slice(0, n)`. */
  function SliceTo(s: string, n: nat): (r: string)
    ensures |r| == if n <= |s| then n else |s|
    ensures r <= s
  {
    if n <= |s| then s[..n] else s
  }

  /** `calculateLibraryHash`: the digest without `0x`, cut to 34 characters. */
  function LibraryHash(digest: string): (r: string)
    ensures |digest| >= 36 ==> |r| == 34 && r == digest[2..36]
  {
    SliceTo(SliceFrom(digest, 2), 34)
  }

  /** The placeholder the compiler leaves where the library's address goes. */
  function Placeholder(hash: string): (r: string)
    ensures |r| == |hash| + 6 && "__$" <= r && r[|r| - 3..] == "$__"
  {
    "__$" + hash + "$__"
  }

  /** `s.padStart(n, c)`. */
  function PadStart(s: string, n: nat, c: char): (r: string)
    ensures |r| == if |s| >= n then |s| else n
    ensures r[|r| - |s|..] == s
    ensures forall i :: 0 <= i < |r| - |s| ==> r[i] == c
  {
    if |s| >= n then s else seq(n - |s|, _ => c) + s
  }

  /** `s.split(sep)` for a non-empty separator: the pieces between the
      occurrences found scanning from the left. */
  function SplitOn(s: string, sep: string): (r: seq<string>)
    requires |sep| > 0
    ensures |r| >= 1
    decreases |s|
  {
    if |s| == 0 then [""]
    else if sep <= s then [""] + SplitOn(s[|sep|..], sep)
    else
      var rest := SplitOn(s[1..], sep);
      [[s[0]] + rest[0]] + rest[1..]
  }

  /** Joining the pieces back with the separator gives the string again. */
  lemma {:induction false} SplitOnJoin(s: string, sep: string)
    requires |sep| > 0
    ensures Join(SplitOn(s, sep), sep) == s
    decreases |s|
  {
    if |s| == 0 {
    } else if sep <= s {
      SplitOnJoin(s[|sep|..], sep);
      JoinAtSeparator(s, sep);
    } else {
      SplitOnJoin(s[1..], sep);
      JoinPastChar(s, sep);
    }
  }

  lemma JoinAtSeparator(s: string, sep: string)
    requires |sep| > 0 && sep <= s
    requires Join(SplitOn(s[|sep|..], sep), sep) == s[|sep|..]
    ensures Join(SplitOn(s, sep), sep) == s
  {
    var rest := SplitOn(s[|sep|..], sep);
    assert Join(SplitOn(s, sep), sep) == sep + Join(rest, sep) by {
      SplitOnAtSeparator(s, sep);
      JoinCons("", rest, sep);
      assert "" + sep == sep;
    }
    assert s == sep + s[|sep|..];
  }

  lemma SplitOnAtSeparator(s: string, sep: string)
    requires |sep| > 0 && sep <= s
    ensures SplitOn(s, sep) == [""] + SplitOn(s[|sep|..], sep)
  {
  }

  lemma JoinPastChar(s: string, sep: string)
    requires |sep| > 0 && |s| > 0 && !(sep <= s)
    requires Join(SplitOn(s[1..], sep), sep) == s[1..]
    ensures Join(SplitOn(s, sep), sep) == s
  {
    var rest := SplitOn(s[1..], sep);
    assert Join(SplitOn(s, sep), sep) == [s[0]] + Join(rest, sep) by {
      SplitOnPastChar(s, sep);
      JoinHead([s[0]], rest, sep);
    }
    HeadTail(s);
  }

  lemma HeadTail(s: string)
    requires |s| > 0
    ensures [s[0]] + s[1..] == s
  {
  }

  lemma SplitOnPastChar(s: string, sep: string)
    requires |sep| > 0 && |s| > 0 && !(sep <= s)
    ensures var rest := SplitOn(s[1..], sep);
      SplitOn(s, sep) == [[s[0]] + rest[0]] + rest[1..]
  {
  }

  lemma JoinCons(first: string, rest: seq<string>, sep: string)
    requires |rest| >= 1
    ensures Join([first] + rest, sep) == first + sep + Join(rest, sep)
  {
    assert ([first] + rest)[1..] == rest;
  }

  /** Putting characters in front of the first piece puts them in front of
      the join. */
  lemma JoinHead(c: string, parts: seq<string>, sep: string)
    requires |parts| >= 1
    ensures Join([c + parts[0]] + parts[1..], sep) == c + Join(parts, sep)
  {
    var q := [c + parts[0]] + parts[1..];
    if |parts| > 1 {
      assert q[1..] == parts[1..];
    }
  }

  /** The joined length counts each separator once. */
  lemma {:induction false} JoinLength(parts: seq<string>, sep: string)
    requires |parts| >= 1
    ensures |Join(parts, sep)| == TotalLength(parts) + (|parts| - 1) * |sep|
  {
    if |parts| > 1 {
      JoinLength(parts[1..], sep);
      assert parts == [parts[0]] + parts[1..];
    }
  }

  function TotalLength(parts: seq<string>): nat {
    if |parts| == 0 then 0 else |parts[0]| + TotalLength(parts[1..])
  }

  /** `.split(placeholder).join(replacement)`: every occurrence replaced. */
  function ReplaceAll(s: string, placeholder: string, replacement: string): string
    requires |placeholder| > 0
  {
    Join(SplitOn(s, placeholder), replacement)
  }

  /** A replacement as long as the placeholder keeps the length. */
  lemma ReplaceKeepsLength(s: string, placeholder: string, replacement: string)
    requires |placeholder| > 0 && |replacement| == |placeholder|
    ensures |ReplaceAll(s, placeholder, replacement)| == |s|
  {
    var parts := SplitOn(s, placeholder);
    JoinLength(parts, replacement);
    JoinLength(parts, placeholder);
    SplitOnJoin(s, placeholder);
  }

  /** Replacing a placeholder by itself changes nothing. */
  lemma ReplaceBySelf(s: string, placeholder: string)
    requires |placeholder| > 0
    ensures ReplaceAll(s, placeholder, placeholder) == s
  {
    SplitOnJoin(s, placeholder);
  }

  /** Text without the placeholder has nothing to replace. */
  lemma {:induction false} ReplaceAbsent(s: string, placeholder: string, replacement: string)
    requires |placeholder| > 0 && !Includes(s, placeholder)
    ensures SplitOn(s, placeholder) == [s]
    ensures ReplaceAll(s, placeholder, replacement) == s
    decreases |s|
  {
    if |s| > 0 {
      assert !(placeholder <= s) by {
        if placeholder <= s {
          PrefixOccurs(s, placeholder);
        }
      }
      assert !Includes(s[1..], placeholder);
      ReplaceAbsent(s[1..], placeholder, replacement);
      assert s == [s[0]] + s[1..];
    }
  }

  const MissingLibrary: string := "ValidatorMessages library must be deployed first"
  const LinkFailed: string := "Failed to replace library placeholder with actual address"

  /** The address as it is spliced in: without `0x`, padded to 40 digits. */
  function AddressDigits(libAddress: string): (r: string)
    ensures |libAddress| == 42 ==> |r| == 40 && r == libAddress[2..]
  {
    PadStart(SliceFrom(libAddress, 2), 40, '0')
  }

  /** `getLinkedBytecode`: the bytecode with the library's address in every
      placeholder, or the error it throws. */
  function GetLinkedBytecode(libAddress: string, bytecode: string, digest: string): (r: Result<string, string>)
    ensures libAddress == "" <==> r == Err(MissingLibrary)
    ensures r.Ok? ==> !Includes(r.value, "$__")
    ensures r.Ok? <==>
      (libAddress != "" &&
       !Includes(ReplaceAll(bytecode, Placeholder(LibraryHash(digest)), AddressDigits(libAddress)), "$__"))
    ensures r.Ok? ==> r.value == ReplaceAll(bytecode, Placeholder(LibraryHash(digest)), AddressDigits(libAddress))
  {
    if libAddress == "" then Err(MissingLibrary)
    else
      var linked := ReplaceAll(bytecode, Placeholder(LibraryHash(digest)), AddressDigits(libAddress));
      if Includes(linked, "$__") then Err(LinkFailed) else Ok(linked)
  }

  /** Linked bytecode holds no placeholder, since every placeholder ends
      with the `$__` the check looks for. */
  lemma LinkedHasNoPlaceholder(libAddress: string, bytecode: string, digest: string)
    ensures var r := GetLinkedBytecode(libAddress, bytecode, digest);
      r.Ok? ==> !Includes(r.value, Placeholder(LibraryHash(digest)))
  {
    var r := GetLinkedBytecode(libAddress, bytecode, digest);
    if r.Ok? {
      NoPlaceholderWithoutMark(r.value, Placeholder(LibraryHash(digest)));
    }
  }

  /** Text without `$__` holds no placeholder. */
  lemma NoPlaceholderWithoutMark(s: string, p: string)
    requires |p| >= 3 && p[|p| - 3..] == "$__" && !Includes(s, "$__")
    ensures !Includes(s, p)
  {
    forall i | OccursAt(s, p, i) ensures OccursAt(s, "$__", i + |p| - 3) {
      assert s[i + |p| - 3..i + |p|] == p[|p| - 3..];
    }
  }

  /** With a full keccak digest and a 42-character `0x` address, linking
      keeps the bytecode's length. */
  lemma LinkingKeepsLength(libAddress: string, bytecode: string, digest: string)
    requires |libAddress| == 42 && |digest| == 66
    ensures var r := GetLinkedBytecode(libAddress, bytecode, digest);
      r.Ok? ==> |r.value| == |bytecode|
  {
    ReplaceKeepsLength(bytecode, Placeholder(LibraryHash(digest)), AddressDigits(libAddress));
  }

  /** Bytecode without any `$__` at all links to itself. */
  lemma UnlinkedBytecodePassesThrough(libAddress: string, bytecode: string, digest: string)
    requires libAddress != "" && !Includes(bytecode, "$__")
    ensures GetLinkedBytecode(libAddress, bytecode, digest) == Ok(bytecode)
  {
    var p := Placeholder(LibraryHash(digest));
    NoPlaceholderWithoutMark(bytecode, p);
    ReplaceAbsent(bytecode, p, AddressDigits(libAddress));
  }

  // ---------------------------------------------------------------------
  // handleDeploy

  /** What the wallet and the chain report, in order: whether a chain is
      selected, an error adding or switching to it, and the outcome of the
      deploy transaction (an error, or the receipt's contract address). */
  datatype ChainReport = ChainReport(
    hasChain: bool,
    switchError: Option<string>,
    receipt: Result<Option<string>, string>)

  const NoChain: string := "Viem chain not found"
  const NoContractAddress: string := "No contract address in receipt"

  /** The deploy's outcome: the new contract's address, or the error the
      error boundary is shown. */
  function DeployOutcome(libAddress: string, bytecode: string, digest: string, report: ChainReport): (r: Result<string, string>)
    ensures r.Ok? <==>
      (report.hasChain && report.switchError.None? &&
       GetLinkedBytecode(libAddress, bytecode, digest).Ok? &&
       report.receipt.Ok? && report.receipt.value.Some? && report.receipt.value.value != "")
    ensures r.Ok? ==> r.value == report.receipt.value.value
  {
    if !report.hasChain then Err(NoChain)
    else if report.switchError.Some? then Err(report.switchError.value)
    else
      match GetLinkedBytecode(libAddress, bytecode, digest)
      case Err(e) => Err(e)
      case Ok(_) =>
        match report.receipt
        case Err(e) => Err(e)
        case Ok(address) =>
          if address.None? || address.value == "" then Err(NoContractAddress) else Ok(address.value)
  }

  /** The deploy form's state. */
  class Deployer {
    var isDeploying: bool
    var validatorManagerAddress: string
    var shownError: Option<string>

    constructor(address: string)
      ensures !isDeploying && validatorManagerAddress == address && shownError == None
    {
      isDeploying := false;
      validatorManagerAddress := address;
      shownError := None;
    }

    /** `handleDeploy`: the stored address is cleared before anything is
        tried and is set only from a receipt with a contract address; the
        deploying flag is down again at the end. */
    method HandleDeploy(libAddress: string, bytecode: string, digest: string, report: ChainReport)
      modifies this
      ensures !isDeploying
      ensures var r := DeployOutcome(libAddress, bytecode, digest, report);
        validatorManagerAddress == (if r.Ok? then r.value else "") &&
        shownError == (if r.Err? then Some(r.error) else old(shownError))
    {
      isDeploying := true;
      validatorManagerAddress := "";
      var r := DeployOutcome(libAddress, bytecode, digest, report);
      if r.Ok? {
        validatorManagerAddress := r.value;
      } else {
        shownError := Some(r.error);
      }
      isDeploying := false;
    }
  }

  /** A deploy that fails leaves no address behind, whatever was stored. */
  lemma FailedDeployClearsAddress(libAddress: string, bytecode: string, digest: string, report: ChainReport)
    requires !report.hasChain || libAddress == "" || report.receipt.Err?
    ensures DeployOutcome(libAddress, bytecode, digest, report).Err?
  {
  }
}
