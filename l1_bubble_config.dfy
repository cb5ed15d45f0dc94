/** The bubble navigation of an L1's stats pages: which item a path makes
    active, whether the navigation is shown, and the items it offers. */
module L1BubbleConfig {
  import opened Wrappers
  import opened Strings

  datatype ItemId = Stats | Explorer | Validators | Token

  /** `getActiveItem`: the first of the path markers the path contains. */
  function ActiveItem(pathname: string): (r: ItemId)
    ensures r == Explorer <==> Includes(pathname, "/explorer")
    ensures r == Validators <==> !Includes(pathname, "/explorer") && Includes(pathname, "/validators")
    ensures r == Token <==>
      !Includes(pathname, "/explorer") && !Includes(pathname, "/validators") && Includes(pathname, "/avax-token")
  {
    if Includes(pathname, "/explorer") then Explorer
    else if Includes(pathname, "/validators") then Validators
    else if Includes(pathname, "/avax-token") then Token
    else Stats
  }

  datatype NavItem = NavItem(id: ItemId, text: string, href: string)

  const CChain: string := "c-chain"

  /** The items of the navigation; the token page only on the C-Chain. */
  function Items(chainSlug: string): (r: seq<NavItem>)
    ensures |r| == (if chainSlug == CChain then 4 else 3)
    ensures forall i, j :: 0 <= i < j < |r| ==> r[i].id != r[j].id
    ensures (exists i :: 0 <= i < |r| && r[i].id == Token) <==> chainSlug == CChain
    ensures r[0] == NavItem(Stats, "Stats", "/stats/l1/" + chainSlug)
    ensures r[1] == NavItem(Explorer, "Explorer", "/explorer/" + chainSlug)
    ensures r[2] == NavItem(Validators, "Validators", "/stats/validators/" + chainSlug)
    ensures chainSlug == CChain ==> r[3] == NavItem(Token, "Token", "/stats/avax-token")
  {
    var items := [
      NavItem(Stats, "Stats", "/stats/l1/" + chainSlug),
      NavItem(Explorer, "Explorer", "/explorer/" + chainSlug),
      NavItem(Validators, "Validators", "/stats/validators/" + chainSlug)
    ];
    if chainSlug == CChain then
      var r := items + [NavItem(Token, "Token", "/stats/avax-token")];
      assert r[3].id == Token;
      r
    else items
  }

  /** `L1BubbleNav`: nothing without an RPC URL or on a custom chain. */
  function Nav(chainSlug: string, rpcUrl: Option<string>, isCustomChain: bool): (r: Option<seq<NavItem>>)
    ensures r.None? <==> rpcUrl.None? || rpcUrl.value == "" || isCustomChain
    ensures r.Some? ==> r.value == Items(chainSlug)
  {
    if rpcUrl.None? || rpcUrl.value == "" then None
    else if isCustomChain then None
    else Some(Items(chainSlug))
  }

  /** A slug that does not itself look like one of the path markers. */
  predicate PlainSlug(chainSlug: string) {
    !Includes("/" + chainSlug, "/explorer") &&
    !Includes("/" + chainSlug, "/validators") &&
    !Includes("/" + chainSlug, "/avax-token")
  }

  /** A marker starting with a slash cannot occur across the end of a prefix
      in which every slash is followed by a character other than the
      marker's second one. */
  lemma {:induction false} NotAcross(a: string, b: string, sub: string)
    requires |sub| >= 2 && sub[0] == '/'
    requires forall j :: 0 <= j < |a| && a[j] == '/' ==> j + 1 < |a| && a[j + 1] != sub[1]
    requires !Includes(b, sub)
    ensures !Includes(a + b, sub)
  {
    forall i | 0 <= i < |a|
      ensures !OccursAt(a + b, sub, i)
    {
      if i + |sub| <= |a + b| {
        var w := (a + b)[i..i + |sub|];
        if a[i] == '/' {
          assert w[1] == a[i + 1];
        } else {
          assert w[0] == a[i];
        }
      }
    }
    forall i | OccursAt(a + b, sub, i) && i >= |a|
      ensures OccursAt(b, sub, i - |a|)
    {
      assert b[i - |a|..i - |a| + |sub|] == (a + b)[i..i + |sub|];
    }
  }

  lemma MarkerAt(a: string, b: string, sub: string)
    requires sub <= b
    ensures Includes(a + b, sub)
  {
    assert (a + b)[|a|..|a| + |sub|] == sub;
    assert OccursAt(a + b, sub, |a|);
  }

  lemma StatsRoundTrip(chainSlug: string)
    requires PlainSlug(chainSlug)
    ensures ActiveItem("/stats/l1/" + chainSlug) == Stats
  {
    var slug := "/" + chainSlug;
    assert "/stats/l1/" + chainSlug == "/stats/l1" + slug;
    NotAcross("/stats/l1", slug, "/explorer");
    NotAcross("/stats/l1", slug, "/validators");
    NotAcross("/stats/l1", slug, "/avax-token");
  }

  lemma ExplorerRoundTrip(chainSlug: string)
    ensures ActiveItem("/explorer/" + chainSlug) == Explorer
  {
    MarkerAt("", "/explorer/" + chainSlug, "/explorer");
    assert "" + ("/explorer/" + chainSlug) == "/explorer/" + chainSlug;
  }

  lemma ValidatorsRoundTrip(chainSlug: string)
    requires PlainSlug(chainSlug)
    ensures ActiveItem("/stats/validators/" + chainSlug) == Validators
  {
    ValidatorsNotExplorer(chainSlug);
    ValidatorsMarker(chainSlug);
  }

  lemma ValidatorsNotExplorer(chainSlug: string)
    requires PlainSlug(chainSlug)
    ensures !Includes("/stats/validators/" + chainSlug, "/explorer")
  {
    var slug := "/" + chainSlug;
    assert "/stats/validators/" + chainSlug == "/stats/validators" + slug;
    NotAcross("/stats/validators", slug, "/explorer");
  }

  lemma ValidatorsMarker(chainSlug: string)
    ensures Includes("/stats/validators/" + chainSlug, "/validators")
  {
    var rest := "/validators/" + chainSlug;
    MarkerAt("/stats", rest, "/validators");
    assert "/stats" + rest == "/stats/validators/" + chainSlug;
  }

  /** The token link holds neither marker. */
  lemma TokenNoMarker(href: string)
    requires href == "/stats/avax-token"
    ensures !Includes(href, "/explorer") && !Includes(href, "/validators")
  {
    assert href + "" == href;
    TokenSlashes(href);
    assert !Includes("", "/explorer");
    NotAcross(href, "", "/explorer");
    assert !Includes("", "/validators");
    NotAcross(href, "", "/validators");
  }

  /** In the token link every slash is followed by `s` or `a`. */
  lemma TokenSlashes(href: string)
    requires href == "/stats/avax-token"
    ensures forall j :: 0 <= j < |href| && href[j] == '/' ==> j + 1 < |href| && (href[j + 1] == 's' || href[j + 1] == 'a')
  {
    forall j | 0 <= j < |href| && href[j] == '/'
      ensures j + 1 < |href| && (href[j + 1] == 's' || href[j + 1] == 'a')
    {
      assert j == 0 || j == 6;
    }
  }

  lemma TokenRoundTrip(href: string)
    requires href == "/stats/avax-token"
    ensures ActiveItem(href) == Token
  {
    TokenNoMarker(href);
    TokenMarker(href);
  }

  lemma TokenMarker(href: string)
    requires href == "/stats/avax-token"
    ensures Includes(href, "/avax-token")
  {
    MarkerAt("/stats", "/avax-token", "/avax-token");
    assert "/stats" + "/avax-token" == href;
  }

  /** Every item's link makes that item the active one, for any slug that
      does not itself contain a path marker. */
  lemma ItemsRoundTrip(chainSlug: string)
    requires PlainSlug(chainSlug)
    ensures forall i :: 0 <= i < |Items(chainSlug)| ==> ActiveItem(Items(chainSlug)[i].href) == Items(chainSlug)[i].id
  {
    var items := Items(chainSlug);
    StatsRoundTrip(chainSlug);
    assert ActiveItem(items[0].href) == items[0].id;
    ExplorerRoundTrip(chainSlug);
    assert ActiveItem(items[1].href) == items[1].id;
    ValidatorsRoundTrip(chainSlug);
    assert ActiveItem(items[2].href) == items[2].id;
    if chainSlug == CChain {
      TokenRoundTrip(items[3].href);
    }
  }

  /** The active item is always one the navigation offers, except the token
      page, which only the C-Chain offers. */
  lemma ActiveIsOffered(chainSlug: string, pathname: string)
    ensures ActiveItem(pathname) != Token || chainSlug == CChain ==>
      exists i :: 0 <= i < |Items(chainSlug)| && Items(chainSlug)[i].id == ActiveItem(pathname)
  {
    var items := Items(chainSlug);
    match ActiveItem(pathname)
    case Stats => assert items[0].id == Stats;
    case Explorer => assert items[1].id == Explorer;
    case Validators => assert items[2].id == Validators;
    case Token =>
      if chainSlug == CChain {
        assert items[3].id == Token;
      }
  }
}
