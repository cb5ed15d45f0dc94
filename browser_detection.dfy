/** Recognising in-app browsers from the user agent, naming them, and the
    Android intent URL that reopens the page in the system browser. The
    user agent is `navigator.userAgent || ''`; `hasWindow` says whether the
    code runs in a browser at all. */
module BrowserDetection {
  import opened Strings

  /** The markers of the known in-app browsers. */
  const Markers: seq<string> := ["Twitter", "FBAN", "FBAV", "FB_IAB", "Instagram", "LinkedInApp", "Line/"]

  predicate HasMarker(ua: string) {
    exists i :: 0 <= i < |Markers| && Includes(ua, Markers[i])
  }

  /** The markers, spelled out one by one. */
  lemma MarkerCases(ua: string)
    ensures HasMarker(ua) <==>
      (Includes(ua, "Twitter") || Includes(ua, "FBAN") || Includes(ua, "FBAV") ||
       Includes(ua, "FB_IAB") || Includes(ua, "Instagram") || Includes(ua, "LinkedInApp") || Includes(ua, "Line/"))
  {
    if HasMarker(ua) {
      var i :| 0 <= i < |Markers| && Includes(ua, Markers[i]);
      assert Markers[i] in {"Twitter", "FBAN", "FBAV", "FB_IAB", "Instagram", "LinkedInApp", "Line/"};
    } else {
      assert !Includes(ua, Markers[0]) && !Includes(ua, Markers[1]) && !Includes(ua, Markers[2]) && !Includes(ua, Markers[3]);
      assert !Includes(ua, Markers[4]) && !Includes(ua, Markers[5]) && !Includes(ua, Markers[6]);
    }
  }

  /** An Android WebView: `wv` together with `Android`. */
  predicate IsWebView(ua: string) {
    Includes(ua, "wv") && Includes(ua, "Android")
  }

  /** `isEmbeddedBrowser`. */
  function IsEmbeddedBrowser(hasWindow: bool, ua: string): (r: bool)
    ensures r <==> hasWindow && (HasMarker(ua) || IsWebView(ua))
  {
    MarkerCases(ua);
    if !hasWindow then false
    else if Includes(ua, "Twitter") || Includes(ua, "FBAN") || Includes(ua, "FBAV") then true
    else if Includes(ua, "FBAN") || Includes(ua, "FBAV") || Includes(ua, "FB_IAB") then true
    else if Includes(ua, "Instagram") then true
    else if Includes(ua, "LinkedInApp") then true
    else if Includes(ua, "Line/") then true
    else Includes(ua, "wv") && Includes(ua, "Android")
  }

  datatype Name = NoWindow | Named(name: string)

  /** One of the Facebook app's three markers. */
  predicate FacebookMarker(ua: string) {
    Includes(ua, "FBAN") || Includes(ua, "FBAV") || Includes(ua, "FB_IAB")
  }

  /** `getEmbeddedBrowserName`: the first marker present, in the order
      Twitter, Facebook, Instagram, LinkedIn, Line, names the browser. */
  function GetEmbeddedBrowserName(hasWindow: bool, ua: string): (r: Name)
    ensures r == NoWindow <==> !hasWindow
    ensures hasWindow && Includes(ua, "Twitter") ==> r == Named("X (Twitter)")
    ensures hasWindow && !Includes(ua, "Twitter") && FacebookMarker(ua) ==> r == Named("Facebook")
    ensures hasWindow && !Includes(ua, "Twitter") && !FacebookMarker(ua) && Includes(ua, "Instagram") ==>
      r == Named("Instagram")
    ensures (hasWindow && !Includes(ua, "Twitter") && !FacebookMarker(ua) && !Includes(ua, "Instagram") &&
             Includes(ua, "LinkedInApp")) ==> r == Named("LinkedIn")
    ensures (hasWindow && !Includes(ua, "Twitter") && !FacebookMarker(ua) && !Includes(ua, "Instagram") &&
             !Includes(ua, "LinkedInApp") && Includes(ua, "Line/")) ==> r == Named("Line")
  {
    if !hasWindow then NoWindow
    else if Includes(ua, "Twitter") then Named("X (Twitter)")
    else if Includes(ua, "FBAN") || Includes(ua, "FBAV") || Includes(ua, "FB_IAB") then Named("Facebook")
    else if Includes(ua, "Instagram") then Named("Instagram")
    else if Includes(ua, "LinkedInApp") then Named("LinkedIn")
    else if Includes(ua, "Line/") then Named("Line")
    else Named("in-app browser")
  }

  /** The name is a specific one exactly when a marker is present, and the
      generic fallback names either an Android WebView or a browser that is
      not embedded at all. */
  lemma NameMatchesDetection(ua: string)
    ensures GetEmbeddedBrowserName(true, ua) != Named("in-app browser") <==> HasMarker(ua)
    ensures GetEmbeddedBrowserName(true, ua) == Named("in-app browser") ==> (IsEmbeddedBrowser(true, ua) <==> IsWebView(ua))
  {
    MarkerCases(ua);
  }

  // ---------------------------------------------------------------------
  // openInExternalBrowser

  /** `.replace(/^https?:\/\//, '')`. */
  function StripScheme(url: string): (r: string)
    ensures "https://" <= url ==> "https://" + r == url
    ensures !("https://" <= url) && "http://" <= url ==> "http://" + r == url
    ensures !("https://" <= url) && !("http://" <= url) ==> r == url
  {
    if "https://" <= url then url[8..]
    else if "http://" <= url then url[7..]
    else url
  }

  const IntentSuffix: string := "#Intent;scheme=https;end"

  /** The intent URL for the page at `url`. */
  function IntentUrl(url: string): (r: string)
    ensures "intent://" <= r && |r| >= |"intent://"| + |IntentSuffix|
    ensures r[|r| - |IntentSuffix|..] == IntentSuffix
    ensures r[|"intent://"|..|r| - |IntentSuffix|] == StripScheme(url)
  {
    var r := "intent://" + StripScheme(url) + IntentSuffix;
    assert r[|"intent://"|..|r| - |IntentSuffix|] == StripScheme(url);
    r
  }

  /** What `openInExternalBrowser` does: nothing outside a browser, a
      navigation to the intent URL on Android, and a click on a link to
      the page elsewhere. */
  datatype Action = NoAction | Navigate(target: string) | ClickLink(target: string)

  /** `/Android/i.test(ua)`, for ASCII case. */
  predicate IsAndroid(ua: string) {
    Includes(ToLower(ua), "android")
  }

  function OpenInExternalBrowser(hasWindow: bool, ua: string, url: string): (r: Action)
    ensures !hasWindow <==> r == NoAction
    ensures hasWindow && IsAndroid(ua) ==> r == Navigate(IntentUrl(url))
    ensures hasWindow && !IsAndroid(ua) ==> r == ClickLink(url)
  {
    if !hasWindow then NoAction
    else if IsAndroid(ua) then Navigate(IntentUrl(url))
    else ClickLink(url)
  }

  /** An Android WebView is reopened through an intent URL, which carries
      the page's address without its scheme. */
  lemma WebViewUsesIntent(ua: string, url: string)
    requires IsWebView(ua) && "https://" <= url
    ensures exists rest :: OpenInExternalBrowser(true, ua, url) == Navigate("intent://" + rest + IntentSuffix) && "https://" + rest == url
  {
    var i :| OccursAt(ua, "Android", i);
    assert ToLower(ua)[i..i + 7] == ToLower(ua[i..i + 7]);
    assert OccursAt(ToLower(ua), "android", i);
    var rest := StripScheme(url);
    assert OpenInExternalBrowser(true, ua, url) == Navigate("intent://" + rest + IntentSuffix);
  }
}
