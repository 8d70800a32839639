/** The browser launcher: the platform's preference list, the
    move-to-front preference update and the fallback order in which a URL
    is offered to browsers. Spawning a process and the system's default
    browser are oracles. */
module BrowserLauncher {

  import opened Wrappers
  import opened Text

  /** `_get_preferred_browsers` for a `sys.platform` value. */
  function PreferredBrowsers(platform: string): seq<string> {
    if IsPrefix("win", platform) then ["chrome", "firefox", "edge", "iexplore"]
    else if platform == "darwin" then ["chrome", "firefox", "safari"]
    else ["chrome", "firefox", "chromium", "opera"]
  }

  // ---------------------------------------------------------------------
  // Preference update

  /** `list.remove(x)`: drops the first occurrence. */
  function RemoveFirst(s: seq<string>, x: string): (r: seq<string>)
    requires x in s
    ensures |r| == |s| - 1
  {
    if s[0] == x then s[1..] else [s[0]] + RemoveFirst(s[1..], x)
  }

  /** The first index holding `x`. */
  function FirstAt(s: seq<string>, x: string): (i: nat)
    requires x in s
    ensures i < |s| && s[i] == x && forall k :: 0 <= k < i ==> s[k] != x
  {
    if s[0] == x then 0 else 1 + FirstAt(s[1..], x)
  }

  /** Removing the first occurrence cuts out exactly that element. */
  lemma {:induction false} RemoveFirstCuts(s: seq<string>, x: string)
    requires x in s
    ensures RemoveFirst(s, x) == s[..FirstAt(s, x)] + s[FirstAt(s, x) + 1..]
  {
    if s[0] != x {
      RemoveFirstCuts(s[1..], x);
      assert s[1..][..FirstAt(s[1..], x)] == s[1..FirstAt(s, x)];
      assert s[1..][FirstAt(s[1..], x) + 1..] == s[FirstAt(s, x) + 1..];
    }
  }

  /** `set_preferred_browser`: the browser moves to (or is added at) the
      front; everything else keeps its relative order. */
  function SetPreferredBrowser(preferred: seq<string>, browser: string): (r: seq<string>)
    ensures |r| > 0 && r[0] == browser
    ensures browser in preferred ==> |r| == |preferred|
    ensures browser !in preferred ==> |r| == |preferred| + 1 && r[1..] == preferred
    ensures browser in preferred ==>
      r[1..] == preferred[..FirstAt(preferred, browser)] + preferred[FirstAt(preferred, browser) + 1..]
  {
    if browser in preferred then
      RemoveFirstCuts(preferred, browser);
      [browser] + RemoveFirst(preferred, browser)
    else [browser] + preferred
  }

  /** When the browser was already listed, the update only reorders: the
      list holds the same browsers, each as many times. */
  lemma SetPreferredIsPermutation(preferred: seq<string>, browser: string)
    requires browser in preferred
    ensures multiset(SetPreferredBrowser(preferred, browser)) == multiset(preferred)
  {
    var i := FirstAt(preferred, browser);
    assert preferred == preferred[..i] + [browser] + preferred[i + 1..];
  }

  /** Preferring the front browser again changes nothing. */
  lemma SetPreferredIdempotent(preferred: seq<string>, browser: string)
    ensures SetPreferredBrowser(SetPreferredBrowser(preferred, browser), browser) == SetPreferredBrowser(preferred, browser)
  {
    var r := SetPreferredBrowser(preferred, browser);
    assert FirstAt(r, browser) == 0;
    assert r == [browser] + r[1..];
  }

  // ---------------------------------------------------------------------
  // Launching

  /** The names `_open_with_browser` knows (after lower-casing). */
  const KnownBrowsers: set<string> := {"chrome", "firefox", "edge", "safari", "iexplore", "chromium", "opera"}

  /** `_open_with_browser`: `locate` gives the executable the platform
      finds for chrome, firefox and edge; `spawn` says whether launching
      an executable succeeds. */
  function OpenWithBrowser(name: string, locate: string -> Option<string>, spawn: string -> bool): (ok: bool)
    ensures ok ==> Lower(name) in KnownBrowsers
  {
    var key := Lower(name);
    var executable :=
      if key == "chrome" || key == "firefox" || key == "edge" then locate(key)
      else if key == "safari" then Some("safari")
      else if key == "iexplore" then Some("iexplore")
      else if key == "chromium" then Some("chromium-browser")
      else if key == "opera" then Some("opera")
      else None;
    executable.Some? && executable.value != [] && spawn(executable.value)
  }

  /** How `open_url` ended: through one of its candidates, named by its
      position, or through the system default, which may itself fail. */
  datatype Opened = ByBrowser(index: nat) | BySystemDefault(ok: bool)

  /** The browsers `open_url` tries in turn: the explicit one, when given,
      then the preference list. */
  function Candidates(browser: Option<string>, preferred: seq<string>): seq<string> {
    if browser.Some? && browser.value != [] then [browser.value] + preferred else preferred
  }

  function TryInOrder(candidates: seq<string>, launch: string -> bool, systemDefault: bool): (r: Opened)
    ensures r.ByBrowser? ==> r.index < |candidates| && launch(candidates[r.index])
                             && forall k :: 0 <= k < r.index ==> !launch(candidates[k])
    ensures r.BySystemDefault? <==> forall k :: 0 <= k < |candidates| ==> !launch(candidates[k])
    ensures r.BySystemDefault? ==> r.ok == systemDefault
  {
    if candidates == [] then BySystemDefault(systemDefault)
    else if launch(candidates[0]) then ByBrowser(0)
    else
      match TryInOrder(candidates[1..], launch, systemDefault)
      case ByBrowser(i) => ByBrowser(i + 1)
      case BySystemDefault(ok) =>
        assert forall k :: 1 <= k < |candidates| ==> candidates[k] == candidates[1..][k - 1];
        BySystemDefault(ok)
  }

  /** `open_url`: the first candidate that launches wins; when none does,
      the system default decides. */
  function OpenUrl(browser: Option<string>, preferred: seq<string>, launch: string -> bool, systemDefault: bool): (r: Opened)
    ensures var c := Candidates(browser, preferred);
      && (r.ByBrowser? ==> r.index < |c| && launch(c[r.index]) && forall k :: 0 <= k < r.index ==> !launch(c[k]))
      && (r.BySystemDefault? <==> forall k :: 0 <= k < |c| ==> !launch(c[k]))
      && (r.BySystemDefault? ==> r.ok == systemDefault)
  {
    TryInOrder(Candidates(browser, preferred), launch, systemDefault)
  }

  /** What `open_url` returns. */
  predicate Succeeded(r: Opened) {
    r.ByBrowser? || r.ok
  }

  /** `open_url` reports success exactly when some candidate launches or
      the system default opens the page; an explicit browser that launches
      is always the one used. */
  lemma OpenUrlSucceeds(browser: Option<string>, preferred: seq<string>, launch: string -> bool, systemDefault: bool)
    ensures var c := Candidates(browser, preferred);
      (Succeeded(OpenUrl(browser, preferred, launch, systemDefault))
       <==> (exists k :: 0 <= k < |c| && launch(c[k])) || systemDefault)
    ensures browser.Some? && browser.value != [] && launch(browser.value) ==>
      OpenUrl(browser, preferred, launch, systemDefault) == ByBrowser(0)
  {
    var c := Candidates(browser, preferred);
    var r := OpenUrl(browser, preferred, launch, systemDefault);
    if r.ByBrowser? {
      assert launch(c[r.index]);
    }
  }

  /** A fresh launcher without an explicit browser tries chrome first and
      firefox second, and every browser of its platform's list is one
      `_open_with_browser` knows how to start. */
  lemma FreshLauncherOrder(platform: string, launch: string -> bool, systemDefault: bool)
    ensures var c := PreferredBrowsers(platform);
      var r := OpenUrl(None, c, launch, systemDefault);
      && (forall k :: 0 <= k < |c| ==> c[k] in KnownBrowsers)
      && (launch("chrome") ==> r == ByBrowser(0))
      && (!launch("chrome") && launch("firefox") ==> r == ByBrowser(1))
  {
    var c := PreferredBrowsers(platform);
    assert c[0] == "chrome" && c[1] == "firefox";
    assert c[1..][0] == "firefox";
  }
}
