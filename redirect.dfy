/**
 * The redirect decision of GameManager.confirmRestart in src/core/GameManager.ts.
 *
 * The browser, the registry fetch and the URL parser are abstracted away:
 * the registry arrives as an optional list of entries (None when the fetch,
 * the JSON parse or the scan failed), and the three URL facilities the code
 * uses are total functions bundled in a `UrlApi`.
 */
module Redirect {
  import opened Wrappers

  /** One element of the registry's `websites` list. */
  datatype Entry = Entry(name: string, url: string)

  /**
   * What the code asks of the browser's URL handling:
   * `parseHost(s)` is `new URL(s).host`, None where the constructor throws;
   * `trim` is `String.prototype.trim`;
   * `accepts(s)` holds when assigning `s` to `window.location.href` does not throw.
   */
  datatype UrlApi = UrlApi(parseHost: string -> Option<string>, trim: string -> string, accepts: string -> bool)

  const DefaultTarget: string := "https://www.guc.edu.kg/"
  const OverridePrefix: string := "/s/"

  predicate StartsWith(s: string, prefix: string)
  {
    |prefix| <= |s| && s[..|prefix|] == prefix
  }

  predicate HasScheme(s: string)
  {
    StartsWith(s, "http://") || StartsWith(s, "https://")
  }

  /** The `find` callback: the entry's trimmed URL parses and its host is the current host. */
  predicate HostMatches(e: Entry, host: string, api: UrlApi)
  {
    api.parseHost(api.trim(e.url)) == Some(host)
  }

  /** Entries are matched by the host of their URL; the entry's name plays no part. */
  lemma HostMatchIgnoresName(e: Entry, name: string, host: string, api: UrlApi)
    ensures HostMatches(e, host, api) == HostMatches(Entry(name, e.url), host, api)
    ensures api.parseHost(api.trim(e.url)).None? ==> !HostMatches(e, host, api)
  {
  }

  /** Index of the first entry whose host matches; entries that do not parse are skipped. */
  function FindMatch(entries: seq<Entry>, host: string, api: UrlApi): (r: Option<nat>)
    ensures r.None? <==> forall i :: 0 <= i < |entries| ==> !HostMatches(entries[i], host, api)
    ensures r.Some? ==> r.value < |entries| && HostMatches(entries[r.value], host, api)
    ensures r.Some? ==> forall j :: 0 <= j < r.value ==> !HostMatches(entries[j], host, api)
  {
    if entries == [] then None
    else if HostMatches(entries[0], host, api) then Some(0)
    else match FindMatch(entries[1..], host, api)
      case None => None
      case Some(k) => Some(k + 1)
  }

  /** The `/s/<target>` candidate: present only when the target after the prefix is non-empty. */
  function PathOverride(path: string): (r: Option<string>)
    ensures r.Some? <==> StartsWith(path, OverridePrefix) && |path| > |OverridePrefix|
    ensures r.Some? ==> HasScheme(r.value)
    ensures r.Some? ==> r.value == path[3..] || r.value == "https://" + path[3..]
    ensures r.Some? ==> (r.value == path[3..] <==> HasScheme(path[3..]))
  {
    if StartsWith(path, OverridePrefix) then
      var target := path[3..];
      if target != [] then
        if HasScheme(target) then Some(target) else Some("https://" + target)
      else None
    else None
  }

  /** The registry match, if the registry was obtained and some entry matches. */
  function RegistryMatch(registry: Option<seq<Entry>>, host: string, api: UrlApi): (r: Option<nat>)
    ensures r.Some? ==> registry.Some? && r.value < |registry.value|
  {
    match registry
    case None => None
    case Some(entries) => FindMatch(entries, host, api)
  }

  /**
   * Priorities 2 and 3. Assigning the `/s/` candidate to `href` happens outside
   * the inner `try`, so a candidate the browser rejects lands in the outer
   * `catch`, which navigates to the default.
   */
  function OverrideOrDefault(path: string, api: UrlApi): (target: string)
    ensures target == DefaultTarget || (api.accepts(target) && HasScheme(target))
  {
    match PathOverride(path)
    case Some(u) => if api.accepts(u) then u else DefaultTarget
    case None => DefaultTarget
  }

  /** True when the registry is present and one of its entries matches the current host. */
  predicate AnyMatch(registry: Option<seq<Entry>>, host: string, api: UrlApi)
  {
    registry.Some? && exists i :: 0 <= i < |registry.value| && HostMatches(registry.value[i], host, api)
  }

  /**
   * The one target confirmRestart navigates to. Assigning the registry URL to
   * `href` happens inside the inner `try`, so a URL the browser rejects falls
   * through to the `/s/` override.
   */
  function Resolve(registry: Option<seq<Entry>>, host: string, path: string, api: UrlApi): (target: string)
    ensures target == DefaultTarget || api.accepts(target)
    ensures !AnyMatch(registry, host, api) ==> HasScheme(target)
  {
    match RegistryMatch(registry, host, api)
    case Some(k) =>
      var u := api.trim(registry.value[k].url);
      if api.accepts(u) then u else OverrideOrDefault(path, api)
    case None => OverrideOrDefault(path, api)
  }

  /** Priority 1: the first entry whose host matches wins, with its URL trimmed, once the browser accepts it. */
  lemma RegistryFirstMatchWins(entries: seq<Entry>, k: nat, host: string, path: string, api: UrlApi)
    requires k < |entries| && HostMatches(entries[k], host, api)
    requires forall j :: 0 <= j < k ==> !HostMatches(entries[j], host, api)
    ensures api.accepts(api.trim(entries[k].url)) ==> Resolve(Some(entries), host, path, api) == api.trim(entries[k].url)
    ensures !api.accepts(api.trim(entries[k].url)) ==> Resolve(Some(entries), host, path, api) == OverrideOrDefault(path, api)
  {
    var r := FindMatch(entries, host, api);
    assert r.Some?;
  }

  /**
   * Priority 2: without a registry match, `/s/X` with non-empty X goes to X,
   * given a scheme if it has none, unless the browser rejects that URL, in
   * which case it goes to the default.
   */
  lemma OverrideWithoutMatch(registry: Option<seq<Entry>>, host: string, x: string, api: UrlApi)
    requires !AnyMatch(registry, host, api)
    requires x != []
    ensures HasScheme(x) && api.accepts(x) ==> Resolve(registry, host, OverridePrefix + x, api) == x
    ensures !HasScheme(x) && api.accepts("https://" + x) ==> Resolve(registry, host, OverridePrefix + x, api) == "https://" + x
    ensures HasScheme(x) && !api.accepts(x) ==> Resolve(registry, host, OverridePrefix + x, api) == DefaultTarget
    ensures !HasScheme(x) && !api.accepts("https://" + x) ==> Resolve(registry, host, OverridePrefix + x, api) == DefaultTarget
  {
    var path := OverridePrefix + x;
    assert path[..3] == OverridePrefix;
    assert path[3..] == x;
  }

  /** Priority 3: without a registry match or a usable `/s/` target, the fixed default is used. */
  lemma DefaultWithoutMatch(registry: Option<seq<Entry>>, host: string, path: string, api: UrlApi)
    requires !AnyMatch(registry, host, api)
    requires !StartsWith(path, OverridePrefix) || path == OverridePrefix
    ensures Resolve(registry, host, path, api) == DefaultTarget
  {
  }

  /**
   * Resolution always yields exactly one target: the trimmed URL of a matching
   * registry entry, or a URL with an explicit scheme that the browser accepts,
   * or the default.
   */
  lemma ResolveCases(registry: Option<seq<Entry>>, host: string, path: string, api: UrlApi)
    ensures var t := Resolve(registry, host, path, api);
            (AnyMatch(registry, host, api) &&
             exists k :: 0 <= k < |registry.value| && HostMatches(registry.value[k], host, api) && t == api.trim(registry.value[k].url))
            || t == DefaultTarget
            || (api.accepts(t) && HasScheme(t))
  {
    var r := RegistryMatch(registry, host, api);
    if r.Some? {
      assert HostMatches(registry.value[r.value], host, api);
    }
  }

  /** A failed registry fetch behaves exactly like a registry with no matching entry. */
  lemma FetchFailureIsNoMatch(entries: seq<Entry>, host: string, path: string, api: UrlApi)
    requires forall i :: 0 <= i < |entries| ==> !HostMatches(entries[i], host, api)
    ensures Resolve(None, host, path, api) == Resolve(Some(entries), host, path, api)
  {
  }

  /** `/s/bob.example/page` with no registry goes to `https://bob.example/page`. */
  lemma ExampleSchemeAdded(host: string, api: UrlApi)
    requires api.accepts("https://bob.example/page")
    ensures Resolve(None, host, "/s/bob.example/page", api) == "https://bob.example/page"
  {
    var path := "/s/bob.example/page";
    assert path[..3] == OverridePrefix;
    assert path[3..] == "bob.example/page";
    assert path[3..][..7][0] == 'b';
    assert "https://" + path[3..] == "https://bob.example/page";
  }

  /** `/s/http://already-scheme.example` is used unchanged, with no second scheme. */
  lemma ExampleSchemeKept(host: string, api: UrlApi)
    requires api.accepts("http://already-scheme.example")
    ensures Resolve(None, host, "/s/http://already-scheme.example", api) == "http://already-scheme.example"
  {
    var path := "/s/http://already-scheme.example";
    assert path[..3] == OverridePrefix;
    assert path[3..] == "http://already-scheme.example";
    assert path[3..][..7] == "http://";
  }

  /** `/s/http://` names no host; the browser rejects it and the outer `catch` sends it to the default. */
  lemma ExampleRejectedOverride(host: string, api: UrlApi)
    requires !api.accepts("http://")
    ensures Resolve(None, host, "/s/http://", api) == DefaultTarget
  {
    var path := "/s/http://";
    assert path[..3] == OverridePrefix;
    assert path[3..] == "http://";
    assert path[3..][..7] == "http://";
  }

  /** `/unknown` with no registry goes to the default. */
  lemma ExampleDefault(host: string, api: UrlApi)
    ensures Resolve(None, host, "/unknown", api) == DefaultTarget
  {
    assert "/unknown"[..3][1] == 'u';
  }
}
