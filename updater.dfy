/** QR_GitHub_Updater: the latest GitHub release of the plugin's repository, cached on the
    updater object, decides whether WordPress is offered an update, which archive it
    downloads, and what the plugin-information popup shows. The HTTP request itself,
    PHP's version_compare and WordPress's add_query_arg are parameters. */
module Updater {
  import opened Text

  /** One entry of a release's `assets` list. */
  datatype Asset = Asset(name: string, browserDownloadUrl: string)

  /** The decoded JSON of /releases/latest, as far as the updater reads it. */
  datatype Release = Release(tagName: string, assets: seq<Asset>, zipballUrl: string, publishedAt: string, body: string)

  /** What wp_remote_get gave back: a transport error, or a status code with the body decoded
      (None when json_decode yields null). */
  datatype Fetch = TransportError | Response(code: int, decoded: Option<Release>)

  /** The plugin header fields the updater uses (get_plugin_data). */
  datatype PluginData = PluginData(name: string, version: string, authorName: string, authorUri: string,
                                   pluginUri: string, description: string)

  /** The object stored under the plugin's basename in the update transient's `response`. */
  datatype UpdateEntry = UpdateEntry(slug: string, plugin: string, newVersion: string, url: string, package: string,
                                     tested: string, requiresPhp: string)

  /** What plugin_info returns: the filter's incoming $result, untouched, or a new information object. */
  datatype InfoResult =
    | PassedThrough
    | Info(name: string, slug: string, version: string, author: string, authorProfile: string, homepage: string,
           requiresWp: string, tested: string, downloaded: int, lastUpdated: string, description: string,
           changelog: string, downloadLink: string)

  /** `$this->access_token` is truthy. */
  predicate HasToken(token: Option<string>) {
    !PhpEmptyOpt(token)
  }

  /** The request URL for the latest release of "owner/name". */
  function LatestReleaseUrl(repo: string): (url: string)
    ensures Contains(url, repo)
    ensures "https://api.github.com/repos/" <= url
  {
    ContainsMiddle("https://api.github.com/repos/", repo, "/releases/latest");
    "https://api.github.com/repos/" + repo + "/releases/latest"
  }

  /** The request headers: an Authorization header is sent exactly when a token is configured. */
  function RequestHeaders(wpVersion: string, home: string, token: Option<string>): (h: map<string, string>)
    ensures "Accept" in h && h["Accept"] == "application/vnd.github.v3+json"
    ensures "User-Agent" in h && h["User-Agent"] == "WordPress/" + wpVersion + "; " + home
    ensures "Authorization" in h <==> HasToken(token)
    ensures HasToken(token) ==> h["Authorization"] == "token " + token.value
  {
    var base := map["Accept" := "application/vnd.github.v3+json", "User-Agent" := "WordPress/" + wpVersion + "; " + home];
    if HasToken(token) then base["Authorization" := "token " + token.value] else base
  }

  /** The release version: the tag with its leading 'v's removed (ltrim($tag, 'v')). */
  function StripV(tag: string): (version: string)
    ensures version == [] || version[0] != 'v'
    ensures |version| <= |tag| && version == tag[|tag| - |version|..]
  {
    LTrim(tag, 'v')
  }

  /** Only the leading 'v's go: a tag that does not start with 'v' is its own version, and
      any number of 'v's in front of it give the same version. */
  lemma {:induction false} StripVPrefix(n: nat, tag: string)
    requires tag == [] || tag[0] != 'v'
    ensures StripV(seq(n, _ => 'v') + tag) == tag
  {
    var vs := seq(n, _ => 'v');
    if n == 0 {
      assert vs + tag == tag;
    } else {
      var vs' := seq(n - 1, _ => 'v');
      assert (vs + tag)[0] == 'v';
      assert (vs + tag)[1..] == vs' + tag;
      StripVPrefix(n - 1, tag);
    }
  }

  /** Stripping twice is stripping once. */
  lemma StripVIdempotent(tag: string)
    ensures StripV(StripV(tag)) == StripV(tag)
  {
    var v := StripV(tag);
    if v != [] {
      assert v[0] != 'v';
    }
  }

  /** The first asset whose name contains ".zip" (strpos(...) !== false). */
  function FirstZip(assets: seq<Asset>): (k: int)
    ensures -1 <= k < |assets|
    ensures k >= 0 ==> Contains(assets[k].name, ".zip")
    ensures forall i :: 0 <= i < |assets| && (k == -1 || i < k) ==> !Contains(assets[i].name, ".zip")
  {
    if assets == [] then -1
    else if Contains(assets[0].name, ".zip") then 0
    else
      var k := FirstZip(assets[1..]);
      if k == -1 then -1 else k + 1
  }

  /** The token is added as an access_token query argument when there is one. */
  function WithToken(url: string, token: Option<string>, addArg: (string, string, string) -> string): (r: string)
    ensures !HasToken(token) ==> r == url
    ensures HasToken(token) ==> r == addArg("access_token", token.value, url)
  {
    if HasToken(token) then addArg("access_token", token.value, url) else url
  }

  /** get_download_url: the first .zip asset's download URL, else the release's zipball URL,
      with the token added either way. */
  function DownloadUrl(info: Release, token: Option<string>, addArg: (string, string, string) -> string): (url: string)
    ensures var k := FirstZip(info.assets);
      url == WithToken(if k >= 0 then info.assets[k].browserDownloadUrl else info.zipballUrl, token, addArg)
  {
    if info.assets != [] && FirstZip(info.assets) >= 0 then WithToken(info.assets[FirstZip(info.assets)].browserDownloadUrl, token, addArg)
    else WithToken(info.zipballUrl, token, addArg)
  }

  /** A release with a packaged .zip is downloaded from that asset, never from the zipball. */
  lemma DownloadPrefersZipAsset(info: Release, i: nat, token: Option<string>, addArg: (string, string, string) -> string)
    requires i < |info.assets| && Contains(info.assets[i].name, ".zip")
    requires forall j :: 0 <= j < i ==> !Contains(info.assets[j].name, ".zip")
    ensures DownloadUrl(info, token, addArg) == WithToken(info.assets[i].browserDownloadUrl, token, addArg)
  {
    var k := FirstZip(info.assets);
    assert k >= 0 && k == i;
  }

  /** Without any .zip asset the zipball is downloaded. */
  lemma DownloadFallsBackToZipball(info: Release, token: Option<string>, addArg: (string, string, string) -> string)
    requires forall j :: 0 <= j < |info.assets| ==> !Contains(info.assets[j].name, ".zip")
    ensures DownloadUrl(info, token, addArg) == WithToken(info.zipballUrl, token, addArg)
  {
  }

  /** PHP's dirname on a plugin basename: the part before the last '/', "/" when that part is
      empty, "." when there is no '/'. */
  function LastSlash(p: string): (k: int)
    ensures -1 <= k < |p|
    ensures k >= 0 ==> p[k] == '/'
    ensures forall i :: k < i < |p| ==> p[i] != '/'
  {
    if p == [] then -1
    else if p[|p| - 1] == '/' then |p| - 1
    else LastSlash(p[..|p| - 1])
  }

  function Dirname(p: string): (d: string)
    ensures '/' !in p ==> d == "."
    ensures '/' in p ==> var k := LastSlash(p); k >= 0 && d == (if k == 0 then "/" else p[..k])
  {
    var k := LastSlash(p);
    if k == -1 then
      assert forall i :: 0 <= i < |p| ==> p[i] != '/';
      "."
    else if k == 0 then "/"
    else p[..k]
  }

  /** parse_changelog, for the case the code spells out: an empty body (empty() also holds
      for "0") gives the fixed message; other bodies go through the Markdown conversion. */
  function ParseChangelog(body: string, markdown: string -> string): (html: string)
    ensures PhpEmpty(body) ==> html == "No changelog available."
    ensures !PhpEmpty(body) ==> html == markdown(body)
  {
    if PhpEmpty(body) then "No changelog available." else markdown(body)
  }

  /** The update entry for a release, if its version is strictly newer than the installed one. */
  function UpdateFor(info: Release, data: PluginData, basename: string, token: Option<string>,
                     addArg: (string, string, string) -> string, newer: (string, string) -> bool): (e: Option<UpdateEntry>)
    ensures e.Some? <==> newer(StripV(info.tagName), data.version)
    ensures e.Some? ==> (e.value.newVersion == StripV(info.tagName) && e.value.plugin == basename
      && e.value.slug == Dirname(basename) && e.value.url == data.pluginUri
      && e.value.package == DownloadUrl(info, token, addArg)
      && e.value.tested == "" && e.value.requiresPhp == "")
  {
    var version := StripV(info.tagName);
    if newer(version, data.version) then
      Some(UpdateEntry(Dirname(basename), basename, version, data.pluginUri, DownloadUrl(info, token, addArg), "", ""))
    else None
  }

  /** A release tagged "v" + the installed version is never offered when the comparison is
      irreflexive, whatever the number of leading 'v's. */
  lemma SameVersionNoUpdate(n: nat, info: Release, data: PluginData, basename: string, token: Option<string>,
                            addArg: (string, string, string) -> string, newer: (string, string) -> bool)
    requires data.version == [] || data.version[0] != 'v'
    requires info.tagName == seq(n, _ => 'v') + data.version
    requires !newer(data.version, data.version)
    ensures UpdateFor(info, data, basename, token, addArg, newer).None?
  {
    StripVPrefix(n, data.version);
  }

  /** The site transient `update_plugins`, as check_update sees it. */
  class UpdateTransient {
    var checked: map<string, string>
    var response: map<string, UpdateEntry>

    constructor (checked: map<string, string>, response: map<string, UpdateEntry>)
      ensures this.checked == checked && this.response == response
    {
      this.checked := checked;
      this.response := response;
    }
  }

  /** The cache after get_repository_info: a cached release stays; otherwise the release of a
      status-200 answer is cached, and anything else leaves the cache empty. */
  function AfterLookup(cached: Option<Release>, fetch: Fetch): (r: Option<Release>)
    ensures cached.Some? ==> r == cached
    ensures cached.None? && fetch.Response? && fetch.code == 200 ==> r == fetch.decoded
    ensures cached.None? && !(fetch.Response? && fetch.code == 200) ==> r.None?
  {
    if cached.Some? then cached
    else if fetch.Response? && fetch.code == 200 then fetch.decoded
    else None
  }

  /** The number of requests a lookup makes: none on a cache hit, one otherwise. */
  function LookupRequests(cached: Option<Release>): nat {
    if cached.Some? then 0 else 1
  }

  class GitHubUpdater {
    const githubRepo: string
    const accessToken: Option<string>
    var pluginData: PluginData
    var slug: string
    /** $github_response: the cached release, None while nothing is cached. */
    var githubResponse: Option<Release>
    /** The number of requests made to the GitHub API so far. */
    ghost var requests: nat

    constructor (githubRepo: string, accessToken: Option<string>)
      ensures this.githubRepo == githubRepo && this.accessToken == accessToken
      ensures githubResponse.None? && requests == 0
    {
      this.githubRepo := githubRepo;
      this.accessToken := accessToken;
      pluginData := PluginData("", "", "", "", "", "");
      slug := "";
      githubResponse := None;
      requests := 0;
    }

    /** set_plugin_properties: the header of the main plugin file and its basename. */
    method SetPluginProperties(data: PluginData, basename: string)
      modifies this
      ensures pluginData == data && slug == basename
      ensures githubResponse == old(githubResponse) && requests == old(requests)
    {
      pluginData := data;
      slug := basename;
    }

    /** get_repository_info: the cached release if there is one, without a request; otherwise
        one request, whose release (on status 200) is cached and returned. A transport error or
        another status gives None and leaves the cache empty. `fetch` is what the request gives. */
    method GetRepositoryInfo(fetch: Fetch) returns (info: Option<Release>)
      modifies this
      ensures pluginData == old(pluginData) && slug == old(slug)
      ensures old(githubResponse).Some? ==> (info == old(githubResponse) && githubResponse == old(githubResponse)
        && requests == old(requests))
      ensures old(githubResponse).None? ==> (requests == old(requests) + 1
        && info == githubResponse
        && (fetch.Response? && fetch.code == 200 ==> githubResponse == fetch.decoded)
        && (!(fetch.Response? && fetch.code == 200) ==> githubResponse.None?))
    {
      if githubResponse.Some? {
        return githubResponse;
      }
      requests := requests + 1;
      if fetch.TransportError? || fetch.code != 200 {
        return None;
      }
      githubResponse := fetch.decoded;
      info := githubResponse;
    }

    /** clear_update_cache: the cached release is dropped, so the next lookup asks GitHub again. */
    method ClearUpdateCache()
      modifies this
      ensures githubResponse.None?
      ensures pluginData == old(pluginData) && slug == old(slug) && requests == old(requests)
    {
      githubResponse := None;
    }

    /** check_update: nothing happens when the transient has no checked versions; otherwise the
        plugin header is read and the release looked up, and an entry is put under the plugin's
        basename exactly when the release is strictly newer. No other entry changes. */
    method CheckUpdate(transient: UpdateTransient, data: PluginData, basename: string, fetch: Fetch,
                       addArg: (string, string, string) -> string, newer: (string, string) -> bool)
      modifies this, transient
      ensures transient.checked == old(transient.checked)
      ensures old(transient.checked) == map[] ==> (transient.response == old(transient.response)
        && githubResponse == old(githubResponse) && requests == old(requests)
        && pluginData == old(pluginData) && slug == old(slug))
      ensures old(transient.checked) != map[] ==> (pluginData == data && slug == basename
        && githubResponse == AfterLookup(old(githubResponse), fetch)
        && requests == old(requests) + LookupRequests(old(githubResponse)))
      ensures old(transient.checked) != map[] && githubResponse.None? ==> transient.response == old(transient.response)
      ensures old(transient.checked) != map[] && githubResponse.Some? ==>
        var e := UpdateFor(githubResponse.value, data, basename, accessToken, addArg, newer);
        transient.response == (if e.Some? then old(transient.response)[basename := e.value] else old(transient.response))
    {
      if transient.checked == map[] {
        return;
      }
      SetPluginProperties(data, basename);
      var info := GetRepositoryInfo(fetch);
      if info.Some? {
        OfferUpdate(transient, info.value, addArg, newer);
      }
    }

    /** The version gate of check_update: the plugin's entry is set when the release is newer. */
    method OfferUpdate(transient: UpdateTransient, info: Release, addArg: (string, string, string) -> string,
                       newer: (string, string) -> bool)
      modifies transient
      ensures transient.checked == old(transient.checked)
      ensures var e := UpdateFor(info, pluginData, slug, accessToken, addArg, newer);
        transient.response == (if e.Some? then old(transient.response)[slug := e.value] else old(transient.response))
    {
      var e := UpdateFor(info, pluginData, slug, accessToken, addArg, newer);
      if e.Some? {
        transient.response := transient.response[slug := e.value];
      }
    }

    /** plugin_info: the incoming result unless the request is for plugin_information about this
        plugin's directory and a release is known; then the popup's information object. */
    method PluginInfo(action: string, argsSlug: Option<string>, data: PluginData, basename: string, fetch: Fetch,
                      wpVersion: string, addArg: (string, string, string) -> string, markdown: string -> string)
      returns (result: InfoResult)
      modifies this
      ensures action != "plugin_information" || argsSlug != Some(Dirname(old(slug))) ==>
        result == PassedThrough && githubResponse == old(githubResponse) && requests == old(requests)
        && pluginData == old(pluginData) && slug == old(slug)
      ensures result.Info? ==> (action == "plugin_information" && argsSlug == Some(Dirname(old(slug)))
        && githubResponse.Some? && pluginData == data && slug == basename
        && result == InfoFor(githubResponse.value, data, basename, accessToken, wpVersion, addArg, markdown))
      ensures action == "plugin_information" && argsSlug == Some(Dirname(old(slug))) ==>
        ((result.Info? <==> githubResponse.Some?)
        && pluginData == data && slug == basename
        && githubResponse == AfterLookup(old(githubResponse), fetch)
        && requests == old(requests) + LookupRequests(old(githubResponse)))
    {
      if action != "plugin_information" {
        return PassedThrough;
      }
      if argsSlug.None? || argsSlug.value != Dirname(slug) {
        return PassedThrough;
      }
      SetPluginProperties(data, basename);
      var info := GetRepositoryInfo(fetch);
      if info.None? {
        return PassedThrough;
      }
      result := InfoFor(info.value, pluginData, slug, accessToken, wpVersion, addArg, markdown);
    }
  }

  /** The information object plugin_info builds for a release. */
  function InfoFor(info: Release, data: PluginData, basename: string, token: Option<string>, wpVersion: string,
                   addArg: (string, string, string) -> string, markdown: string -> string): (r: InfoResult)
    ensures r.Info? && r.version == StripV(info.tagName) && r.slug == Dirname(basename)
    ensures r.requiresWp == "5.0" && r.tested == wpVersion && r.downloaded == 0
    ensures r.changelog == ParseChangelog(info.body, markdown) && r.downloadLink == DownloadUrl(info, token, addArg)
    ensures r.name == data.name && r.author == data.authorName && r.authorProfile == data.authorUri
    ensures r.homepage == data.pluginUri && r.description == data.description && r.lastUpdated == info.publishedAt
  {
    Info(data.name, Dirname(basename), StripV(info.tagName), data.authorName, data.authorUri, data.pluginUri,
         "5.0", wpVersion, 0, info.publishedAt, data.description, ParseChangelog(info.body, markdown),
         DownloadUrl(info, token, addArg))
  }

  /** After a successful lookup, a second lookup makes no request and gives the same release,
      whatever the network would now answer; clearing the cache makes the next lookup ask again. */
  method CachedLookup(u: GitHubUpdater, first: Fetch, second: Fetch) returns (a: Option<Release>, b: Option<Release>)
    modifies u
    ensures a.Some? ==> b == a && u.requests == old(u.requests) + (if old(u.githubResponse).None? then 1 else 0)
  {
    a := u.GetRepositoryInfo(first);
    b := u.GetRepositoryInfo(second);
  }
}
