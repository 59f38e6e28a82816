/** QR_Router: the tracking URL of a code, the rewrite rule that recognises it, and
    the redirect decision taken when such a URL is requested. */
module Router {
  import opened Text
  import Tracker
  import Database
  import AdminSettings

  /** get_qr_url($slug, $base_url): the base (the configured one when null) without
      trailing slashes, then '/qr/', the slug and a final '/'. `saved` is the stored
      base-URL option and `home` is home_url(). */
  function QrUrl(slug: string, baseUrl: Option<string>, saved: string, home: string): (url: string)
    ensures |url| > 0 && url[|url| - 1] == '/'
  {
    var base := if baseUrl.None? then AdminSettings.QrBaseUrl(saved, home) else baseUrl.value;
    RTrim(base, '/') + "/qr/" + slug + "/"
  }

  /** Trailing slashes on the base make no difference. */
  lemma QrUrlIgnoresTrailingSlash(slug: string, base: string, saved: string, home: string)
    ensures QrUrl(slug, Some(base + "/"), saved, home) == QrUrl(slug, Some(base), saved, home)
  {
    assert (base + "/")[..|base + "/"| - 1] == base;
  }

  /** Without a base the configured one is used: a saved base URL if there is one, else the home URL. */
  lemma QrUrlDefaultBase(slug: string, saved: string, home: string)
    ensures !PhpEmpty(saved) ==> QrUrl(slug, None, saved, home) == QrUrl(slug, Some(saved), saved, home)
    ensures PhpEmpty(saved) ==> QrUrl(slug, None, saved, home) == QrUrl(slug, Some(home), saved, home)
  {
    AdminSettings.RTrimIdempotent(saved, '/');
  }

  /** The rewrite rule `^qr/([^/]+)/?$` on the request path: the captured slug, if the path matches. */
  function RewriteMatch(path: string): (slug: Option<string>)
    ensures slug.Some? ==>
      (slug.value != "" && '/' !in slug.value && (path == "qr/" + slug.value || path == "qr/" + slug.value + "/"))
  {
    if |path| < 3 || path[..3] != "qr/" then None
    else
      var rest := path[3..];
      var segment := if rest != [] && rest[|rest| - 1] == '/' then rest[..|rest| - 1] else rest;
      if segment != "" && '/' !in segment then
        assert path == "qr/" + rest;
        Some(segment)
      else None
  }

  /** Every path of the form qr/<segment> or qr/<segment>/ is matched, and gives back its segment. */
  lemma RewriteMatchComplete(segment: string)
    requires segment != "" && '/' !in segment
    ensures RewriteMatch("qr/" + segment) == Some(segment)
    ensures RewriteMatch("qr/" + segment + "/") == Some(segment)
  {
    assert ("qr/" + segment)[3..] == segment;
    assert ("qr/" + segment + "/")[3..] == segment + "/";
    assert (segment + "/")[..|segment|] == segment;
  }

  /** With the base left to the home URL (as stored without trailing slash), the tracking URL is
      that URL followed by a path the rewrite rule maps back to the slug. */
  lemma TrackingUrlRoundTrip(slug: string, home: string)
    requires slug != "" && '/' !in slug
    requires home == [] || home[|home| - 1] != '/'
    ensures QrUrl(slug, None, "", home) == home + "/" + ("qr/" + slug + "/")
    ensures RewriteMatch("qr/" + slug + "/") == Some(slug)
  {
    RewriteMatchComplete(slug);
  }

  /** What handle_redirect does with the request. */
  datatype Action = NoAction | Redirect(location: string, status: int)

  /** The $data array track_click passes to record_click: the client IP, the raw User-Agent
      and Referer headers ('' when unset) and the three classifications; country and city are
      never set. */
  function TrackedClickData(server: Tracker.Server, isValidIp: string -> bool): (data: Database.ClickInput)
    ensures data.ipAddress == Some(Tracker.ClientIp(server, isValidIp))
    ensures data.userAgent == Some(Tracker.UserAgent(server))
    ensures "HTTP_REFERER" in server ==> data.referer == Some(server["HTTP_REFERER"])
    ensures "HTTP_REFERER" !in server ==> data.referer == Some("")
    ensures data.country.None? && data.city.None?
    ensures data.deviceType == Some(Tracker.DeviceType(server)) && data.browser == Some(Tracker.Browser(server))
      && data.os == Some(Tracker.Os(server))
  {
    var referer := if "HTTP_REFERER" in server then server["HTTP_REFERER"] else "";
    Database.ClickInput(Some(Tracker.ClientIp(server, isValidIp)), Some(Tracker.UserAgent(server)), Some(referer),
                        None, None, Some(Tracker.DeviceType(server)), Some(Tracker.Browser(server)), Some(Tracker.Os(server)))
  }

  /** handle_redirect: nothing for an empty slug; a 301 to the home URL (and no click)
      when no active code has the slug; otherwise exactly one click recorded for the
      code, then a 302 to its destination. */
  method HandleRedirect(store: Database.Store, slug: string, server: Tracker.Server, isValidIp: string -> bool, home: string)
    returns (action: Action)
    requires store.Valid()
    modifies store
    ensures store.Valid()
    ensures PhpEmpty(slug) ==>
      action == NoAction && store.clicks == old(store.clicks) && store.nextClickId == old(store.nextClickId)
    ensures !PhpEmpty(slug) && old(store.CodeBySlug(slug)).None? ==>
      action == Redirect(home, 301) && store.clicks == old(store.clicks) && store.nextClickId == old(store.nextClickId)
    ensures !PhpEmpty(slug) && old(store.CodeBySlug(slug)).Some? ==>
      var code := old(store.CodeBySlug(slug)).value;
      action == Redirect(code.destinationUrl, 302)
      && store.clicks == old(store.clicks) + [Database.NewClick(old(store.nextClickId), code.id, TrackedClickData(server, isValidIp))]
      && store.nextClickId == old(store.nextClickId) + 1
    ensures store.codes == old(store.codes) && store.nextCodeId == old(store.nextCodeId)
  {
    if PhpEmpty(slug) {
      return NoAction;
    }
    var found := store.CodeBySlug(slug);
    if found.None? {
      return Redirect(home, 301);
    }
    TrackClick(store, found.value.id, server, isValidIp);
    action := Redirect(found.value.destinationUrl, 302);
  }

  /** track_click */
  method TrackClick(store: Database.Store, qrCodeId: int, server: Tracker.Server, isValidIp: string -> bool)
    requires store.Valid()
    modifies store
    ensures store.Valid()
    ensures store.clicks == old(store.clicks) + [Database.NewClick(old(store.nextClickId), qrCodeId, TrackedClickData(server, isValidIp))]
    ensures store.nextClickId == old(store.nextClickId) + 1
    ensures store.codes == old(store.codes) && store.nextCodeId == old(store.nextCodeId)
  {
    store.RecordClick(qrCodeId, TrackedClickData(server, isValidIp));
  }

  /** A redirect raises the code's click count by exactly one and leaves every other code's count alone. */
  lemma RedirectCountsOneClick(clicks: seq<Database.Click>, next: nat, code: Database.Code, other: int,
                               server: Tracker.Server, isValidIp: string -> bool)
    requires other != code.id
    ensures var after := clicks + [Database.NewClick(next, code.id, TrackedClickData(server, isValidIp))];
      Database.ClickCount(after, code.id) == Database.ClickCount(clicks, code.id) + 1
      && Database.ClickCount(after, other) == Database.ClickCount(clicks, other)
  {
    var c := Database.NewClick(next, code.id, TrackedClickData(server, isValidIp));
    Database.ClickCountAppend(clicks, c, code.id);
    Database.ClickCountAppend(clicks, c, other);
  }
}
