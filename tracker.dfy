/** Request classification for click analytics: device type, browser and
    operating system from the User-Agent header (each a first-match search over a
    fixed ordered list of patterns), and the client IP chosen by header priority.
    The request's server variables ($_SERVER) are a parameter. */
module Tracker {
  import opened Text

  /** The request's server variables. */
  type Server = map<string, string>

  /** `isset($_SERVER['HTTP_USER_AGENT']) ? $_SERVER['HTTP_USER_AGENT'] : ''` */
  function UserAgent(server: Server): (ua: string)
    ensures "HTTP_USER_AGENT" in server ==> ua == server["HTTP_USER_AGENT"]
    ensures "HTTP_USER_AGENT" !in server ==> ua == ""
  {
    if "HTTP_USER_AGENT" in server then server["HTTP_USER_AGENT"] else ""
  }

  /** A pattern, matched against the lower-cased user agent. AnyOf is a
      case-insensitive alternation of literals (`/chrome/i`, `/msie|trident/i`,
      or a keyword list tried with strpos); Windows11 is `/windows nt 10.*build.*(22|23)/i`. */
  datatype Pattern = AnyOf(alternatives: seq<string>) | Windows11

  datatype Rule = Rule(name: string, pattern: Pattern)

  /** `.*(22|23)`: "22" or "23" starts before the first line break ('.' does not match '\n'). */
  predicate ReleaseDigits(s: string) {
    "22" <= s || "23" <= s || (s != [] && s[0] != '\n' && ReleaseDigits(s[1..]))
  }

  /** `.*build.*(22|23)` */
  predicate BuildThenRelease(s: string) {
    ("build" <= s && ReleaseDigits(s[5..])) || (s != [] && s[0] != '\n' && BuildThenRelease(s[1..]))
  }

  /** `windows nt 10.*build.*(22|23)`, unanchored */
  predicate Windows11Match(s: string) {
    ("windows nt 10" <= s && BuildThenRelease(s[13..])) || (s != [] && Windows11Match(s[1..]))
  }

  /** Whether a pattern matches the lower-cased user agent l. */
  predicate Matches(l: string, p: Pattern) {
    match p
    case AnyOf(alternatives) => exists k :: k in alternatives && Contains(l, k)
    case Windows11 => Windows11Match(l)
  }

  /** The index of the first rule, from index i on, whose pattern matches. */
  function FirstMatch(l: string, rules: seq<Rule>, i: nat): (r: Option<nat>)
    requires i <= |rules|
    ensures r.Some? ==> i <= r.value < |rules| && Matches(l, rules[r.value].pattern)
    ensures r.Some? ==> forall j :: i <= j < r.value ==> !Matches(l, rules[j].pattern)
    ensures r.None? ==> forall j :: i <= j < |rules| ==> !Matches(l, rules[j].pattern)
    decreases |rules| - i
  {
    if i == |rules| then None
    else if Matches(l, rules[i].pattern) then Some(i)
    else FirstMatch(l, rules, i + 1)
  }

  /** The shape shared by the three classifiers: 'unknown' for an empty user
      agent, else the label of the first matching rule, else the fallback. */
  function Classify(ua: string, rules: seq<Rule>, fallback: string): (answer: string)
    ensures ClassifiedAs(ua, rules, fallback, answer)
  {
    if PhpEmpty(ua) then "unknown"
    else match FirstMatch(ToLower(ua), rules, 0)
      case Some(i) => rules[i].name
      case None => fallback
  }

  const MobileKeywords: seq<string> :=
    ["mobile", "android", "iphone", "ipod", "blackberry", "windows phone", "opera mini", "opera mobi", "iemobile"]
  const TabletKeywords: seq<string> := ["ipad", "tablet", "kindle", "playbook"]

  /** The mobile keywords are all tried before any tablet keyword. */
  const DeviceRules: seq<Rule> := [Rule("mobile", AnyOf(MobileKeywords)), Rule("tablet", AnyOf(TabletKeywords))]

  const BrowserRules: seq<Rule> := [
    Rule("Edge", AnyOf(["edge", "edg"])),
    Rule("Opera", AnyOf(["opera", "opr"])),
    Rule("Chrome", AnyOf(["chrome"])),
    Rule("Safari", AnyOf(["safari"])),
    Rule("Firefox", AnyOf(["firefox"])),
    Rule("IE", AnyOf(["msie", "trident"]))
  ]

  const OsRules: seq<Rule> := [
    Rule("Windows 11", Windows11),
    Rule("Windows 10", AnyOf(["windows nt 10"])),
    Rule("Windows 8.1", AnyOf(["windows nt 6.3"])),
    Rule("Windows 8", AnyOf(["windows nt 6.2"])),
    Rule("Windows 7", AnyOf(["windows nt 6.1"])),
    Rule("Windows Vista", AnyOf(["windows nt 6.0"])),
    Rule("Windows XP", AnyOf(["windows nt 5.1"])),
    Rule("macOS", AnyOf(["macintosh", "mac os x"])),
    Rule("iOS", AnyOf(["iphone", "ipad", "ipod"])),
    Rule("Android", AnyOf(["android"])),
    Rule("Linux", AnyOf(["linux"])),
    Rule("Chrome OS", AnyOf(["cros"]))
  ]

  predicate HasAny(l: string, keywords: seq<string>) {
    exists k :: k in keywords && Contains(l, k)
  }

  /** get_device_type */
  function DeviceType(server: Server): (d: string)
    ensures PhpEmpty(UserAgent(server)) ==> d == "unknown"
    ensures !PhpEmpty(UserAgent(server)) ==>
      d == (if HasAny(ToLower(UserAgent(server)), MobileKeywords) then "mobile"
            else if HasAny(ToLower(UserAgent(server)), TabletKeywords) then "tablet"
            else "desktop")
  {
    var l := ToLower(UserAgent(server));
    assert Matches(l, DeviceRules[0].pattern) == HasAny(l, MobileKeywords);
    assert Matches(l, DeviceRules[1].pattern) == HasAny(l, TabletKeywords);
    Classify(UserAgent(server), DeviceRules, "desktop")
  }

  /** The answer of a classifier: "unknown" for an empty user agent; otherwise the name of a rule
      that matches the lower-cased user agent with no earlier rule matching, or the fallback when
      no rule matches at all. */
  predicate ClassifiedAs(ua: string, rules: seq<Rule>, fallback: string, answer: string) {
    (PhpEmpty(ua) ==> answer == "unknown")
    && (!PhpEmpty(ua) ==>
          (exists i :: 0 <= i < |rules| && answer == rules[i].name && Matches(ToLower(ua), rules[i].pattern)
                       && forall j :: 0 <= j < i ==> !Matches(ToLower(ua), rules[j].pattern))
          || (answer == fallback && forall i :: 0 <= i < |rules| ==> !Matches(ToLower(ua), rules[i].pattern)))
  }

  /** get_browser */
  function Browser(server: Server): (b: string)
    ensures ClassifiedAs(UserAgent(server), BrowserRules, "other", b)
  {
    Classify(UserAgent(server), BrowserRules, "other")
  }

  /** get_os */
  function Os(server: Server): (o: string)
    ensures ClassifiedAs(UserAgent(server), OsRules, "other", o)
  {
    Classify(UserAgent(server), OsRules, "other")
  }

  /** A rule that matches, with no earlier rule matching, decides the label. */
  lemma {:induction false} FirstMatchIs(l: string, rules: seq<Rule>, i: nat, k: nat)
    requires i <= k < |rules| && Matches(l, rules[k].pattern)
    requires forall j :: i <= j < k ==> !Matches(l, rules[j].pattern)
    ensures FirstMatch(l, rules, i) == Some(k)
    decreases k - i
  {
    if i < k {
      FirstMatchIs(l, rules, i + 1, k);
    }
  }

  /** The possible answers of each classifier. */
  lemma ClassifierRanges(server: Server)
    ensures DeviceType(server) in {"unknown", "mobile", "tablet", "desktop"}
    ensures Browser(server) in {"unknown", "other", "Edge", "Opera", "Chrome", "Safari", "Firefox", "IE"}
    ensures Os(server) == "unknown" || Os(server) == "other" || exists r :: r in OsRules && Os(server) == r.name
  {
    var l := ToLower(UserAgent(server));
    var b := FirstMatch(l, BrowserRules, 0);
    if b.Some? {
      assert BrowserRules[b.value] in BrowserRules;
    }
    var o := FirstMatch(l, OsRules, 0);
    if o.Some? {
      assert OsRules[o.value] in OsRules;
    }
  }

  /** Only an empty user agent (unset, "" or "0") is 'unknown'. */
  lemma UnknownIffEmpty(server: Server)
    ensures DeviceType(server) == "unknown" <==> PhpEmpty(UserAgent(server))
    ensures Browser(server) == "unknown" <==> PhpEmpty(UserAgent(server))
    ensures Os(server) == "unknown" <==> PhpEmpty(UserAgent(server))
  {
    var ua := UserAgent(server);
    RuleNamesKnown();
    ClassifyUnknown(ua, DeviceRules, "desktop");
    ClassifyUnknown(ua, BrowserRules, "other");
    ClassifyUnknown(ua, OsRules, "other");
  }

  lemma RuleNamesKnown()
    ensures forall r :: r in DeviceRules ==> r.name != "unknown"
    ensures forall r :: r in BrowserRules ==> r.name != "unknown"
    ensures forall r :: r in OsRules ==> r.name != "unknown"
  {
  }

  lemma ClassifyUnknown(ua: string, rules: seq<Rule>, fallback: string)
    requires fallback != "unknown" && forall r :: r in rules ==> r.name != "unknown"
    ensures Classify(ua, rules, fallback) == "unknown" <==> PhpEmpty(ua)
  {
    if !PhpEmpty(ua) {
      var m := FirstMatch(ToLower(ua), rules, 0);
      if m.Some? {
        assert rules[m.value] in rules;
      }
    }
  }

  lemma LowerNotEmpty(ua: string)
    requires !PhpEmpty(ua)
    ensures !PhpEmpty(ToLower(ua))
  {
  }

  /** Matching ignores case: user agents that agree once lower-cased are classified alike. */
  lemma ClassifyIgnoresCase(ua: string, ua': string, rules: seq<Rule>, fallback: string)
    requires ToLower(ua) == ToLower(ua')
    ensures Classify(ua, rules, fallback) == Classify(ua', rules, fallback)
  {
    if !PhpEmpty(ua) {
      LowerNotEmpty(ua);
    }
    if !PhpEmpty(ua') {
      LowerNotEmpty(ua');
    }
  }

  /** Mobile keywords are tried before tablet keywords: "android" with "tablet" is mobile. */
  lemma AndroidTabletIsMobile(server: Server)
    requires Contains(ToLower(UserAgent(server)), "android")
    requires Contains(ToLower(UserAgent(server)), "tablet")
    ensures DeviceType(server) == "mobile"
  {
    ContainsLength(ToLower(UserAgent(server)), "android");
    assert "android" in MobileKeywords;
  }

  /** Edge and Opera come first; otherwise a user agent naming both Chrome and Safari is Chrome. */
  lemma ChromeBeforeSafari(server: Server)
    requires Contains(ToLower(UserAgent(server)), "chrome")
    requires !Contains(ToLower(UserAgent(server)), "edg") && !Contains(ToLower(UserAgent(server)), "edge")
    requires !Contains(ToLower(UserAgent(server)), "opera") && !Contains(ToLower(UserAgent(server)), "opr")
    ensures Browser(server) == "Chrome"
  {
    var l := ToLower(UserAgent(server));
    ContainsLength(l, "chrome");
    assert !PhpEmpty(UserAgent(server));
    assert Matches(l, BrowserRules[2].pattern);
    FirstMatchIs(l, BrowserRules, 0, 2);
  }

  /** Edge wins over everything: modern Edge user agents also name Chrome and Safari. */
  lemma EdgeFirst(server: Server)
    requires Contains(ToLower(UserAgent(server)), "edg")
    ensures Browser(server) == "Edge"
  {
    var l := ToLower(UserAgent(server));
    ContainsLength(l, "edg");
    assert Matches(l, BrowserRules[0].pattern);
  }

  /** A Windows 11 match also contains the Windows 10 marker, so the order of the two rules matters. */
  lemma {:induction false} Windows11ImpliesWindows10(s: string)
    requires Windows11Match(s)
    ensures Contains(s, "windows nt 10")
  {
    if !("windows nt 10" <= s && BuildThenRelease(s[13..])) {
      Windows11ImpliesWindows10(s[1..]);
    }
  }

  lemma Windows11Classified(server: Server)
    requires Windows11Match(ToLower(UserAgent(server)))
    ensures Os(server) == "Windows 11"
  {
    var l := ToLower(UserAgent(server));
    Windows11ImpliesWindows10(l);
    ContainsLength(l, "windows nt 10");
    assert Matches(l, OsRules[0].pattern);
  }

  predicate MatchesWindows(l: string) {
    exists j :: 0 <= j < 7 && Matches(l, OsRules[j].pattern)
  }

  /** macOS is tried before iOS: a user agent with both "iphone" and "mac os x"
      (as iPhone user agents have) is reported as macOS. */
  lemma MacBeforeIos(server: Server)
    requires Contains(ToLower(UserAgent(server)), "mac os x")
    requires !MatchesWindows(ToLower(UserAgent(server)))
    ensures Os(server) == "macOS"
  {
    var l := ToLower(UserAgent(server));
    ContainsLength(l, "mac os x");
    assert Matches(l, OsRules[7].pattern);
    FirstMatchIs(l, OsRules, 0, 7);
  }

  /** Android is tried before Linux: an Android user agent that also says
      "linux" is Android, provided no earlier (Windows, Apple) rule matches. */
  lemma AndroidBeforeLinux(server: Server)
    requires Contains(ToLower(UserAgent(server)), "android")
    requires forall j :: 0 <= j < 9 ==> !Matches(ToLower(UserAgent(server)), OsRules[j].pattern)
    ensures Os(server) == "Android"
  {
    var l := ToLower(UserAgent(server));
    ContainsLength(l, "android");
    assert Matches(l, OsRules[9].pattern);
    FirstMatchIs(l, OsRules, 0, 9);
  }

  // ----- client IP -----

  /** The headers tried for the client IP, highest priority first. */
  const IpKeys: seq<string> := [
    "HTTP_CF_CONNECTING_IP", "HTTP_CLIENT_IP", "HTTP_X_FORWARDED_FOR", "HTTP_X_FORWARDED",
    "HTTP_X_CLUSTER_CLIENT_IP", "HTTP_FORWARDED_FOR", "HTTP_FORWARDED", "REMOTE_ADDR"
  ]

  /** `explode(',', $s)[0]`: everything before the first comma. */
  function BeforeComma(s: string): (r: string)
    ensures r <= s && ',' !in r
    ensures |r| < |s| ==> s[|r|] == ','
  {
    if s == [] || s[0] == ',' then [] else [s[0]] + BeforeComma(s[1..])
  }

  /** The address taken from a header value: the trimmed first element of a
      comma-separated list, or the whole value (untrimmed) when it has no comma. */
  function Candidate(value: string): (ip: string)
    ensures ',' !in value ==> ip == value
    ensures ',' in value ==> ',' !in ip && ip == Trim(BeforeComma(value))
  {
    if ',' in value then Trim(BeforeComma(value)) else value
  }

  /** A header yields an address: it is set, not empty, and its candidate
      passes filter_var(..., FILTER_VALIDATE_IP), given here as `valid`. */
  predicate Usable(server: Server, key: string, valid: string -> bool) {
    key in server && !PhpEmpty(server[key]) && valid(Candidate(server[key]))
  }

  function FirstUsable(server: Server, valid: string -> bool, i: nat): (r: Option<nat>)
    requires i <= |IpKeys|
    ensures r.Some? ==> i <= r.value < |IpKeys| && Usable(server, IpKeys[r.value], valid)
    ensures r.Some? ==> forall j :: i <= j < r.value ==> !Usable(server, IpKeys[j], valid)
    ensures r.None? ==> forall j :: i <= j < |IpKeys| ==> !Usable(server, IpKeys[j], valid)
    decreases |IpKeys| - i
  {
    if i == |IpKeys| then None
    else if Usable(server, IpKeys[i], valid) then Some(i)
    else FirstUsable(server, valid, i + 1)
  }

  /** get_client_ip: the candidate of the first usable header in priority order, else 0.0.0.0. */
  function ClientIp(server: Server, valid: string -> bool): (ip: string)
    ensures ip == "0.0.0.0" || valid(ip)
    ensures (exists i :: 0 <= i < |IpKeys| && Usable(server, IpKeys[i], valid)) ==>
      exists i :: 0 <= i < |IpKeys| && Usable(server, IpKeys[i], valid) && ip == Candidate(server[IpKeys[i]])
        && forall j :: 0 <= j < i ==> !Usable(server, IpKeys[j], valid)
    ensures (forall i :: 0 <= i < |IpKeys| ==> !Usable(server, IpKeys[i], valid)) ==> ip == "0.0.0.0"
  {
    match FirstUsable(server, valid, 0)
    case Some(i) => Candidate(server[IpKeys[i]])
    case None => "0.0.0.0"
  }

  /** A forwarded list "a, b, ..." contributes its trimmed first element only. */
  lemma ForwardedListFirstElement(server: Server, valid: string -> bool, first: string, rest: string)
    requires ',' !in first
    requires "HTTP_X_FORWARDED_FOR" in server && server["HTTP_X_FORWARDED_FOR"] == first + "," + rest
    requires !Usable(server, IpKeys[0], valid) && !Usable(server, IpKeys[1], valid)
    requires valid(Trim(first))
    ensures ClientIp(server, valid) == Trim(first)
  {
    var v := first + "," + rest;
    assert v[|first|] == ',';
    var b := BeforeComma(v);
    assert b == first;
    assert v != "" && v != "0";
    assert Usable(server, IpKeys[2], valid);
  }

  // ----- parse_user_agent -----

  datatype UserAgentInfo = UserAgentInfo(deviceType: string, browser: string, os: string, raw: string)

  /** parse_user_agent($user_agent): 'raw' is the argument (or the request's
      header when the argument is null), but the three classifications are
      always computed from the request's own header. */
  function ParseUserAgent(userAgent: Option<string>, server: Server): (info: UserAgentInfo)
    ensures info.raw == (if userAgent.Some? then userAgent.value else UserAgent(server))
    ensures info.deviceType == DeviceType(server) && info.browser == Browser(server) && info.os == Os(server)
  {
    var raw := if userAgent.None? then UserAgent(server) else userAgent.value;
    UserAgentInfo(DeviceType(server), Browser(server), Os(server), raw)
  }

  /** The argument changes only 'raw'. */
  lemma ParseIgnoresArgument(a: Option<string>, b: Option<string>, server: Server)
    ensures ParseUserAgent(a, server).(raw := "") == ParseUserAgent(b, server).(raw := "")
  {
  }
}
