/** The base-URL settings of QR_Admin: whether the site runs on localhost, the
    LAN addresses offered instead of it, the saved base URL and the list of
    choices shown on the settings page. The host name, DNS answers and
    home_url() are parameters. */
module AdminSettings {
  import opened Text

  /** home_url() with the parts parse_url() finds in it. */
  datatype HomeUrl = HomeUrl(url: string, scheme: Option<string>, host: Option<string>, port: Option<nat>)

  const LocalHosts: seq<string> := ["localhost", "127.0.0.1", "::1"]

  /** is_localhost */
  predicate IsLocalhost(home: HomeUrl)
    ensures IsLocalhost(home) <==> home.host == Some("localhost") || home.host == Some("127.0.0.1") || home.host == Some("::1")
  {
    home.host.Some? && home.host.value in LocalHosts
  }

  /** The second octet of a 172.16.0.0/12 address: `1[6-9]|2[0-9]|3[0-1]`. */
  predicate PrivateSecondOctet(d1: char, d2: char) {
    (d1 == '1' && '6' <= d2 <= '9') || (d1 == '2' && '0' <= d2 <= '9') || (d1 == '3' && (d2 == '0' || d2 == '1'))
  }

  /** `^(192\.168\.|10\.|172\.(1[6-9]|2[0-9]|3[0-1])\.)` */
  predicate IsPrivateIp(ip: string)
    ensures IsPrivateIp(ip) ==> "192.168." <= ip || "10." <= ip || "172." <= ip
    ensures "192.168." <= ip || "10." <= ip ==> IsPrivateIp(ip)
  {
    "192.168." <= ip || "10." <= ip
    || ("172." <= ip && |ip| >= 7 && PrivateSecondOctet(ip[4], ip[5]) && ip[6] == '.')
  }

  lemma TwoDigits(n: nat)
    requires 10 <= n < 100
    ensures NatToString(n) == [DigitChar(n / 10), DigitChar(n % 10)]
  {
  }

  /** The 172 branch of the pattern accepts exactly the second octets 16 to 31. */
  lemma PrivateRangeIs172Block(ip: string)
    ensures ("172." <= ip && |ip| >= 7 && PrivateSecondOctet(ip[4], ip[5]) && ip[6] == '.')
        <==> exists n :: 16 <= n <= 31 && "172." + NatToString(n) + "." <= ip
  {
    if "172." <= ip && |ip| >= 7 && PrivateSecondOctet(ip[4], ip[5]) && ip[6] == '.' {
      var n := (ip[4] as int - '0' as int) * 10 + (ip[5] as int - '0' as int);
      TwoDigits(n);
      assert "172." + NatToString(n) + "." == ip[..7];
    }
    if n :| 16 <= n <= 31 && "172." + NatToString(n) + "." <= ip {
      TwoDigits(n);
      var p := "172." + NatToString(n) + ".";
      assert |p| == 7 && p[4] == ip[4] && p[5] == ip[5] && p[6] == ip[6];
    }
  }

  /** Examples at the edges of the 172.16.0.0/12 block and of the other two prefixes. */
  lemma PrivateIpExamples()
    ensures IsPrivateIp("192.168.1.10") && IsPrivateIp("10.0.0.5") && IsPrivateIp("172.16.0.1") && IsPrivateIp("172.31.255.1")
    ensures !IsPrivateIp("172.15.0.1") && !IsPrivateIp("172.32.0.1") && !IsPrivateIp("8.8.8.8") && !IsPrivateIp("100.64.0.1")
  {
    assert "172.15.0.1"[1] == '7' && "172.32.0.1"[1] == '7';
    assert "8.8.8.8"[0] == '8' && "100.64.0.1"[1] == '0' && "100.64.0.1"[2] == '0';
  }

  /** The addresses, from a list of DNS A records, whose 'ip' is set and is an IPv4 address. */
  function RecordIps(records: seq<Option<string>>, isIpv4: string -> bool): (r: seq<string>)
    ensures forall x :: x in r <==> Some(x) in records && isIpv4(x)
  {
    if records == [] then []
    else
      var last := records[|records| - 1];
      RecordIps(records[..|records| - 1], isIpv4) + (if last.Some? && isIpv4(last.value) then [last.value] else [])
  }

  /** The inner foreach over DNS records, appending to $ips. */
  method CollectRecordIps(ips: seq<string>, records: seq<Option<string>>, isIpv4: string -> bool) returns (ips': seq<string>)
    ensures ips' == ips + RecordIps(records, isIpv4)
  {
    ips' := ips;
    var i := 0;
    while i < |records|
      invariant 0 <= i <= |records|
      invariant ips' == ips + RecordIps(records[..i], isIpv4)
    {
      assert records[..i + 1][..i] == records[..i];
      if records[i].Some? && isIpv4(records[i].value) {
        ips' := ips' + [records[i].value];
      }
      i := i + 1;
    }
    assert records[..i] == records;
  }

  /** Where get_local_ips looks: the machine's host name and what gethostbyname()
      returns for it (the name itself on failure), the DNS A records of the host
      name and of "<host name>.local", and $_SERVER['SERVER_ADDR']. */
  datatype Discovery = Discovery(hostname: Option<string>, resolved: string, hostRecords: seq<Option<string>>,
                                 localRecords: seq<Option<string>>, serverAddr: Option<string>)

  /** Every IPv4 address the three lookups produce, in the order they are appended. */
  function Discovered(d: Discovery, isIpv4: string -> bool): seq<string> {
    ByHostname(d, isIpv4) + RecordIps(d.hostRecords, isIpv4) + RecordIps(d.localRecords, isIpv4) + ByServerAddr(d, isIpv4)
  }

  /** Method 1: the resolved host name, when it resolved to an IPv4 address. */
  function ByHostname(d: Discovery, isIpv4: string -> bool): (r: seq<string>)
    ensures forall x :: x in r ==> isIpv4(x)
  {
    if !PhpEmptyOpt(d.hostname) && d.resolved != d.hostname.value && isIpv4(d.resolved) then [d.resolved] else []
  }

  /** Method 3: the server's own address, unless it is the loopback address. */
  function ByServerAddr(d: Discovery, isIpv4: string -> bool): (r: seq<string>)
    ensures forall x :: x in r ==> isIpv4(x) && x != "127.0.0.1"
  {
    if d.serverAddr.Some? && d.serverAddr.value != "127.0.0.1" && isIpv4(d.serverAddr.value) then [d.serverAddr.value] else []
  }

  /** array_filter with the private-address pattern. */
  function PrivateOnly(ips: seq<string>): (r: seq<string>)
    ensures forall x :: x in r <==> x in ips && IsPrivateIp(x)
  {
    if ips == [] then []
    else PrivateOnly(ips[..|ips| - 1]) + (if IsPrivateIp(ips[|ips| - 1]) then [ips[|ips| - 1]] else [])
  }

  /** array_unique: the first occurrence of each value, in order. */
  function Unique(ips: seq<string>): (r: seq<string>)
    ensures forall x :: x in r <==> x in ips
    ensures forall i, j :: 0 <= i < j < |r| ==> r[i] != r[j]
  {
    if ips == [] then []
    else
      var u := Unique(ips[..|ips| - 1]);
      if ips[|ips| - 1] in u then u else u + [ips[|ips| - 1]]
  }

  /** The three lookups of get_local_ips, appending to $ips in turn. */
  method Gather(d: Discovery, isIpv4: string -> bool) returns (found: seq<string>)
    ensures found == Discovered(d, isIpv4)
  {
    found := [];
    if !PhpEmptyOpt(d.hostname) {
      if d.resolved != d.hostname.value && isIpv4(d.resolved) {
        found := found + [d.resolved];
      }
    }
    assert found == ByHostname(d, isIpv4);
    found := CollectRecordIps(found, d.hostRecords, isIpv4);
    found := CollectRecordIps(found, d.localRecords, isIpv4);
    var before := found;
    if d.serverAddr.Some? && d.serverAddr.value != "127.0.0.1" {
      if isIpv4(d.serverAddr.value) {
        found := found + [d.serverAddr.value];
      }
    }
    assert found == before + ByServerAddr(d, isIpv4);
  }

  /** array_filter($ips, <private-address pattern>) */
  method FilterPrivate(found: seq<string>) returns (kept: seq<string>)
    ensures kept == PrivateOnly(found)
  {
    kept := [];
    var i := 0;
    while i < |found|
      invariant 0 <= i <= |found|
      invariant kept == PrivateOnly(found[..i])
    {
      assert found[..i + 1][..i] == found[..i];
      if IsPrivateIp(found[i]) {
        kept := kept + [found[i]];
      }
      i := i + 1;
    }
    assert found[..i] == found;
  }

  /** array_unique(array_values($ips)) */
  method Dedup(kept: seq<string>) returns (ips: seq<string>)
    ensures ips == Unique(kept)
  {
    ips := [];
    var j := 0;
    while j < |kept|
      invariant 0 <= j <= |kept|
      invariant ips == Unique(kept[..j])
    {
      assert kept[..j + 1][..j] == kept[..j];
      if kept[j] !in ips {
        ips := ips + [kept[j]];
      }
      j := j + 1;
    }
    assert kept[..j] == kept;
  }

  /** get_local_ips: the discovered addresses, filtered to private ranges, without repeats. */
  method LocalIps(d: Discovery, isIpv4: string -> bool) returns (ips: seq<string>)
    ensures ips == Unique(PrivateOnly(Discovered(d, isIpv4)))
  {
    var found := Gather(d, isIpv4);
    var kept := FilterPrivate(found);
    ips := Dedup(kept);
  }

  /** What get_local_ips promises: private addresses only, each found by a lookup, each once, and none lost. */
  lemma LocalIpsProperties(d: Discovery, isIpv4: string -> bool)
    ensures var ips := Unique(PrivateOnly(Discovered(d, isIpv4)));
      (forall x :: x in ips ==> IsPrivateIp(x) && isIpv4(x) && x in Discovered(d, isIpv4))
      && (forall x :: x in Discovered(d, isIpv4) && IsPrivateIp(x) ==> x in ips)
      && (forall i, j :: 0 <= i < j < |ips| ==> ips[i] != ips[j])
  {
    var all := Discovered(d, isIpv4);
    forall x | x in all
      ensures isIpv4(x)
    {
      var a, b := ByHostname(d, isIpv4), RecordIps(d.hostRecords, isIpv4);
      var c, e := RecordIps(d.localRecords, isIpv4), ByServerAddr(d, isIpv4);
      assert x in a || x in b || x in c || x in e;
    }
  }

  /** get_qr_base_url: the saved base URL without trailing slashes, or home_url() when none is saved. */
  function QrBaseUrl(saved: string, home: string): (r: string)
    ensures PhpEmpty(saved) ==> r == home
    ensures !PhpEmpty(saved) ==>
      (r <= saved && (r == [] || r[|r| - 1] != '/') && forall i :: |r| <= i < |saved| ==> saved[i] == '/')
  {
    if !PhpEmpty(saved) then RTrim(saved, '/') else home
  }

  lemma {:induction false} RTrimIdempotent(s: string, c: char)
    ensures RTrim(RTrim(s, c), c) == RTrim(s, c)
  {
    var r := RTrim(s, c);
    assert r == [] || r[|r| - 1] != c;
  }

  /** Trailing slashes make no difference to the saved base URL. */
  lemma QrBaseUrlIgnoresTrailingSlash(saved: string, home: string)
    requires !PhpEmpty(saved)
    ensures QrBaseUrl(saved + "/", home) == QrBaseUrl(saved, home)
  {
    assert (saved + "/")[..|saved + "/"| - 1] == saved;
  }

  /** One entry of get_base_url_options. */
  datatype UrlChoice = UrlChoice(url: string, caption: string, kind: string)

  /** `':' . $parsed['port']`, or '' without a port. */
  function PortSuffix(home: HomeUrl): string {
    if home.port.Some? then ":" + NatToString(home.port.value) else ""
  }

  /** The scheme of home_url(), 'http' when parse_url finds none. */
  function Scheme(home: HomeUrl): string {
    home.scheme.GetOr("http")
  }

  /** '.' replaced by '_' (str_replace). */
  function DotsToUnderscores(s: string): (r: string)
    ensures |r| == |s| && '.' !in r
    ensures forall i :: 0 <= i < |s| ==> r[i] == (if s[i] == '.' then '_' else s[i])
  {
    seq(|s|, i requires 0 <= i < |s| => if s[i] == '.' then '_' else s[i])
  }

  /** The key of a LAN entry: 'ip_' and the address with dots as underscores. */
  function LanKey(ip: string): string {
    "ip_" + DotsToUnderscores(ip)
  }

  /** A LAN entry: the home URL's scheme (http when it has none) and port around the address. */
  function LanChoice(home: HomeUrl, ip: string): (choice: UrlChoice)
    ensures choice.kind == "lan"
    ensures Scheme(home) + "://" + ip <= choice.url && ip <= choice.caption
    ensures home.port.None? ==> choice.url == Scheme(home) + "://" + ip && choice.caption == ip + " (LAN)"
    ensures home.port.Some? ==>
      choice.url == Scheme(home) + "://" + ip + ":" + NatToString(home.port.value)
      && choice.caption == ip + ":" + NatToString(home.port.value) + " (LAN)"
    ensures |Scheme(home) + "://"| <= |choice.url| && choice.caption == choice.url[|Scheme(home) + "://"|..] + " (LAN)"
  {
    UrlChoice(Scheme(home) + "://" + ip + PortSuffix(home), ip + PortSuffix(home) + " (LAN)", "lan")
  }

  /** The "home" entry: home_url() itself, captioned by its host and port. */
  function HomeChoice(home: HomeUrl): (choice: UrlChoice)
    ensures choice.url == home.url && choice.kind == "current"
    ensures OrEmpty(home.host) <= choice.caption
    ensures home.port.None? ==> choice.caption == OrEmpty(home.host)
    ensures home.port.Some? ==> choice.caption == OrEmpty(home.host) + ":" + NatToString(home.port.value)
  {
    UrlChoice(home.url, OrEmpty(home.host) + PortSuffix(home), "current")
  }

  /** Addresses made only of digits and dots (as IPv4 addresses are) have distinct keys. */
  lemma LanKeyInjective(a: string, b: string)
    requires '_' !in a && '_' !in b && LanKey(a) == LanKey(b)
    ensures a == b
  {
    assert DotsToUnderscores(a) == LanKey(a)[3..];
    assert DotsToUnderscores(b) == LanKey(b)[3..];
    forall i | 0 <= i < |a|
      ensures a[i] == b[i]
    {
      assert DotsToUnderscores(a)[i] == DotsToUnderscores(b)[i];
    }
  }

  /** get_base_url_options: always the current home URL under 'home'; on localhost,
      one 'lan' entry per local address, keyed by LanKey. */
  method BaseUrlOptions(home: HomeUrl, localIps: seq<string>) returns (options: map<string, UrlChoice>)
    ensures "home" in options && options["home"] == HomeChoice(home)
    ensures !IsLocalhost(home) ==> options.Keys == {"home"}
    ensures IsLocalhost(home) ==> forall ip :: ip in localIps ==> LanKey(ip) in options
    ensures forall k :: k in options && k != "home" ==>
      IsLocalhost(home) && exists ip :: ip in localIps && k == LanKey(ip) && options[k] == LanChoice(home, ip)
  {
    options := map["home" := HomeChoice(home)];
    if IsLocalhost(home) {
      var i := 0;
      while i < |localIps|
        invariant 0 <= i <= |localIps|
        invariant "home" in options && options["home"] == HomeChoice(home)
        invariant forall ip :: ip in localIps[..i] ==> LanKey(ip) in options
        invariant forall k :: k in options && k != "home" ==>
          exists ip :: ip in localIps[..i] && k == LanKey(ip) && options[k] == LanChoice(home, ip)
      {
        var ip := localIps[i];
        assert LanKey(ip)[0] == 'i';
        options := options[LanKey(ip) := LanChoice(home, ip)];
        assert localIps[..i + 1] == localIps[..i] + [ip];
        i := i + 1;
      }
      assert localIps[..i] == localIps;
    }
  }
}
