/** The image repository address kept in the bke-config ConfigMap. */
module ImageRepo {
  import opened GoStrings

  datatype Repo = Repo(domain: string, ip: string, port: string, prefix: string)

  // A missing key of a Go map reads as the empty string.
  function Lookup(data: map<string, string>, key: string): string {
    if key in data then data[key] else ""
  }

  function ParseImageRepo(data: map<string, string>): Repo {
    if Lookup(data, "otherRepo") != "" then
      var img := Split(Lookup(data, "otherRepo"), '/');
      var img1 := Split(img[0], ':');
      var port := if |img1| == 2 then img1[1] else "443";
      Repo(img1[0], Lookup(data, "otherRepoIp"), port, TrimRight(Join(img[1..], '/'), '/'))
    else if Lookup(data, "onlineImage") != "" then
      var img := Split(Lookup(data, "onlineImage"), '/');
      var img1 := Split(img[0], ':');
      var port := if |img1| == 2 then img1[1] else "443";
      var ip := Lookup(data, "otherRepoIp");
      Repo(img1[0], if ip == "" then Lookup(data, "host") else ip, port, "")
    else
      Repo(Lookup(data, "domain"), "", "", "")
  }

  // How an address is printed: the port may be left out, and any number of slashes may follow.
  function Print(domain: string, port: string, prefix: string, slashes: nat): string {
    domain + (if port == "" then "" else ":" + port) + "/" + prefix + Repeat('/', slashes)
  }

  predicate Plain(s: string) {
    ':' !in s && '/' !in s
  }

  lemma SplitHost(domain: string, port: string)
    requires Plain(domain) && Plain(port)
    ensures Split(domain + (if port == "" then "" else ":" + port), ':')
         == if port == "" then [domain] else [domain, port]
  {
    if port == "" {
      assert domain + "" == domain;
      SplitFree(domain, ':');
    } else {
      assert domain + (":" + port) == domain + [':'] + port;
      SplitAtSeparator(domain, ':', port);
      SplitFree(port, ':');
    }
  }

  // Parsing undoes printing; an address without a port gets 443.
  lemma ParseUndoesPrint(data: map<string, string>, domain: string, port: string, prefix: string, slashes: nat)
    requires Plain(domain) && Plain(port)
    requires prefix == "" || prefix[|prefix| - 1] != '/'
    requires Lookup(data, "otherRepo") == Print(domain, port, prefix, slashes)
    ensures ParseImageRepo(data)
         == Repo(domain, Lookup(data, "otherRepoIp"), if port == "" then "443" else port, prefix)
  {
    var host := domain + (if port == "" then "" else ":" + port);
    var path := prefix + Repeat('/', slashes);
    assert Print(domain, port, prefix, slashes) == host + ['/'] + path;
    SplitAtSeparator(host, '/', path);
    assert ([host] + Split(path, '/'))[1..] == Split(path, '/');
    JoinSplit(path, '/');
    SplitHost(domain, port);
    TrimRightRepeat(prefix, '/', slashes);
  }

  // Offline, with neither address set, the domain is the one of the settings and nothing else is known.
  lemma OfflineDomainIsKept(data: map<string, string>, domain: string)
    requires Lookup(data, "otherRepo") == "" && Lookup(data, "onlineImage") == ""
    requires if "domain" in data then data["domain"] == domain else domain == ""
    ensures ParseImageRepo(data) == Repo(domain, "", "", "")
  {
  }

  // Without another repository the public image address gives domain and port, never a prefix, and the
  // bootstrap host stands in for a missing IP.
  lemma OnlineImageIsParsed(data: map<string, string>, domain: string, port: string, prefix: string, slashes: nat)
    requires Plain(domain) && Plain(port)
    requires Lookup(data, "otherRepo") == "" && Lookup(data, "onlineImage") == Print(domain, port, prefix, slashes)
    ensures var ip := Lookup(data, "otherRepoIp");
            ParseImageRepo(data)
            == Repo(domain, if ip == "" then Lookup(data, "host") else ip, if port == "" then "443" else port, "")
  {
    var host := domain + (if port == "" then "" else ":" + port);
    var path := prefix + Repeat('/', slashes);
    assert Print(domain, port, prefix, slashes) == host + ['/'] + path;
    SplitAtSeparator(host, '/', path);
    SplitHost(domain, port);
  }
}
