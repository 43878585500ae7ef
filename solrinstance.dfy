/**
 * `RemoteInstance`: a connection to a remote Solr server holding several
 * cores. Modelled here: the defaulting of the constructor's arguments, the
 * normalisation of the base URL, the split of the URL's userinfo into
 * account and password, the choice between an authenticated and a plain
 * client, the per-core server memo of `getServer`, the loopback rewrite of
 * `getAdminInterface` and the comma split of `getShardInstances`.
 *
 * Left to the environment: the URL parser (`MultiProtocolURI`), given as the
 * function `parse`, and the HTTP and Solr client objects, seen as the values
 * they are built from.
 */
module SolrInstance {
  import opened Wrappers
  import opened JavaLang

  /** The URL used when none is given: the example configuration of Solr 4. */
  const DefaultSolrUrl: string := "http://127.0.0.1:8983/solr/"
  /** `CollectionSchema.CORE_NAME` */
  const CollectionCoreName: string := "collection1"
  /** `WebgraphSchema.CORE_NAME` */
  const WebgraphCoreName: string := "webgraph"

  const LocalhostName: string := "localhost"
  const Ipv4Loopback: string := "127.0.0.1"
  const Ipv6Loopback: string := "0:0:0:0:0:0:0:1"

  /** What the URL parser extracts from a URL. */
  datatype Uri = Uri(protocol: string, host: string, port: int, path: string, userInfo: Option<string>)

  /** The authenticated HTTP client: the host its credentials are scoped to, and the credentials. */
  datatype HttpClient = HttpClient(host: string, account: string, password: string)

  /** An `HttpSolrServer`: the URL it talks to, and the authenticated client it uses, if any. */
  datatype SolrServer = SolrServer(url: string, client: Option<HttpClient>)

  /** The `IOException` the constructor throws when the core URL is malformed. */
  datatype Failure = MalformedUrl(url: string)

  // ---------------------------------------------------------------- constructor arguments

  /**
   * The core names after the constructor's defaulting: an empty collection
   * gets the collection and webgraph core names, and the default core name
   * is added when it is not already there.
   */
  function WithDefaultCores(names: seq<string>, dflt: string): (r: seq<string>)
    ensures dflt in r
    ensures names != [] ==> names <= r
    ensures names == [] ==> [CollectionCoreName, WebgraphCoreName] <= r
    ensures forall x :: x in r ==>
      x in names || x == dflt || (names == [] && (x == CollectionCoreName || x == WebgraphCoreName))
    ensures dflt in names ==> r == names
    ensures names != [] ==> r == names || r == names + [dflt]
    ensures names == [] ==>
      r == [CollectionCoreName, WebgraphCoreName] || r == [CollectionCoreName, WebgraphCoreName, dflt]
    ensures names == [] && (dflt == CollectionCoreName || dflt == WebgraphCoreName) ==>
      r == [CollectionCoreName, WebgraphCoreName]
  {
    var base := if names == [] then [CollectionCoreName, WebgraphCoreName] else names;
    if dflt in base then base else base + [dflt]
  }

  /** Defaulting twice changes nothing more: every instance sharing a collection sees the same names. */
  lemma WithDefaultCoresIdempotent(names: seq<string>, dflt: string)
    ensures WithDefaultCores(WithDefaultCores(names, dflt), dflt) == WithDefaultCores(names, dflt)
  {
  }

  /**
   * The base URL kept by the constructor: a trailing `core + "/"` is cut
   * off, a trailing `core` without a slash is cut off, any other URL without
   * a trailing slash gets one, and any other URL is kept.
   */
  function NormalizeUrl(url: string, core: string): (r: string)
    ensures EndsWith(url, core + "/") ==> r + core + "/" == url
    ensures EndsWith(url, "/") && !EndsWith(url, core + "/") ==> r == url
    ensures !EndsWith(url, "/") && EndsWith(url, core) ==> r + core == url
    ensures !EndsWith(url, "/") && !EndsWith(url, core) ==> r == url + "/"
  {
    if EndsWith(url, "/") then
      if EndsWith(url, core + "/") then url[..|url| - |core| - 1] else url
    else if EndsWith(url, core) then url[..|url| - |core|] else url + "/"
  }

  /** The URL of core `core` on the server named by `url`. */
  function CoreUrl(url: string, core: string): string
  {
    NormalizeUrl(url, core) + core
  }

  /**
   * For a base ending in "/" and a core name that does not end in "/", the
   * core's URL with or without a trailing slash normalises to the base, so
   * that `base + core` is again the core's URL.
   */
  lemma NormalizeCoreUrl(base: string, core: string)
    requires EndsWith(base, "/")
    requires core != [] && core[|core| - 1] != '/'
    ensures NormalizeUrl(base + core, core) == base
    ensures NormalizeUrl(base + core + "/", core) == base
  {
    var u := base + core;
    assert u[|u| - |core|..] == core;
    assert u[|u| - 1] == core[|core| - 1];
    assert !EndsWith(u, "/");
    assert u[..|u| - |core|] == base;
    var w := base + core + "/";
    assert w == base + (core + "/");
    assert w[|w| - |core + "/"|..] == core + "/";
    assert w[..|w| - |core| - 1] == base;
  }

  /** The constructor's split of the URL's userinfo `account:password` at its first ':'. */
  function SplitUserInfo(userInfo: Option<string>): (r: (string, string))
    ensures userInfo == None || userInfo == Some("") ==> r == ("", "")
    ensures userInfo.Some? && ':' !in userInfo.value ==> r == (userInfo.value, "")
    ensures ':' !in r.0
    ensures userInfo.Some? && ':' in userInfo.value ==> r.0 + ":" + r.1 == userInfo.value
  {
    match userInfo
    case None => ("", "")
    case Some(u) =>
      if u == "" then ("", "")
      else
        var p := IndexOf(u, ":", 0);
        IndexOfOneChar(u, ':');
        if p < 0 then (u, "") else (u[..p], u[p + 1..])
  }

  /** The constructor's choice of client: an authenticated one exactly when the userinfo names an account. */
  function MakeClient(u: Uri): (r: Option<HttpClient>)
    ensures r.Some? <==> SplitUserInfo(u.userInfo).0 != ""
    ensures r.Some? ==> r.value == HttpClient(u.host, SplitUserInfo(u.userInfo).0, SplitUserInfo(u.userInfo).1)
  {
    var (account, password) := SplitUserInfo(u.userInfo);
    if |account| > 0 then Some(HttpClient(u.host, account, password)) else None
  }

  // ---------------------------------------------------------------- getAdminInterface

  /** The `indexOf` search of `getAdminInterface`: the first loopback spelling found, in the order tried, with its first position. */
  function FindLoopback(u: string): (r: Option<(nat, string)>)
    ensures r.Some? ==> OccursAt(u, r.value.1, r.value.0)
    ensures r.Some? ==> forall i :: 0 <= i < r.value.0 ==> !OccursAt(u, r.value.1, i)
    ensures r.Some? ==> r.value.1 == LocalhostName || r.value.1 == Ipv4Loopback || r.value.1 == Ipv6Loopback
    ensures r.Some? && r.value.1 != LocalhostName ==> forall i :: !OccursAt(u, LocalhostName, i)
    ensures r.Some? && r.value.1 == Ipv6Loopback ==> forall i :: !OccursAt(u, Ipv4Loopback, i)
    ensures r.None? ==> forall i ::
      !OccursAt(u, LocalhostName, i) && !OccursAt(u, Ipv4Loopback, i) && !OccursAt(u, Ipv6Loopback, i)
  {
    var p1 := IndexOf(u, LocalhostName, 0);
    if p1 >= 0 then Some((p1, LocalhostName))
    else
      var p2 := IndexOf(u, Ipv4Loopback, 0);
      if p2 >= 0 then Some((p2, Ipv4Loopback))
      else
        var p3 := IndexOf(u, Ipv6Loopback, 0);
        if p3 >= 0 then Some((p3, Ipv6Loopback)) else None
  }

  /** The return of `getAdminInterface`: the admin path appended, with a '/' in between only when `v` lacks a trailing one. */
  function WithAdminPath(v: string): (r: string)
    ensures EndsWith(r, "/admin/")
    ensures r == v + "admin/" || r == v + "/admin/"
    ensures r == v + "/admin/" <==> !EndsWith(v, "/")
  {
    if EndsWith(v, "/") then
      assert (v + "admin/")[|v| - 1..] == "/admin/";
      v + "admin/"
    else
      v + "/admin/"
  }

  /**
   * The rewrite of `getAdminInterface` as written: the loopback found is replaced by the external
   * address, cutting exactly 9 characters whichever spelling was found.
   */
  function AdminInterfaceAsWritten(u: string, extern: string): (r: string)
    ensures EndsWith(r, "/admin/")
  {
    match FindLoopback(u)
    case None => WithAdminPath(u)
    case Some((p, _)) => WithAdminPath(u[..p] + extern + u[p + 9..])
  }

  /** The admin URL with the loopback found replaced as a whole by the external address. */
  function AdminInterface(u: string, extern: string): (r: string)
    ensures EndsWith(r, "/admin/")
  {
    match FindLoopback(u)
    case None => WithAdminPath(u)
    case Some((p, lb)) => WithAdminPath(u[..p] + extern + u[p + |lb|..])
  }

  /** Without a loopback spelling in the URL, both forms only append the admin path. */
  lemma AdminInterfaceWithoutLoopback(u: string, extern: string)
    requires forall i ::
      !OccursAt(u, LocalhostName, i) && !OccursAt(u, Ipv4Loopback, i) && !OccursAt(u, Ipv6Loopback, i)
    ensures AdminInterfaceAsWritten(u, extern) == AdminInterface(u, extern) == WithAdminPath(u)
  {
  }

  /**
   * The corrected rewrite: the URL splits as `pre + loopback + post` at the
   * first loopback found, and the result is `pre + extern + post` with the
   * admin path.
   */
  lemma AdminInterfaceReplacesLoopback(u: string, extern: string)
    requires FindLoopback(u).Some?
    ensures var (p, lb) := FindLoopback(u).value;
      u == u[..p] + lb + u[p + |lb|..] &&
      AdminInterface(u, extern) == WithAdminPath(u[..p] + extern + u[p + |lb|..])
  {
    var (p, lb) := FindLoopback(u).value;
    SplitAround(u, lb, p);
  }

  /** For the two 9-character spellings the code as written agrees with the corrected rewrite. */
  lemma AdminInterfaceAsWrittenNineChars(u: string, extern: string)
    ensures FindLoopback(u).Some? && FindLoopback(u).value.1 != Ipv6Loopback ==>
      AdminInterfaceAsWritten(u, extern) == AdminInterface(u, extern)
  {
    if FindLoopback(u).Some? && FindLoopback(u).value.1 != Ipv6Loopback {
      var (p, lb) := FindLoopback(u).value;
      assert |lb| == 9;
    }
  }

  /**
   * For the 15-character IPv6 loopback the code as written cuts only 9
   * characters, leaving ":0:0:1" between the external address and the
   * rest of the URL.
   */
  lemma AdminInterfaceAsWrittenIpv6Tail(u: string, extern: string)
    requires FindLoopback(u).Some? && FindLoopback(u).value.1 == Ipv6Loopback
    ensures var p := FindLoopback(u).value.0;
      AdminInterfaceAsWritten(u, extern) == WithAdminPath(u[..p] + extern + ":0:0:1" + u[p + 15..])
  {
    var p := FindLoopback(u).value.0;
    assert u[p..p + 15] == Ipv6Loopback;
    assert u[p + 9..] == u[p + 9..p + 15] + u[p + 15..];
    assert u[p + 9..p + 15] == u[p..p + 15][9..];
    assert Ipv6Loopback[9..] == ":0:0:1";
    assert u[..p] + extern + u[p + 9..] == u[..p] + extern + ":0:0:1" + u[p + 15..];
  }

  /** An IPv6 loopback URL: "http://[0:0:0:0:0:0:0:1]/". */
  const Ipv6LoopbackUrl: string := "http://[" + Ipv6Loopback + "]/"

  /** In that URL, the only loopback spelling is the IPv6 one, at index 8. */
  lemma FindLoopbackIpv6Url()
    ensures FindLoopback(Ipv6LoopbackUrl) == Some((8, Ipv6Loopback))
  {
    var u := Ipv6LoopbackUrl;
    NoOccurrenceWithoutChar(u, LocalhostName, 0);
    NoOccurrenceWithoutChar(u, Ipv4Loopback, 1);
    assert u[8..23] == Ipv6Loopback;
    forall i | 0 <= i < 8
      ensures !OccursAt(u, Ipv6Loopback, i)
    {
      assert u[i] != '0';
      assert u[i..i + 15][0] == u[i];
    }
    IndexOfFirst(u, Ipv6Loopback, 0, 8);
  }

  /**
   * A URL on which the two differ: for "http://[0:0:0:0:0:0:0:1]/" the code
   * as written yields "http://[" + extern + ":0:0:1]/admin/", the corrected
   * rewrite "http://[" + extern + "]/admin/".
   */
  lemma AdminInterfaceIpv6Counterexample(extern: string)
    ensures AdminInterfaceAsWritten(Ipv6LoopbackUrl, extern) == "http://[" + extern + ":0:0:1]/admin/"
    ensures AdminInterface(Ipv6LoopbackUrl, extern) == "http://[" + extern + "]/admin/"
  {
    AdminInterfaceAsWrittenIpv6Url(extern);
    AdminInterfaceIpv6Url(extern);
  }

  /** The code as written on the IPv6 loopback URL leaves ":0:0:1" behind. */
  lemma AdminInterfaceAsWrittenIpv6Url(extern: string)
    ensures AdminInterfaceAsWritten(Ipv6LoopbackUrl, extern) == "http://[" + extern + ":0:0:1]/admin/"
  {
    var u := Ipv6LoopbackUrl;
    FindLoopbackIpv6Url();
    AdminInterfaceAsWrittenIpv6Tail(u, extern);
    assert u[..8] == "http://[" && u[23..] == "]/";
    var w := "http://[" + extern + ":0:0:1" + "]/";
    assert AdminInterfaceAsWritten(u, extern) == WithAdminPath(w);
    assert w[|w| - 1..] == "/";
    assert w + "admin/" == "http://[" + extern + ":0:0:1]/admin/";
  }

  /** The corrected rewrite on the IPv6 loopback URL replaces the whole spelling. */
  lemma AdminInterfaceIpv6Url(extern: string)
    ensures AdminInterface(Ipv6LoopbackUrl, extern) == "http://[" + extern + "]/admin/"
  {
    var u := Ipv6LoopbackUrl;
    FindLoopbackIpv6Url();
    assert u[..8] == "http://[" && u[23..] == "]/";
    var c := "http://[" + extern + "]/";
    assert AdminInterface(u, extern) == WithAdminPath(c);
    assert c[|c| - 1..] == "/";
    assert c + "admin/" == "http://[" + extern + "]/admin/";
  }

  // ---------------------------------------------------------------- instances

  /** The caller's `Collection<String>` of core names, which the constructor adds to in place. */
  class CoreNameList {
    var names: seq<string>

    /** `new ArrayList<String>()` */
    constructor ()
      ensures names == []
    {
      names := [];
    }

    /** `add(name)` */
    method Add(name: string)
      modifies this
      ensures names == old(names) + [name]
    {
      names := names + [name];
    }
  }

  class RemoteInstance {
    /** The normalised base URL; a core's URL is `solrurl + name`. */
    const solrurl: string
    const client: Option<HttpClient>
    const defaultCoreName: string
    const coreNames: CoreNameList
    /** `new MultiProtocolURI(s)`: `None` stands for `MalformedURLException`. */
    const parse: string -> Option<Uri>
    /** The servers created so far, by core name. */
    var server: map<string, SolrServer>
    var defaultServer: Option<SolrServer>

    /** The field assignments of the Java constructor, before `getServer` fills the memo. */
    constructor (solrurl: string, client: Option<HttpClient>, defaultCoreName: string,
                 coreNames: CoreNameList, parse: string -> Option<Uri>)
      ensures this.solrurl == solrurl && this.client == client
      ensures this.defaultCoreName == defaultCoreName && this.coreNames == coreNames
      ensures this.parse == parse
      ensures server == map[] && defaultServer == None
    {
      this.solrurl := solrurl;
      this.client := client;
      this.defaultCoreName := defaultCoreName;
      this.coreNames := coreNames;
      this.parse := parse;
      server := map[];
      defaultServer := None;
    }

    /**
     * The cache miss of `getServer`: a new server for core `name`. With an authenticated
     * client the URL is re-parsed and rebuilt as http://host:port/path,
     * which fails on a malformed URL; without one the URL is used as is.
     */
    function NewServer(name: string): (s: Option<SolrServer>)
      ensures client.None? ==> s == Some(SolrServer(solrurl + name, None))
      ensures client.Some? ==> (s.None? <==> parse(solrurl + name).None?)
      ensures s.Some? ==> s.value.client == client
    {
      if client.Some? then
        match parse(solrurl + name)
        case None => None
        case Some(u) => Some(SolrServer("http://" + u.host + ":" + IntToString(u.port) + u.path, client))
      else
        Some(SolrServer(solrurl + name, None))
    }

    /**
     * `getServer(name)`: the server cached for `name`, else a new one that
     * is cached before it is returned; null, with the cache unchanged, when
     * the core URL is malformed.
     */
    method GetServer(name: string) returns (s: Option<SolrServer>)
      modifies this`server
      ensures name in old(server) ==> s == Some(old(server)[name]) && server == old(server)
      ensures name !in old(server) ==> s == NewServer(name)
      ensures s.None? <==> name !in old(server) && client.Some? && parse(solrurl + name).None?
      ensures s.Some? ==> server == old(server)[name := s.value]
      ensures s.None? ==> server == old(server)
    {
      if name in server {
        return Some(server[name]);
      }
      s := NewServer(name);
      if s.Some? {
        server := server[name := s.value];
      }
    }

    /**
     * `getAdminInterface()`, given the host address of the public local IP
     * (`None` when there is none). It uses the corrected rewrite
     * `AdminInterface`; it agrees with the rewrite as written,
     * `AdminInterfaceAsWritten`, on every base URL except one whose loopback
     * host is the IPv6 spelling.
     */
    function GetAdminInterface(localhostExternAddress: Option<string>): (r: string)
      ensures EndsWith(r, "/admin/")
      ensures r == AdminInterface(solrurl, localhostExternAddress.GetOr(Ipv4Loopback))
      ensures FindLoopback(solrurl).None? || FindLoopback(solrurl).value.1 != Ipv6Loopback ==>
        r == AdminInterfaceAsWritten(solrurl, localhostExternAddress.GetOr(Ipv4Loopback))
    {
      var extern := localhostExternAddress.GetOr(Ipv4Loopback);
      // the lemma gives the agreement with the code as written (third ensures)
      AdminInterfaceAsWrittenNineChars(solrurl, extern);
      AdminInterface(solrurl, extern)
    }

    /**
     * The constructor `RemoteInstance(url, coreNames, defaultCoreName)`:
     * defaults the arguments, adds the missing core names to the caller's
     * collection, normalises the URL, parses the default core's URL (an
     * `IOException` when it is malformed), builds the client from its
     * userinfo and connects the default core.
     */
    static method Open(url: Option<string>, coreNames: CoreNameList?, defaultCoreName: Option<string>,
                       parse: string -> Option<Uri>)
      returns (r: Result<RemoteInstance, Failure>)
      modifies coreNames
      ensures var dflt := defaultCoreName.GetOr(CollectionCoreName);
        coreNames != null ==> coreNames.names == WithDefaultCores(old(coreNames.names), dflt)
      ensures var dflt := defaultCoreName.GetOr(CollectionCoreName);
        var base := NormalizeUrl(url.GetOr(DefaultSolrUrl), dflt);
        && (r.Err? <==> parse(CoreUrl(url.GetOr(DefaultSolrUrl), dflt)).None?)
        && (r.Err? ==> r.error == MalformedUrl(CoreUrl(url.GetOr(DefaultSolrUrl), dflt)))
        && (r.Ok? ==>
          var inst := r.value;
          && fresh(inst)
          && inst.solrurl == base
          && inst.defaultCoreName == dflt
          && inst.parse == parse
          && inst.client == MakeClient(parse(CoreUrl(url.GetOr(DefaultSolrUrl), dflt)).value)
          && (coreNames != null ==> inst.coreNames == coreNames)
          && (coreNames == null ==> fresh(inst.coreNames) && inst.coreNames.names == WithDefaultCores([], dflt))
          && inst.defaultServer == inst.NewServer(dflt)
          && inst.defaultServer.Some?
          && inst.server == map[dflt := inst.defaultServer.value])
    {
      var names: CoreNameList;
      if coreNames == null {
        names := new CoreNameList();
      } else {
        names := coreNames;
      }
      ghost var names0 := names.names;
      if |names.names| == 0 {
        names.Add(CollectionCoreName);
        names.Add(WebgraphCoreName);
      }
      var dflt := defaultCoreName.GetOr(CollectionCoreName);
      if dflt !in names.names {
        names.Add(dflt);
      }
      assert names.names == WithDefaultCores(names0, dflt);
      var base := NormalizeUrl(url.GetOr(DefaultSolrUrl), dflt);
      var u := parse(CoreUrl(url.GetOr(DefaultSolrUrl), dflt));
      if u.None? {
        return Err(MalformedUrl(CoreUrl(url.GetOr(DefaultSolrUrl), dflt)));
      }
      var client := MakeClient(u.value);
      var inst := new RemoteInstance(base, client, dflt, names, parse);
      var s := inst.GetServer(dflt);
      assert s == inst.NewServer(dflt) && inst.client == client;
      if s.None? {
        // The constructor's final "cannot connect" exception cannot happen: the same URL was parsed above.
        assert false;
      }
      inst.defaultServer := s;
      r := Ok(inst);
    }

    /**
     * `getShardInstances(urlList, coreNames, defaultCoreName)`: one instance
     * per comma-separated URL, in order, all sharing the caller's core-name
     * collection; the first malformed URL ends the call with its failure.
     * The source's `replace(' ', ',')` result is discarded, so spaces do not
     * separate.
     */
    static method GetShardInstances(urlList: string, coreNames: CoreNameList?, defaultCoreName: Option<string>,
                                    parse: string -> Option<Uri>)
      returns (r: Result<seq<RemoteInstance>, Failure>)
      modifies coreNames
      ensures OpenedAll(Split(urlList, ','), defaultCoreName.GetOr(CollectionCoreName), coreNames, parse, r)
      ensures r.Ok? ==> forall i :: 0 <= i < |r.value| ==> fresh(r.value[i])
      ensures coreNames != null && Split(urlList, ',') != [] ==>
        coreNames.names == WithDefaultCores(old(coreNames.names), defaultCoreName.GetOr(CollectionCoreName))
      ensures coreNames != null && Split(urlList, ',') == [] ==> coreNames.names == old(coreNames.names)
    {
      r := OpenAll(Split(urlList, ','), coreNames, defaultCoreName, parse);
    }

    /** The loop of `getShardInstances`: `Open` on each URL in turn, stopping at the first failure. */
    static method OpenAll(urls: seq<string>, coreNames: CoreNameList?, defaultCoreName: Option<string>,
                          parse: string -> Option<Uri>)
      returns (r: Result<seq<RemoteInstance>, Failure>)
      modifies coreNames
      ensures OpenedAll(urls, defaultCoreName.GetOr(CollectionCoreName), coreNames, parse, r)
      ensures r.Ok? ==> forall i :: 0 <= i < |urls| ==> fresh(r.value[i])
      ensures coreNames != null && urls != [] ==>
        coreNames.names == WithDefaultCores(old(coreNames.names), defaultCoreName.GetOr(CollectionCoreName))
      ensures coreNames != null && urls == [] ==> coreNames.names == old(coreNames.names)
    {
      ghost var dflt := defaultCoreName.GetOr(CollectionCoreName);
      ghost var names0 := if coreNames != null then coreNames.names else [];
      var instances: seq<RemoteInstance> := [];
      for i := 0 to |urls|
        invariant |instances| == i
        invariant forall j :: 0 <= j < i ==> parse(CoreUrl(urls[j], dflt)).Some?
        invariant forall j :: 0 <= j < i ==> fresh(instances[j]) && ShardOf(instances[j], urls[j], dflt, coreNames)
        invariant coreNames != null && i > 0 ==> coreNames.names == WithDefaultCores(names0, dflt)
        invariant coreNames != null && i == 0 ==> coreNames.names == names0
      {
        if coreNames != null {
          WithDefaultCoresIdempotent(names0, dflt);
        }
        var instance := Open(Some(urls[i]), coreNames, defaultCoreName, parse);
        match instance
        case Err(e) =>
          assert FirstMalformed(urls, dflt, parse, i);
          return Err(e);
        case Ok(inst) =>
          ghost var prev := instances;
          instances := instances + [inst];
          forall j | 0 <= j < i + 1
            ensures fresh(instances[j]) && ShardOf(instances[j], urls[j], dflt, coreNames)
          {
            if j < i {
              assert instances[j] == prev[j];
            }
          }
      }
      r := Ok(instances);
    }
  }

  /**
   * The outcome `getShardInstances` promises for `urls`: success exactly
   * when every URL's default core parses, then one instance per URL in
   * order; otherwise the failure of the first URL that does not parse.
   */
  ghost predicate OpenedAll(urls: seq<string>, dflt: string, coreNames: CoreNameList?, parse: string -> Option<Uri>,
                            r: Result<seq<RemoteInstance>, Failure>)
  {
    && (r.Ok? <==> forall i :: 0 <= i < |urls| ==> parse(CoreUrl(urls[i], dflt)).Some?)
    && (r.Err? ==> exists i :: 0 <= i < |urls| && FirstMalformed(urls, dflt, parse, i) && r.error == MalformedUrl(CoreUrl(urls[i], dflt)))
    && (r.Ok? ==> |r.value| == |urls|)
    && (r.Ok? ==> forall i :: 0 <= i < |urls| ==> ShardOf(r.value[i], urls[i], dflt, coreNames))
  }

  /** `urls[i]` is the first URL whose default core's URL does not parse. */
  ghost predicate FirstMalformed(urls: seq<string>, dflt: string, parse: string -> Option<Uri>, i: int)
    requires 0 <= i < |urls|
  {
    && parse(CoreUrl(urls[i], dflt)).None?
    && forall j :: 0 <= j < i ==> parse(CoreUrl(urls[j], dflt)).Some?
  }

  /** What `getShardInstances` promises of the instance it opened for `url`. */
  ghost predicate ShardOf(inst: RemoteInstance, url: string, dflt: string, coreNames: CoreNameList?)
  {
    && inst.solrurl == NormalizeUrl(url, dflt)
    && inst.defaultCoreName == dflt
    && (coreNames != null ==> inst.coreNames == coreNames)
  }
}
