/**
 * Loading the configuration into the proxy: defaults and decoded values,
 * the listen-address check, the transport mode, the wanted server names, the
 * sources, the explicitly declared servers and the final non-empty check.
 *
 * The three collaborators whose code lies outside this model (building a
 * source, parsing it, and building a stamp from legacy fields) are function
 * parameters bundled in `Collaborators`.
 */
module Loader {
  import opened Wrappers
  import opened CaseFold
  import opened Config

  /** An opaque, already validated connection descriptor for a resolver. */
  datatype ServerStamp = ServerStamp(encoded: string)

  /** One upstream resolver the proxy may forward queries to. */
  datatype RegisteredServer = RegisteredServer(name: string, stamp: ServerStamp)

  /**
   * The part of the proxy's state that loading writes. Durations are
   * integers in their units (milliseconds, minutes).
   */
  datatype Proxy = Proxy(
    timeoutMs: int,
    mainProto: string,
    certRefreshDelay: int,
    listenAddresses: seq<string>,
    daemonize: bool,
    pluginBlockIpv6: bool,
    cache: bool,
    cacheSize: int,
    cacheNegTtl: u32,
    cacheMinTtl: u32,
    cacheMaxTtl: u32,
    registeredServers: seq<RegisteredServer>)

  /** The required fields of a source, named in the order they are checked. */
  datatype SourceField = Url | MinisignKey | CacheFile | Format

  /** Why loading stops. */
  datatype LoadError =
    | DecodeFailed(reason: string)                          // the configuration file could not be decoded
    | NoListenAddress                                       // "No local IP/port configured"
    | MissingSourceField(field: SourceField, source: string) // "Missing <field> for source [<source>]"
    | StampsUnsupported                                     // a server given as a stamp string: the process stops
    | LegacyStampFailed(reason: string)                     // the legacy stamp builder's error, passed up unchanged
    | NoServers                                             // "No servers configured"

  /** What a source is built from, after validation. The refresh delay is in hours. */
  datatype SourceArgs = SourceArgs(
    url: string,
    minisignKey: string,
    cacheFile: string,
    format: string,
    refreshDelay: int)

  /**
   * The collaborators: building a source (which can fail), parsing a built
   * source into its resolvers in order (which can fail), and building a stamp
   * from an address, a public key and a provider name (which can fail).
   */
  datatype Collaborators<!S> = Collaborators(
    newSource: SourceArgs -> Result<S, string>,
    parse: S -> Result<seq<RegisteredServer>, string>,
    fromLegacy: (string, string, string) -> Result<ServerStamp, string>)

  /** The value of a required source field. */
  function FieldValue(sc: SourceConfig, f: SourceField): string {
    match f
    case Url => sc.url
    case MinisignKey => sc.minisignKey
    case CacheFile => sc.cacheFile
    case Format => sc.format
  }

  /** The position of a field in the checking order. */
  function Rank(f: SourceField): nat {
    match f
    case Url => 0
    case MinisignKey => 1
    case CacheFile => 2
    case Format => 3
  }

  /** The refresh delay in force when a source declares none (hours). */
  const DefaultRefreshDelay := 24

  /**
   * Checks a source declaration: the first empty required field, in checking
   * order, is reported together with the source's name; otherwise the
   * arguments to build the source, with a non-positive refresh delay
   * replaced by the default.
   */
  function ValidateSource(name: string, sc: SourceConfig): (r: Result<SourceArgs, LoadError>)
    ensures r.Ok? <==> forall f :: FieldValue(sc, f) != ""
    ensures r.Err? ==> r.error.MissingSourceField? && r.error.source == name
    ensures r.Err? ==> FieldValue(sc, r.error.field) == ""
    ensures r.Err? ==> forall g :: Rank(g) < Rank(r.error.field) ==> FieldValue(sc, g) != ""
    ensures r.Ok? ==> r.value.url == sc.url && r.value.minisignKey == sc.minisignKey
    ensures r.Ok? ==> r.value.cacheFile == sc.cacheFile && r.value.format == sc.format
    ensures r.Ok? && sc.refreshDelay > 0 ==> r.value.refreshDelay == sc.refreshDelay
    ensures r.Ok? && sc.refreshDelay <= 0 ==> r.value.refreshDelay == DefaultRefreshDelay
  {
    if sc.url == "" then
      assert FieldValue(sc, Url) == "";
      Err(MissingSourceField(Url, name))
    else if sc.minisignKey == "" then
      assert FieldValue(sc, MinisignKey) == "";
      Err(MissingSourceField(MinisignKey, name))
    else if sc.cacheFile == "" then
      assert FieldValue(sc, CacheFile) == "";
      Err(MissingSourceField(CacheFile, name))
    else if sc.format == "" then
      assert FieldValue(sc, Format) == "";
      Err(MissingSourceField(Format, name))
    else
      var delay := if sc.refreshDelay <= 0 then DefaultRefreshDelay else sc.refreshDelay;
      Ok(SourceArgs(sc.url, sc.minisignKey, sc.cacheFile, sc.format, delay))
  }

  /** A source declaration that passes validation. */
  predicate SourceValid(entry: (string, SourceConfig)) {
    ValidateSource(entry.0, entry.1).Ok?
  }

  /**
   * The resolvers a validated source offers: nothing when the source cannot
   * be built or cannot be parsed (both are logged and skipped), otherwise the
   * parsed list in the source's order.
   */
  function Offered<S>(env: Collaborators<S>, args: SourceArgs): (r: seq<RegisteredServer>)
    ensures env.newSource(args).Err? ==> r == []
    ensures env.newSource(args).Ok? && env.parse(env.newSource(args).value).Err? ==> r == []
    ensures env.newSource(args).Ok? && env.parse(env.newSource(args).value).Ok? ==>
              r == env.parse(env.newSource(args).value).value
  {
    match env.newSource(args)
    case Err(_) => []
    case Ok(source) =>
      match env.parse(source)
      case Err(_) => []
      case Ok(servers) => servers
  }

  /**
   * The candidates whose name is among the wanted names up to case, in their
   * order, each occurrence kept.
   */
  function FilterWanted(wanted: seq<string>, candidates: seq<RegisteredServer>): (r: seq<RegisteredServer>)
    ensures forall x :: x in r ==> IncludesName(wanted, x.name)
    ensures |r| <= |candidates|
  {
    if |candidates| == 0 then []
    else
      var rest := FilterWanted(wanted, candidates[1..]);
      if IncludesName(wanted, candidates[0].name) then [candidates[0]] + rest else rest
  }

  /**
   * Filtering keeps every occurrence of a wanted candidate and no occurrence
   * of any other: nothing is deduplicated.
   */
  lemma {:induction false} FilterWantedCounts(wanted: seq<string>, candidates: seq<RegisteredServer>, x: RegisteredServer)
    ensures multiset(FilterWanted(wanted, candidates))[x] ==
              if IncludesName(wanted, x.name) then multiset(candidates)[x] else 0
  {
    if |candidates| > 0 {
      assert candidates == [candidates[0]] + candidates[1..];
      FilterWantedCounts(wanted, candidates[1..], x);
    }
  }

  /** The counting property for every resolver at once. */
  lemma FilterWantedCountsAll(wanted: seq<string>, candidates: seq<RegisteredServer>)
    ensures forall x :: multiset(FilterWanted(wanted, candidates))[x] ==
              if IncludesName(wanted, x.name) then multiset(candidates)[x] else 0
  {
    forall x {
      FilterWantedCounts(wanted, candidates, x);
    }
  }

  /** Two passes one after the other: the first error wins, otherwise the two lists are concatenated. */
  function Then(first: Result<seq<RegisteredServer>, LoadError>, next: Result<seq<RegisteredServer>, LoadError>): (r: Result<seq<RegisteredServer>, LoadError>)
    ensures first.Err? ==> r == first
    ensures first.Ok? && next.Err? ==> r == next
    ensures r.Ok? <==> first.Ok? && next.Ok?
    ensures r.Ok? ==> |r.value| == |first.value| + |next.value|
                      && r.value[..|first.value|] == first.value && r.value[|first.value|..] == next.value
  {
    match first
    case Err(e) => Err(e)
    case Ok(xs) =>
      match next
      case Err(e) => Err(e)
      case Ok(ys) => Ok(xs + ys)
  }

  /**
   * What one declared source adds: the validation error, or the offered
   * resolvers that are wanted.
   */
  function SourceContribution<S>(env: Collaborators<S>, wanted: seq<string>, entry: (string, SourceConfig)): (r: Result<seq<RegisteredServer>, LoadError>)
    ensures r.Ok? <==> forall f :: FieldValue(entry.1, f) != ""
    ensures r.Err? ==> r.error.MissingSourceField? && r.error.source == entry.0 && FieldValue(entry.1, r.error.field) == ""
    ensures r.Ok? && env.newSource(ValidateSource(entry.0, entry.1).value).Err? ==> r == Ok([])
    ensures (r.Ok? && env.newSource(ValidateSource(entry.0, entry.1).value).Ok?
             && env.parse(env.newSource(ValidateSource(entry.0, entry.1).value).value).Err?) ==> r == Ok([])
    ensures r.Ok? ==>
              forall x :: multiset(r.value)[x] ==
                (if IncludesName(wanted, x.name) then multiset(Offered(env, ValidateSource(entry.0, entry.1).value))[x] else 0)
  {
    match ValidateSource(entry.0, entry.1)
    case Err(e) => Err(e)
    case Ok(args) =>
      var offered := Offered(env, args);
      FilterWantedCountsAll(wanted, offered);
      Ok(FilterWanted(wanted, offered))
  }

  /**
   * The resolvers the sources contribute, in the order the sources are given
   * and, within a source, in the source's order. Each source is validated
   * just before it is used, so the first invalid source stops the pass.
   */
  function LoadSources<S>(env: Collaborators<S>, wanted: seq<string>, sources: seq<(string, SourceConfig)>): (r: Result<seq<RegisteredServer>, LoadError>)
    ensures r.Err? ==> r.error.MissingSourceField?
  {
    if |sources| == 0 then Ok([])
    else
      Then(SourceContribution(env, wanted, sources[0]), LoadSources(env, wanted, sources[1..]))
  }

  /**
   * The registry entry for an explicitly declared server: a stamp string
   * stops loading whatever the other fields say; otherwise the legacy
   * builder's stamp, or its error.
   */
  function ExplicitEntry(fromLegacy: (string, string, string) -> Result<ServerStamp, string>, name: string, sc: ServerConfig): (r: Result<RegisteredServer, LoadError>)
    ensures |sc.stamp| > 0 ==> r == Err(StampsUnsupported)
    ensures |sc.stamp| == 0 && fromLegacy(sc.address, sc.publicKey, sc.providerName).Err? ==>
              r == Err(LegacyStampFailed(fromLegacy(sc.address, sc.publicKey, sc.providerName).error))
    ensures r.Ok? <==> |sc.stamp| == 0 && fromLegacy(sc.address, sc.publicKey, sc.providerName).Ok?
    ensures r.Ok? ==> r.value == RegisteredServer(name, fromLegacy(sc.address, sc.publicKey, sc.providerName).value)
  {
    if |sc.stamp| > 0 then Err(StampsUnsupported)
    else
      match fromLegacy(sc.address, sc.publicKey, sc.providerName)
      case Err(e) => Err(LegacyStampFailed(e))
      case Ok(stamp) => Ok(RegisteredServer(name, stamp))
  }

  /** A wanted name whose declared server cannot be turned into an entry. */
  predicate ExplicitFails(fromLegacy: (string, string, string) -> Result<ServerStamp, string>, servers: seq<(string, ServerConfig)>, name: string) {
    Lookup(servers, name).Some? && ExplicitEntry(fromLegacy, name, Lookup(servers, name).value).Err?
  }

  /** The wanted names that have a declared server under exactly that name, in order, repeats kept. */
  function WithEntry(wanted: seq<string>, servers: seq<(string, ServerConfig)>): seq<string> {
    if |wanted| == 0 then []
    else if Lookup(servers, wanted[0]).Some? then [wanted[0]] + WithEntry(wanted[1..], servers)
    else WithEntry(wanted[1..], servers)
  }

  /** The names of a list of resolvers. */
  function Names(servers: seq<RegisteredServer>): (ns: seq<string>)
    ensures |ns| == |servers|
    ensures forall k :: 0 <= k < |servers| ==> ns[k] == servers[k].name
  {
    seq(|servers|, k requires 0 <= k < |servers| => servers[k].name)
  }

  /**
   * The entries of the explicitly declared servers, one per wanted name
   * (in order) that has a declaration under exactly that name; names with
   * none are passed over. The first declaration that cannot be turned into an
   * entry stops the pass with its error.
   */
  function LoadExplicitServers(fromLegacy: (string, string, string) -> Result<ServerStamp, string>, wanted: seq<string>, servers: seq<(string, ServerConfig)>): (r: Result<seq<RegisteredServer>, LoadError>)
    ensures r.Ok? <==> forall i :: 0 <= i < |wanted| ==> !ExplicitFails(fromLegacy, servers, wanted[i])
    ensures r.Err? ==> r.error.StampsUnsupported? || r.error.LegacyStampFailed?
    ensures r.Ok? ==> Names(r.value) == WithEntry(wanted, servers)
    ensures r.Ok? ==> forall k :: 0 <= k < |r.value| ==>
                        Lookup(servers, r.value[k].name).Some?
                        && ExplicitEntry(fromLegacy, r.value[k].name, Lookup(servers, r.value[k].name).value) == Ok(r.value[k])
  {
    if |wanted| == 0 then Ok([])
    else
      assert forall i :: 1 <= i < |wanted| ==> wanted[i] == wanted[1..][i - 1];
      var name := wanted[0];
      match Lookup(servers, name)
      case None => LoadExplicitServers(fromLegacy, wanted[1..], servers)
      case Some(sc) =>
        match ExplicitEntry(fromLegacy, name, sc)
        case Err(e) => Err(e)
        case Ok(entry) =>
          match LoadExplicitServers(fromLegacy, wanted[1..], servers)
          case Err(e) => Err(e)
          case Ok(rest) => Ok([entry] + rest)
  }

  /**
   * The names the proxy should activate: the listed server names, or, when
   * none are listed, the names of the declared servers.
   */
  function WantedNames(config: Config): (w: seq<string>)
    ensures |config.serverNames| > 0 ==> w == config.serverNames
    ensures |config.serverNames| == 0 ==> w == Keys(config.servers)
    ensures |config.serverNames| == 0 ==>
              forall n :: n in w <==> exists i :: 0 <= i < |config.servers| && config.servers[i].0 == n
  {
    if |config.serverNames| == 0 then Keys(config.servers) else config.serverNames
  }

  /** The transport used unless stated otherwise per query. */
  function MainProto(forceTcp: bool): (p: string)
    ensures p == "tcp" <==> forceTcp
    ensures p == "udp" <==> !forceTcp
  {
    if forceTcp then "tcp" else "udp"
  }

  /**
   * Loads a decoded configuration into the proxy. The proxy's existing
   * registry is kept and extended: first with what the sources offer, then
   * with the explicitly declared servers. Loading fails when the registry
   * ends up empty.
   */
  function Load<S>(proxy: Proxy, config: Config, env: Collaborators<S>): (r: Result<Proxy, LoadError>)
    ensures |config.listenAddresses| == 0 ==> r == Err(NoListenAddress)
    ensures r.Ok? ==> |r.value.registeredServers| > 0
    ensures r.Ok? ==> proxy.registeredServers <= r.value.registeredServers
    ensures r.Ok? ==> r.value.listenAddresses == config.listenAddresses && |r.value.listenAddresses| > 0
    ensures r.Ok? ==> (r.value.mainProto == "tcp" <==> config.forceTcp)
    ensures r.Ok? ==> (r.value.mainProto == "udp" <==> !config.forceTcp)
    ensures r.Ok? ==> r.value.timeoutMs == config.timeoutMs && r.value.certRefreshDelay == config.certRefreshDelay
    ensures r.Ok? ==> r.value.daemonize == config.daemonize && r.value.pluginBlockIpv6 == config.blockIpv6
    ensures r.Ok? ==> r.value.cache == config.cache && r.value.cacheSize == config.cacheSize
    ensures r.Ok? ==> r.value.cacheNegTtl == config.cacheNegTtl && r.value.cacheMinTtl == config.cacheMinTtl
    ensures r.Ok? ==> r.value.cacheMaxTtl == config.cacheMaxTtl
    ensures r.Err? ==> (r.error.NoListenAddress? <==> |config.listenAddresses| == 0)
  {
    if |config.listenAddresses| == 0 then Err(NoListenAddress)
    else
      var wanted := WantedNames(config);
      match LoadSources(env, wanted, config.sources)
      case Err(e) => Err(e)
      case Ok(fromSources) =>
        match LoadExplicitServers(env.fromLegacy, wanted, config.servers)
        case Err(e) => Err(e)
        case Ok(explicit) =>
          var registry := proxy.registeredServers + fromSources + explicit;
          if |registry| == 0 then Err(NoServers)
          else
            Ok(Proxy(
              timeoutMs := config.timeoutMs,
              mainProto := MainProto(config.forceTcp),
              certRefreshDelay := config.certRefreshDelay,
              listenAddresses := config.listenAddresses,
              daemonize := config.daemonize,
              pluginBlockIpv6 := config.blockIpv6,
              cache := config.cache,
              cacheSize := config.cacheSize,
              cacheNegTtl := config.cacheNegTtl,
              cacheMinTtl := config.cacheMinTtl,
              cacheMaxTtl := config.cacheMaxTtl,
              registeredServers := registry))
  }

  /** A decoded file whose tables have distinct names, as a decoded map always does. */
  predicate WellFormed(decoded: Result<Overrides, string>) {
    decoded.Ok? ==>
      && (decoded.value.servers.Some? ==> DistinctKeys(decoded.value.servers.value))
      && (decoded.value.sources.Some? ==> DistinctKeys(decoded.value.sources.value))
  }

  /**
   * The entry point: the decoded file (or the decoder's error) applied over
   * the defaults, then loaded into the proxy.
   */
  function ConfigLoad<S>(proxy: Proxy, decoded: Result<Overrides, string>, env: Collaborators<S>): (r: Result<Proxy, LoadError>)
    requires WellFormed(decoded)
    ensures decoded.Err? ==> r == Err(DecodeFailed(decoded.error))
    ensures r.Ok? ==> decoded.Ok? && |r.value.registeredServers| > 0
    ensures decoded.Ok? && decoded.value.listenAddresses.None? ==> r.Ok? ==> r.value.listenAddresses == ["127.0.0.1:53"]
    ensures decoded.Ok? && decoded.value.listenAddresses.None? ==> r != Err(NoListenAddress)
    ensures decoded.Ok? && decoded.value.listenAddresses == Some([]) ==> r == Err(NoListenAddress)
  {
    match decoded
    case Err(reason) => Err(DecodeFailed(reason))
    case Ok(o) => Load(proxy, ApplyOverrides(NewConfig(), o), env)
  }
}
