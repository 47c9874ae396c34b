/**
 * The decoded configuration of the proxy: the record the configuration file
 * fills in, its built-in defaults, and how the values read from the file
 * override them.
 *
 * A table of the file (the `servers` and `sources` sections) is a sequence
 * of (name, value) pairs with distinct names, listed in an arbitrary order.
 */
module Config {
  import opened Wrappers

  /** An unsigned 32-bit value (the cache TTL fields). */
  newtype u32 = x: int | 0 <= x < 0x1_0000_0000

  /** An explicitly declared resolver. */
  datatype ServerConfig = ServerConfig(
    stamp: string,
    providerName: string,
    address: string,
    publicKey: string,
    noLog: bool,
    dnssec: bool)

  /** A declared source: a remote, signed list of resolvers. The refresh delay is in hours. */
  datatype SourceConfig = SourceConfig(
    url: string,
    minisignKey: string,
    cacheFile: string,
    format: string,
    refreshDelay: int)

  /** The whole configuration. Durations are integers in their units: milliseconds for the timeout, minutes for the certificate refresh delay. */
  datatype Config = Config(
    serverNames: seq<string>,
    listenAddresses: seq<string>,
    daemonize: bool,
    forceTcp: bool,
    timeoutMs: int,
    certRefreshDelay: int,
    blockIpv6: bool,
    cache: bool,
    cacheSize: int,
    cacheNegTtl: u32,
    cacheMinTtl: u32,
    cacheMaxTtl: u32,
    servers: seq<(string, ServerConfig)>,
    sources: seq<(string, SourceConfig)>)

  /** The values in force before the configuration file is read. */
  function NewConfig(): (c: Config)
    ensures c.listenAddresses == ["127.0.0.1:53"]
    ensures c.timeoutMs == 2500 && c.certRefreshDelay == 30
    ensures c.cache && c.cacheSize == 256
    ensures c.cacheNegTtl == 60 && c.cacheMinTtl == 60 && c.cacheMaxTtl == 8600
    ensures c.serverNames == [] && c.servers == [] && c.sources == []
    ensures !c.daemonize && !c.forceTcp && !c.blockIpv6
  {
    Config(
      serverNames := [],
      listenAddresses := ["127.0.0.1:53"],
      daemonize := false,
      forceTcp := false,
      timeoutMs := 2500,
      certRefreshDelay := 30,
      blockIpv6 := false,
      cache := true,
      cacheSize := 256,
      cacheNegTtl := 60,
      cacheMinTtl := 60,
      cacheMaxTtl := 8600,
      servers := [],
      sources := [])
  }

  /** What the configuration file says: a field the file leaves out is `None`. */
  datatype Overrides = Overrides(
    serverNames: Option<seq<string>>,
    listenAddresses: Option<seq<string>>,
    daemonize: Option<bool>,
    forceTcp: Option<bool>,
    timeoutMs: Option<int>,
    certRefreshDelay: Option<int>,
    blockIpv6: Option<bool>,
    cache: Option<bool>,
    cacheSize: Option<int>,
    cacheNegTtl: Option<u32>,
    cacheMinTtl: Option<u32>,
    cacheMaxTtl: Option<u32>,
    servers: Option<seq<(string, ServerConfig)>>,
    sources: Option<seq<(string, SourceConfig)>>)

  /** A file that sets nothing. */
  const NoOverrides := Overrides(None, None, None, None, None, None, None, None, None, None, None, None, None, None)

  /** `v` is what a field holds after `o` is applied over `base`. */
  predicate Overridden<T(==)>(o: Option<T>, base: T, v: T) {
    match o
    case Some(given) => v == given
    case None => v == base
  }

  /** The decoded file applied over `base`: every field the file sets replaces the base value, every other keeps it. */
  function ApplyOverrides(base: Config, o: Overrides): (c: Config)
    ensures Overridden(o.serverNames, base.serverNames, c.serverNames)
    ensures Overridden(o.listenAddresses, base.listenAddresses, c.listenAddresses)
    ensures Overridden(o.daemonize, base.daemonize, c.daemonize)
    ensures Overridden(o.forceTcp, base.forceTcp, c.forceTcp)
    ensures Overridden(o.timeoutMs, base.timeoutMs, c.timeoutMs)
    ensures Overridden(o.certRefreshDelay, base.certRefreshDelay, c.certRefreshDelay)
    ensures Overridden(o.blockIpv6, base.blockIpv6, c.blockIpv6)
    ensures Overridden(o.cache, base.cache, c.cache)
    ensures Overridden(o.cacheSize, base.cacheSize, c.cacheSize)
    ensures Overridden(o.cacheNegTtl, base.cacheNegTtl, c.cacheNegTtl)
    ensures Overridden(o.cacheMinTtl, base.cacheMinTtl, c.cacheMinTtl)
    ensures Overridden(o.cacheMaxTtl, base.cacheMaxTtl, c.cacheMaxTtl)
    ensures Overridden(o.servers, base.servers, c.servers)
    ensures Overridden(o.sources, base.sources, c.sources)
  {
    Config(
      serverNames := o.serverNames.UnwrapOr(base.serverNames),
      listenAddresses := o.listenAddresses.UnwrapOr(base.listenAddresses),
      daemonize := o.daemonize.UnwrapOr(base.daemonize),
      forceTcp := o.forceTcp.UnwrapOr(base.forceTcp),
      timeoutMs := o.timeoutMs.UnwrapOr(base.timeoutMs),
      certRefreshDelay := o.certRefreshDelay.UnwrapOr(base.certRefreshDelay),
      blockIpv6 := o.blockIpv6.UnwrapOr(base.blockIpv6),
      cache := o.cache.UnwrapOr(base.cache),
      cacheSize := o.cacheSize.UnwrapOr(base.cacheSize),
      cacheNegTtl := o.cacheNegTtl.UnwrapOr(base.cacheNegTtl),
      cacheMinTtl := o.cacheMinTtl.UnwrapOr(base.cacheMinTtl),
      cacheMaxTtl := o.cacheMaxTtl.UnwrapOr(base.cacheMaxTtl),
      servers := o.servers.UnwrapOr(base.servers),
      sources := o.sources.UnwrapOr(base.sources))
  }

  /** A file that sets nothing keeps every default. */
  lemma EmptyFileKeepsDefaults(base: Config)
    ensures ApplyOverrides(base, NoOverrides) == base
  {
  }

  /** No name occurs twice among the keys of a table. */
  predicate DistinctKeys<V>(table: seq<(string, V)>) {
    forall i, j :: 0 <= i < j < |table| ==> table[i].0 != table[j].0
  }

  /** The names of a table, in the table's order. */
  function Keys<V>(table: seq<(string, V)>): (ks: seq<string>)
    ensures |ks| == |table|
    ensures forall i :: 0 <= i < |table| ==> ks[i] == table[i].0
  {
    if |table| == 0 then [] else [table[0].0] + Keys(table[1..])
  }

  /** The value stored under exactly `key` (no case folding), if any. */
  function Lookup<V>(table: seq<(string, V)>, key: string): (r: Option<V>)
    ensures r.Some? <==> exists i :: 0 <= i < |table| && table[i].0 == key
    ensures r.Some? ==> exists i :: 0 <= i < |table| && table[i] == (key, r.value)
  {
    if |table| == 0 then None
    else if table[0].0 == key then Some(table[0].1)
    else
      assert forall i :: 1 <= i < |table| ==> table[i] == table[1..][i - 1];
      Lookup(table[1..], key)
  }

  /** In a table with distinct names, a lookup finds exactly the pair stored under that name, wherever it sits. */
  lemma LookupFindsEntry<V>(table: seq<(string, V)>, key: string, v: V)
    requires DistinctKeys(table)
    ensures Lookup(table, key) == Some(v) <==> (key, v) in table
  {
  }
}
