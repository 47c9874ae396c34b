/**
 * Properties relating several loads: how the passes compose, which failures
 * are skipped and which stop loading, and what ends up in the registry.
 */
module LoaderFacts {
  import opened Wrappers
  import opened CaseFold
  import opened Config
  import opened Loader

  /** Filtering splits over concatenation: order is kept and nothing is merged across the two parts. */
  lemma {:induction false} FilterWantedAppend(wanted: seq<string>, a: seq<RegisteredServer>, b: seq<RegisteredServer>)
    ensures FilterWanted(wanted, a + b) == FilterWanted(wanted, a) + FilterWanted(wanted, b)
  {
    if |a| > 0 {
      assert (a + b)[1..] == a[1..] + b;
      FilterWantedAppend(wanted, a[1..], b);
    } else {
      assert a + b == b;
    }
  }

  /** Sequencing passes is associative, and an empty successful pass is neutral on both sides. */
  lemma ThenAssociative(x: Result<seq<RegisteredServer>, LoadError>, y: Result<seq<RegisteredServer>, LoadError>, z: Result<seq<RegisteredServer>, LoadError>)
    ensures Then(Then(x, y), z) == Then(x, Then(y, z))
    ensures Then(Ok([]), x) == x && Then(x, Ok([])) == x
  {
    if x.Ok? && y.Ok? && z.Ok? {
      assert (x.value + y.value) + z.value == x.value + (y.value + z.value);
    }
    if x.Ok? {
      assert [] + x.value == x.value && x.value + [] == x.value;
    }
  }

  /**
   * Loading two lists of sources one after the other is the same as loading
   * their concatenation: the first error wins, otherwise the contributions
   * are concatenated in order, duplicates included.
   */
  lemma {:induction false} LoadSourcesAppend<S>(env: Collaborators<S>, wanted: seq<string>, a: seq<(string, SourceConfig)>, b: seq<(string, SourceConfig)>)
    ensures LoadSources(env, wanted, a + b) == Then(LoadSources(env, wanted, a), LoadSources(env, wanted, b))
  {
    if |a| == 0 {
      assert a + b == b;
      ThenAssociative(LoadSources(env, wanted, b), Ok([]), Ok([]));
    } else {
      var ab := a + b;
      assert ab[0] == a[0];
      assert ab[1..] == a[1..] + b;
      LoadSourcesAppend(env, wanted, a[1..], b);
      ThenAssociative(SourceContribution(env, wanted, a[0]), LoadSources(env, wanted, a[1..]), LoadSources(env, wanted, b));
    }
  }

  /** The sources pass succeeds exactly when every declared source is complete. */
  lemma {:induction false} LoadSourcesOkIffValid<S>(env: Collaborators<S>, wanted: seq<string>, sources: seq<(string, SourceConfig)>)
    ensures LoadSources(env, wanted, sources).Ok? <==> forall i :: 0 <= i < |sources| ==> SourceValid(sources[i])
  {
    if |sources| > 0 {
      LoadSourcesOkIffValid(env, wanted, sources[1..]);
      assert forall i :: 1 <= i < |sources| ==> sources[i] == sources[1..][i - 1];
    }
  }

  /**
   * When the sources pass fails, it reports the validation error of the
   * first incomplete source in the order given.
   */
  lemma {:induction false} LoadSourcesFirstError<S>(env: Collaborators<S>, wanted: seq<string>, sources: seq<(string, SourceConfig)>)
    requires LoadSources(env, wanted, sources).Err?
    ensures exists i :: 0 <= i < |sources| && !SourceValid(sources[i])
              && (forall j :: 0 <= j < i ==> SourceValid(sources[j]))
              && LoadSources(env, wanted, sources).error == ValidateSource(sources[i].0, sources[i].1).error
  {
    if SourceValid(sources[0]) {
      LoadSourcesFirstError(env, wanted, sources[1..]);
      var i :| 0 <= i < |sources[1..]| && !SourceValid(sources[1..][i])
               && (forall j :: 0 <= j < i ==> SourceValid(sources[1..][j]))
               && LoadSources(env, wanted, sources[1..]).error == ValidateSource(sources[1..][i].0, sources[1..][i].1).error;
      assert forall j :: 1 <= j < i + 1 ==> sources[j] == sources[1..][j - 1];
      assert sources[i + 1] == sources[1..][i];
    }
  }

  /** Everything the sources pass yields has a wanted name, up to case. */
  lemma {:induction false} LoadSourcesYieldsWanted<S>(env: Collaborators<S>, wanted: seq<string>, sources: seq<(string, SourceConfig)>)
    requires LoadSources(env, wanted, sources).Ok?
    ensures forall x :: x in LoadSources(env, wanted, sources).value ==> IncludesName(wanted, x.name)
  {
    if |sources| > 0 {
      LoadSourcesYieldsWanted(env, wanted, sources[1..]);
    }
  }

  /** Everything the sources pass yields was offered by one of the declared sources, which is complete. */
  lemma {:induction false} LoadSourcesYieldsOffered<S>(env: Collaborators<S>, wanted: seq<string>, sources: seq<(string, SourceConfig)>)
    requires LoadSources(env, wanted, sources).Ok?
    ensures forall x :: x in LoadSources(env, wanted, sources).value ==>
              exists i :: 0 <= i < |sources| && SourceValid(sources[i]) && x in Offered(env, ValidateSource(sources[i].0, sources[i].1).value)
  {
    if |sources| > 0 {
      LoadSourcesYieldsOffered(env, wanted, sources[1..]);
      var here := SourceContribution(env, wanted, sources[0]).value;
      FilterWantedIsSubset(wanted, Offered(env, ValidateSource(sources[0].0, sources[0].1).value));
      forall x | x in LoadSources(env, wanted, sources).value
        ensures exists i :: 0 <= i < |sources| && SourceValid(sources[i]) && x in Offered(env, ValidateSource(sources[i].0, sources[i].1).value)
      {
        if x !in here {
          var i :| 0 <= i < |sources[1..]| && SourceValid(sources[1..][i]) && x in Offered(env, ValidateSource(sources[1..][i].0, sources[1..][i].1).value);
          assert sources[i + 1] == sources[1..][i];
        }
      }
    }
  }

  /** What filtering keeps is wanted and was a candidate. */
  lemma {:induction false} FilterWantedIsSubset(wanted: seq<string>, candidates: seq<RegisteredServer>)
    ensures forall x :: x in FilterWanted(wanted, candidates) ==> x in candidates && IncludesName(wanted, x.name)
  {
    if |candidates| > 0 {
      FilterWantedIsSubset(wanted, candidates[1..]);
    }
  }

  /**
   * An incomplete source makes the whole load fail, naming the source and its
   * first missing field, once the listen addresses are present and every
   * source before it is complete.
   */
  lemma IncompleteSourceIsFatal<S>(proxy: Proxy, config: Config, env: Collaborators<S>, i: nat)
    requires |config.listenAddresses| > 0
    requires i < |config.sources|
    requires !SourceValid(config.sources[i])
    requires forall j :: 0 <= j < i ==> SourceValid(config.sources[j])
    ensures Load(proxy, config, env) == Err(ValidateSource(config.sources[i].0, config.sources[i].1).error)
  {
    var wanted := WantedNames(config);
    var sources := config.sources;
    assert sources == sources[..i] + sources[i..];
    LoadSourcesAppend(env, wanted, sources[..i], sources[i..]);
    assert forall j :: 0 <= j < |sources[..i]| ==> sources[..i][j] == sources[j];
    LoadSourcesOkIffValid(env, wanted, sources[..i]);
    assert sources[i..][0] == sources[i];
    assert LoadSources(env, wanted, sources[i..]) == Err(ValidateSource(sources[i].0, sources[i].1).error);
  }

  /** A source whose declaration is complete but which cannot be built or parsed offers nothing. */
  predicate SourceUnusable<S>(env: Collaborators<S>, entry: (string, SourceConfig)) {
    SourceValid(entry) && Offered(env, ValidateSource(entry.0, entry.1).value) == []
  }

  /** A complete source that fails to build or to parse is skipped: loading behaves as if it were not declared. */
  lemma FailedSourceIsSkipped<S>(env: Collaborators<S>, wanted: seq<string>,
                                 before: seq<(string, SourceConfig)>, entry: (string, SourceConfig), after: seq<(string, SourceConfig)>)
    requires SourceValid(entry)
    requires env.newSource(ValidateSource(entry.0, entry.1).value).Err?
          || env.parse(env.newSource(ValidateSource(entry.0, entry.1).value).value).Err?
    ensures LoadSources(env, wanted, before + [entry] + after) == LoadSources(env, wanted, before + after)
  {
    assert SourceUnusable(env, entry);
    UnusableSourceIsSkipped(env, wanted, before, entry, after);
  }

  /** A source that offers nothing leaves the sources' contribution and its errors unchanged. */
  lemma UnusableSourceIsSkipped<S>(env: Collaborators<S>, wanted: seq<string>,
                                   before: seq<(string, SourceConfig)>, entry: (string, SourceConfig), after: seq<(string, SourceConfig)>)
    requires SourceUnusable(env, entry)
    ensures LoadSources(env, wanted, before + [entry] + after) == LoadSources(env, wanted, before + after)
  {
    assert LoadSources(env, wanted, [entry]) == Ok([]) by {
      assert [entry][1..] == [];
      assert [entry][0] == entry;
      assert FilterWanted(wanted, []) == [];
      assert SourceContribution(env, wanted, entry) == Ok([]);
    }
    LoadSourcesAppend(env, wanted, before, [entry]);
    ThenAssociative(LoadSources(env, wanted, before), Ok([]), Ok([]));
    LoadSourcesAppend(env, wanted, before + [entry], after);
    LoadSourcesAppend(env, wanted, before, after);
  }

  /** The same holds for the whole load: a complete but unusable source changes nothing, not even the error reported. */
  lemma LoadSkipsUnusableSource<S>(proxy: Proxy, config: Config, env: Collaborators<S>,
                                   before: seq<(string, SourceConfig)>, entry: (string, SourceConfig), after: seq<(string, SourceConfig)>)
    requires SourceUnusable(env, entry)
    ensures Load(proxy, config.(sources := before + [entry] + after), env) == Load(proxy, config.(sources := before + after), env)
  {
    UnusableSourceIsSkipped(env, WantedNames(config), before, entry, after);
  }

  /** All sources complete but unusable contribute nothing. */
  lemma {:induction false} UnusableSourcesContributeNothing<S>(env: Collaborators<S>, wanted: seq<string>, sources: seq<(string, SourceConfig)>)
    requires forall i :: 0 <= i < |sources| ==> SourceUnusable(env, sources[i])
    ensures LoadSources(env, wanted, sources) == Ok([])
  {
    if |sources| > 0 {
      assert forall i :: 0 <= i < |sources[1..]| ==> sources[1..][i] == sources[i + 1];
      UnusableSourcesContributeNothing(env, wanted, sources[1..]);
      assert SourceUnusable(env, sources[0]);
      assert FilterWanted(wanted, []) == [];
      assert SourceContribution(env, wanted, sources[0]) == Ok([]);
    }
  }

  /**
   * Loading fails with "no servers" exactly when the listen addresses are
   * present, neither pass fails, and neither the proxy's earlier registry nor
   * the two passes supply a single resolver.
   */
  lemma NoServersExactly<S>(proxy: Proxy, config: Config, env: Collaborators<S>)
    ensures Load(proxy, config, env) == Err(NoServers) <==>
              && |config.listenAddresses| > 0
              && |proxy.registeredServers| == 0
              && LoadSources(env, WantedNames(config), config.sources) == Ok([])
              && LoadExplicitServers(env.fromLegacy, WantedNames(config), config.servers) == Ok([])
  {
  }

  /** A wanted name without a declared server contributes no explicit entry. */
  lemma {:induction false} NoDeclarationNoEntry(wanted: seq<string>, servers: seq<(string, ServerConfig)>)
    requires forall i :: 0 <= i < |wanted| ==> Lookup(servers, wanted[i]).None?
    ensures WithEntry(wanted, servers) == []
  {
    if |wanted| > 0 {
      assert forall i :: 0 <= i < |wanted[1..]| ==> wanted[1..][i] == wanted[i + 1];
      NoDeclarationNoEntry(wanted[1..], servers);
    }
  }

  /**
   * Every source unusable and no wanted name declared as a server, starting
   * from an empty registry: loading fails with "no servers".
   */
  lemma NothingUsableMeansNoServers<S>(proxy: Proxy, config: Config, env: Collaborators<S>)
    requires |config.listenAddresses| > 0
    requires |proxy.registeredServers| == 0
    requires forall i :: 0 <= i < |config.sources| ==> SourceUnusable(env, config.sources[i])
    requires forall n :: n in WantedNames(config) ==> Lookup(config.servers, n).None?
    ensures Load(proxy, config, env) == Err(NoServers)
  {
    var wanted := WantedNames(config);
    UnusableSourcesContributeNothing(env, wanted, config.sources);
    NoDeclarationNoEntry(wanted, config.servers);
    var r := LoadExplicitServers(env.fromLegacy, wanted, config.servers);
    assert r.Ok? by {
      forall i | 0 <= i < |wanted|
        ensures !ExplicitFails(env.fromLegacy, config.servers, wanted[i])
      {
        assert wanted[i] in wanted;
      }
    }
    assert |Names(r.value)| == 0;
  }

  /**
   * The explicit pass stops at the first wanted name whose declaration
   * cannot be used, and reports that declaration's error.
   */
  lemma {:induction false} ExplicitStopsAtFirstFailure(fromLegacy: (string, string, string) -> Result<ServerStamp, string>,
                                                     wanted: seq<string>, servers: seq<(string, ServerConfig)>, i: nat)
    requires i < |wanted|
    requires ExplicitFails(fromLegacy, servers, wanted[i])
    requires forall j :: 0 <= j < i ==> !ExplicitFails(fromLegacy, servers, wanted[j])
    ensures LoadExplicitServers(fromLegacy, wanted, servers) ==
              Err(ExplicitEntry(fromLegacy, wanted[i], Lookup(servers, wanted[i]).value).error)
  {
    if i > 0 {
      assert !ExplicitFails(fromLegacy, servers, wanted[0]);
      assert forall j :: 0 <= j < i - 1 ==> wanted[1..][j] == wanted[j + 1];
      ExplicitStopsAtFirstFailure(fromLegacy, wanted[1..], servers, i - 1);
    }
  }

  /**
   * A wanted name declared with a stamp string makes loading fail, whatever
   * the other fields and the other servers say. When the sources are all
   * complete and it is the first wanted declaration that cannot be used, the
   * error is the stamp one.
   */
  lemma StampStringIsFatal<S>(proxy: Proxy, config: Config, env: Collaborators<S>, i: nat)
    requires i < |WantedNames(config)|
    requires Lookup(config.servers, WantedNames(config)[i]).Some?
    requires |Lookup(config.servers, WantedNames(config)[i]).value.stamp| > 0
    ensures Load(proxy, config, env).Err?
    ensures |config.listenAddresses| > 0
            && (forall k :: 0 <= k < |config.sources| ==> SourceValid(config.sources[k]))
            && (forall j :: 0 <= j < i ==> !ExplicitFails(env.fromLegacy, config.servers, WantedNames(config)[j]))
            ==> Load(proxy, config, env) == Err(StampsUnsupported)
  {
    var wanted := WantedNames(config);
    assert ExplicitFails(env.fromLegacy, config.servers, wanted[i]);
    LoadSourcesOkIffValid(env, wanted, config.sources);
    if forall j :: 0 <= j < i ==> !ExplicitFails(env.fromLegacy, config.servers, wanted[j]) {
      ExplicitStopsAtFirstFailure(env.fromLegacy, wanted, config.servers, i);
    }
  }

  /**
   * A legacy declaration the stamp builder rejects makes loading fail; when
   * nothing is wrong before it, its error is the one reported, unchanged.
   */
  lemma LegacyErrorIsFatal<S>(proxy: Proxy, config: Config, env: Collaborators<S>, i: nat)
    requires i < |WantedNames(config)|
    requires Lookup(config.servers, WantedNames(config)[i]).Some?
    requires |Lookup(config.servers, WantedNames(config)[i]).value.stamp| == 0
    requires var sc := Lookup(config.servers, WantedNames(config)[i]).value;
             env.fromLegacy(sc.address, sc.publicKey, sc.providerName).Err?
    ensures Load(proxy, config, env).Err?
    ensures var sc := Lookup(config.servers, WantedNames(config)[i]).value;
            |config.listenAddresses| > 0
            && (forall k :: 0 <= k < |config.sources| ==> SourceValid(config.sources[k]))
            && (forall j :: 0 <= j < i ==> !ExplicitFails(env.fromLegacy, config.servers, WantedNames(config)[j]))
            ==> Load(proxy, config, env) == Err(LegacyStampFailed(env.fromLegacy(sc.address, sc.publicKey, sc.providerName).error))
  {
    var wanted := WantedNames(config);
    assert ExplicitFails(env.fromLegacy, config.servers, wanted[i]);
    LoadSourcesOkIffValid(env, wanted, config.sources);
    if forall j :: 0 <= j < i ==> !ExplicitFails(env.fromLegacy, config.servers, wanted[j]) {
      ExplicitStopsAtFirstFailure(env.fromLegacy, wanted, config.servers, i);
    }
  }

  /**
   * A successful load keeps the proxy's earlier registry, then appends the
   * sources' contribution, then the explicit servers: source-derived entries
   * always come before explicit ones.
   */
  lemma RegistryLayout<S>(proxy: Proxy, config: Config, env: Collaborators<S>)
    requires Load(proxy, config, env).Ok?
    ensures LoadSources(env, WantedNames(config), config.sources).Ok?
    ensures LoadExplicitServers(env.fromLegacy, WantedNames(config), config.servers).Ok?
    ensures Load(proxy, config, env).value.registeredServers ==
              proxy.registeredServers
              + LoadSources(env, WantedNames(config), config.sources).value
              + LoadExplicitServers(env.fromLegacy, WantedNames(config), config.servers).value
  {
  }

  /**
   * Every resolver a load adds is wanted: its name equals, up to case, one of
   * the wanted names. In particular a resolver a source offers is never added
   * merely because the source lists it.
   */
  lemma AddedServersAreWanted<S>(proxy: Proxy, config: Config, env: Collaborators<S>)
    requires Load(proxy, config, env).Ok?
    ensures var reg := Load(proxy, config, env).value.registeredServers;
            forall k :: |proxy.registeredServers| <= k < |reg| ==> IncludesName(WantedNames(config), reg[k].name)
  {
    var wanted := WantedNames(config);
    RegistryLayout(proxy, config, env);
    LoadSourcesYieldsWanted(env, wanted, config.sources);
    ExplicitEntriesAreWanted(env.fromLegacy, wanted, config.servers);
    AppendedAllWanted(wanted, proxy.registeredServers,
                      LoadSources(env, wanted, config.sources).value,
                      LoadExplicitServers(env.fromLegacy, wanted, config.servers).value);
  }

  /** Appending two lists of wanted resolvers to a registry adds only wanted resolvers. */
  lemma AppendedAllWanted(wanted: seq<string>, init: seq<RegisteredServer>, src: seq<RegisteredServer>, exp: seq<RegisteredServer>)
    requires forall x :: x in src ==> IncludesName(wanted, x.name)
    requires forall x :: x in exp ==> IncludesName(wanted, x.name)
    ensures forall k :: |init| <= k < |init + src + exp| ==> IncludesName(wanted, (init + src + exp)[k].name)
  {
    var reg := init + src + exp;
    forall k | |init| <= k < |reg|
      ensures IncludesName(wanted, reg[k].name)
    {
      if k < |init| + |src| {
        assert reg[k] == src[k - |init|];
      } else {
        assert reg[k] == exp[k - |init| - |src|];
      }
    }
  }

  /** Every entry of the explicit pass carries a wanted name, so it matches that name up to case too. */
  lemma ExplicitEntriesAreWanted(fromLegacy: (string, string, string) -> Result<ServerStamp, string>,
                                 wanted: seq<string>, servers: seq<(string, ServerConfig)>)
    requires LoadExplicitServers(fromLegacy, wanted, servers).Ok?
    ensures forall x :: x in LoadExplicitServers(fromLegacy, wanted, servers).value ==>
              x.name in wanted && IncludesName(wanted, x.name)
  {
    var exp := LoadExplicitServers(fromLegacy, wanted, servers).value;
    WithEntryAreWanted(wanted, servers);
    forall x | x in exp
      ensures x.name in wanted && IncludesName(wanted, x.name)
    {
      var m :| 0 <= m < |exp| && exp[m] == x;
      assert Names(exp)[m] == x.name;
      assert x.name in WithEntry(wanted, servers);
      var j :| 0 <= j < |wanted| && wanted[j] == x.name;
      EqualFoldIsEquivalence(wanted[j], x.name, x.name);
    }
  }

  /** The names kept for the explicit pass are wanted names. */
  lemma {:induction false} WithEntryAreWanted(wanted: seq<string>, servers: seq<(string, ServerConfig)>)
    ensures forall n :: n in WithEntry(wanted, servers) ==> n in wanted && Lookup(servers, n).Some?
  {
    if |wanted| > 0 {
      WithEntryAreWanted(wanted[1..], servers);
    }
  }

  /** Two tables holding the same pairs with distinct names: every lookup agrees. */
  lemma SameTableSameLookup<V>(t1: seq<(string, V)>, t2: seq<(string, V)>, key: string)
    requires DistinctKeys(t1) && DistinctKeys(t2)
    requires forall e :: e in t1 <==> e in t2
    ensures Lookup(t1, key) == Lookup(t2, key)
  {
    if Lookup(t1, key).Some? {
      LookupFindsEntry(t1, key, Lookup(t1, key).value);
      LookupFindsEntry(t2, key, Lookup(t1, key).value);
    } else if Lookup(t2, key).Some? {
      LookupFindsEntry(t2, key, Lookup(t2, key).value);
      LookupFindsEntry(t1, key, Lookup(t2, key).value);
    }
  }

  /**
   * The explicit pass does not depend on the order in which the declared
   * servers are listed (a decoded table has no order of its own).
   */
  lemma {:induction false} ExplicitIgnoresTableOrder(fromLegacy: (string, string, string) -> Result<ServerStamp, string>,
                                                   wanted: seq<string>, t1: seq<(string, ServerConfig)>, t2: seq<(string, ServerConfig)>)
    requires DistinctKeys(t1) && DistinctKeys(t2)
    requires forall e :: e in t1 <==> e in t2
    ensures LoadExplicitServers(fromLegacy, wanted, t1) == LoadExplicitServers(fromLegacy, wanted, t2)
  {
    if |wanted| > 0 {
      SameTableSameLookup(t1, t2, wanted[0]);
      ExplicitIgnoresTableOrder(fromLegacy, wanted[1..], t1, t2);
    }
  }

  /**
   * Wanted names "a" and "b", one source offering "A" and "c": only "A" is
   * added, under the name the source gave it.
   */
  lemma CaseInsensitiveMatchExample<S>(env: Collaborators<S>, src: SourceConfig, stampA: ServerStamp, stampC: ServerStamp)
    requires SourceValid(("list", src))
    requires Offered(env, ValidateSource("list", src).value) ==
               [RegisteredServer("A", stampA), RegisteredServer("c", stampC)]
    ensures LoadSources(env, ["a", "b"], [("list", src)]) == Ok([RegisteredServer("A", stampA)])
  {
    assert EqualFold("a", "A") by {
      assert FoldChar('A') == 'a';
    }
    assert !IncludesName(["a", "b"], "c") by {
      assert !EqualFold("a", "c") by { assert FoldChar("a"[0]) != FoldChar("c"[0]); }
      assert !EqualFold("b", "c") by { assert FoldChar("b"[0]) != FoldChar("c"[0]); }
      assert ["a", "b"][0] == "a" && ["a", "b"][1] == "b";
    }
    var cands := [RegisteredServer("A", stampA), RegisteredServer("c", stampC)];
    assert cands[1..] == [RegisteredServer("c", stampC)];
    assert cands[1..][1..] == [];
    assert FilterWanted(["a", "b"], cands[1..]) == [];
    assert FilterWanted(["a", "b"], cands) == [RegisteredServer("A", stampA)];
    assert [("list", src)][1..] == [];
    assert SourceContribution(env, ["a", "b"], ("list", src)) == Ok([RegisteredServer("A", stampA)]);
    assert LoadSources(env, ["a", "b"], []) == Ok([]);
  }

  /**
   * One declared server "r1", no sources, no listed names, default listen
   * address and an empty initial registry: the registry holds exactly r1
   * with the stamp built from its legacy fields.
   */
  lemma EndToEndExample<S>(proxy: Proxy, env: Collaborators<S>)
    requires |proxy.registeredServers| == 0
    requires env.fromLegacy("1.2.3.4:443", "ABCD", "p.example").Ok?
    ensures var r1 := ServerConfig("", "p.example", "1.2.3.4:443", "ABCD", false, false);
            var o := NoOverrides.(servers := Some([("r1", r1)]));
            var r := ConfigLoad(proxy, Ok(o), env);
            r.Ok? && r.value.registeredServers == [RegisteredServer("r1", env.fromLegacy("1.2.3.4:443", "ABCD", "p.example").value)]
  {
    var r1 := ServerConfig("", "p.example", "1.2.3.4:443", "ABCD", false, false);
    var o := NoOverrides.(servers := Some([("r1", r1)]));
    var config := ApplyOverrides(NewConfig(), o);
    assert WantedNames(config) == ["r1"];
    assert Lookup(config.servers, "r1") == Some(r1);
    assert ["r1"][1..] == [];
  }
}
