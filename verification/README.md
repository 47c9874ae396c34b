# dnscrypt-proxy configuration loading, modelled in Dafny

This project models how dnscrypt-proxy loads its startup configuration
(`ConfigLoad` in `dnscrypt-proxy/config.go`). Loading takes the decoded
configuration file and produces the proxy's settings and its registry of
upstream resolvers (`registeredServers`). The steps are:

- built-in defaults (`newConfig`), overridden by the values the file sets;
- rejection of an empty listen-address list;
- the transport mode (`tcp` when `force_tcp` is set, `udp` otherwise);
- the wanted server names (`server_names`, or the names of the `[servers]` table when none are listed);
- one pass over the declared sources. Each source is validated: URL, minisign key, cache file and format must be present, checked in that order. A refresh delay that is not positive becomes 24 hours. A source that cannot be built or parsed is skipped. Otherwise its resolvers whose names match a wanted name, ignoring case, are appended in the source's order;
- one pass over the wanted names that have an explicit `[servers]` entry. A stamp string stops loading. Otherwise the legacy builder's stamp is appended. A builder error aborts loading;
- rejection of an empty registry.

Files:

- `wrappers.dfy`: `Option` and `Result`.
- `case_fold.dfy`: case-insensitive comparison (`EqualFold`) and `IncludesName`.
- `config.dfy`: the `Config` record and its defaults. Also how decoded values override them, and lookup in a table (a TOML table is a sequence of name/value pairs with distinct names).
- `loader.dfy`: the loading pipeline. `ConfigLoad` takes the decoder's result and `Load` takes a decoded `Config`.
- `loader_facts.dfy`: lemmas that relate several loads.

Go maps have no iteration order. So the `[servers]` and `[sources]` tables are sequences given in an arbitrary order, and every property holds for every order. The lookup used by the explicit pass does not depend on the order (`ExplicitIgnoresTableOrder`).

Three collaborators are outside this model. They are function parameters bundled in `Loader.Collaborators`:

- `NewSource`, which may fail;
- `Source.Parse`, which returns resolvers in order or fails;
- `NewServerStampFromLegacy`, which returns a stamp or fails.

The proxy's registry on entry is an input (the `registeredServers` field of the `Proxy` passed in). Loading keeps it and appends to it. The final emptiness check covers the whole list, as in config.go.

Behaviour worth knowing:

- An empty listen-address list fails with "No local IP/port configured".
- A source's resolver is registered under the name the source gives it. If "a" is wanted and a source offers "A", the registry holds "A".
- The wanted names form a sequence, not a set. A name listed twice in `server_names` gives two registry entries in the explicit pass.
- Sources are checked one at a time, each just before it is used. So the error reported is the one for the first incomplete source in iteration order.
- The stamp builder's error is returned unchanged (`LegacyStampFailed` carries its text).
- A stamp string stops the process (`dlog.Fatal`). Here that is the error `StampsUnsupported`.

## Model

| member | source | states |
|---|---|---|
| CaseFold.IncludesName | dnscrypt-proxy/config.go:148-155 | true exactly when some listed name equals the name up to case; an empty list never includes anything |
| CaseFold.IncludesNameIgnoresCase | dnscrypt-proxy/config.go:148-155 | membership gives the same answer for two names that differ only in case |
| CaseFold.EqualFold | dnscrypt-proxy/config.go:150 | two names are equal up to case exactly when their case-folded forms are equal |
| CaseFold.EqualFoldIsEquivalence | dnscrypt-proxy/config.go:150 | comparison up to case is reflexive, symmetric and transitive |
| Config.NewConfig | dnscrypt-proxy/config.go:31-42 | defaults: listen address 127.0.0.1:53, timeout 2500 ms, certificate refresh 30 min, cache on with size 256, TTLs 60/60/8600, everything else empty or false |
| Config.ApplyOverrides | dnscrypt-proxy/config.go:64-65 | a field the decoded file sets replaces the default; a field it leaves out keeps the default |
| Config.EmptyFileKeepsDefaults | dnscrypt-proxy/config.go:64-65 | a file that sets nothing leaves every default in place |
| Config.Lookup | dnscrypt-proxy/config.go:125 | a lookup finds a value exactly when some entry has that exact name, and the value found is stored under that name |
| Config.LookupFindsEntry | dnscrypt-proxy/config.go:125-128 | in a table with distinct names, the lookup returns v exactly when the pair (name, v) is in the table, wherever it sits |
| Loader.ValidateSource | dnscrypt-proxy/config.go:90-105 | fails exactly when a required field is empty, and then names the source and the first empty field in the order URL, minisign key, cache file, format. On success the fields are passed through, with a non-positive refresh delay replaced by 24 h and a positive one kept |
| Loader.Offered | dnscrypt-proxy/config.go:106-115 | a source that cannot be built, or built but not parsed, offers nothing; otherwise it offers exactly the parsed list in order |
| Loader.SourceContribution | dnscrypt-proxy/config.go:90-122 | a source fails exactly when one of its four required fields is empty, with an error naming the source and an empty field. A complete source that cannot be built or parsed adds nothing. Otherwise each offered resolver is added as many times as offered if its name is wanted up to case, and never otherwise |
| Loader.FilterWanted | dnscrypt-proxy/config.go:116-122 | every resolver kept has a wanted name up to case, and no more resolvers come out than went in |
| Loader.LoadSources | dnscrypt-proxy/config.go:90-123 | the only error the sources pass can produce is a missing source field |
| Loader.ExplicitEntry | dnscrypt-proxy/config.go:129-140 | a stamp string is fatal whatever the builder would say; otherwise a builder error is returned unchanged, and a builder stamp becomes the entry under the declared name |
| Loader.LoadExplicitServers | dnscrypt-proxy/config.go:124-141 | succeeds exactly when no wanted declaration fails. Its entries are the wanted names that have an exact-name declaration, in order and with repeats, and each entry is the one its declaration yields |
| Loader.WantedNames | dnscrypt-proxy/config.go:85-89 | listed server names are used unchanged; when none are listed, the wanted names are exactly the names of the declared servers |
| Loader.MainProto | dnscrypt-proxy/config.go:69-72 | the transport is "tcp" exactly when TCP is forced, "udp" exactly when it is not |
| Loader.Load | dnscrypt-proxy/config.go:68-145 | an empty listen list fails with its own error and no other path gives that error. A success has a non-empty registry that extends the proxy's earlier one, keeps the listen addresses, sets the transport by force_tcp and copies the remaining settings unchanged |
| Loader.ConfigLoad | dnscrypt-proxy/config.go:61-67 | a decoder error is returned. With no listen addresses in the file the default 127.0.0.1:53 applies and loading never fails for lack of one. An explicitly empty list always fails. Any success has a non-empty registry |
| Loader.FilterWantedCounts | dnscrypt-proxy/config.go:116-122 | a wanted resolver appears as many times as the source offers it, an unwanted one never: no deduplication |
| LoaderFacts.FilterWantedAppend | dnscrypt-proxy/config.go:116-122 | filtering splits over concatenation, so the source's order is kept |
| LoaderFacts.FilterWantedIsSubset | dnscrypt-proxy/config.go:116-122 | everything kept was offered and is wanted |
| LoaderFacts.LoadSourcesAppend | dnscrypt-proxy/config.go:90-123 | loading two runs of sources back to back equals loading them in turn. The first error wins; otherwise the contributions are concatenated in order, duplicates kept |
| LoaderFacts.LoadSourcesOkIffValid | dnscrypt-proxy/config.go:90-102 | the sources pass succeeds exactly when every declared source is complete |
| LoaderFacts.IncompleteSourceIsFatal | dnscrypt-proxy/config.go:90-102 | with listen addresses present, the first incomplete source makes the whole load fail with the error naming that source and its first missing field |
| LoaderFacts.LoadSourcesFirstError | dnscrypt-proxy/config.go:90-102 | a failing sources pass reports the error of the first incomplete source |
| LoaderFacts.LoadSourcesYieldsWanted | dnscrypt-proxy/config.go:116-122 | everything the sources pass yields has a wanted name up to case |
| LoaderFacts.LoadSourcesYieldsOffered | dnscrypt-proxy/config.go:111-122 | everything the sources pass yields was offered by a complete declared source |
| LoaderFacts.FailedSourceIsSkipped | dnscrypt-proxy/config.go:106-115 | a complete source that fails to build or to parse changes neither the sources' result nor its error: it is as if it were not declared |
| LoaderFacts.UnusableSourceIsSkipped | dnscrypt-proxy/config.go:106-115 | a complete source that offers nothing leaves the sources pass unchanged |
| LoaderFacts.LoadSkipsUnusableSource | dnscrypt-proxy/config.go:106-115 | the whole load, error included, is the same with or without a complete but unusable source |
| LoaderFacts.UnusableSourcesContributeNothing | dnscrypt-proxy/config.go:106-115 | when every source is complete but unusable, the sources pass succeeds and adds nothing |
| LoaderFacts.NoServersExactly | dnscrypt-proxy/config.go:142-144 | loading fails with "No servers configured" exactly when listen addresses exist, neither pass fails, and the earlier registry and both passes are all empty |
| LoaderFacts.NoDeclarationNoEntry | dnscrypt-proxy/config.go:125-128 | wanted names without a declaration produce no explicit entries |
| LoaderFacts.NothingUsableMeansNoServers | dnscrypt-proxy/config.go:106-144 | with all sources unusable, no wanted name declared and an empty starting registry, loading fails with "No servers configured" |
| LoaderFacts.ExplicitStopsAtFirstFailure | dnscrypt-proxy/config.go:124-138 | the explicit pass reports the error of the first wanted declaration that cannot be used |
| LoaderFacts.StampStringIsFatal | dnscrypt-proxy/config.go:131-132 | a wanted declaration with a stamp string always makes loading fail. When the listen addresses and sources are fine and it is the first unusable declaration, the error is StampsUnsupported |
| LoaderFacts.LegacyErrorIsFatal | dnscrypt-proxy/config.go:134-137 | a legacy declaration the builder rejects always makes loading fail. When everything before it is fine, the builder's error is reported unchanged |
| LoaderFacts.RegistryLayout | dnscrypt-proxy/config.go:116-141 | a successful registry is the earlier registry, then the sources' contribution, then the explicit servers: source entries come before explicit ones |
| LoaderFacts.AddedServersAreWanted | dnscrypt-proxy/config.go:116-141 | every resolver a load adds matches a wanted name up to case; a source's resolver is never added just because the source lists it |
| LoaderFacts.ExplicitEntriesAreWanted | dnscrypt-proxy/config.go:124-141 | every explicit entry's name is itself one of the wanted names, not merely a match up to case (and so it also matches up to case) |
| LoaderFacts.WithEntryAreWanted | dnscrypt-proxy/config.go:124-128 | the names the explicit pass registers are wanted names that have a declaration |
| LoaderFacts.SameTableSameLookup | dnscrypt-proxy/config.go:125 | two orderings of the same table with distinct names give the same lookups |
| LoaderFacts.ExplicitIgnoresTableOrder | dnscrypt-proxy/config.go:124-141 | the explicit pass gives the same result for every ordering of the declared-servers table |
| LoaderFacts.CaseInsensitiveMatchExample | dnscrypt-proxy/config.go:116-122 | with wanted names "a" and "b" and a source offering "A" and "c", only "A" is added, under its own name |
| LoaderFacts.EndToEndExample | dnscrypt-proxy/config.go:85-145 | with one declared server r1, no sources, no listed names, the default listen address and an empty starting registry, the registry is exactly r1 with the stamp built from its address, key and provider |

## Left out

- Command-line flag parsing and TOML decoding (config.go:62-65). The `config_file` parameter is never used, and the path comes from a process-wide flag. The decoder's result, or its error, is an input of `ConfigLoad`. The decoder's handling of malformed values (such as an out-of-range TTL) is part of that input.
- The internals of `NewSource`, `Source.Parse` and `NewServerStampFromLegacy`: network fetches, signature checks and stamp encoding. They are not part of this model and appear only as function parameters.
- Logging through `dlog.Criticalf` and `dlog.Infof`. It has no effect on the result.
- Partial updates on error paths. config.go sets the timeout, transport and certificate delay before the listen-address check, and may append some sources' resolvers before a later error. The model returns only the error and says nothing about the proxy after a failed load. Callers stop on any error.
- `dlog.Fatal` exits the process. It is modelled as the error `StampsUnsupported`.
- Loader.Load: durations are integers in their units (ms, minutes, hours). `time.Duration` is int64 nanoseconds, and the model omits its overflow for huge values. Go's `int` fields (timeout, cache size, refresh delay) are unbounded here too.
- CaseFold.EqualFold (and so CaseFold.IncludesName): folds ASCII letters only. Go's `strings.EqualFold` also folds non-ASCII case pairs (for example 'É'/'é' and the Kelvin sign/'k'); the model treats those as different characters.
- The `no_log` and `dnssec` fields of a declared server are read by nothing in this code. They are kept in `ServerConfig` and not used.
- The order in which Go iterates a map. Tables are sequences in an arbitrary order, and properties are stated for every order.
