# YaCy: partitioned cache, remote Solr instance and global switchboard

This Dafny project models three classes of the YaCy search engine and proves
what each one promises.

- `ConcurrentARC` (module `Storage`, file `storage.dfy`) is a cache split into
  a power-of-two number of partitions. A key goes to the partition at
  `hashCode() & mask`. The whole-cache operations (`clear`, `size`,
  `entrySet`) loop over every partition. The class keeps the array of
  partitions and updates it in place. Each partition is seen as the finite map
  it stores. The proved invariant is that every key sits in its home
  partition. Under it, the cache acts as the single map `Contents()`, the
  union of the partitions. `put`, `get`, `remove` and the rest are then
  proved to be the ordinary map operations on that union.
- `RemoteInstance` (module `SolrInstance`, file `solrinstance.dfy`) is a
  connection to a Solr server with several cores. The constructor:
  - fills in default arguments;
  - adds the default core names to the caller's core-name collection, in place;
  - normalises the base URL;
  - parses the default core's URL;
  - splits the URL's userinfo into account and password;
  - builds an authenticated client only when the account is non-empty;
  - connects the default core through `getServer`, which keeps one server per
    core name.

  `getAdminInterface` swaps a loopback host for the machine's public address.
  `getShardInstances` opens one instance per comma-separated URL.
- `Switchboard` (module `Framework`, file `framework.dfy`) holds the
  application-wide settings table, with typed getters and setters, and the
  `shallrun` flag. `shutdown()` clears the flag and nothing sets it again.
  Each typed setter is proved to round-trip with its getter.

The Java platform behaviour this code relies on is modelled once, in module
`JavaLang` (`javalang.dfy`):

- a 32-bit `int` and its wrap-around on addition;
- truncating division;
- `&` with a non-negative mask;
- `String.endsWith`, `indexOf` and `split` with a one-character separator;
- the decimal forms of `Integer.toString` and `Integer.parseInt`.

Module `Wrappers` holds `Option` (a Java `null`) and `Result` (a thrown
exception).

## Model

| member | source | states |
|---|---|---|
| `Storage.PartitionCount` | source/net/yacy/cora/storage/ConcurrentARC.java:47-48 | the doubling loop ends with the least power of two that is at least `partitions` (and at least 1); above 2^30 it stops at 2^30 instead of hanging (see Findings) |
| `Storage.DoubleAsWritten` | source/net/yacy/cora/storage/ConcurrentARC.java:48 | one `m = m * 2` on a Java `int`: twice `m` when that fits in 32 bits, and always congruent to twice `m` modulo 2^32 |
| `Storage.DoublingAsWritten` | source/net/yacy/cora/storage/ConcurrentARC.java:47-48 | the value of `m` after n rounds of the loop as written: 2^n up to round 30, -2^31 at round 31, and 0 from round 32 on |
| `Storage.PartitionLoopAsWrittenHangs` | source/net/yacy/cora/storage/ConcurrentARC.java:48 | for `partitions > 2^30` the guard `m < partitions` holds after every round, so the source loop never ends |
| `Storage.DoubleStaysBelowMax` | source/net/yacy/cora/storage/ConcurrentARC.java:48 | doubling a power of two below 2^30 cannot pass 2^30, so the loop never overflows an `int` |
| `Storage.Slot` | source/net/yacy/cora/storage/ConcurrentARC.java:71 | the partition index `hashCode() & mask` is between 0 and `mask` |
| `Storage.SlotIsModulo` | source/net/yacy/cora/storage/ConcurrentARC.java:71 | with `mask = 2^e - 1`, routing equals the non-negative remainder of the hash modulo 2^e, negative hashes included |
| `JavaLang.BitAndLowMask` | source/net/yacy/cora/storage/ConcurrentARC.java:71 | Java `a & (2^k - 1)` keeps the low k bits of the two's-complement form; that is `a mod 2^k` |
| `JavaLang.JavaDivBounds` | source/net/yacy/cora/storage/ConcurrentARC.java:50 | `cacheSize / m` truncates toward zero: the remainder has the dividend's sign and is smaller than `m` |
| `Storage.UnionLookup` | source/net/yacy/cora/storage/ConcurrentARC.java:89-91 | when every key is in its home partition, the merged map has `k` exactly when `k`'s partition does, with the same value |
| `Storage.UnionPut` | source/net/yacy/cora/storage/ConcurrentARC.java:79-81 | storing in the home partition keeps every key homed and is a map update of the merged map |
| `Storage.UnionRemove` | source/net/yacy/cora/storage/ConcurrentARC.java:109-111 | deleting from the home partition keeps every key homed and deletes the key from the merged map |
| `Storage.UnionSize` | source/net/yacy/cora/storage/ConcurrentARC.java:124-128 | homed partitions hold disjoint keys, so the merged map's size is the sum of the partition sizes |
| `Storage.UnionEntriesOfUnion` | source/net/yacy/cora/storage/ConcurrentARC.java:145-151 | the union of the partitions' entry sets is the merged map's entry set |
| `Storage.ConcurrentArc.constructor` | source/net/yacy/cora/storage/ConcurrentARC.java:46-53 | allocates the least sufficient power-of-two number (capped at 2^30) of empty hashed partitions, each of capacity `cacheSize / m`, with mask `m - 1`; the cache starts empty |
| `Storage.ConcurrentArc.WithComparator` | source/net/yacy/cora/storage/ConcurrentARC.java:56-63 | as the plain constructor, with ordered partitions that use the given comparator |
| `Storage.ConcurrentArc.EmptyPartitionsEmptyCache` | source/net/yacy/cora/storage/ConcurrentARC.java:116-118 | all partitions empty means the cache is empty |
| `Storage.ConcurrentArc.Insert` | source/net/yacy/cora/storage/ConcurrentARC.java:70-72 | only the key's home partition changes; the cache becomes `old[s := v]` and stays homed |
| `Storage.ConcurrentArc.Put` | source/net/yacy/cora/storage/ConcurrentARC.java:79-81 | as `Insert`, and returns the value the cache held for `s` before, or none |
| `Storage.ConcurrentArc.Get` | source/net/yacy/cora/storage/ConcurrentARC.java:89-91 | the home partition's answer equals the cache's value for `s`, or none |
| `Storage.ConcurrentArc.ContainsKey` | source/net/yacy/cora/storage/ConcurrentARC.java:99-101 | the home partition's answer equals whether the cache holds `s` |
| `Storage.ConcurrentArc.Remove` | source/net/yacy/cora/storage/ConcurrentARC.java:109-111 | only the home partition changes; returns the old value; the cache becomes `old - {s}` |
| `Storage.ConcurrentArc.Clear` | source/net/yacy/cora/storage/ConcurrentARC.java:116-118 | every partition, hence the cache, ends empty and stays homed |
| `Storage.ConcurrentArc.Size` | source/net/yacy/cora/storage/ConcurrentARC.java:124-128 | the partition sizes summed in a wrapping `int`; that equals the number of keys whenever the number fits an `int` |
| `Storage.ConcurrentArc.EntrySet` | source/net/yacy/cora/storage/ConcurrentARC.java:145-151 | the collected entries are exactly the cache's `(key, value)` pairs |
| `JavaLang.Wrap32` | source/net/yacy/cora/storage/ConcurrentARC.java:126 | `int` addition wraps modulo 2^32 and leaves in-range values alone |
| `JavaLang.Wrap32Add` | source/net/yacy/cora/storage/ConcurrentARC.java:125-127 | wrapping after each addition equals wrapping the exact sum once |
| `SolrInstance.WithDefaultCores` | source/net/yacy/cora/federate/solr/instance/RemoteInstance.java:83-89 | the default core is in the result; given names are kept as they are, followed by the default only when it is missing; an empty collection becomes exactly the collection and webgraph cores, followed by the default only when it is neither; nothing changes when the default is already there |
| `SolrInstance.WithDefaultCoresIdempotent` | source/net/yacy/cora/federate/solr/instance/RemoteInstance.java:84-89 | defaulting a second time has no effect; this is why shards sharing one collection all see the same names |
| `SolrInstance.NormalizeUrl` | source/net/yacy/cora/federate/solr/instance/RemoteInstance.java:92-106 | the four cases: a trailing `core/` or `core` is cut off, a bare base gets a `/`, a base ending in `/` is kept |
| `SolrInstance.NormalizeCoreUrl` | source/net/yacy/cora/federate/solr/instance/RemoteInstance.java:92-106 | for a base ending in `/` and a non-empty core name that does not itself end in `/`, the core's URL with or without a trailing slash normalises back to that base |
| `SolrInstance.SplitUserInfo` | source/net/yacy/cora/federate/solr/instance/RemoteInstance.java:119-129 | no, or empty, userinfo gives an empty account and password; without ':' it is all account; otherwise `account + ":" + password` rebuilds it and the account has no ':' |
| `SolrInstance.MakeClient` | source/net/yacy/cora/federate/solr/instance/RemoteInstance.java:130-175 | an authenticated client exists exactly when the account is non-empty; it carries the URL's host and the split credentials |
| `JavaLang.IndexOfOneChar` | source/net/yacy/cora/federate/solr/instance/RemoteInstance.java:123 | `indexOf(':')`: -1 exactly when ':' is absent, otherwise an index holding ':' with none before it, around which the string splits |
| `JavaLang.IndexOf` | source/net/yacy/cora/federate/solr/instance/RemoteInstance.java:186-188 | -1 when the pattern does not occur at or after `from`, else its first occurrence there |
| `JavaLang.IndexOfFirst` | source/net/yacy/cora/federate/solr/instance/RemoteInstance.java:186-188 | the first occurrence at or after `from` is the index `indexOf` returns |
| `JavaLang.NoOccurrenceWithoutChar` | source/net/yacy/cora/federate/solr/instance/RemoteInstance.java:186-188 | a pattern containing a character absent from the string occurs nowhere in it |
| `SolrInstance.FindLoopback` | source/net/yacy/cora/federate/solr/instance/RemoteInstance.java:186-188 | the earliest position of the first spelling that occurs, tried in the order localhost, 127.0.0.1, 0:0:0:0:0:0:0:1; none when none occurs |
| `SolrInstance.WithAdminPath` | source/net/yacy/cora/federate/solr/instance/RemoteInstance.java:190 | appends `admin/` after a trailing slash, `/admin/` otherwise; the result always ends in `/admin/` |
| `SolrInstance.AdminInterfaceAsWritten` | source/net/yacy/cora/federate/solr/instance/RemoteInstance.java:185-190 | the rewrite as coded, cutting 9 characters; the result ends in `/admin/` |
| `SolrInstance.AdminInterface` | source/net/yacy/cora/federate/solr/instance/RemoteInstance.java:185-190 | the corrected rewrite; the result ends in `/admin/` |
| `SolrInstance.AdminInterfaceWithoutLoopback` | source/net/yacy/cora/federate/solr/instance/RemoteInstance.java:186-190 | without a loopback spelling both forms only append the admin path |
| `SolrInstance.AdminInterfaceReplacesLoopback` | source/net/yacy/cora/federate/solr/instance/RemoteInstance.java:189-190 | the URL splits as `pre + loopback + post`; the corrected result is `pre + extern + post` plus the admin path |
| `SolrInstance.AdminInterfaceAsWrittenNineChars` | source/net/yacy/cora/federate/solr/instance/RemoteInstance.java:186-189 | for `localhost` and `127.0.0.1` (9 characters each) the code as written and the corrected rewrite agree |
| `SolrInstance.AdminInterfaceAsWrittenIpv6Tail` | source/net/yacy/cora/federate/solr/instance/RemoteInstance.java:188-189 | for the IPv6 loopback the code as written leaves `:0:0:1` after the external address |
| `SolrInstance.FindLoopbackIpv6Url` | source/net/yacy/cora/federate/solr/instance/RemoteInstance.java:186-188 | in `http://[0:0:0:0:0:0:0:1]/` the only loopback found is the IPv6 one, at index 8 |
| `SolrInstance.AdminInterfaceIpv6Counterexample` | source/net/yacy/cora/federate/solr/instance/RemoteInstance.java:188-190 | on that URL the code as written gives `http://[ext:0:0:1]/admin/`, the corrected rewrite `http://[ext]/admin/` |
| `SolrInstance.CoreNameList.Add` | source/net/yacy/cora/federate/solr/instance/RemoteInstance.java:85-89 | `add` appends the name to the caller's collection |
| `SolrInstance.RemoteInstance.NewServer` | source/net/yacy/cora/federate/solr/instance/RemoteInstance.java:214-230 | without a client the core URL is used as is; with a client it fails exactly when the core URL does not parse; the server uses the instance's client |
| `SolrInstance.RemoteInstance.GetServer` | source/net/yacy/cora/federate/solr/instance/RemoteInstance.java:209-237 | a cached server comes back unchanged; otherwise a new server is built and cached; null (cache unchanged) exactly when the name is uncached, a client exists and the URL is malformed |
| `SolrInstance.RemoteInstance.GetAdminInterface` | source/net/yacy/cora/federate/solr/instance/RemoteInstance.java:182-191 | the corrected rewrite of the base URL with the public address, or 127.0.0.1 when there is none; it ends in `/admin/`; it equals the rewrite as written unless the loopback found is the IPv6 spelling |
| `SolrInstance.RemoteInstance.Open` | source/net/yacy/cora/federate/solr/instance/RemoteInstance.java:80-180 | the caller's names get the defaults, even when construction then fails; it fails exactly when the default core's URL does not parse; otherwise the base URL is normalised, the client comes from the userinfo, and the default core's server is connected and is the only one cached |
| `SolrInstance.RemoteInstance.GetShardInstances` | source/net/yacy/cora/federate/solr/instance/RemoteInstance.java:69-78 | one fresh instance per comma-separated URL, in order, with that normalised base and a shared core-name collection; it fails exactly when some URL's core URL is malformed, with the failure of the first such URL; the names are defaulted once |
| `SolrInstance.RemoteInstance.OpenAll` | source/net/yacy/cora/federate/solr/instance/RemoteInstance.java:73-77 | the loop over the URLs: success exactly when every URL opens, one fresh instance per URL; otherwise the failure of the first URL that does not parse |
| `JavaLang.SplitAll` | source/net/yacy/cora/federate/solr/instance/RemoteInstance.java:71 | the pieces between separators contain no separator and, joined with it, rebuild the string |
| `JavaLang.DropTrailingEmpty` | source/net/yacy/cora/federate/solr/instance/RemoteInstance.java:71 | the result is a prefix; only empty pieces are dropped; its last piece is non-empty |
| `JavaLang.Split` | source/net/yacy/cora/federate/solr/instance/RemoteInstance.java:70-71 | without a separator the whole string; otherwise the pieces without trailing empties; no piece contains the separator |
| `Framework.Switchboard.constructor` | source/net/yacy/gui/framework/Switchboard.java:53-58 | the application starts running with an empty settings table |
| `Framework.Switchboard.ShallRun` | source/net/yacy/gui/framework/Switchboard.java:136-138 | reports the flag |
| `Framework.Switchboard.Shutdown` | source/net/yacy/gui/framework/Switchboard.java:144-146 | clears the flag and leaves the settings alone |
| `Framework.Switchboard.Get` | source/net/yacy/gui/framework/Switchboard.java:169-171 | the stored string, or none exactly when the key is absent |
| `Framework.Switchboard.GetOr` | source/net/yacy/gui/framework/Switchboard.java:179-181 | the stored string, or the default exactly when the key is absent |
| `Framework.Switchboard.GetInt` | source/net/yacy/gui/framework/Switchboard.java:189-192 | the default when the key is absent; otherwise the parsed `int`, failing (none) on a malformed number |
| `Framework.Switchboard.GetBool` | source/net/yacy/gui/framework/Switchboard.java:200-204 | the default when the key is absent; otherwise true exactly for `"true"` or `"1"` |
| `Framework.Switchboard.GetFile` | source/net/yacy/gui/framework/Switchboard.java:206-211 | no file exactly when the key is absent; otherwise a file with the stored path, left unchanged |
| `Framework.Switchboard.Set` | source/net/yacy/gui/framework/Switchboard.java:218-220 | the key maps to the value; no other key and not the flag change |
| `Framework.Switchboard.SetInt` | source/net/yacy/gui/framework/Switchboard.java:227-229 | stores `Integer.toString(value)`, which `getInt` reads back as `value` whatever the default; other keys and the flag unchanged |
| `Framework.Switchboard.SetBool` | source/net/yacy/gui/framework/Switchboard.java:236-238 | stores `"true"` or `"false"`, which `getBool` reads back as `value` whatever the default; other keys and the flag unchanged |
| `Framework.ParseBoolOfToString` | source/net/yacy/gui/framework/Switchboard.java:203 | what `set(key, boolean)` writes, `getBool` reads back |
| `JavaLang.ParseInt` | source/net/yacy/gui/framework/Switchboard.java:191 | `Integer.parseInt`: a first character that is neither a sign nor a digit gives `None`; plain digits parse to their value exactly when it is below 2^31, `-` and digits to the negated value exactly when that is at least -2^31; a non-digit after the first character, an empty string or a trailing non-digit gives `None` (the `NumberFormatException`); a leading `+` before digits is dropped |
| `JavaLang.IntToString` | source/net/yacy/gui/framework/Switchboard.java:228 | `Integer.toString`: for a non-negative number, decimal digits denoting it with no leading zero except `0` itself; for a negative one, `-` followed by the digits of its magnitude with no leading zero |
| `JavaLang.ParseIntOfToString` | source/net/yacy/gui/framework/Switchboard.java:191 | `Integer.parseInt(Integer.toString(i)) == i` for every `int` |
| `JavaLang.DigitsValueOfNat` | source/net/yacy/gui/framework/Switchboard.java:228 | the decimal digits of `n` denote `n` |

## Left out

- The ARC sub-caches `HashARC` and `ComparableARC` are not part of this model. Each partition is a plain finite map. Their two-generation eviction and their capacity limit are not modelled. The capacity `cacheSize / m` is recorded, not enforced, so a `put` never evicts.
- The comparator of `ComparableARC` is recorded in the `Ordered` partition kind; it does not affect the model's lookups.
- `ConcurrentARC.iterator()` is `entrySet().iterator()`, so `EntrySet` covers it. Iteration order is not modelled.
- `ConcurrentARC.hashCode()` returns the array's identity hash. It is left out: there is nothing to state about it.
- Keys' `hashCode()` is a parameter `hash: K -> int32`, fixed for the cache's lifetime.
- Storage.PartitionCount: for `partitions` above 2^30 the model returns 2^30, where the source loops for ever; see Findings. Allocating 2^30 partitions (memory) is not modelled.
- Concurrency is not modelled: sequential consistency is assumed. The per-partition locking and the absence of a global lock in `size`, `clear` and `entrySet` are not captured.
- `RemoteInstance`'s URL parser `MultiProtocolURI` is not part of this model. It is the parameter `parse`, and `None` stands for `MalformedURLException`.
- `Domains.myPublicLocalIP()` is not part of this model. `GetAdminInterface` takes its host address as a parameter, with `None` for null.
- SolrInstance.RemoteInstance.GetAdminInterface: uses the corrected rewrite `AdminInterface`. On a base URL whose loopback host is `0:0:0:0:0:0:0:1` it returns the whole spelling replaced, where the source leaves `:0:0:1` behind; see Findings. On every other base URL it is proved equal to the rewrite as written.
- The HTTP client's connection manager, the gzip interceptors and the authentication cache are left out: they are plumbing. So are the server's compression, timeout and retry settings (lines 231-234 of RemoteInstance.java), the `Log` calls and `close()`. A client is the host plus the credentials; a server is its URL plus its client.
- SolrInstance.RemoteInstance.Open: the `IOException` at line 179 of RemoteInstance.java is unreachable in the model. `getServer` re-parses the URL that was just parsed successfully, and `parse` is a function. So that branch is proved dead rather than modelled as a failure.
- SolrInstance.RemoteInstance.GetShardInstances: `urlList.replace(' ', ',')` discards its result in the source, so spaces do not separate URLs, and the model follows the code. Java's `split` takes a regular expression; only the one-character literal `,` used here is modelled.
- A null `urlList` (a `NullPointerException` in the source) is not modelled; strings are never null.
- The getters `getDefaultCoreName`, `getCoreNames` and `getDefaultServer` are field reads: `defaultCoreName`, `coreNames` and `defaultServer`.
- The core names `collection1` and `webgraph` are the schema classes' `CORE_NAME` constants. Those classes are not part of this model.
- `Switchboard`'s static fields become the fields of one `Switchboard` object. The info updater and shutdown-hook threads, `InfoBox`/`info`, the logger and `load` (file I/O followed by `System.exit`) are left out: they are threads, GUI and I/O.
- Framework.Switchboard.GetFile: the path is used as stored. The source's `replace("/", File.separator)` discards its result, and `java.io.File` path normalisation is not modelled.
- JavaLang.ParseInt: only ASCII digits are accepted. Java's `parseInt` also accepts other Unicode decimal digits.

## Findings

| source | as written | input that shows it | evidently intended | confidence | as-written member | corrected member |
|---|---|---|---|---|---|---|
| source/net/yacy/cora/federate/solr/instance/RemoteInstance.java:188-189 | the found loopback is replaced by cutting `p + 9`, the length of `localhost` and `127.0.0.1`, also when the 15-character `0:0:0:0:0:0:0:1` was found | solrurl `http://[0:0:0:0:0:0:0:1]/` gives `http://[ext:0:0:1]/admin/` | the whole loopback spelling is replaced: `http://[ext]/admin/` (an IPv4 external address then still sits inside IPv6 brackets; that further issue is not modelled) | high; not executed | `SolrInstance.AdminInterfaceAsWritten` (discrepancy: `SolrInstance.AdminInterfaceIpv6Counterexample`) | `SolrInstance.AdminInterface` (property: `SolrInstance.AdminInterfaceReplacesLoopback`; used by `SolrInstance.RemoteInstance.GetAdminInterface`) |
| source/net/yacy/cora/storage/ConcurrentARC.java:48 | `m = m * 2` on an `int` with no bound: for `partitions` above 2^30, `m` goes 2^30, -2^31, 0, 0, ... and `m < partitions` never fails | `new ConcurrentARC(c, 0x40000001)` never returns | stop at 2^30, the largest power of two an `int` holds | medium; not executed | `Storage.DoublingAsWritten` (discrepancy: `Storage.PartitionLoopAsWrittenHangs`) | `Storage.PartitionCount` (used by `Storage.ConcurrentArc.constructor` and `Storage.ConcurrentArc.WithComparator`) |
