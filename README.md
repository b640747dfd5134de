# redis-registry in Dafny

A model of the service registry in `index.js` of redis-registry, with
proofs about that model. Services **join** under a name, with a
descriptor of where they can be reached. The registry writes the
descriptor to a key-value store under a key derived from the name and
the url. The write carries a 10-second lease, and the lease is renewed
every 5 seconds (every 15 seconds after a failed write). Other processes
**list** the live descriptors of a name or **look up** one of them at
random. A service **leaves** by cancelling its renewals and deleting its
keys.

The store is not modelled as a database. The registry is modelled by the
commands it sends (`SetWithExpiry`, `Delete`) and by the replies those
commands get, which are inputs. The scan and the batch read that `list`
performs are inputs too.

Modules:

- `Wrappers`: `Option` and `Result`.
- `Js`: the JavaScript truthiness, `||` and `String(n)` that the source
  relies on.
- `Config`: `parseConnectionObject`.
- `Keys`: the namespace path, `prefix`, `normalize`, the storage key, and
  the prefix that `list` scans.
- `Listing`: `list` (scan, batch read, tolerant decode, filter) and
  `lookup`.
- `Bookkeeping`: `indexOf`, `splice` and filtering, on the array of
  tracked registrations.
- `Registry`: the registry object.
  - The `Service` class is the descriptor that `join` completes in place.
  - The `Entry` class is one registration, with its `destroyed` flag and
    its timer.
  - The `Registry` class holds the namespace and the `services` array.
    Its methods are `Join` and `Leave`, plus the internal leave loop
    `LeaveEntries`.
  - `Registry.Valid()` is the invariant every method keeps:
    - no registration is tracked twice;
    - no tracked registration has been left;
    - every tracked key lies in its service's directory
      `services/<ns><normalize(name)>/`.

## Model

| member | source | states |
|---|---|---|
| Config.ParseConnectionObject | index.js:15-27 | Fails with `Invalid host.` exactly when `host` is falsy. Otherwise the namespace defaults to "rr", the port to 6379 and the options to `{}`, and the host is kept. A successful result has a non-empty namespace and host and a non-zero port. |
| Registry.Connect | index.js:29-48 | Construction fails exactly when the configuration is rejected. A new registry tracks nothing, satisfies its invariant, uses the normalized namespace segment, and keeps the hash, local address and encoder it was given. |
| Registry.Registry.constructor | index.js:40-48 | The namespace segment is normalized once. The registration list starts empty and the invariant holds. |
| Registry.DefaultNamespaceKeys | index.js:21-45 | With no namespace configured, the segment is "rr/" and every key lives under "services/rr/". |
| Keys.Prefix | index.js:43-45 | Every key starts with "services/", followed by the namespace segment and then the key. |
| Keys.NormalizeNamespace | index.js:42 | Drops one leading '/'. Appends '/' exactly when the rest is non-empty and does not already end in '/'. A non-empty segment always ends in '/'. |
| Keys.NamespaceSegment | index.js:42-45 | "seg", "/seg", "seg/" and "/seg/" all give the segment "seg/", so keys are prefixed "services/seg/". |
| Keys.EmptyNamespace | index.js:42-45 | "" and "/" give the empty segment, so keys sit directly under "services/". |
| Keys.Normalize | index.js:50-52 | Same length as the input. Each character in [a-zA-Z0-9-] is kept and every other becomes '-'. Every output character is in [a-zA-Z0-9-]. |
| Keys.NormalizeFixedPoint | index.js:50-52 | A name is unchanged exactly when all its characters are allowed, and normalizing twice equals normalizing once. |
| Keys.NormalizedHasNoSlash | index.js:50-52 | A normalized name never contains '/', so it is a single path segment. |
| Keys.StorageKey | index.js:65 | The key lies in the service's directory `prefix(normalize(name) + '/')`. The rest of the key is the digest of `name + '-' + url`. |
| Keys.StorageKeyInjective | index.js:65 | When the two digests have the same length (SHA-1 hex is always 40 characters) and do not collide, two registrations share a key only if they share both name and url. |
| Keys.ListPrefixAsWritten | index.js:111-113 | The as-written scan prefix stays inside the namespace. For a truthy name it is the corrected prefix without its final '/'; for a falsy name it equals the corrected prefix. |
| Keys.ListPrefix | index.js:111-113 | The corrected scan prefix stays inside the namespace. For a truthy name it is the service's directory `prefix(normalize(name) + '/')`, ending in '/'; for a falsy name it is the whole namespace. |
| Keys.ListPrefixAsWrittenOvermatches | index.js:111-113 | As written, listing "api" matches a key of the service "api-v2"; the corrected prefix does not. |
| Keys.ListPrefixMatchesName | index.js:111-113 | With the corrected prefix `prefix(normalize(name) + '/')`, a named scan matches a registration key exactly when the two names normalize alike. |
| Keys.ListPrefixWholeNamespace | index.js:111-113 | A falsy name scans every registration key of the namespace. |
| Listing.Parse | index.js:131-137 | A reply that decodes to a value gives exactly that value. A missing reply, or one that does not decode, becomes `null`. A truthy value therefore comes only from a reply that decodes to it. |
| Listing.ParseAll | index.js:130-137 | One parsed value per reply, in order. A missing or undecodable reply becomes `null`. |
| Listing.KeepTruthy | index.js:138-140 | The filter never grows the list. Every value it keeps is truthy and comes from the input. |
| Listing.KeepTruthyAppend | index.js:138-140 | The filter keeps order: filtering a concatenation equals concatenating the filtered parts. |
| Listing.KeepTruthyMembers | index.js:138-140 | A value survives exactly when it was among the parsed values and is truthy. |
| Listing.KeepTruthyAllTruthy | index.js:138-140 | When every parsed value is truthy, nothing is dropped. |
| Listing.ParseAllAppend | index.js:130-137 | Parsing distributes over concatenation of the batch reply. |
| Listing.Survivors | index.js:130-140 | No more values than replies. A value is in the result exactly when it is truthy and some reply parses to it. |
| Listing.SurvivorsAppend | index.js:130-140 | Decode-and-filter distributes over concatenation of the batch reply. |
| Listing.SurvivorsAllDecodable | index.js:130-140 | Replies that all decode to truthy values all come back, in order. |
| Listing.SurvivorsOfDropped | index.js:132-136 | A reply that does not decode to a truthy value contributes nothing. |
| Listing.OneBadReply | index.js:130-140 | One bad reply among good ones costs exactly that one value. The others come back in order, so one fewer than the replies. |
| Listing.ScanKeys | index.js:113 | The scan returns exactly the stored keys that start with the pattern's prefix, and never more keys than are stored. |
| Listing.List | index.js:109-145 | Scan and batch-read errors are passed on unchanged. An empty scan gives `[]`. After a successful batch read, the listing is exactly the replies that decode to a truthy value, in reply order, and so no more values than there were replies. |
| Listing.ListReadsOnlyName | index.js:109-113 | A named listing reads a registration key exactly when that key is stored and its service name normalizes like the listed name. |
| Listing.ListKeepsDecodable | index.js:122-142 | Every truthy value that some reply decodes to is in the listing. |
| Listing.ToInt32 | index.js:105 | A bitwise or with 0, applied to a non-negative number, lands in the signed 32-bit range, and is the floor of `x` when `x` is below 2^31. |
| Listing.PickIndex | index.js:105 | The picked index is always a signed 32-bit integer. |
| Listing.PickIndexInRange | index.js:105 | For every random draw in [0, 1) and every list shorter than 2^31, the draw times the length, truncated as by ToInt32, is a valid index. |
| Listing.Lookup | index.js:99-107 | Fails exactly when the listing fails, with the same error. An empty listing gives `null`. Otherwise the result is an element of the listing. |
| Registry.RenewDelay | index.js:79 | Re-arms after 5000 ms on success and 15000 ms on error. The next renewal falls inside the 10-second lease exactly when the write succeeded. |
| Registry.Filled | index.js:60-63 | The name is set to the join name. Truthy hostname, host and url are kept. Missing ones are defaulted in order: hostname from the local address, host from the hostname and a truthy port, url from the protocol (default 'http') and the host. The url always ends up truthy, and other fields are untouched. |
| Registry.DefaultHost | index.js:62 | With a truthy port the host is the hostname, ':' and the port in decimal. With a falsy port it is the hostname alone, and only then does it equal the hostname. |
| Registry.DefaultUrl | index.js:63 | The url is the protocol (default 'http'), then "://", then the host and nothing else: it starts with the first two, ends with the host, and its length is the sum of theirs. With no protocol it is "http://" + host. |
| Registry.FilledIdempotent | index.js:60-65 | Joining again with a descriptor that `join` returned changes nothing and derives the same storage key. |
| Registry.Service.constructor | index.js:56-57 | The object holds exactly the given descriptor fields. |
| Registry.Service.FillDefaults | index.js:60-63 | The object's new fields are the completed descriptor of its old fields. |
| Registry.Initial | index.js:55-57 | `join` starts from the caller's own object when one is given. Otherwise it starts from an empty descriptor, which carries the port when a bare port number was given. |
| Registry.Registry.Describe | index.js:55-63 | The descriptor `join` completes is the caller's own object, or a fresh `{}` or `{port: n}`, and afterwards it holds the completed descriptor. |
| Registry.Entry.constructor | index.js:67 | A new registration has the given name and key, is not destroyed, and has no timer. |
| Registry.Entry.Update | index.js:69-74 | The write sets the entry's own key to its own value with a 10-second expiry. That lease outlasts the 5000 ms renewal interval but not the 15000 ms backoff. |
| Registry.Entry.Renew | index.js:69-81 | A renewal sends `SET key value` with a 10-second `EXPIRE`. A left registration keeps its state; otherwise its timer is re-armed with the delay its reply calls for. |
| Registry.Registry.Register | index.js:65-89 | The entry is tracked at the end of the list before any write. Its key is the storage key of the completed descriptor, and the invariant is kept. |
| Registry.Registry.FirstUpdate | index.js:83-96 | After a good first write the timer is armed at 5000 ms. After a failed one the entry is destroyed and untracked again, and its key is deleted. |
| Registry.Registry.Join | index.js:54-97 | The whole `join`: the descriptor is completed (in place when the caller gave one), and the key and value are derived from it. Success: the descriptor is returned, the entry is tracked, the timer is at 5000 ms, and one write is sent. Failure: the store's error is returned, the list is as before, the entry is destroyed, and a write and a delete are sent. |
| Registry.Deletes | index.js:159 | One delete per work-list entry, of its key, in order. |
| Registry.Named | index.js:166-168 | The result is no longer than the list. It holds exactly the tracked registrations with this name. |
| Registry.NamedAppend | index.js:166-168 | The filter keeps tracking order: filtering a concatenation equals concatenating the filtered parts. |
| Registry.Registry.Release | index.js:153-157 | One step of the internal leave: the timer is cleared and the entry marked destroyed. It is removed from the tracked list, which becomes the old list filtered for it, and the invariant is kept. |
| Registry.Registry.LeaveEntries | index.js:147-163 | After the internal leave, the tracked list is the old one filtered for the work list. Every work entry is destroyed with no timer, one delete per entry has been sent in order, and the invariant is kept. |
| Registry.Registry.Leave | index.js:165-171 | Leaving a name leaves exactly the tracked registrations with that name. None of that name stays tracked, the others are untouched, and their keys are deleted in tracking order. |
| Bookkeeping.IndexOf | index.js:156 | -1 exactly when the element is absent. Otherwise the position of its first occurrence. |
| Bookkeeping.SpliceAsWritten | index.js:156-157 | As written, whenever the element is tracked the first entry is removed; otherwise nothing changes. |
| Bookkeeping.SpliceAsWrittenRemovesHead | index.js:156-157 | As written, removing a tracked entry that is not first drops the first entry instead and keeps the one being left. |
| Bookkeeping.SpliceAsWrittenExample | index.js:156-157 | Removing 2 from [1, 2] as written leaves [2]; the intended removal leaves [1]. |
| Bookkeeping.RemoveAt | index.js:157 | The intended `splice(i, 1)`: one element shorter, with the elements before `i` unchanged and those after it shifted down by one. |
| Bookkeeping.Drop | index.js:156-157 | The intended removal at the index that `indexOf` finds: the list filtered for the element, still without duplicates and holding nothing new. |
| Bookkeeping.RemoveFound | index.js:156-157 | Removing at a found index in a list without duplicates equals filtering out that element. The result has no duplicates and holds only other elements of the list. |
| Bookkeeping.RemoveAtIsWithout | index.js:156-157 | Removing at the element's only index equals filtering it out. |
| Bookkeeping.WithoutAbsent | index.js:156-157 | Leaving an untracked entry leaves the tracked list unchanged. |
| Bookkeeping.WithoutMembers | index.js:147-163 | The filtered list is no longer than the original. It holds only elements that are not dropped, and it holds every element that is not dropped. |
| Bookkeeping.WithoutNothing | index.js:147-163 | An empty work list changes nothing. |
| Bookkeeping.WithoutSnoc | index.js:148-160 | Filtering out a work list one entry at a time equals filtering it out at once. |
| Bookkeeping.WithoutDistinct | index.js:147-163 | Filtering keeps a list without duplicates. |
| Bookkeeping.WithoutAppended | index.js:83-91 | Leaving an entry just pushed, which was not tracked before, restores the earlier list. |

## Left out

- The store client: creating it, sharing one client across registries,
  and the error logger on it (index.js:13, 32-38). The model sees the
  store only through the commands sent and the replies received.
- Timers and asynchrony.
  - A timer is its delay (`Entry.timeout`). Clearing it sets None.
  - A callback is the method's return.
  - The first write and its reply are one step (`FirstUpdate`).
  - A renewal and its reply are one step (`Entry.Renew`), so interleavings
    between a write and its reply are not modelled. `Renew` on an entry
    already left stands for a renewal reply that arrives after `leave`.
- Lease expiry inside the store, and what the store then holds.
- Failure of the delete commands: `store.del` continues the loop whatever
  it answers, and so does the model.
- SHA-1, `JSON.stringify`/`JSON.parse`, the network-address lookup and
  `REGISTRY_INTERFACE` (index.js:9-11, 61). They are parameters: `hash`,
  `encode`, `decode` and `localAddress`. `StorageKeyInjective` assumes
  only what it needs of the two digests it compares: they have equal
  length, and they differ when their inputs differ. SHA-1 collisions are
  not modelled.
- The distribution of `Math.random()`. The draw is a parameter in [0, 1).
  `PickIndex` computes the product of the draw and the list length
  exactly, as a real number. Rounding that product to a double is not
  modelled.
- The registry's own `destroyed` flag (index.js:40, 92). It is never set,
  so the `registry destroyed` branch of the first write cannot be taken.
- `typeof service === 'function'` and `typeof name === 'function'`
  (index.js:55, 100, 110), which shift a callback into place. The
  callback itself is the method's return, so these cases are `Absent` and
  `None`.
- Ports and protocols given as non-integers or as other types. A port is
  an optional integer, and `String(port)` is its decimal form.
- Glob metacharacters in the namespace. `ScanKeys` treats the pattern as
  a plain prefix.
- The order of keys returned by the store's scan. `ScanKeys` keeps the
  stored order.
- Strings are sequences of characters. UTF-16 code units and
  `JSON.parse` edge cases are not modelled.
- Listing.List: uses the corrected scan prefix. The as-written prefix
  is modelled separately by `Keys.ListPrefixAsWritten` (see Findings).
- Registry.Registry.Release: removes the entry at the index that
  `indexOf` finds, not the as-written `splice(next, 1)`. That call is
  modelled separately by `Bookkeeping.SpliceAsWritten` (see Findings).
  `Registry.Registry.LeaveEntries`, `Registry.Registry.Leave`,
  `Registry.Registry.FirstUpdate` and `Registry.Registry.Join` go through
  `Release`, so they state the corrected removal too. An example is the
  `Join` failure case, where "the list is as before".
- Listing.Lookup: for a listing of 2^31 or more values, the result is
  only stated to be a success.

## Findings

| source | as written | input that shows it | evidently intended | confidence | as-written member | corrected member |
|---|---|---|---|---|---|---|
| index.js:157 | `services.splice(next, 1)` passes the entry object as the start index. It converts to NaN, which counts as 0, so the first tracked registration is removed whatever `i` is. | Tracked `[a, b]`, leave `b`: `a` is untracked but keeps renewing, and a later `leave` can no longer reach it. `b` stays tracked although destroyed. The join failure path has the same effect: with `x` tracked, a failed first write of a new entry untracks `x`, and the destroyed new entry stays tracked (index.js:84). | `services.splice(i, 1)` | not executed | Bookkeeping.SpliceAsWrittenRemovesHead | Bookkeeping.Drop |
| index.js:111-113 | The scan pattern is `services/<ns><normalize(name)>*`, with no '/' after the name. | `list('api')` while "api-v2" is registered: the scan matches the keys of "api-v2" too. | `prefix(normalize(name) + '/') + '*'` | not executed | Keys.ListPrefixAsWrittenOvermatches | Keys.ListPrefixMatchesName |
