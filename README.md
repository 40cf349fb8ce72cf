# Repost watcher index, modelled in Dafny

A `Watcher` keeps a per-channel index that detects reposted media. `_hashes` maps each media
fingerprint to the jump URLs of the messages that carried it, oldest first. `_blacklist` maps a
fingerprint to the URL of the message that blacklisted it. Five operations change the two
dictionaries:

- the history `worker` replays the channel's history, newest first, and puts each older
  occurrence in front of its list;
- `process` records a new message and yields the updated list of every fingerprint already seen;
- `blacklist` moves a message's fingerprints out of the index and into the blacklist;
- `raw_delete` removes a deleted message. When the message is cached, its fingerprints are
  derived again and its URL is removed from each list. When only its id is known, every stored
  URL whose last `/` segment parses to that id is a candidate for removal.

The project is laid out as follows.

- `seqs.dfy` (`Seqs`): sequence helpers. These are `list.remove` as `RemoveFirst`, plus
  `Reverse`, `Repeat` and `NoDup`.
- `py_dict.dfy` (`PyDict`): a Python `dict` as its entries plus its insertion order. Order
  matters because it decides which blacklist entry the id-only scan hits and where the index
  scan stops.
- `jump_url.dfy` (`JumpUrl`): the id parse `int(url.split("/")[-1])` as `MessageId`, and the
  decimal rendering it inverts.
- `index.dfy` (`Index`): the state, and each operation as a function from the old state to the
  new state and the outcome.
- `watcher.dfy` (`ChannelWatcher`): the class `Watcher`. Its fields are updated in place with
  the source's own loops. Each method is proved to produce exactly what the matching `Index`
  function describes.
- `backfill_proofs.dfy`, `live_proofs.dfy`, `delete_proofs.dfy`: what those functions
  guarantee.

### Conventions

- **Python truthiness is kept.**
  - `_blacklist.get(fp)` counts as true when the key is present and its URL is not empty.
  - `_hashes.get(fp)` counts as true when the key is present and its list is not empty.
  - The invariant `Index.Valid` makes both agree with plain membership. It says every list is
    non-empty, every blacklist URL is non-empty, and no fingerprint is in both dictionaries.
- **Exceptions are results.** An exception escaping `raw_delete` becomes `Raised(ValueError)`
  or `Raised(RuntimeError)`. Changes made before the raise are kept, as in Python.
- **Cached delete keeps `list.remove`'s error.** When a fingerprint is indexed but its list
  lacks the message's URL, `list.remove` raises `ValueError`. The model keeps that error, so
  the delete stops there instead of skipping the fingerprint.
- **The index scan walks a snapshot.** The id-only index scan in the class runs over a snapshot
  of the key order. The code as written iterates the live dictionary and aborts; see Findings.

## Model

| member | source | states |
|---|---|---|
| Index.RecordOlder | Watcher.py:43-46 | defines one fingerprint of a replayed message: an indexed fingerprint gets the URL in front of its list, any other one a fresh one-URL list |
| Index.BackfillMessage | Watcher.py:41-46 | defines the replay of one message's fingerprints, in order |
| Index.Backfill | Watcher.py:40-46 | defines the worker's replay of a newest-first history, message by message |
| Index.ProcessOne | Watcher.py:73-82 | defines one fingerprint of `process`: blacklisted is skipped, absent gets `[url]` and yields nothing, present gets the URL appended and yields the updated list |
| Index.Process | Watcher.py:72-82 | defines `process` with its generator consumed: the fingerprints in order, their yields concatenated |
| Index.BlacklistOne | Watcher.py:97-104 | defines one fingerprint of `blacklist`: an already blacklisted one is kept with its URL; any other is put in the blacklist with the URL and popped from the index, absent or not |
| Index.Blacklist | Watcher.py:96-104 | defines `blacklist` as those steps over the fingerprints in order |
| Index.CachedDeleteOne | Watcher.py:122-131 | defines one fingerprint of the cached path: blacklisted is popped from the blacklist; not indexed is skipped; indexed without the URL raises `ValueError` and changes nothing; otherwise one copy is removed and an emptied list popped |
| Index.CachedDelete | Watcher.py:120-132 | defines the cached path: the steps in order, stopping at the first raise with the earlier changes kept |
| Index.ScanKey | Watcher.py:135-141 | defines one index entry of the id-only path: the URL the walk stops at is removed with `list.remove` and an emptied list popped; an unparseable URL before a hit raises `ValueError` |
| Index.ScanIndex | Watcher.py:134-141 | defines the corrected index scan: `ScanKey` over a snapshot of the key order, stopping at the first raise |
| Index.ScanIndexAsWritten | Watcher.py:134-141 | defines the index scan as written: as `ScanIndex`, but a step that pops a key makes the live iteration raise `RuntimeError` |
| Index.ScanBlacklist | Watcher.py:143-146 | defines the blacklist scan: the first entry in iteration order whose URL parses to the id is popped; an unparseable URL before it raises `ValueError` |
| Index.UncachedDelete | Watcher.py:133-146 | defines the id-only path: the corrected index scan, then the blacklist scan unless the index scan raised |
| Index.UncachedDeleteAsWritten | Watcher.py:133-146 | defines the id-only path as written, with `ScanIndexAsWritten` in place of `ScanIndex` |
| Index.RawDelete | Watcher.py:119-146 | defines `raw_delete`: the cached path for a cached message, the id-only path otherwise |
| JumpUrl.MessageId | Watcher.py:136 | defines `int(url.split("/")[-1])`: `ParseDecimal` of `LastSegment`, `None` where `int()` raises |
| ChannelWatcher.Watcher.constructor | Watcher.py:29-31 | both dictionaries start empty, which satisfies the invariant |
| ChannelWatcher.Watcher.Backfill | Watcher.py:36-46 | the in-place replay leaves exactly `Index.Backfill` of the old index; the blacklist is unchanged; well-formedness is kept; disjointness is kept when no replayed fingerprint is blacklisted |
| ChannelWatcher.Watcher.Process | Watcher.py:72-82 | the in-place loop gives the state and the yielded matches of `Index.Process`, and keeps the invariant |
| ChannelWatcher.Watcher.ProcessFingerprint | Watcher.py:73-82 | one pass of the loop: a blacklisted fingerprint is skipped; an unseen one gets `[url]`; an indexed one gets the URL appended and the updated list is yielded; the result equals `Index.ProcessOne` |
| ChannelWatcher.Watcher.Blacklist | Watcher.py:96-104 | the in-place loop gives `Index.Blacklist` and keeps the invariant |
| ChannelWatcher.Watcher.RawDelete | Watcher.py:119-146 | dispatches on whether the message is cached; the state and outcome are `Index.RawDelete`'s; the invariant is kept |
| ChannelWatcher.Watcher.DeleteCached | Watcher.py:120-132 | loops over the fingerprints and stops with `ValueError` where `list.remove` fails; the result equals `Index.CachedDelete` |
| ChannelWatcher.Watcher.DeleteUncached | Watcher.py:133-146 | the index scan, then the blacklist scan unless the index scan raised; the result equals `Index.UncachedDelete` |
| ChannelWatcher.Watcher.PruneIndex | Watcher.py:134-141 | the nested loop over a snapshot of `_hashes`'s keys equals `Index.ScanIndex`; the blacklist is untouched |
| ChannelWatcher.Watcher.FindUrlWithId | Watcher.py:135-136 | the inner loop stops at the first URL carrying the id, or at the first URL `int()` rejects, as `Index.FindId` characterises |
| ChannelWatcher.Watcher.PruneBlacklist | Watcher.py:143-146 | pops the first entry in iteration order whose URL carries the id; the index is untouched |
| Index.FindId | Watcher.py:135-136 | a hit is the first position whose URL parses to the id; a malformed stop is the first position whose last segment does not parse; every URL before the stop (all of them on a miss) parses to another id |
| Index.ValuesInOrder | Watcher.py:143 | `_blacklist.items()`'s values: one per key, in insertion order |
| PyDict.Dict.Put | Watcher.py:46 | `d[k] = v`: the key set gains `k`, other entries are unchanged, an existing key keeps its place in the iteration order, a new key joins the end of it, and well-formedness is kept |
| PyDict.Dict.Pop | Watcher.py:102-104 | `d.pop(k)` with a missing key tolerated: the key set loses `k`, other values are unchanged, `k` is deleted from the iteration order at its position with the other keys in their order, and a missing key changes nothing |
| Seqs.RemoveFirst | Watcher.py:128 | `list.remove` on a list holding the element: the first occurrence is deleted at its position and everything else keeps its order. An absent element returns the list unchanged; Python raises there instead, so every caller checks membership first, and `Index.CachedDeleteOne` models the raise |
| Seqs.RemoveFirstMultiset | Watcher.py:128 | `list.remove` takes away exactly one copy of the element |
| JumpUrl.LastSegment | Watcher.py:136 | `url.split("/")[-1]`: contains no `/` and is no longer than the URL |
| JumpUrl.LastSegmentSuffix | Watcher.py:136 | the segment is a suffix of the URL, preceded by `/` unless it is the whole URL |
| JumpUrl.ParseDecimal | Watcher.py:136 | `int()` succeeds exactly on a non-empty string of ASCII digits |
| JumpUrl.DecimalRoundTrip | Watcher.py:136 | parsing the decimal rendering of `n` gives back `n` |
| JumpUrl.JumpUrlId | Watcher.py:136 | for a URL built as `prefix + "/" + decimal(n)`, the parsed id is `n` |
| JumpUrl.MessageIdShape | Watcher.py:144 | a URL whose id parses ends in a non-empty run of digits, preceded by `/` or by nothing |
| BackfillProofs.BackfillKeys | Watcher.py:40-46 | the replay adds exactly the history's fingerprints to the index keys and removes none |
| BackfillProofs.BackfillWellFormed | Watcher.py:43-46 | the replay keeps every list non-empty and both dictionaries well-formed |
| BackfillProofs.BackfillValid | Watcher.py:43-46 | the replay keeps index and blacklist disjoint when no replayed fingerprint is blacklisted |
| BackfillProofs.BackfillAt | Watcher.py:40-46 | each list becomes that fingerprint's occurrences in the history, reversed, in front of what was stored before |
| BackfillProofs.BackfillNewestFirst | Watcher.py:40-46 | replaying a newest-first history into an empty index leaves each list oldest first |
| BackfillProofs.OccurrencesReverse | Watcher.py:40 | reading the history backwards reverses each fingerprint's occurrence list |
| LiveProofs.ProcessValid | Watcher.py:74-81 | `process` keeps lists non-empty and the index disjoint from the blacklist |
| LiveProofs.ProcessAt | Watcher.py:74-81 | a blacklisted fingerprint is untouched; any other gets the URL appended once per occurrence, a new key being created if unseen; the blacklist never changes |
| LiveProofs.ProcessMatchesEndWithUrl | Watcher.py:81-82 | at most one match per fingerprint, and every yielded match ends with the message's own URL |
| LiveProofs.ProcessMatches | Watcher.py:74-82 | the matches are exactly `LiveProofs.ExpectedMatches`, read off the state before the call, in the fingerprints' order: a non-blacklisted fingerprint that is indexed, or occurred earlier in the message, yields its prior list plus one copy of the URL per occurrence so far; an unseen fingerprint's first occurrence and a blacklisted one yield nothing |
| LiveProofs.ProcessSkipsBlacklisted | Watcher.py:74-75 | a message whose fingerprints are all blacklisted changes nothing and yields nothing |
| LiveProofs.LiveAt | Watcher.py:78-81 | processing messages live appends each fingerprint's occurrences in delivery order |
| LiveProofs.BackfillMatchesLive | Watcher.py:40-46 | replaying a newest-first history builds the same index as processing those messages live, oldest first |
| LiveProofs.BlacklistValid | Watcher.py:96-104 | `blacklist` keeps lists non-empty and the index disjoint from the blacklist |
| LiveProofs.BlacklistAt | Watcher.py:96-104 | each of the message's fingerprints ends up blacklisted and out of the index, keeping the URL it was first blacklisted with; every other fingerprint is unchanged in both dictionaries |
| LiveProofs.BlacklistIdempotent | Watcher.py:98-99 | blacklisting the same fingerprints again, under any URL, changes nothing |
| LiveProofs.BlacklistSilences | Watcher.py:74-75 | after `blacklist`, processing the same fingerprints records nothing and yields nothing |
| DeleteProofs.CachedDeleteValid | Watcher.py:120-132 | the cached path keeps the invariant, also when it raises |
| DeleteProofs.CachedDeleteOneAt | Watcher.py:122-131 | one fingerprint: the step fails exactly when `list.remove` would, and then changes nothing; otherwise the fingerprint leaves the blacklist and loses the first copy of the URL; no other fingerprint changes |
| DeleteProofs.CachedDeleteAt | Watcher.py:120-132 | for distinct fingerprints: others are untouched, even on a raise; on completion each of the message's fingerprints is out of the blacklist, whichever URL it stored, and its list has lost the first copy of the URL with the rest in order |
| DeleteProofs.CachedDeleteOutcome | Watcher.py:127-128 | for distinct fingerprints, the path completes exactly when each one is blacklisted, not indexed, or holds the URL; otherwise it raises `ValueError` and never `RuntimeError` |
| DeleteProofs.CachedDeleteOneCopy | Watcher.py:122-131 | one completed step takes one copy of the URL out of the fingerprint's list, which is empty before and after when the fingerprint is blacklisted or not indexed |
| DeleteProofs.CachedDeleteRemovesCopies | Watcher.py:121-131 | a completed cached delete takes one copy of the URL out of a fingerprint's list per occurrence of that fingerprint in the message, as multiset difference; lists of other fingerprints keep their contents |
| DeleteProofs.RemoveHit | Watcher.py:136-137 | `remove(url)` with the URL the scan stopped at deletes that very position |
| DeleteProofs.ScanKeyAt | Watcher.py:135-141 | one index entry: it raises `ValueError` exactly when an unparseable URL comes before a hit, and then changes nothing; otherwise the list becomes its pruned form, with an emptied list popped; other keys are untouched |
| DeleteProofs.ScanIndexShrinks | Watcher.py:134-141 | the index scan keeps lists non-empty and only drops keys |
| DeleteProofs.ScanIndexAt | Watcher.py:134-141 | a completed scan leaves every list with at most its first URL carrying the id deleted and the rest in order; an aborted scan leaves each list old or pruned |
| DeleteProofs.ScanIndexOutcome | Watcher.py:134-141 | the corrected scan completes exactly when no list holds an unparseable URL before a hit; it never raises `RuntimeError` |
| DeleteProofs.UncachedDeleteClearsIndex | Watcher.py:134-141 | once the id-only path completes, no indexed URL carries the id, provided each list held it at most once |
| DeleteProofs.ScanBlacklistAt | Watcher.py:143-146 | at most one blacklist entry is dropped, and its URL carries the id; the others are kept; a completed scan that drops nothing means no blacklisted URL carries the id |
| DeleteProofs.UncachedDeleteValid | Watcher.py:133-146 | the id-only path keeps the invariant |
| DeleteProofs.ScanAsWrittenAgrees | Watcher.py:134-141 | while no list empties, the scan as written equals the corrected one |
| DeleteProofs.UncachedAbortLeavesStaleUrl | Watcher.py:134-141 | counterexample: the scan as written raises `RuntimeError` and leaves the deleted URL under the second fingerprint; the corrected scan removes both |

## Left out

- The `asyncio.Lock`, `create_task` and the `finish_worker` callback (Watcher.py:32, 50-54) are left out. Each operation is treated as atomic, and operations run one after another.
- The `change_presence` status calls (Watcher.py:38, 48) are left out, and so is the window in which the worker awaits one before taking the lock. They are I/O and concurrency.
- `process` yields the live list object, outside the lock (Watcher.py:82). The model yields its value right after the append and does not model later aliasing.
- The `process` generator is modelled as fully consumed. A consumer that stops early would leave the remaining fingerprints unrecorded.
- `Harvester.harvest_message` is not part of this model. Its result is an input `seq<Fp>`, which is also the cached message's fingerprints in `raw_delete`.
- `channel.history` streaming and the discord types are left out. A history is a `seq<Message>` delivered newest first. A message is its jump URL and its fingerprints. A delete event is `Cached(message)` or `Uncached(id)`.
- `int()`'s leniencies are not modelled: surrounding whitespace, a sign, `_` separators and non-ASCII digits. Only a non-empty run of ASCII digits parses. Anything else is the `ValueError` it raises.
- `Utils.py` is not part of this model. It holds console printing, a random hex helper and discord embed sending.
- ChannelWatcher.Watcher.Blacklist: requires a non-empty URL. A jump URL is never empty, and an empty one would break the truthiness the invariant relies on.
- ChannelWatcher.Watcher.Backfill: disjointness is promised only when no replayed fingerprint is blacklisted, because the source never consults the blacklist there. A new watcher's empty blacklist meets this.
- ChannelWatcher.Watcher.PruneIndex: walks a snapshot of the keys rather than the live dictionary. This is the corrected behaviour; the as-written abort is modelled separately by `Index.UncachedDeleteAsWritten` (see Findings).
- DeleteProofs.CachedDeleteAt: stated for a message with distinct fingerprints. With a repeated fingerprint the list loses one copy per occurrence, which `DeleteProofs.CachedDeleteRemovesCopies` states as multiset difference; the positions of the removed copies are not stated.
- DeleteProofs.CachedDeleteOutcome: stated for a message with distinct fingerprints. With a repeated fingerprint, whether a later occurrence raises depends on the copies the earlier ones removed, and that condition is not stated; `Index.CachedDelete` and the class still model it.

## Findings

| source | as written | input that shows it | evidently intended | confidence | as-written member | corrected member |
|---|---|---|---|---|---|---|
| Watcher.py:134-141 | `_hashes.pop(key)` runs while `for key, value in self._hashes.items()` is iterating. CPython's next iteration step raises `RuntimeError: dictionary changed size during iteration`. This happens even after the last key. | An uncached delete of a message with id 7 and URL `c/7`. The index is `{"a": ["c/7"], "b": ["c/7"]}`, for example two attachments of that message. `"a"` is popped and the scan raises. `"b"` keeps `c/7`, and the blacklist scan never runs. | Every key is visited, each emptied list is popped, and the blacklist scan follows. | not executed | Index.UncachedDeleteAsWritten, DeleteProofs.UncachedAbortLeavesStaleUrl | Index.UncachedDelete, DeleteProofs.UncachedDeleteClearsIndex |
