/** The class `Watcher` of Watcher.py: one per watched channel, owning `_hashes` and
    `_blacklist` and changing them in place. Every method follows the source loop by loop and
    is proved to leave exactly the state the matching function of module `Index` describes;
    the lemmas of the proof modules then say what that state means. */
module ChannelWatcher {
  import opened Seqs
  import opened JumpUrl
  import opened PyDict
  import opened Index
  import BackfillProofs
  import LiveProofs
  import DeleteProofs

  class Watcher {
    var hashes: Dict<Fp, seq<Url>>
    var blacklist: Dict<Fp, Url>

    function Current(): State
      reads this
    {
      State(hashes, blacklist)
    }

    /** `__init__`: both dictionaries start empty. */
    constructor ()
      ensures Current() == EmptyState()
      ensures Valid(Current())
    {
      hashes := Empty();
      blacklist := Empty();
    }

    /** The `worker` task: replays `history` (newest first), putting each older occurrence of
        a fingerprint in front of the ones already recorded. */
    method Backfill(history: seq<Message>)
      requires WellFormed(Current())
      modifies this
      ensures hashes == Index.Backfill(old(hashes), history)
      ensures blacklist == old(blacklist)
      ensures WellFormed(Current())
      ensures old(Disjoint(Current())) && BackfillProofs.HistoryFps(history) !! blacklist.entries.Keys
        ==> Valid(Current())
    {
      for m := 0 to |history|
        invariant Index.Backfill(old(hashes), history) == Index.Backfill(hashes, history[m..])
        invariant blacklist == old(blacklist)
      {
        var url, fps := history[m].url, history[m].fps;
        assert history[m..][1..] == history[m + 1..];
        for i := 0 to |fps|
          invariant Index.Backfill(old(hashes), history)
            == Index.Backfill(BackfillMessage(hashes, url, fps[i..]), history[m + 1..])
          invariant blacklist == old(blacklist)
        {
          assert fps[i..][1..] == fps[i + 1..];
          var fp := fps[i];
          if fp in hashes.entries && hashes.entries[fp] != [] {
            hashes := hashes.Put(fp, [url] + hashes.entries[fp]);
            continue;
          }
          hashes := hashes.Put(fp, [url]);
        }
      }
      BackfillProofs.BackfillWellFormed(old(Current()), history);
      BackfillProofs.BackfillKeys(old(hashes), history);
    }

    /** `process`: looks each fingerprint up, records the URL and returns what the generator
        yields, in order. */
    method Process(message: Message) returns (matches: seq<seq<Url>>)
      requires Valid(Current())
      modifies this
      ensures (Current(), matches) == Index.Process(old(Current()), message.url, message.fps)
      ensures Valid(Current())
    {
      var url, fps := message.url, message.fps;
      ghost var goal := Index.Process(Current(), url, fps);
      assert fps[0..] == fps;
      matches := [];
      for i := 0 to |fps|
        invariant goal.0 == Index.Process(Current(), url, fps[i..]).0
        invariant goal.1 == matches + Index.Process(Current(), url, fps[i..]).1
      {
        LiveProofs.ProcessUnfold(Current(), url, fps, i);
        ghost var rest := Index.Process(ProcessOne(Current(), url, fps[i]).0, url, fps[i + 1..]);
        var yielded := ProcessFingerprint(url, fps[i]);
        assert matches + (yielded + rest.1) == (matches + yielded) + rest.1;
        matches := matches + yielded;
      }
      assert fps[|fps|..] == [] && matches + [] == matches;
      LiveProofs.ProcessValid(old(Current()), url, fps);
    }

    /** One pass of `process`'s loop: what it records for `fp`, and what it yields (nothing,
        or the updated list). */
    method ProcessFingerprint(url: Url, fp: Fp) returns (yielded: seq<seq<Url>>)
      modifies this
      ensures (Current(), yielded) == ProcessOne(old(Current()), url, fp)
    {
      yielded := [];
      if fp in blacklist.entries && blacklist.entries[fp] != "" {
        return;
      }
      if fp !in hashes.entries {
        hashes := hashes.Put(fp, [url]);
        return;
      }
      var updated := hashes.entries[fp] + [url];
      hashes := hashes.Put(fp, updated);
      yielded := [updated];
    }

    /** `blacklist`: every fingerprint of the message not yet blacklisted is blacklisted with
        this message's URL and dropped from the index. */
    method Blacklist(message: Message)
      requires Valid(Current())
      requires message.url != ""
      modifies this
      ensures Current() == Index.Blacklist(old(Current()), message.url, message.fps)
      ensures Valid(Current())
    {
      var url, fps := message.url, message.fps;
      for i := 0 to |fps|
        invariant Index.Blacklist(old(Current()), url, fps) == Index.Blacklist(Current(), url, fps[i..])
      {
        assert fps[i..][1..] == fps[i + 1..];
        var fp := fps[i];
        if fp in blacklist.entries && blacklist.entries[fp] != "" {
          continue;
        }
        blacklist := blacklist.Put(fp, url);
        hashes := hashes.Pop(fp);
      }
      LiveProofs.BlacklistValid(old(Current()), url, fps);
    }

    /** `raw_delete`. */
    method RawDelete(event: DeleteEvent) returns (outcome: Outcome)
      requires Valid(Current())
      modifies this
      ensures (Current(), outcome) == Index.RawDelete(old(Current()), event)
      ensures Valid(Current())
    {
      match event
      case Cached(m) =>
        outcome := DeleteCached(m);
      case Uncached(id) =>
        outcome := DeleteUncached(id);
    }

    /** The cached path: the message's fingerprints are looked at one by one. */
    method DeleteCached(message: Message) returns (outcome: Outcome)
      requires Valid(Current())
      modifies this
      ensures (Current(), outcome) == CachedDelete(old(Current()), message.url, message.fps)
      ensures Valid(Current())
    {
      var url, fps := message.url, message.fps;
      DeleteProofs.CachedDeleteValid(Current(), url, fps);
      for i := 0 to |fps|
        invariant CachedDelete(old(Current()), url, fps) == CachedDelete(Current(), url, fps[i..])
      {
        assert fps[i..][1..] == fps[i + 1..];
        var fp := fps[i];
        if fp in blacklist.entries && blacklist.entries[fp] != "" {
          blacklist := blacklist.Pop(fp);
          continue;
        }
        if fp in hashes.entries && hashes.entries[fp] != [] {
          if url !in hashes.entries[fp] {
            // `list.remove` raises ValueError
            return Raised(ValueError);
          }
          var rest := RemoveFirst(hashes.entries[fp], url);
          if rest == [] {
            hashes := hashes.Pop(fp);
          } else {
            hashes := hashes.Put(fp, rest);
          }
        }
      }
      outcome := Completed;
    }

    /** The id-only path: the index scan, then the blacklist scan unless the first raised. */
    method DeleteUncached(id: int) returns (outcome: Outcome)
      requires Valid(Current())
      modifies this
      ensures (Current(), outcome) == UncachedDelete(old(Current()), id)
      ensures Valid(Current())
    {
      DeleteProofs.UncachedDeleteValid(Current(), id);
      outcome := PruneIndex(id);
      if outcome.Raised? {
        return;
      }
      outcome := PruneBlacklist(id);
    }

    /** The loop over `_hashes.items()`. It walks a snapshot of the key order, so popping an
        emptied entry does not stop it (see README, Findings). */
    method PruneIndex(id: int) returns (outcome: Outcome)
      requires hashes.Valid()
      modifies this
      ensures (hashes, outcome) == ScanIndex(old(hashes), id, old(hashes.order))
      ensures blacklist == old(blacklist)
    {
      var keys := hashes.order;
      for i := 0 to |keys|
        invariant ScanIndex(old(hashes), id, keys) == ScanIndex(hashes, id, keys[i..])
        invariant blacklist == old(blacklist)
      {
        assert keys[i..][1..] == keys[i + 1..];
        var k := keys[i];
        if k !in hashes.entries {
          continue;
        }
        var urls := hashes.entries[k];
        var scan := FindUrlWithId(urls, id);
        match scan
        case Malformed(_) =>
          return Raised(ValueError);
        case Miss =>
        case Hit(j) =>
          var rest := RemoveFirst(urls, urls[j]);
          if rest == [] {
            hashes := hashes.Pop(k);
          } else {
            hashes := hashes.Put(k, rest);
          }
      }
      outcome := Completed;
    }

    /** The inner loop over one stored list: the first URL whose last segment parses to `id`,
        or the first whose last segment `int()` rejects. */
    static method FindUrlWithId(urls: seq<Url>, id: int) returns (scan: Scan)
      ensures scan == FindId(urls, id)
    {
      for j := 0 to |urls|
        invariant forall t :: 0 <= t < j ==> HasOtherId(urls[t], id)
      {
        var mid := MessageId(urls[j]);
        if mid.None? {
          // `int()` raises ValueError
          return Malformed(j);
        }
        if mid.value == id {
          return Hit(j);
        }
      }
      return Miss;
    }

    /** The loop over `_blacklist.items()`: the values are walked in iteration order, the first
        entry whose URL carries `id` is popped and the loop ends. */
    method PruneBlacklist(id: int) returns (outcome: Outcome)
      requires blacklist.Valid()
      modifies this
      ensures (blacklist, outcome) == ScanBlacklist(old(blacklist), id)
      ensures hashes == old(hashes)
    {
      var scan := FindUrlWithId(ValuesInOrder(blacklist), id);
      match scan
      case Malformed(_) =>
        outcome := Raised(ValueError);
      case Miss =>
        outcome := Completed;
      case Hit(i) =>
        blacklist := blacklist.Pop(blacklist.order[i]);
        outcome := Completed;
    }
  }
}
