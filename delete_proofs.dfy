/** What `raw_delete` (Watcher.py:107-146) does to the index and the blacklist, on both of its
    paths, and how the id-only path as written differs from its corrected form. */
module DeleteProofs {
  import opened Seqs
  import opened JumpUrl
  import opened PyDict
  import opened Index

  // ---------------------------------------------------------------- cached message

  /** `list.remove` cannot fail on `fp`: it is blacklisted, not indexed, or its list holds `url`. */
  predicate Removable(st: State, url: Url, fp: Fp) {
    IsBlacklisted(st.blacklist, fp) || !IsIndexed(st.hashes, fp) || url in st.hashes.entries[fp]
  }

  lemma CachedDeleteOneValid(st: State, url: Url, fp: Fp)
    requires Valid(st)
    ensures Valid(CachedDeleteOne(st, url, fp).0)
  {
  }

  /** The cached path keeps the lists non-empty and the index apart from the blacklist, also
      when it stops on an exception. */
  lemma {:induction false} CachedDeleteValid(st: State, url: Url, fps: seq<Fp>)
    requires Valid(st)
    ensures Valid(CachedDelete(st, url, fps).0)
    decreases |fps|
  {
    if fps != [] {
      CachedDeleteOneValid(st, url, fps[0]);
      CachedDeleteValid(CachedDeleteOne(st, url, fps[0]).0, url, fps[1..]);
    }
  }

  /** One fingerprint: others are untouched; the step fails exactly when `list.remove` would,
      and then changes nothing; otherwise `fp` leaves the blacklist and loses one copy of `url`. */
  lemma CachedDeleteOneAt(st: State, url: Url, first: Fp, fp: Fp)
    requires Valid(st)
    ensures var r := CachedDeleteOne(st, url, first);
      && (fp != first ==> SameAt(r.0, st, fp))
      && (r.1 == Completed <==> Removable(st, url, first))
      && (r.1.Raised? ==> r == (st, Raised(ValueError)))
      && (r.1.Completed? ==>
            first !in r.0.blacklist.entries
            && Lookup(r.0.hashes, first) == RemoveFirst(Lookup(st.hashes, first), url))
  {
  }

  /** For a message whose fingerprints are distinct: every other fingerprint is untouched, even
      when the call raises; when it completes, each of the message's fingerprints is out of the
      blacklist and its list has lost the first copy of the message's URL. */
  lemma {:induction false} CachedDeleteAt(st: State, url: Url, fps: seq<Fp>, fp: Fp)
    requires Valid(st) && NoDup(fps)
    ensures var r := CachedDelete(st, url, fps);
      && (fp !in fps ==> SameAt(r.0, st, fp))
      && (r.1.Completed? && fp in fps ==>
            fp !in r.0.blacklist.entries
            && Lookup(r.0.hashes, fp) == RemoveFirst(Lookup(st.hashes, fp), url))
    decreases |fps|
  {
    if fps != [] {
      var first := CachedDeleteOne(st, url, fps[0]);
      CachedDeleteOneAt(st, url, fps[0], fp);
      if first.1.Completed? {
        CachedDeleteOneValid(st, url, fps[0]);
        NoDupTail(fps);
        CachedDeleteAt(first.0, url, fps[1..], fp);
        assert fps == [fps[0]] + fps[1..];
      }
    }
  }

  /** For a message whose fingerprints are distinct, the call completes exactly when `list.remove`
      can succeed for each of them in the state before the call; otherwise it raises
      `ValueError`, never anything else. */
  lemma {:induction false} CachedDeleteOutcome(st: State, url: Url, fps: seq<Fp>)
    requires Valid(st) && NoDup(fps)
    ensures CachedDelete(st, url, fps).1 == Completed <==> forall fp :: fp in fps ==> Removable(st, url, fp)
    ensures CachedDelete(st, url, fps).1 != Raised(RuntimeError)
    decreases |fps|
  {
    if fps != [] {
      var first := CachedDeleteOne(st, url, fps[0]);
      CachedDeleteOneAt(st, url, fps[0], fps[0]);
      if first.1.Completed? {
        CachedDeleteOneValid(st, url, fps[0]);
        NoDupTail(fps);
        CachedDeleteOutcome(first.0, url, fps[1..]);
        forall fp | fp in fps[1..]
          ensures Removable(first.0, url, fp) <==> Removable(st, url, fp)
        {
          CachedDeleteOneAt(st, url, fps[0], fp);
        }
        assert fps == [fps[0]] + fps[1..];
      }
    }
  }

  /** One fingerprint, when the step completes: its list loses one copy of `url` if it holds
      one, and is otherwise (blacklisted or not indexed) empty before and after. */
  lemma CachedDeleteOneCopy(st: State, url: Url, fp: Fp)
    requires Valid(st) && CachedDeleteOne(st, url, fp).1 == Completed
    ensures multiset(Lookup(CachedDeleteOne(st, url, fp).0.hashes, fp))
      == multiset(Lookup(st.hashes, fp)) - multiset{url}
  {
    if !IsBlacklisted(st.blacklist, fp) && IsIndexed(st.hashes, fp) {
      RemoveFirstMultiset(Lookup(st.hashes, fp), url);
    }
  }

  /** A completed cached delete removes one copy of the message's URL from a fingerprint's list
      for each time the message carries that fingerprint, down to an empty list at most; a
      fingerprint the message does not carry keeps its list. */
  lemma {:induction false} CachedDeleteRemovesCopies(st: State, url: Url, fps: seq<Fp>, fp: Fp)
    requires Valid(st) && CachedDelete(st, url, fps).1 == Completed
    ensures multiset(Lookup(CachedDelete(st, url, fps).0.hashes, fp))
      == multiset(Lookup(st.hashes, fp)) - multiset(Repeat(url, multiset(fps)[fp]))
    decreases |fps|
  {
    if fps != [] {
      var first := CachedDeleteOne(st, url, fps[0]);
      CachedDeleteOneValid(st, url, fps[0]);
      CachedDeleteRemovesCopies(first.0, url, fps[1..], fp);
      MultisetHead(fps, fp);
      var m := multiset(Lookup(st.hashes, fp));
      var n := multiset(fps[1..])[fp];
      if fps[0] == fp {
        CachedDeleteOneCopy(st, url, fp);
        MinusRepeatSucc(m, url, n);
      } else {
        CachedDeleteOneAt(st, url, fps[0], fp);
      }
    }
  }

  lemma NoDupTail<T>(s: seq<T>)
    requires NoDup(s) && s != []
    ensures NoDup(s[1..]) && s[0] !in s[1..]
  {
    var t := s[1..];
    forall i, j | 0 <= i < j < |t| ensures t[i] != t[j] {
      assert t[i] == s[i + 1] && t[j] == s[j + 1];
    }
    forall j | 0 <= j < |t| ensures t[j] != s[0] {
      assert t[j] == s[j + 1];
    }
  }

  // ---------------------------------------------------------------- message id only: the index

  /** Reference definition of what one list should become: the first URL carrying `id` is
      deleted at its position, and a list without one stays as it is. */
  function Pruned(urls: seq<Url>, id: int): (r: seq<Url>)
    ensures |r| == |urls| || |r| == |urls| - 1
  {
    match FindId(urls, id)
    case Hit(j) => DeleteAt(urls, j)
    case _ => urls
  }

  /** `list.remove(url)` with the URL the walk stopped at deletes that very position: no
      earlier URL can equal it, since each carries another id. */
  lemma RemoveHit(urls: seq<Url>, id: int)
    requires FindId(urls, id).Hit?
    ensures RemoveFirst(urls, urls[FindId(urls, id).index]) == Pruned(urls, id)
  {
    var j := FindId(urls, id).index;
    var x := urls[j];
    assert x !in urls[..j] by {
      forall t | 0 <= t < j ensures urls[t] != x {
        assert HasOtherId(urls[t], id);
      }
    }
  }

  lemma ScanKeyAt(h: Dict<Fp, seq<Url>>, id: int, key: Fp, k: Fp)
    ensures var r := ScanKey(h, id, key);
      && r.1 != Raised(RuntimeError)
      && (r.1.Raised? <==> FindId(Lookup(h, key), id).Malformed?)
      && (r.1.Raised? ==> r.0 == h)
      && (k != key ==> Lookup(r.0, k) == Lookup(h, k) && (k in r.0.entries <==> k in h.entries))
      && (r.1.Completed? ==> Lookup(r.0, key) == Pruned(Lookup(h, key), id))
  {
    if key in h.entries {
      var urls := h.entries[key];
      match FindId(urls, id)
      case Malformed(_) =>
      case Miss =>
      case Hit(j) =>
        RemoveHit(urls, id);
        var rest := RemoveFirst(urls, urls[j]);
        assert rest == Pruned(urls, id);
        if rest == [] {
          assert ScanKey(h, id, key) == (h.Pop(key), Completed);
        } else {
          assert ScanKey(h, id, key) == (h.Put(key, rest), Completed);
        }
    }
  }

  /** The index scan keeps the lists non-empty and only ever drops keys. */
  lemma {:induction false} ScanIndexShrinks(h: Dict<Fp, seq<Url>>, id: int, keys: seq<Fp>)
    requires h.Valid() && ListsNonEmpty(h)
    ensures ScanIndex(h, id, keys).0.Valid() && ListsNonEmpty(ScanIndex(h, id, keys).0)
    ensures ScanIndex(h, id, keys).0.entries.Keys <= h.entries.Keys
    decreases |keys|
  {
    if keys != [] {
      ScanIndexShrinks(ScanKey(h, id, keys[0]).0, id, keys[1..]);
    }
  }

  /** Per fingerprint, for a duplicate-free key walk: a key outside the walk keeps its list;
      after a completed scan every walked key holds its pruned list (missing when emptied);
      after an aborted scan a key holds either its old list or its pruned one. */
  lemma {:induction false} ScanIndexAt(h: Dict<Fp, seq<Url>>, id: int, keys: seq<Fp>, k: Fp)
    requires NoDup(keys)
    ensures var r := ScanIndex(h, id, keys);
      && (k !in keys ==> Lookup(r.0, k) == Lookup(h, k))
      && (r.1.Completed? && k in keys ==> Lookup(r.0, k) == Pruned(Lookup(h, k), id))
      && (Lookup(r.0, k) == Lookup(h, k) || Lookup(r.0, k) == Pruned(Lookup(h, k), id))
    decreases |keys|
  {
    if keys != [] {
      var first := ScanKey(h, id, keys[0]);
      ScanKeyAt(h, id, keys[0], k);
      if first.1.Completed? {
        NoDupTail(keys);
        ScanIndexAt(first.0, id, keys[1..], k);
        assert keys == [keys[0]] + keys[1..];
      }
    }
  }

  /** For a duplicate-free key walk, the scan completes exactly when no walked list holds a URL
      that `int()` rejects before one carrying `id`; it raises `ValueError` otherwise. */
  lemma {:induction false} ScanIndexOutcome(h: Dict<Fp, seq<Url>>, id: int, keys: seq<Fp>)
    requires NoDup(keys)
    ensures ScanIndex(h, id, keys).1 == Completed
      <==> forall k :: k in keys ==> !FindId(Lookup(h, k), id).Malformed?
    ensures ScanIndex(h, id, keys).1 != Raised(RuntimeError)
    decreases |keys|
  {
    if keys != [] {
      var first := ScanKey(h, id, keys[0]);
      ScanKeyAt(h, id, keys[0], keys[0]);
      if first.1.Completed? {
        NoDupTail(keys);
        ScanIndexOutcome(first.0, id, keys[1..]);
        forall k | k in keys[1..]
          ensures Lookup(first.0, k) == Lookup(h, k)
        {
          ScanKeyAt(h, id, keys[0], k);
        }
        assert keys == [keys[0]] + keys[1..];
      }
    }
  }

  /** A list holding the id at most once carries it nowhere once pruned. */
  lemma PrunedClears(urls: seq<Url>, id: int)
    requires forall i, j :: 0 <= i < |urls| && 0 <= j < |urls| && HasId(urls[i], id) && HasId(urls[j], id) ==> i == j
    requires !FindId(urls, id).Malformed?
    ensures forall u :: u in Pruned(urls, id) ==> !HasId(u, id)
  {
    var r := Pruned(urls, id);
    match FindId(urls, id)
    case Miss =>
    case Hit(j) =>
      forall t | 0 <= t < |r| ensures !HasId(r[t], id) {
        if t < j {
          assert r[t] == urls[t];
        } else {
          assert r[t] == urls[t + 1];
        }
      }
  }

  /** A message is stored at most once under each fingerprint, so each list holds any id at
      most once. */
  ghost predicate IdsOncePerList(h: Dict<Fp, seq<Url>>, id: int) {
    forall k, i, j ::
      (k in h.entries && 0 <= i < |h.entries[k]| && 0 <= j < |h.entries[k]|
       && HasId(h.entries[k][i], id) && HasId(h.entries[k][j], id)) ==> i == j
  }

  /** The id-only path, once it completes, leaves no URL carrying the deleted message's id
      anywhere in the index, provided each list held that id at most once. */
  lemma UncachedDeleteClearsIndex(st: State, id: int)
    requires Valid(st) && IdsOncePerList(st.hashes, id)
    requires UncachedDelete(st, id).1 == Completed
    ensures forall k, u ::
      (k in UncachedDelete(st, id).0.hashes.entries && u in UncachedDelete(st, id).0.hashes.entries[k])
      ==> !HasId(u, id)
  {
    var h := st.hashes;
    var r := UncachedDelete(st, id).0.hashes.entries;
    assert UncachedDelete(st, id).0.hashes == ScanIndex(h, id, h.order).0;
    ScanIndexOutcome(h, id, h.order);
    forall k, u | k in r && u in r[k] ensures !HasId(u, id) {
      ScanIndexAt(h, id, h.order, k);
      assert Lookup(UncachedDelete(st, id).0.hashes, k) == r[k];
      if k in h.order {
        PrunedClears(Lookup(h, k), id);
      }
    }
  }

  // ---------------------------------------------------------------- message id only: the blacklist

  /** The blacklist scan drops at most one entry, whose URL carries `id`, and keeps every other
      entry; when it completes without dropping one, no blacklisted URL carries `id`. */
  lemma ScanBlacklistAt(bl: Dict<Fp, Url>, id: int)
    requires bl.Valid()
    ensures var r := ScanBlacklist(bl, id);
      && r.0.Valid()
      && r.1 != Raised(RuntimeError)
      && r.0.entries.Keys <= bl.entries.Keys
      && (forall k :: k in r.0.entries ==> r.0.entries[k] == bl.entries[k])
      && (forall k :: k in bl.entries && k !in r.0.entries ==> HasId(bl.entries[k], id))
      && (forall a, b :: a in bl.entries && a !in r.0.entries && b in bl.entries && b !in r.0.entries ==> a == b)
      && (r.1.Completed? && r.0.entries.Keys == bl.entries.Keys ==>
            forall k :: k in bl.entries ==> HasOtherId(bl.entries[k], id))
  {
    var vs := ValuesInOrder(bl);
    match FindId(vs, id)
    case Malformed(_) =>
    case Hit(j) =>
      assert bl.order[j] in bl.entries;
    case Miss =>
      forall k | k in bl.entries ensures HasOtherId(bl.entries[k], id) {
        var i :| 0 <= i < |bl.order| && bl.order[i] == k;
        assert vs[i] == bl.entries[k];
      }
  }

  /** The id-only path keeps the lists non-empty and the index apart from the blacklist. */
  lemma UncachedDeleteValid(st: State, id: int)
    requires Valid(st)
    ensures Valid(UncachedDelete(st, id).0)
  {
    ScanIndexShrinks(st.hashes, id, st.hashes.order);
    ScanBlacklistAt(st.blacklist, id);
  }

  // ---------------------------------------------------------------- the scan as written

  /** As long as no walked list is emptied (so no key is popped mid-iteration), the scan as
      written behaves as the corrected one. */
  lemma {:induction false} ScanAsWrittenAgrees(h: Dict<Fp, seq<Url>>, id: int, keys: seq<Fp>)
    requires NoDup(keys)
    requires forall k :: k in keys && FindId(Lookup(h, k), id).Hit? ==> |Lookup(h, k)| > 1
    ensures ScanIndexAsWritten(h, id, keys) == ScanIndex(h, id, keys)
    decreases |keys|
  {
    if keys != [] {
      var first := ScanKey(h, id, keys[0]);
      ScanKeyAt(h, id, keys[0], keys[0]);
      if first.1.Completed? {
        assert first.0.entries.Keys == h.entries.Keys;
        NoDupTail(keys);
        forall k | k in keys[1..]
          ensures Lookup(first.0, k) == Lookup(h, k)
        {
          ScanKeyAt(h, id, keys[0], k);
        }
        ScanAsWrittenAgrees(first.0, id, keys[1..]);
      }
    }
  }

  /** Two fingerprints harvested from one message (say, two attachments) that no other message
      shares: deleting that message while it is out of the cache pops the first entry, and the
      live iteration then raises `RuntimeError`, leaving the deleted message's URL under the
      second fingerprint. The corrected scan removes both. */
  lemma UncachedAbortLeavesStaleUrl()
    ensures var u := "c" + "/" + Decimal(7);
      var st := State(ExampleIndex(u), Empty());
      && Valid(st)
      && UncachedDeleteAsWritten(st, 7).1 == Raised(RuntimeError)
      && UncachedDeleteAsWritten(st, 7).0.hashes.entries == map["b" := [u]]
      && UncachedDelete(st, 7) == (State(Dict(map[], []), Empty()), Completed)
  {
    var u := "c" + "/" + Decimal(7);
    JumpUrlId("c", 7);
    ExampleValid(u);
    ExampleAsWritten(u);
    ExampleCorrected(u);
  }

  /** The index of the counterexample: two fingerprints listing the same URL. */
  function ExampleIndex(u: Url): Dict<Fp, seq<Url>> {
    Dict(map["a" := [u], "b" := [u]], ["a", "b"])
  }

  lemma ExampleValid(u: Url)
    requires u != ""
    ensures Valid(State(ExampleIndex(u), Empty()))
  {
    assert ["a", "b"][0] != ["a", "b"][1];
  }

  lemma ExampleAsWritten(u: Url)
    requires MessageId(u) == Some(7)
    ensures UncachedDeleteAsWritten(State(ExampleIndex(u), Empty()), 7)
      == (State(Dict(map["b" := [u]], ["b"]), Empty()), Raised(RuntimeError))
  {
    PopBoth(u);
    ScanKeyEmpties(ExampleIndex(u), u, "a", Dict(map["b" := [u]], ["b"]));
  }

  lemma ExampleCorrected(u: Url)
    requires MessageId(u) == Some(7)
    ensures UncachedDelete(State(ExampleIndex(u), Empty()), 7) == (State(Dict(map[], []), Empty()), Completed)
  {
    var h1 := Dict(map["b" := [u]], ["b"]);
    PopBoth(u);
    ScanKeyEmpties(ExampleIndex(u), u, "a", h1);
    ScanKeyEmpties(h1, u, "b", Dict(map[], []));
    assert ["a", "b"][1..] == ["b"];
    assert ["b"][1..] == [];
    assert ValuesInOrder(Empty<Fp, Url>()) == [];
  }

  /** The two pops of the counterexample, one key at a time. */
  lemma PopBoth(u: Url)
    ensures Dict(map["a" := [u], "b" := [u]], ["a", "b"]).Pop("a") == Dict(map["b" := [u]], ["b"])
    ensures Dict(map["b" := [u]], ["b"]).Pop("b") == Dict(map[], [])
  {
    assert ["a", "b"][1..] == ["b"];
    assert map["a" := [u], "b" := [u]] - {"a"} == map["b" := [u]];
    assert map["b" := [u]] - {"b"} == map[];
  }

  /** An index entry whose only URL carries the id is popped. */
  lemma ScanKeyEmpties(h: Dict<Fp, seq<Url>>, u: Url, k: Fp, popped: Dict<Fp, seq<Url>>)
    requires MessageId(u) == Some(7)
    requires k in h.entries && h.entries[k] == [u] && h.Pop(k) == popped
    ensures ScanKey(h, 7, k) == (popped, Completed)
  {
    assert FindId([u], 7) == Hit(0);
    assert RemoveFirst([u], u) == [];
  }
}
