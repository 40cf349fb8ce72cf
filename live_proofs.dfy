/** What `process` (Watcher.py:57-82) and `blacklist` (Watcher.py:85-104) do to the index,
    and how live processing relates to the worker's replay. */
module LiveProofs {
  import opened Seqs
  import opened PyDict
  import opened Index
  import opened BackfillProofs

  // ---------------------------------------------------------------- process

  lemma ProcessOneValid(st: State, url: Url, fp: Fp)
    requires Valid(st)
    ensures Valid(ProcessOne(st, url, fp).0)
  {
  }

  /** `process` keeps the lists non-empty and the index apart from the blacklist. */
  lemma {:induction false} ProcessValid(st: State, url: Url, fps: seq<Fp>)
    requires Valid(st)
    ensures Valid(Process(st, url, fps).0)
    decreases |fps|
  {
    if fps != [] {
      ProcessOneValid(st, url, fps[0]);
      ProcessValid(ProcessOne(st, url, fps[0]).0, url, fps[1..]);
    }
  }

  /** `Process` on a suffix takes its first fingerprint, then the rest. */
  lemma ProcessUnfold(st: State, url: Url, fps: seq<Fp>, i: nat)
    requires i < |fps|
    ensures var first := ProcessOne(st, url, fps[i]);
      var rest := Process(first.0, url, fps[i + 1..]);
      Process(st, url, fps[i..]) == (rest.0, first.1 + rest.1)
  {
    assert fps[i..][0] == fps[i] && fps[i..][1..] == fps[i + 1..];
  }

  lemma ProcessOneAt(st: State, url: Url, first: Fp, fp: Fp)
    ensures ProcessOne(st, url, first).0.blacklist == st.blacklist
    ensures Lookup(ProcessOne(st, url, first).0.hashes, fp)
      == if first == fp && !IsBlacklisted(st.blacklist, fp) then Lookup(st.hashes, fp) + [url] else Lookup(st.hashes, fp)
    ensures fp in ProcessOne(st, url, first).0.hashes.entries
      <==> fp in st.hashes.entries || (first == fp && !IsBlacklisted(st.blacklist, fp))
  {
  }

  /** Per fingerprint: a blacklisted one is neither recorded nor touched; any other one gets
      the message's URL appended at the back once per occurrence, a new key being created for
      an unseen one. The blacklist is never changed. */
  lemma {:induction false} ProcessAt(st: State, url: Url, fps: seq<Fp>, fp: Fp)
    ensures Process(st, url, fps).0.blacklist == st.blacklist
    ensures IsBlacklisted(st.blacklist, fp) ==>
      Lookup(Process(st, url, fps).0.hashes, fp) == Lookup(st.hashes, fp)
    ensures !IsBlacklisted(st.blacklist, fp) ==>
      Lookup(Process(st, url, fps).0.hashes, fp) == Lookup(st.hashes, fp) + Repeat(url, multiset(fps)[fp])
    ensures fp in Process(st, url, fps).0.hashes.entries
      <==> fp in st.hashes.entries || (fp in fps && !IsBlacklisted(st.blacklist, fp))
    decreases |fps|
  {
    if fps != [] {
      var s1 := ProcessOne(st, url, fps[0]).0;
      ProcessOneAt(st, url, fps[0], fp);
      ProcessAt(s1, url, fps[1..], fp);
      MultisetHead(fps, fp);
      InCons(fps, fp);
      if fps[0] == fp && !IsBlacklisted(st.blacklist, fp) {
        RepeatBehind(url, multiset(fps[1..])[fp], Lookup(st.hashes, fp));
      }
    }
  }

  /** Every yielded match is the updated list, so it ends with the message's own URL; at most
      one match is yielded per fingerprint. */
  lemma {:induction false} ProcessMatchesEndWithUrl(st: State, url: Url, fps: seq<Fp>)
    ensures |Process(st, url, fps).1| <= |fps|
    ensures forall m :: m in Process(st, url, fps).1 ==> m != [] && m[|m| - 1] == url
    decreases |fps|
  {
    if fps != [] {
      ProcessMatchesEndWithUrl(ProcessOne(st, url, fps[0]).0, url, fps[1..]);
    }
  }

  /** The matches a message should produce, read off the state before the call, `seen` being
      the fingerprints of the same message already processed: a fingerprint that is not
      blacklisted and is indexed, or met earlier in the message, yields its prior list followed
      by one copy of the URL per occurrence so far, this one included. */
  function ExpectedFrom(st: State, url: Url, seen: seq<Fp>, fps: seq<Fp>): seq<seq<Url>>
    decreases |fps|
  {
    if fps == [] then []
    else
      var fp := fps[0];
      (if !IsBlacklisted(st.blacklist, fp) && (fp in st.hashes.entries || fp in seen)
       then [Lookup(st.hashes, fp) + Repeat(url, multiset(seen)[fp] + 1)]
       else [])
      + ExpectedFrom(st, url, seen + [fp], fps[1..])
  }

  function ExpectedMatches(st: State, url: Url, fps: seq<Fp>): seq<seq<Url>> {
    ExpectedFrom(st, url, [], fps)
  }

  /** Processing a message's fingerprints one more at the back. */
  lemma {:induction false} ProcessSnoc(st: State, url: Url, seen: seq<Fp>, fp: Fp)
    ensures Process(st, url, seen + [fp]).0 == ProcessOne(Process(st, url, seen).0, url, fp).0
    decreases |seen|
  {
    if seen == [] {
      assert (seen + [fp])[1..] == [];
    } else {
      assert (seen + [fp])[0] == seen[0] && (seen + [fp])[1..] == seen[1..] + [fp];
      ProcessSnoc(ProcessOne(st, url, seen[0]).0, url, seen[1..], fp);
    }
  }

  /** What a fingerprint that is indexed after `seen` has been processed yields. */
  lemma ProcessOneMatch(st: State, url: Url, seen: seq<Fp>, fp: Fp)
    ensures ProcessOne(Process(st, url, seen).0, url, fp).1
      == if !IsBlacklisted(st.blacklist, fp) && (fp in st.hashes.entries || fp in seen)
         then [Lookup(st.hashes, fp) + Repeat(url, multiset(seen)[fp] + 1)]
         else []
  {
    ProcessAt(st, url, seen, fp);
    var n := multiset(seen)[fp];
    RepeatSucc(url, n);
    AppendAssoc(Lookup(st.hashes, fp), Repeat(url, n), [url]);
  }

  lemma {:induction false} ProcessMatchesFrom(st: State, url: Url, seen: seq<Fp>, fps: seq<Fp>)
    ensures Process(Process(st, url, seen).0, url, fps).1 == ExpectedFrom(st, url, seen, fps)
    decreases |fps|
  {
    if fps != [] {
      ProcessOneMatch(st, url, seen, fps[0]);
      ProcessSnoc(st, url, seen, fps[0]);
      ProcessMatchesFrom(st, url, seen + [fps[0]], fps[1..]);
    }
  }

  /** The generator yields exactly the expected matches, in the fingerprints' order; a
      fingerprint repeated within the message matches from its second occurrence on, against
      the list its earlier occurrences already extended. */
  lemma ProcessMatches(st: State, url: Url, fps: seq<Fp>)
    ensures Process(st, url, fps).1 == ExpectedMatches(st, url, fps)
  {
    ProcessMatchesFrom(st, url, [], fps);
  }

  /** A message whose every fingerprint is blacklisted changes nothing and yields nothing. */
  lemma {:induction false} ProcessSkipsBlacklisted(st: State, url: Url, fps: seq<Fp>)
    requires forall fp :: fp in fps ==> IsBlacklisted(st.blacklist, fp)
    ensures Process(st, url, fps) == (st, [])
    decreases |fps|
  {
    if fps != [] {
      assert forall fp :: fp in fps[1..] ==> fp in fps;
      ProcessSkipsBlacklisted(st, url, fps[1..]);
      assert ProcessOne(st, url, fps[0]) == (st, []);
      var none: seq<seq<Url>> := [];
      assert none + none == none;
    }
  }

  // ---------------------------------------------------------------- live processing vs. backfill

  /** Live processing of `messages` in delivery order. */
  function Live(st: State, messages: seq<Message>): State
    decreases |messages|
  {
    if messages == [] then st
    else Live(Process(st, messages[0].url, messages[0].fps).0, messages[1..])
  }

  lemma {:induction false} LiveValid(st: State, messages: seq<Message>)
    requires Valid(st)
    ensures Valid(Live(st, messages))
    decreases |messages|
  {
    if messages != [] {
      ProcessValid(st, messages[0].url, messages[0].fps);
      LiveValid(Process(st, messages[0].url, messages[0].fps).0, messages[1..]);
    }
  }

  /** Live processing appends each fingerprint's occurrences in delivery order. */
  lemma {:induction false} LiveAt(st: State, messages: seq<Message>, fp: Fp)
    requires !IsBlacklisted(st.blacklist, fp)
    ensures Live(st, messages).blacklist == st.blacklist
    ensures Lookup(Live(st, messages).hashes, fp) == Lookup(st.hashes, fp) + Occurrences(messages, fp)
    decreases |messages|
  {
    if messages != [] {
      var m := messages[0];
      var s1 := Process(st, m.url, m.fps).0;
      ProcessAt(st, m.url, m.fps, fp);
      LiveAt(s1, messages[1..], fp);
      AppendAssoc(Lookup(st.hashes, fp), Repeat(m.url, multiset(m.fps)[fp]), Occurrences(messages[1..], fp));
    }
  }

  /** The worker's replay of a newest-first history builds the very index that processing the
      same messages live, oldest first, would have built. */
  lemma BackfillMatchesLive(chronological: seq<Message>)
    ensures Backfill(Empty(), Reverse(chronological)).entries == Live(EmptyState(), chronological).hashes.entries
  {
    var replayed := Backfill(Empty(), Reverse(chronological));
    var live := Live(EmptyState(), chronological).hashes;
    BackfillWellFormed(EmptyState(), Reverse(chronological));
    LiveValid(EmptyState(), chronological);
    forall fp
      ensures (fp in replayed.entries <==> fp in live.entries)
      ensures fp in replayed.entries ==> replayed.entries[fp] == live.entries[fp]
    {
      BackfillNewestFirst(chronological, fp);
      LiveAt(EmptyState(), chronological, fp);
    }
  }

  // ---------------------------------------------------------------- blacklist

  lemma BlacklistOneValid(st: State, url: Url, fp: Fp)
    requires Valid(st) && url != ""
    ensures Valid(BlacklistOne(st, url, fp))
  {
  }

  /** `blacklist` keeps the lists non-empty and the index apart from the blacklist. */
  lemma {:induction false} BlacklistValid(st: State, url: Url, fps: seq<Fp>)
    requires Valid(st) && url != ""
    ensures Valid(Blacklist(st, url, fps))
    decreases |fps|
  {
    if fps != [] {
      BlacklistOneValid(st, url, fps[0]);
      BlacklistValid(BlacklistOne(st, url, fps[0]), url, fps[1..]);
    }
  }

  /** Per fingerprint: each of the message's fingerprints ends up blacklisted and out of the
      index, keeping the URL it was first blacklisted with; every other fingerprint is left as
      it was in both dictionaries. */
  lemma BlacklistOneAt(st: State, url: Url, first: Fp, fp: Fp)
    requires Valid(st) && url != ""
    ensures var r := BlacklistOne(st, url, first);
      && (fp == first ==>
            && fp !in r.hashes.entries
            && fp in r.blacklist.entries
            && r.blacklist.entries[fp] == (if fp in st.blacklist.entries then st.blacklist.entries[fp] else url))
      && (fp != first ==> SameAt(r, st, fp))
  {
  }

  /** Per fingerprint: each of the message's fingerprints ends up blacklisted and out of the
      index, keeping the URL it was first blacklisted with; every other fingerprint is left as
      it was in both dictionaries. */
  lemma {:induction false} BlacklistAt(st: State, url: Url, fps: seq<Fp>, fp: Fp)
    requires Valid(st) && url != ""
    ensures var r := Blacklist(st, url, fps);
      && (fp in fps ==>
            && fp !in r.hashes.entries
            && fp in r.blacklist.entries
            && r.blacklist.entries[fp] == (if fp in st.blacklist.entries then st.blacklist.entries[fp] else url))
      && (fp !in fps ==> SameAt(r, st, fp))
    decreases |fps|
  {
    if fps != [] {
      var s1 := BlacklistOne(st, url, fps[0]);
      BlacklistOneValid(st, url, fps[0]);
      BlacklistOneAt(st, url, fps[0], fp);
      BlacklistAt(s1, url, fps[1..], fp);
      InCons(fps, fp);
    }
  }

  lemma {:induction false} BlacklistSkipsBlacklisted(st: State, url: Url, fps: seq<Fp>)
    requires forall fp :: fp in fps ==> IsBlacklisted(st.blacklist, fp)
    ensures Blacklist(st, url, fps) == st
    decreases |fps|
  {
    if fps != [] {
      BlacklistSkipsBlacklisted(st, url, fps[1..]);
    }
  }

  /** Blacklisting the same fingerprints again, with any URL, changes nothing. */
  lemma BlacklistIdempotent(st: State, url: Url, again: Url, fps: seq<Fp>)
    requires Valid(st) && url != ""
    ensures Blacklist(Blacklist(st, url, fps), again, fps) == Blacklist(st, url, fps)
  {
    var r := Blacklist(st, url, fps);
    BlacklistValid(st, url, fps);
    forall fp | fp in fps
      ensures IsBlacklisted(r.blacklist, fp)
    {
      BlacklistAt(st, url, fps, fp);
    }
    BlacklistSkipsBlacklisted(r, again, fps);
  }

  /** Once a message's fingerprints are blacklisted, processing them again yields no match and
      records nothing. */
  lemma BlacklistSilences(st: State, url: Url, fps: seq<Fp>, later: Url)
    requires Valid(st) && url != ""
    ensures Process(Blacklist(st, url, fps), later, fps) == (Blacklist(st, url, fps), [])
  {
    var r := Blacklist(st, url, fps);
    BlacklistValid(st, url, fps);
    forall fp | fp in fps
      ensures IsBlacklisted(r.blacklist, fp)
    {
      BlacklistAt(st, url, fps, fp);
    }
    ProcessSkipsBlacklisted(r, later, fps);
  }
}
