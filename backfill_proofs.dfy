/** What the worker's history replay (Watcher.py:36-46) leaves in `_hashes`. */
module BackfillProofs {
  import opened Seqs
  import opened PyDict
  import opened Index

  /** Every fingerprint harvested from some message of `history`. */
  function HistoryFps(history: seq<Message>): set<Fp>
    decreases |history|
  {
    if history == [] then {} else (set fp | fp in history[0].fps) + HistoryFps(history[1..])
  }

  /** The URLs under which `fp` occurs in `history`, in the order the messages are given; a
      message that yields `fp` several times contributes its URL that many times. */
  function Occurrences(history: seq<Message>, fp: Fp): seq<Url>
    decreases |history|
  {
    if history == [] then []
    else Repeat(history[0].url, multiset(history[0].fps)[fp]) + Occurrences(history[1..], fp)
  }

  lemma {:induction false} OccurrencesAppend(a: seq<Message>, b: seq<Message>, fp: Fp)
    ensures Occurrences(a + b, fp) == Occurrences(a, fp) + Occurrences(b, fp)
    decreases |a|
  {
    if a != [] {
      assert (a + b)[1..] == a[1..] + b;
      OccurrencesAppend(a[1..], b, fp);
    } else {
      assert a + b == b;
    }
  }

  /** Reading a history backwards reverses the occurrence list. */
  lemma {:induction false} OccurrencesReverse(history: seq<Message>, fp: Fp)
    ensures Occurrences(Reverse(history), fp) == Reverse(Occurrences(history, fp))
    decreases |history|
  {
    if history != [] {
      var m, rest := history[0], history[1..];
      var block := Repeat(m.url, multiset(m.fps)[fp]);
      OccurrencesReverse(rest, fp);
      OccurrencesAppend(Reverse(rest), [m], fp);
      assert Occurrences([m], fp) == block by {
        assert [m][1..] == [];
      }
      ReverseAppend(block, Occurrences(rest, fp));
      ReverseRepeat(m.url, multiset(m.fps)[fp]);
    }
  }

  // ---------------------------------------------------------------- keys

  lemma {:induction false} BackfillMessageKeys(h: Dict<Fp, seq<Url>>, url: Url, fps: seq<Fp>)
    ensures BackfillMessage(h, url, fps).entries.Keys == h.entries.Keys + (set fp | fp in fps)
    decreases |fps|
  {
    if fps != [] {
      BackfillMessageKeys(RecordOlder(h, url, fps[0]), url, fps[1..]);
      ElementsCons(fps);
    }
  }

  /** Backfill adds exactly the history's fingerprints to the index keys and removes none. */
  lemma {:induction false} BackfillKeys(h: Dict<Fp, seq<Url>>, history: seq<Message>)
    ensures Backfill(h, history).entries.Keys == h.entries.Keys + HistoryFps(history)
    decreases |history|
  {
    if history != [] {
      var h1 := BackfillMessage(h, history[0].url, history[0].fps);
      BackfillMessageKeys(h, history[0].url, history[0].fps);
      BackfillKeys(h1, history[1..]);
    }
  }

  // ---------------------------------------------------------------- well-formedness

  lemma {:induction false} BackfillMessageWellFormed(h: Dict<Fp, seq<Url>>, url: Url, fps: seq<Fp>)
    requires h.Valid()
    ensures BackfillMessage(h, url, fps).Valid()
    decreases |fps|
  {
    if fps != [] {
      BackfillMessageWellFormed(RecordOlder(h, url, fps[0]), url, fps[1..]);
    }
  }

  lemma {:induction false} BackfillMessageNonEmpty(h: Dict<Fp, seq<Url>>, url: Url, fps: seq<Fp>)
    requires ListsNonEmpty(h)
    ensures ListsNonEmpty(BackfillMessage(h, url, fps))
    decreases |fps|
  {
    if fps != [] {
      BackfillMessageNonEmpty(RecordOlder(h, url, fps[0]), url, fps[1..]);
    }
  }

  /** The replay keeps every list non-empty and both dictionaries well-formed. */
  lemma {:induction false} BackfillWellFormed(st: State, history: seq<Message>)
    requires WellFormed(st)
    ensures WellFormed(State(Backfill(st.hashes, history), st.blacklist))
    decreases |history|
  {
    if history != [] {
      BackfillMessageWellFormed(st.hashes, history[0].url, history[0].fps);
      BackfillMessageNonEmpty(st.hashes, history[0].url, history[0].fps);
      BackfillWellFormed(st.(hashes := BackfillMessage(st.hashes, history[0].url, history[0].fps)), history[1..]);
    }
  }

  /** The replay does not look at the blacklist: it keeps the two key sets apart only when no
      replayed fingerprint is blacklisted, as holds for the empty blacklist of a new watcher. */
  lemma BackfillValid(st: State, history: seq<Message>)
    requires Valid(st)
    requires HistoryFps(history) !! st.blacklist.entries.Keys
    ensures Valid(State(Backfill(st.hashes, history), st.blacklist))
  {
    BackfillWellFormed(st, history);
    BackfillKeys(st.hashes, history);
  }

  // ---------------------------------------------------------------- contents

  lemma RecordOlderAt(h: Dict<Fp, seq<Url>>, url: Url, first: Fp, fp: Fp)
    ensures Lookup(RecordOlder(h, url, first), fp) == if first == fp then [url] + Lookup(h, fp) else Lookup(h, fp)
  {
  }

  lemma {:induction false} BackfillMessageAt(h: Dict<Fp, seq<Url>>, url: Url, fps: seq<Fp>, fp: Fp)
    ensures Lookup(BackfillMessage(h, url, fps), fp) == Repeat(url, multiset(fps)[fp]) + Lookup(h, fp)
    decreases |fps|
  {
    if fps != [] {
      var h1 := RecordOlder(h, url, fps[0]);
      RecordOlderAt(h, url, fps[0], fp);
      BackfillMessageAt(h1, url, fps[1..], fp);
      MultisetHead(fps, fp);
      if fps[0] == fp {
        RepeatInFront(url, multiset(fps[1..])[fp], Lookup(h, fp));
      }
    }
  }

  lemma ReverseInFront<T>(later: seq<T>, block: seq<T>, rest: seq<T>)
    requires Reverse(block) == block
    ensures Reverse(later) + (block + rest) == Reverse(block + later) + rest
  {
    ReverseAppend(block, later);
  }

  /** After the replay each fingerprint's list is its occurrences in `history` read backwards,
      in front of whatever was recorded before. */
  lemma {:induction false} BackfillAt(h: Dict<Fp, seq<Url>>, history: seq<Message>, fp: Fp)
    ensures Lookup(Backfill(h, history), fp) == Reverse(Occurrences(history, fp)) + Lookup(h, fp)
    decreases |history|
  {
    if history != [] {
      var m := history[0];
      var h1 := BackfillMessage(h, m.url, m.fps);
      var block := Repeat(m.url, multiset(m.fps)[fp]);
      var later := Occurrences(history[1..], fp);
      BackfillAt(h1, history[1..], fp);
      BackfillMessageAt(h, m.url, m.fps, fp);
      ReverseRepeat(m.url, multiset(m.fps)[fp]);
      ReverseInFront(later, block, Lookup(h, fp));
    } else {
      assert Reverse<Url>([]) == [];
    }
  }

  /** History arrives newest first: replaying the reversal of a chronological message sequence
      into an empty index leaves every list in chronological order, oldest first. */
  lemma BackfillNewestFirst(chronological: seq<Message>, fp: Fp)
    ensures Lookup(Backfill(Empty(), Reverse(chronological)), fp) == Occurrences(chronological, fp)
  {
    BackfillAt(Empty(), Reverse(chronological), fp);
    OccurrencesReverse(chronological, fp);
    ReverseReverse(Occurrences(chronological, fp));
  }
}
