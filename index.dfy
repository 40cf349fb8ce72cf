/** The per-channel repost index of `Watcher` as values: the two dictionaries, and each
    operation of the class as a function from the old state to the new one. The class in
    watcher.dfy runs the same steps imperatively and is proved equal to these functions. */
module Index {
  import opened Seqs
  import opened JumpUrl
  import opened PyDict

  /** A media fingerprint as produced by the harvester (opaque). */
  type Fp = string
  /** A message jump URL, `https://discord.com/channels/<guild>/<channel>/<id>`. */
  type Url = string

  /** A message as the watcher sees it: its jump URL and the fingerprints harvested from it. */
  datatype Message = Message(url: Url, fps: seq<Fp>)

  /** A raw delete event: with the cached message, or with its id only. */
  datatype DeleteEvent = Cached(message: Message) | Uncached(messageId: int)

  datatype PyError = ValueError | RuntimeError

  /** How an operation ended: normally, or by an exception escaping it. State changes made
      before the exception are kept, as in Python. */
  datatype Outcome = Completed | Raised(error: PyError)

  /** `_hashes` (fingerprint to URLs, oldest first) and `_blacklist` (fingerprint to one URL). */
  datatype State = State(hashes: Dict<Fp, seq<Url>>, blacklist: Dict<Fp, Url>)

  function EmptyState(): (st: State)
    ensures st.hashes.entries == map[] && st.blacklist.entries == map[]
  {
    State(Empty(), Empty())
  }

  /** The list stored for `fp`, or the empty list when there is none. */
  function Lookup(h: Dict<Fp, seq<Url>>, fp: Fp): seq<Url> {
    if fp in h.entries then h.entries[fp] else []
  }

  /** Truth value of `_hashes.get(fp)`: present and non-empty. */
  predicate IsIndexed(h: Dict<Fp, seq<Url>>, fp: Fp) {
    fp in h.entries && h.entries[fp] != []
  }

  /** Truth value of `_blacklist.get(fp)`: present and not the empty string. */
  predicate IsBlacklisted(bl: Dict<Fp, Url>, fp: Fp) {
    fp in bl.entries && bl.entries[fp] != ""
  }

  ghost predicate ListsNonEmpty(h: Dict<Fp, seq<Url>>) {
    forall fp :: fp in h.entries ==> h.entries[fp] != []
  }

  /** Both dictionaries are well-formed, no stored list is empty and every blacklist entry is
      truthy (so `.get` agrees with membership). */
  ghost predicate WellFormed(st: State) {
    && st.hashes.Valid()
    && st.blacklist.Valid()
    && ListsNonEmpty(st.hashes)
    && forall fp :: fp in st.blacklist.entries ==> st.blacklist.entries[fp] != ""
  }

  /** A fingerprint is indexed or blacklisted, never both. */
  ghost predicate Disjoint(st: State) {
    st.hashes.entries.Keys !! st.blacklist.entries.Keys
  }

  ghost predicate Valid(st: State) {
    WellFormed(st) && Disjoint(st)
  }

  /** The two states agree on `fp` in both dictionaries. */
  predicate SameAt(a: State, b: State, fp: Fp) {
    && Lookup(a.hashes, fp) == Lookup(b.hashes, fp)
    && (fp in a.hashes.entries <==> fp in b.hashes.entries)
    && (fp in a.blacklist.entries <==> fp in b.blacklist.entries)
    && (fp in a.blacklist.entries ==> a.blacklist.entries[fp] == b.blacklist.entries[fp])
  }

  // ---------------------------------------------------------------- backfill (worker)

  /** One fingerprint of one historical message: an older occurrence goes to the front. */
  function RecordOlder(h: Dict<Fp, seq<Url>>, url: Url, fp: Fp): Dict<Fp, seq<Url>> {
    if IsIndexed(h, fp) then h.Put(fp, [url] + h.entries[fp]) else h.Put(fp, [url])
  }

  function BackfillMessage(h: Dict<Fp, seq<Url>>, url: Url, fps: seq<Fp>): Dict<Fp, seq<Url>>
    decreases |fps|
  {
    if fps == [] then h else BackfillMessage(RecordOlder(h, url, fps[0]), url, fps[1..])
  }

  /** The worker's replay of `history`, delivered newest first. */
  function Backfill(h: Dict<Fp, seq<Url>>, history: seq<Message>): Dict<Fp, seq<Url>>
    decreases |history|
  {
    if history == [] then h
    else Backfill(BackfillMessage(h, history[0].url, history[0].fps), history[1..])
  }

  // ---------------------------------------------------------------- process

  /** One fingerprint of a live message; the second component is what the generator yields. */
  function ProcessOne(st: State, url: Url, fp: Fp): (State, seq<seq<Url>>) {
    if IsBlacklisted(st.blacklist, fp) then (st, [])
    else if fp !in st.hashes.entries then (st.(hashes := st.hashes.Put(fp, [url])), [])
    else
      var updated := st.hashes.entries[fp] + [url];
      (st.(hashes := st.hashes.Put(fp, updated)), [updated])
  }

  /** `process`, with its generator consumed to the end: the new state and the yielded matches. */
  function Process(st: State, url: Url, fps: seq<Fp>): (State, seq<seq<Url>>)
    decreases |fps|
  {
    if fps == [] then (st, [])
    else
      var first := ProcessOne(st, url, fps[0]);
      var rest := Process(first.0, url, fps[1..]);
      (rest.0, first.1 + rest.1)
  }

  // ---------------------------------------------------------------- blacklist

  function BlacklistOne(st: State, url: Url, fp: Fp): State {
    if IsBlacklisted(st.blacklist, fp) then st
    else State(st.hashes.Pop(fp), st.blacklist.Put(fp, url))
  }

  function Blacklist(st: State, url: Url, fps: seq<Fp>): State
    decreases |fps|
  {
    if fps == [] then st else Blacklist(BlacklistOne(st, url, fps[0]), url, fps[1..])
  }

  // ---------------------------------------------------------------- raw_delete, cached message

  function CachedDeleteOne(st: State, url: Url, fp: Fp): (State, Outcome) {
    if IsBlacklisted(st.blacklist, fp) then (st.(blacklist := st.blacklist.Pop(fp)), Completed)
    else if !IsIndexed(st.hashes, fp) then (st, Completed)
    else if url !in st.hashes.entries[fp] then (st, Raised(ValueError))
    else
      var rest := RemoveFirst(st.hashes.entries[fp], url);
      (st.(hashes := if rest == [] then st.hashes.Pop(fp) else st.hashes.Put(fp, rest)), Completed)
  }

  function CachedDelete(st: State, url: Url, fps: seq<Fp>): (State, Outcome)
    decreases |fps|
  {
    if fps == [] then (st, Completed)
    else
      var first := CachedDeleteOne(st, url, fps[0]);
      if first.1.Raised? then first else CachedDelete(first.0, url, fps[1..])
  }

  // ---------------------------------------------------------------- raw_delete, id only

  /** The URL's id parses and is `id`. */
  predicate HasId(url: Url, id: int) {
    MessageId(url).Some? && MessageId(url).value == id
  }

  /** The URL's id parses and is not `id`. */
  predicate HasOtherId(url: Url, id: int) {
    MessageId(url).Some? && MessageId(url).value != id
  }

  /** Where a front-to-back walk comparing ids stops: at the first URL carrying `id`, at the
      first URL whose last segment `int()` rejects, or nowhere. */
  datatype Scan = Hit(index: nat) | Miss | Malformed(index: nat)

  function FindId(urls: seq<Url>, id: int): (r: Scan)
    ensures r.Hit? ==> r.index < |urls| && HasId(urls[r.index], id)
    ensures r.Malformed? ==> r.index < |urls| && MessageId(urls[r.index]).None?
    ensures forall k :: 0 <= k < |urls| && (r.Miss? || k < r.index) ==> HasOtherId(urls[k], id)
    decreases |urls|
  {
    if urls == [] then Miss
    else
      var m := MessageId(urls[0]);
      if m.None? then Malformed(0)
      else if m.value == id then Hit(0)
      else
        var tail := urls[1..];
        var r := FindId(tail, id);
        assert forall k :: 1 <= k < |urls| ==> urls[k] == tail[k - 1];
        match r
        case Hit(i) => Hit(i + 1)
        case Miss => Miss
        case Malformed(i) => Malformed(i + 1)
  }

  /** One entry of the index scan: the first URL carrying `id` is removed (by `list.remove`),
      and an emptied list is popped. */
  function ScanKey(h: Dict<Fp, seq<Url>>, id: int, k: Fp): (Dict<Fp, seq<Url>>, Outcome) {
    if k !in h.entries then (h, Completed)
    else
      var urls := h.entries[k];
      match FindId(urls, id)
      case Malformed(_) => (h, Raised(ValueError))
      case Miss => (h, Completed)
      case Hit(j) =>
        var rest := RemoveFirst(urls, urls[j]);
        if rest == [] then (h.Pop(k), Completed) else (h.Put(k, rest), Completed)
  }

  /** The index scan over a snapshot `keys` of the iteration order. */
  function ScanIndex(h: Dict<Fp, seq<Url>>, id: int, keys: seq<Fp>): (Dict<Fp, seq<Url>>, Outcome)
    decreases |keys|
  {
    if keys == [] then (h, Completed)
    else
      var first := ScanKey(h, id, keys[0]);
      if first.1.Raised? then first else ScanIndex(first.0, id, keys[1..])
  }

  /** The index scan as Watcher.py:134-141 runs it, iterating the live `_hashes.items()`: once
      an entry is popped, the next step of the iteration raises `RuntimeError` ("dictionary
      changed size during iteration"). */
  function ScanIndexAsWritten(h: Dict<Fp, seq<Url>>, id: int, keys: seq<Fp>): (Dict<Fp, seq<Url>>, Outcome)
    decreases |keys|
  {
    if keys == [] then (h, Completed)
    else
      var first := ScanKey(h, id, keys[0]);
      if first.1.Raised? then first
      else if first.0.entries.Keys != h.entries.Keys then (first.0, Raised(RuntimeError))
      else ScanIndexAsWritten(first.0, id, keys[1..])
  }

  /** The blacklist's values in iteration order. */
  function ValuesInOrder(bl: Dict<Fp, Url>): (vs: seq<Url>)
    ensures |vs| == |bl.order|
    ensures forall i :: 0 <= i < |vs| && bl.order[i] in bl.entries ==> vs[i] == bl.entries[bl.order[i]]
  {
    seq(|bl.order|, i requires 0 <= i < |bl.order| =>
      if bl.order[i] in bl.entries then bl.entries[bl.order[i]] else "")
  }

  /** The blacklist scan (Watcher.py:143-146): the first entry, in iteration order, whose URL
      carries `id` is popped and the scan stops. */
  function ScanBlacklist(bl: Dict<Fp, Url>, id: int): (Dict<Fp, Url>, Outcome) {
    match FindId(ValuesInOrder(bl), id)
    case Malformed(_) => (bl, Raised(ValueError))
    case Miss => (bl, Completed)
    case Hit(j) => (bl.Pop(bl.order[j]), Completed)
  }

  /** Uncached delete as modelled (index scan over a key snapshot, then the blacklist scan). */
  function UncachedDelete(st: State, id: int): (State, Outcome) {
    var scanned := ScanIndex(st.hashes, id, st.hashes.order);
    if scanned.1.Raised? then (st.(hashes := scanned.0), scanned.1)
    else
      var cleared := ScanBlacklist(st.blacklist, id);
      (State(scanned.0, cleared.0), cleared.1)
  }

  /** Uncached delete exactly as Watcher.py:134-146 behaves under CPython. */
  function UncachedDeleteAsWritten(st: State, id: int): (State, Outcome) {
    var scanned := ScanIndexAsWritten(st.hashes, id, st.hashes.order);
    if scanned.1.Raised? then (st.(hashes := scanned.0), scanned.1)
    else
      var cleared := ScanBlacklist(st.blacklist, id);
      (State(scanned.0, cleared.0), cleared.1)
  }

  /** `raw_delete`. */
  function RawDelete(st: State, event: DeleteEvent): (State, Outcome) {
    match event
    case Cached(m) => CachedDelete(st, m.url, m.fps)
    case Uncached(id) => UncachedDelete(st, id)
  }
}
