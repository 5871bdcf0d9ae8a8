/** The offline submission queue. Benchmarks (and, separately, feedback)
    that could not be uploaded are saved as `<id>.json` files in a pending
    directory; a later sync loads them, and each one is either moved to the
    uploaded directory or removed. Unreadable files are renamed to
    `<id>.invalid`. The directories are modelled as maps from file names to
    file contents. */
module Storage {
  import opened Wrappers
  import opened Text
  import opened Idempotency

  /* ------------------------------------------------------------ validators */

  const MaxPendingIdLen: nat := 200
  const MaxBuildNameLen: nat := 120

  predicate IsPendingIdChar(c: char) { IsAsciiAlphanumeric(c) || c == '_' || c == '-' }

  /** `is_valid_pending_id`: non-empty, at most 200 bytes, and only ASCII
      letters, digits, `_` and `-` (so no path separators or dots). */
  predicate IsValidPendingId(id: string)
  {
    id != [] && Utf8Len(id) <= MaxPendingIdLen && forall i :: 0 <= i < |id| ==> IsPendingIdChar(id[i])
  }

  lemma {:induction false} Utf8LenOfAscii(s: string)
    requires forall i :: 0 <= i < |s| ==> IsAscii(s[i])
    ensures Utf8Len(s) == |s|
    decreases |s|
  {
    if s != [] {
      Utf8LenOfAscii(s[..|s| - 1]);
    }
  }

  /** Since every accepted character is ASCII, the byte limit is a limit on
      the number of characters. */
  lemma ValidPendingIdByChars(id: string)
    ensures IsValidPendingId(id) <==>
      0 < |id| <= MaxPendingIdLen && forall i :: 0 <= i < |id| ==> IsPendingIdChar(id[i])
  {
    if forall i :: 0 <= i < |id| ==> IsPendingIdChar(id[i]) {
      Utf8LenOfAscii(id);
    }
  }

  /** A valid id never names anything outside its directory. */
  lemma ValidPendingIdHasNoPathParts(id: string)
    requires IsValidPendingId(id)
    ensures '/' !in id && '\\' !in id && '.' !in id && '\0' !in id
  {
    assert forall i :: 0 <= i < |id| ==> IsPendingIdChar(id[i]);
  }

  /** The id `save_pending_*` gives a new record: a prefix, the clock in
      milliseconds and a random UUID. */
  function PendingId(feedback: bool, nowMillis: nat, uuid: string): (id: string)
    ensures StartsWith(id, if feedback then "pending_feedback_" else "pending_")
  {
    (if feedback then "pending_feedback_" else "pending_") + NatToString(nowMillis) + "_" + uuid
  }

  /** Saved records can always be removed or finalised later: the ids that
      saving generates (32 hexadecimal UUID digits, a clock of at most 20
      digits) pass the id check those operations apply. */
  lemma SavedIdsAreValid(feedback: bool, nowMillis: nat, uuid: string)
    requires |uuid| == 32 && forall i :: 0 <= i < |uuid| ==> IsAsciiAlphanumeric(uuid[i])
    requires |NatToString(nowMillis)| <= 20
    ensures IsValidPendingId(PendingId(feedback, nowMillis, uuid))
  {
    var p: string := if feedback then "pending_feedback_" else "pending_";
    var d := NatToString(nowMillis);
    var id := PendingId(feedback, nowMillis, uuid);
    PrefixesArePendingIdChars();
    AllPendingIdCharsAppend(p, d);
    AllPendingIdCharsAppend(p + d, "_");
    AllPendingIdCharsAppend(p + d + "_", uuid);
    assert |p| <= 17;
    ValidPendingIdByChars(id);
  }

  predicate AllPendingIdChars(s: string) { forall i :: 0 <= i < |s| ==> IsPendingIdChar(s[i]) }

  lemma AllPendingIdCharsAppend(a: string, b: string)
    requires AllPendingIdChars(a) && AllPendingIdChars(b)
    ensures AllPendingIdChars(a + b)
  {
    assert forall i :: |a| <= i < |a + b| ==> (a + b)[i] == b[i - |a|];
  }

  lemma PrefixesArePendingIdChars()
    ensures AllPendingIdChars("pending_") && AllPendingIdChars("feedback_")
    ensures AllPendingIdChars("pending_feedback_") && AllPendingIdChars("_")
  {
    AllPendingIdCharsAppend("pending_", "feedback_");
    assert "pending_" + "feedback_" == "pending_feedback_";
  }

  /** `sanitize_build_name`: the trimmed name, unless it is empty, longer
      than 120 bytes, or holds `/`, `\`, NUL or `..`. */
  function SanitizeBuildName(name: string): (r: Result<string, string>)
    ensures r.Ok? <==>
      var t := Trim(name);
      t != [] && Utf8Len(t) <= MaxBuildNameLen && '/' !in t && '\\' !in t && '\0' !in t && !Contains(t, "..")
    ensures r.Ok? ==> r.value == Trim(name) && IsTrimmed(r.value)
  {
    var t := Trim(name);
    if t == [] then Err("Build name cannot be empty")
    else if Utf8Len(t) > MaxBuildNameLen then Err("Build name is too long (max 120 characters)")
    else if '/' in t || '\\' in t || '\0' in t || Contains(t, "..") then
      Err("Build name contains invalid path characters")
    else Ok(t)
  }

  /** An accepted name is accepted again unchanged. */
  lemma SanitizeBuildNameIdempotent(name: string)
    requires SanitizeBuildName(name).Ok?
    ensures SanitizeBuildName(SanitizeBuildName(name).value) == SanitizeBuildName(name)
  {
    TrimIdempotent(name);
  }

  /** A name containing `..` anywhere (after trimming) is rejected, as for
      "../escape". */
  lemma SanitizeRejectsParentRef(name: string, i: nat)
    requires OccursAt(Trim(name), "..", i)
    ensures SanitizeBuildName(name).Err?
  {
    ContainsWitness(Trim(name), "..", i);
  }

  /* ------------------------------------------------------------ file model */

  /** A directory entry `<stem>.<ext>`. */
  datatype FileName = FileName(stem: string, ext: string)

  function JsonName(id: string): FileName { FileName(id, "json") }
  function InvalidName(id: string): FileName { FileName(id, "invalid") }

  /** What reading and decoding a pending file yields: an I/O error, text
      that is neither record shape, a record with its key, or a bare
      submission written before keys were persisted. */
  datatype Content<T> = Unreadable | Malformed | Record(payload: T, key: string) | Legacy(payload: T)

  datatype StoredFile<T> = StoredFile(mtime: int, content: Content<T>)

  predicate Loadable<T>(c: Content<T>) { c.Record? || c.Legacy? }

  /** One loaded queue entry: its id, payload and idempotency key. */
  datatype PendingEntry<T> = PendingEntry(id: string, payload: T, key: string)

  /** The legacy key of the queue's namespace. */
  function LegacyKey(feedback: bool, id: string): (k: string)
    ensures StartsWith(k, if feedback then LegacyPendingFeedbackPrefix else LegacyPendingPrefix)
  {
    if feedback then LegacyPendingFeedbackKey(id) else LegacyPendingKey(id)
  }

  /** The entry a loadable file yields: a record keeps its stored key, a
      legacy file gets the deterministic legacy key. */
  function EntryOf<T>(feedback: bool, id: string, c: Content<T>): (e: PendingEntry<T>)
    requires Loadable(c)
    ensures e.id == id
    ensures c.Record? ==> e.key == c.key && e.payload == c.payload
    ensures c.Legacy? ==> e.key == LegacyKey(feedback, id) && e.payload == c.payload
  {
    match c
    case Record(p, k) => PendingEntry(id, p, k)
    case Legacy(p) => PendingEntry(id, p, LegacyKey(feedback, id))
  }

  /* ---------------------------------------------------------- sequences */

  ghost predicate Distinct<X>(s: seq<X>) { forall i, j :: 0 <= i < j < |s| ==> s[i] != s[j] }

  lemma {:induction false} DistinctCounts<X>(s: seq<X>)
    requires Distinct(s)
    ensures forall x :: multiset(s)[x] <= 1
    decreases |s|
  {
    if s != [] {
      var p := s[..|s| - 1];
      DistinctCounts(p);
      assert s == p + [s[|s| - 1]];
      assert s[|s| - 1] !in p;
    }
  }

  lemma TwoOccurrences<X>(s: seq<X>, i: nat, j: nat)
    requires i < j < |s| && s[i] == s[j]
    ensures multiset(s)[s[j]] >= 2
  {
    assert s == s[..j] + [s[j]] + s[j + 1..];
    assert s[i] in s[..j];
  }

  lemma CountsDistinct<X>(s: seq<X>)
    requires forall x :: multiset(s)[x] <= 1
    ensures Distinct(s)
  {
    forall i, j | 0 <= i < j < |s| ensures s[i] != s[j] {
      if s[i] == s[j] {
        TwoOccurrences(s, i, j);
      }
    }
  }

  /** A rearrangement of a repetition-free sequence is repetition-free. */
  lemma PermutationDistinct<X>(a: seq<X>, b: seq<X>)
    requires Distinct(a) && multiset(a) == multiset(b)
    ensures Distinct(b)
  {
    DistinctCounts(a);
    CountsDistinct(b);
  }

  /* ------------------------------------------------ oldest-first ordering */

  predicate SortedByMtime<T>(s: seq<FileName>, m: map<FileName, StoredFile<T>>)
  {
    (forall i :: 0 <= i < |s| ==> s[i] in m) &&
    forall i, j :: 0 <= i < j < |s| ==> m[s[i]].mtime <= m[s[j]].mtime
  }

  /** Stable insertion of one name after every name that is not newer. */
  function InsertByMtime<T>(x: FileName, s: seq<FileName>, m: map<FileName, StoredFile<T>>): (r: seq<FileName>)
    requires x in m && SortedByMtime(s, m)
    ensures multiset(r) == multiset(s) + multiset{x}
    ensures SortedByMtime(r, m)
  {
    if s == [] then [x]
    else if m[x].mtime < m[s[0]].mtime then
      InsertBeforeLarger(x, s, m);
      [x] + s
    else
      SortedByMtimeTail(s, m);
      var t := InsertByMtime(x, s[1..], m);
      assert s == [s[0]] + s[1..];
      InsertAfterSmaller(s[0], t, m, x, s[1..]);
      [s[0]] + t
  }

  lemma SortedByMtimeTail<T>(s: seq<FileName>, m: map<FileName, StoredFile<T>>)
    requires s != [] && SortedByMtime(s, m)
    ensures SortedByMtime(s[1..], m)
  {
  }

  lemma InsertBeforeLarger<T>(x: FileName, s: seq<FileName>, m: map<FileName, StoredFile<T>>)
    requires x in m && s != [] && SortedByMtime(s, m) && m[x].mtime < m[s[0]].mtime
    ensures SortedByMtime([x] + s, m)
  {
  }

  lemma InsertAfterSmaller<T>(h: FileName, t: seq<FileName>, m: map<FileName, StoredFile<T>>, x: FileName, rest: seq<FileName>)
    requires h in m && x in m && SortedByMtime(t, m) && SortedByMtime([h] + rest, m)
    requires m[h].mtime <= m[x].mtime
    requires multiset(t) == multiset(rest) + multiset{x}
    ensures SortedByMtime([h] + t, m)
  {
    forall j | 0 <= j < |t| ensures m[h].mtime <= m[t[j]].mtime {
      assert t[j] in multiset(t);
      if t[j] != x {
        assert t[j] in multiset(rest);
        assert t[j] in rest;
        var q :| 0 <= q < |rest| && rest[q] == t[j];
        assert ([h] + rest)[q + 1] == t[j];
        assert ([h] + rest)[0] == h;
      }
    }
  }

  /** `sort_by_key` on the modification time: oldest first. */
  function SortByMtime<T>(s: seq<FileName>, m: map<FileName, StoredFile<T>>): (r: seq<FileName>)
    requires forall i :: 0 <= i < |s| ==> s[i] in m
    ensures multiset(r) == multiset(s)
    ensures SortedByMtime(r, m)
  {
    if s == [] then []
    else
      assert s == s[..|s| - 1] + [s[|s| - 1]];
      InsertByMtime(s[|s| - 1], SortByMtime(s[..|s| - 1], m), m)
  }

  /* ------------------------------------------- the directory after a load */

  /** The `.json` files among `m`. */
  function JsonFiles<T>(m: map<FileName, StoredFile<T>>): set<FileName>
  {
    set k | k in m && k.ext == "json"
  }

  /** A load deletes the handled file `k` from the pending directory: it
      was already finalised as uploaded, or it is unreadable (and moved). */
  predicate Drops<T>(m: map<FileName, StoredFile<T>>, up: map<string, StoredFile<T>>, done: set<FileName>, k: FileName)
  {
    k in done && k in m && (k.stem in up || !Loadable(m[k].content))
  }

  /** The handled file `k` is unreadable and is moved to `<stem>.invalid`. */
  predicate Moves<T>(m: map<FileName, StoredFile<T>>, up: map<string, StoredFile<T>>, done: set<FileName>, k: FileName)
  {
    k in done && k in m && k.stem !in up && !Loadable(m[k].content)
  }

  /** Whether `x` is in the pending directory once the `.json` files in
      `done` have been handled: dropped files are gone, and each moved file
      now sits under its `.invalid` name (replacing any file of that name). */
  predicate InAfterLoad<T>(m: map<FileName, StoredFile<T>>, up: map<string, StoredFile<T>>, done: set<FileName>, x: FileName)
  {
    (x in m && !Drops(m, up, done, x)) || (x.ext == "invalid" && Moves(m, up, done, JsonName(x.stem)))
  }

  /** The content of `x` in that directory. */
  function AfterLoadValue<T>(m: map<FileName, StoredFile<T>>, up: map<string, StoredFile<T>>, done: set<FileName>, x: FileName): StoredFile<T>
    requires InAfterLoad(m, up, done, x)
  {
    if x.ext == "invalid" && Moves(m, up, done, JsonName(x.stem)) then m[JsonName(x.stem)] else m[x]
  }

  /** `d` is the pending directory `m` after handling the files in `done`. */
  ghost predicate IsAfterLoad<T>(d: map<FileName, StoredFile<T>>, m: map<FileName, StoredFile<T>>, up: map<string, StoredFile<T>>, done: set<FileName>)
  {
    (forall x :: x in d <==> InAfterLoad(m, up, done, x)) &&
    (forall x :: x in d ==> d[x] == AfterLoadValue(m, up, done, x))
  }

  /** After a full load no pending `.json` record is one that was already
      uploaded, and each remaining one is loadable. */
  lemma AfterLoadClean<T>(d: map<FileName, StoredFile<T>>, m: map<FileName, StoredFile<T>>, up: map<string, StoredFile<T>>)
    requires IsAfterLoad(d, m, up, JsonFiles(m))
    ensures forall k :: k in d && k.ext == "json" ==> k.stem !in up && Loadable(d[k].content)
  {
    forall k | k in d && k.ext == "json" ensures k.stem !in up && Loadable(d[k].content) {
      assert InAfterLoad(m, up, JsonFiles(m), k);
      assert k in JsonFiles(m);
    }
  }

  /** A load touches only `.json` files and the `.invalid` names of
      unreadable ones: every other file keeps its content. */
  lemma AfterLoadKeepsOthers<T>(d: map<FileName, StoredFile<T>>, m: map<FileName, StoredFile<T>>, up: map<string, StoredFile<T>>, k: FileName)
    requires IsAfterLoad(d, m, up, JsonFiles(m))
    requires k in m && k.ext != "json" && k.ext != "invalid"
    ensures k in d && d[k] == m[k]
  {
    assert InAfterLoad(m, up, JsonFiles(m), k);
  }

  /** The files handled by the first `i` steps of the load loop are the
      first `i` names of the listing. */
  ghost predicate DoneUpTo<T>(sorted: seq<FileName>, i: nat, done: set<FileName>, m: map<FileName, StoredFile<T>>)
  {
    i <= |sorted| &&
    (forall j :: 0 <= j < i ==> sorted[j] in done) &&
    (forall j :: i <= j < |sorted| ==> sorted[j] !in done) &&
    (forall x :: x in done ==> x in m && x.ext == "json")
  }

  lemma DoneStep<T>(sorted: seq<FileName>, i: nat, done: set<FileName>, m: map<FileName, StoredFile<T>>)
    requires DoneUpTo(sorted, i, done, m) && i < |sorted| && Distinct(sorted)
    requires sorted[i] in m && sorted[i].ext == "json"
    ensures sorted[i] !in done && forall j :: j in done ==> j.ext == "json"
    ensures DoneUpTo(sorted, i + 1, done + {sorted[i]}, m)
  {
  }

  lemma DoneAll<T>(sorted: seq<FileName>, done: set<FileName>, m: map<FileName, StoredFile<T>>)
    requires DoneUpTo(sorted, |sorted|, done, m)
    requires forall k :: k in m && k.ext == "json" ==> k in sorted
    ensures done == JsonFiles(m)
  {
    forall x | x in JsonFiles(m) ensures x in done {
      var j :| 0 <= j < |sorted| && sorted[j] == x;
    }
  }

  /* ------------------------------------------------------------- the queue */

  /** One pending queue (benchmarks, or feedback when `feedback` is set)
      with its uploaded directory. */
  class PendingQueue<T> {
    const feedback: bool
    var pending: map<FileName, StoredFile<T>>
    var uploaded: map<string, StoredFile<T>>

    constructor (feedback: bool)
      ensures this.feedback == feedback && pending == map[] && uploaded == map[]
    {
      this.feedback := feedback;
      pending := map[];
      uploaded := map[];
    }

    /** `save_pending_*_with_idempotency_key`. The key is trimmed and must
        not be blank; the file is created with create-new semantics, so an
        existing file is never overwritten. The clock and UUID are inputs. */
    method Save(payload: T, idempotencyKey: string, nowMillis: nat, uuid: string) returns (r: Result<string, string>)
      modifies this
      ensures uploaded == old(uploaded)
      ensures Trim(idempotencyKey) == [] ==> r.Err?
      ensures r.Err? ==> pending == old(pending)
      ensures r.Ok? <==> Trim(idempotencyKey) != [] && JsonName(PendingId(feedback, nowMillis, uuid)) !in old(pending)
      ensures r.Ok? ==> r.value == PendingId(feedback, nowMillis, uuid)
      ensures r.Ok? ==> pending == old(pending)[JsonName(r.value) := StoredFile(nowMillis, Record(payload, Trim(idempotencyKey)))]
    {
      var key := Trim(idempotencyKey);
      if key == [] {
        return Err("Idempotency key cannot be empty");
      }
      var id := PendingId(feedback, nowMillis, uuid);
      if JsonName(id) in pending {
        return Err("Failed to create pending record: file exists");
      }
      pending := pending[JsonName(id) := StoredFile(nowMillis, Record(payload, key))];
      r := Ok(id);
    }

    /** The `.json` names in the pending directory, in directory order
        (which the model leaves unspecified). */
    method ListJson() returns (names: seq<FileName>)
      ensures Distinct(names)
      ensures forall i :: 0 <= i < |names| ==> names[i] in pending && names[i].ext == "json"
      ensures forall k :: k in pending && k.ext == "json" ==> k in names
    {
      names := [];
      var remaining := pending.Keys;
      while remaining != {}
        invariant remaining <= pending.Keys
        invariant Distinct(names)
        invariant forall i :: 0 <= i < |names| ==> names[i] in pending && names[i].ext == "json" && names[i] !in remaining
        invariant forall k :: k in pending && k.ext == "json" && k !in remaining ==> k in names
        decreases |remaining|
      {
        var k :| k in remaining;
        if k.ext == "json" {
          names := names + [k];
        }
        remaining := remaining - {k};
      }
    }

    /** One iteration of the load loop for the `.json` file `k`: delete it
        if it was already uploaded, move it aside if it cannot be read or
        decoded, and otherwise yield its entry. */
    method HandleEntry(k: FileName, ghost m: map<FileName, StoredFile<T>>, ghost done: set<FileName>)
      returns (e: Option<PendingEntry<T>>)
      requires IsAfterLoad(pending, m, uploaded, done)
      requires forall j :: j in done ==> j.ext == "json"
      requires k in m && k.ext == "json" && k !in done
      modifies this
      ensures uploaded == old(uploaded)
      ensures IsAfterLoad(pending, m, uploaded, done + {k})
      ensures e.Some? <==> k.stem !in uploaded && Loadable(m[k].content)
      ensures e.Some? ==> e.value == EntryOf(feedback, k.stem, m[k].content)
    {
      AfterLoadStep(pending, m, uploaded, done, k);
      var file := pending[k];
      if k.stem in uploaded {
        pending := pending - {k};
        return None;
      }
      if !Loadable(file.content) {
        pending := (pending - {k})[InvalidName(k.stem) := file];
        return None;
      }
      e := Some(EntryOf(feedback, k.stem, file.content));
    }

    /** `load_pending_*`: the loadable `.json` records, oldest first. A
        record already present under uploaded is deleted and skipped; an
        unreadable or malformed one is renamed to `.invalid` and skipped. */
    method LoadPending() returns (records: seq<PendingEntry<T>>)
      modifies this
      ensures uploaded == old(uploaded)
      ensures IsAfterLoad(pending, old(pending), uploaded, JsonFiles(old(pending)))
      ensures forall r :: 0 <= r < |records| ==>
        JsonName(records[r].id) in old(pending) && records[r].id !in uploaded &&
        Loadable(old(pending)[JsonName(records[r].id)].content) &&
        records[r] == EntryOf(feedback, records[r].id, old(pending)[JsonName(records[r].id)].content)
      ensures forall k :: k in old(pending) && k.ext == "json" && k.stem !in uploaded && Loadable(old(pending)[k].content) ==>
        exists r :: 0 <= r < |records| && records[r].id == k.stem
      ensures forall r, s :: 0 <= r < s < |records| ==>
        records[r].id != records[s].id &&
        old(pending)[JsonName(records[r].id)].mtime <= old(pending)[JsonName(records[s].id)].mtime
    {
      ghost var m := pending;
      var names := ListJson();
      var sorted := SortByMtime(names, pending);
      SortedJsonFiles(names, sorted, m);
      ghost var src, pos;
      records, src, pos := LoadSorted(sorted, m);
      LoadResult(feedback, uploaded, m, sorted, records, src, pos);
    }

    /** The load loop over the listing `sorted` of the `.json` files of
        `m`, handling them one by one in that order. */
    method LoadSorted(sorted: seq<FileName>, ghost m: map<FileName, StoredFile<T>>)
      returns (records: seq<PendingEntry<T>>, ghost src: seq<nat>, ghost pos: map<nat, nat>)
      requires pending == m
      requires Distinct(sorted)
      requires forall j :: 0 <= j < |sorted| ==> sorted[j] in m && sorted[j].ext == "json"
      requires forall k :: k in m && k.ext == "json" ==> k in sorted
      modifies this
      ensures uploaded == old(uploaded)
      ensures IsAfterLoad(pending, m, uploaded, JsonFiles(m))
      ensures Tracked(feedback, uploaded, m, sorted, records, src, pos, |sorted|)
    {
      AfterLoadNothing(m, uploaded);
      records := [];
      src := [];
      pos := map[];
      ghost var done: set<FileName> := {};
      var i := 0;
      while i < |sorted|
        invariant 0 <= i <= |sorted|
        invariant uploaded == old(uploaded)
        invariant DoneUpTo(sorted, i, done, m)
        invariant IsAfterLoad(pending, m, uploaded, done)
        invariant Tracked(feedback, uploaded, m, sorted, records, src, pos, i)
      {
        var k := sorted[i];
        DoneStep(sorted, i, done, m);
        var e := HandleEntry(k, m, done);
        TrackedStep(feedback, uploaded, m, sorted, records, src, pos, i, e);
        if e.Some? {
          pos := pos[i := |src|];
          records := records + [e.value];
          src := src + [i];
        }
        done := done + {k};
        i := i + 1;
      }
      DoneAll(sorted, done, m);
    }

    /** `remove_pending_*`: an invalid id is an error; otherwise the record
        is deleted if it is still there, and a missing record is not an
        error, so removing twice is the same as removing once. */
    method Remove(id: string) returns (r: Result<(), string>)
      modifies this
      ensures uploaded == old(uploaded)
      ensures r.Err? <==> !IsValidPendingId(id)
      ensures r.Err? ==> pending == old(pending)
      ensures r.Ok? ==> pending == old(pending) - {JsonName(id)}
    {
      if !IsValidPendingId(id) {
        return Err("Invalid pending ID");
      }
      pending := pending - {JsonName(id)};
      r := Ok(());
    }

    /** `mark_pending_*_uploaded`: an invalid id is an error; a record that
        is no longer pending is left alone; otherwise the record moves to the
        uploaded directory, replacing an earlier copy there. */
    method MarkUploaded(id: string) returns (r: Result<(), string>)
      modifies this
      ensures r.Err? <==> !IsValidPendingId(id)
      ensures r.Err? || JsonName(id) !in old(pending) ==> pending == old(pending) && uploaded == old(uploaded)
      ensures r.Ok? && JsonName(id) in old(pending) ==>
        pending == old(pending) - {JsonName(id)} && uploaded == old(uploaded)[id := old(pending)[JsonName(id)]]
    {
      if !IsValidPendingId(id) {
        return Err("Invalid pending ID");
      }
      if JsonName(id) !in pending {
        return Ok(());
      }
      var file := pending[JsonName(id)];
      uploaded := uploaded[id := file];
      pending := pending - {JsonName(id)};
      r := Ok(());
    }
  }

  /** Handling one more `.json` file `k` moves the directory from the state
      for `done` to the state for `done + {k}`. */
  lemma AfterLoadStep<T>(d: map<FileName, StoredFile<T>>, m: map<FileName, StoredFile<T>>, up: map<string, StoredFile<T>>, done: set<FileName>, k: FileName)
    requires IsAfterLoad(d, m, up, done)
    requires forall j :: j in done ==> j.ext == "json"
    requires k in m && k.ext == "json" && k !in done
    ensures k in d && d[k] == m[k]
    ensures k.stem in up ==> IsAfterLoad(d - {k}, m, up, done + {k})
    ensures k.stem !in up && !Loadable(m[k].content) ==> IsAfterLoad((d - {k})[InvalidName(k.stem) := m[k]], m, up, done + {k})
    ensures k.stem !in up && Loadable(m[k].content) ==> IsAfterLoad(d, m, up, done + {k})
  {
    assert InAfterLoad(m, up, done, k);
    var done' := done + {k};
    if k.stem in up {
      var d' := d - {k};
      forall x ensures x in d' <==> InAfterLoad(m, up, done', x) {
        if x.ext == "invalid" {
          assert JsonName(x.stem) != k || !Moves(m, up, done', JsonName(x.stem));
        }
      }
    } else if !Loadable(m[k].content) {
      var d' := (d - {k})[InvalidName(k.stem) := m[k]];
      assert Moves(m, up, done', JsonName(InvalidName(k.stem).stem));
      forall x ensures x in d' <==> InAfterLoad(m, up, done', x) {
        if x.ext == "invalid" && x != InvalidName(k.stem) {
          assert JsonName(x.stem) != k;
        }
      }
      forall x | x in d' ensures d'[x] == AfterLoadValue(m, up, done', x) {
        if x.ext == "invalid" && x != InvalidName(k.stem) {
          assert JsonName(x.stem) != k;
        }
      }
    } else {
      forall x ensures x in d <==> InAfterLoad(m, up, done', x) {
        if x.ext == "invalid" {
          assert JsonName(x.stem) != k || !Moves(m, up, done', JsonName(x.stem));
        }
      }
      forall x | x in d ensures d[x] == AfterLoadValue(m, up, done', x) {
        if x.ext == "invalid" {
          assert JsonName(x.stem) != k || !Moves(m, up, done', JsonName(x.stem));
        }
      }
    }
  }
  /** The loaded entries inherit the order and distinctness of the sorted
      file list they were picked from. */
  lemma LoadOrder<T>(records: seq<PendingEntry<T>>, sorted: seq<FileName>, src: seq<nat>, m: map<FileName, StoredFile<T>>)
    requires SortedByMtime(sorted, m) && Distinct(sorted)
    requires forall j :: 0 <= j < |sorted| ==> sorted[j].ext == "json"
    requires |src| == |records|
    requires forall r :: 0 <= r < |src| ==> src[r] < |sorted| && records[r].id == sorted[src[r]].stem
    requires forall r, s :: 0 <= r < s < |src| ==> src[r] < src[s]
    ensures forall r :: 0 <= r < |records| ==> JsonName(records[r].id) == sorted[src[r]]
    ensures forall r, s :: 0 <= r < s < |records| ==>
      records[r].id != records[s].id && m[JsonName(records[r].id)].mtime <= m[JsonName(records[s].id)].mtime
  {
    forall r | 0 <= r < |records| ensures JsonName(records[r].id) == sorted[src[r]] {
    }
    forall r, s | 0 <= r < s < |records|
      ensures records[r].id != records[s].id && m[JsonName(records[r].id)].mtime <= m[JsonName(records[s].id)].mtime
    {
      assert sorted[src[r]] != sorted[src[s]];
    }
  }
  /** Before any file is handled the directory is unchanged. */
  lemma AfterLoadNothing<T>(m: map<FileName, StoredFile<T>>, up: map<string, StoredFile<T>>)
    ensures IsAfterLoad(m, m, up, {})
  {
  }

  /** The sorted listing holds each `.json` file exactly once. */
  lemma SortedJsonFiles<T>(names: seq<FileName>, sorted: seq<FileName>, m: map<FileName, StoredFile<T>>)
    requires Distinct(names) && multiset(sorted) == multiset(names)
    requires forall i :: 0 <= i < |names| ==> names[i] in m && names[i].ext == "json"
    requires forall k :: k in m && k.ext == "json" ==> k in names
    ensures Distinct(sorted)
    ensures forall i :: 0 <= i < |sorted| ==> sorted[i] in m && sorted[i].ext == "json"
    ensures forall k :: k in m && k.ext == "json" ==> k in sorted
  {
    PermutationDistinct(names, sorted);
    forall i | 0 <= i < |sorted| ensures sorted[i] in m && sorted[i].ext == "json" {
      assert sorted[i] in multiset(names);
    }
    forall k | k in m && k.ext == "json" ensures k in sorted {
      assert k in multiset(sorted);
    }
  }
  /** Bookkeeping of the load loop after `i` files of `sorted`: each
      entry comes from an earlier, strictly later-listed file than the one
      before it, and every loadable earlier file has produced its entry
      (at position `pos[j]`). */
  ghost predicate Tracked<T>(feedback: bool, up: map<string, StoredFile<T>>, m: map<FileName, StoredFile<T>>,
                             sorted: seq<FileName>, records: seq<PendingEntry<T>>, src: seq<nat>, pos: map<nat, nat>, i: nat)
    requires i <= |sorted| && forall j :: 0 <= j < |sorted| ==> sorted[j] in m
  {
    |src| == |records| &&
    (forall r :: 0 <= r < |src| ==> src[r] < i) &&
    (forall r, s :: 0 <= r < s < |src| ==> src[r] < src[s]) &&
    (forall r :: 0 <= r < |records| ==>
      sorted[src[r]].stem !in up && Loadable(m[sorted[src[r]]].content) &&
      records[r] == EntryOf(feedback, sorted[src[r]].stem, m[sorted[src[r]]].content)) &&
    (forall j :: 0 <= j < i && sorted[j].stem !in up && Loadable(m[sorted[j]].content) ==>
      j in pos && pos[j] < |src| && src[pos[j]] == j)
  }

  lemma TrackedStep<T>(feedback: bool, up: map<string, StoredFile<T>>, m: map<FileName, StoredFile<T>>,
                       sorted: seq<FileName>, records: seq<PendingEntry<T>>, src: seq<nat>, pos: map<nat, nat>, i: nat,
                       e: Option<PendingEntry<T>>)
    requires i < |sorted| && forall j :: 0 <= j < |sorted| ==> sorted[j] in m
    requires Tracked(feedback, up, m, sorted, records, src, pos, i)
    requires e.Some? <==> sorted[i].stem !in up && Loadable(m[sorted[i]].content)
    requires e.Some? ==> e.value == EntryOf(feedback, sorted[i].stem, m[sorted[i]].content)
    ensures e.None? ==> Tracked(feedback, up, m, sorted, records, src, pos, i + 1)
    ensures e.Some? ==> Tracked(feedback, up, m, sorted, records + [e.value], src + [i], pos[i := |src|], i + 1)
  {
    if e.Some? {
      TrackedKeep(feedback, up, m, sorted, records, src, pos, i, e.value);
    }
  }

  lemma TrackedKeep<T>(feedback: bool, up: map<string, StoredFile<T>>, m: map<FileName, StoredFile<T>>,
                       sorted: seq<FileName>, records: seq<PendingEntry<T>>, src: seq<nat>, pos: map<nat, nat>, i: nat,
                       e: PendingEntry<T>)
    requires i < |sorted| && forall j :: 0 <= j < |sorted| ==> sorted[j] in m
    requires Tracked(feedback, up, m, sorted, records, src, pos, i)
    requires sorted[i].stem !in up && Loadable(m[sorted[i]].content)
    requires e == EntryOf(feedback, sorted[i].stem, m[sorted[i]].content)
    ensures Tracked(feedback, up, m, sorted, records + [e], src + [i], pos[i := |src|], i + 1)
  {
    var src', records', pos' := src + [i], records + [e], pos[i := |src|];
    assert forall r :: 0 <= r < |src| ==> src'[r] == src[r] && records'[r] == records[r];
    assert src'[|src|] == i && records'[|src|] == e;
    forall j | 0 <= j < i + 1 && sorted[j].stem !in up && Loadable(m[sorted[j]].content)
      ensures j in pos' && pos'[j] < |src'| && src'[pos'[j]] == j
    {
      if j < i {
        assert pos[j] < |src| && src[pos[j]] == j;
      }
    }
  }

  /** What a finished load loop yields: each entry is a loadable record
      not yet uploaded, every such record yields an entry, and the entries
      come oldest first with distinct ids. */
  lemma LoadResult<T>(feedback: bool, up: map<string, StoredFile<T>>, m: map<FileName, StoredFile<T>>,
                      sorted: seq<FileName>, records: seq<PendingEntry<T>>, src: seq<nat>, pos: map<nat, nat>)
    requires SortedByMtime(sorted, m) && Distinct(sorted)
    requires forall j :: 0 <= j < |sorted| ==> sorted[j] in m && sorted[j].ext == "json"
    requires forall k :: k in m && k.ext == "json" ==> k in sorted
    requires Tracked(feedback, up, m, sorted, records, src, pos, |sorted|)
    ensures forall r :: 0 <= r < |records| ==>
      JsonName(records[r].id) in m && records[r].id !in up &&
      Loadable(m[JsonName(records[r].id)].content) &&
      records[r] == EntryOf(feedback, records[r].id, m[JsonName(records[r].id)].content)
    ensures forall k :: k in m && k.ext == "json" && k.stem !in up && Loadable(m[k].content) ==>
      exists r :: 0 <= r < |records| && records[r].id == k.stem
    ensures forall r, s :: 0 <= r < s < |records| ==>
      records[r].id != records[s].id && m[JsonName(records[r].id)].mtime <= m[JsonName(records[s].id)].mtime
  {
    LoadOrder(records, sorted, src, m);
    forall k | k in m && k.ext == "json" && k.stem !in up && Loadable(m[k].content)
      ensures exists r :: 0 <= r < |records| && records[r].id == k.stem
    {
      var j :| 0 <= j < |sorted| && sorted[j] == k;
      assert records[pos[j]].id == k.stem;
    }
  }
}
