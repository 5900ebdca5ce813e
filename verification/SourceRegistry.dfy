/** The compilation session's interner of source files (src/span.rs). */
module SourceRegistry {
  import opened Wrappers

  type Path = string

  /** A raw source id; zero is the unknown source. */
  type SourceId = nat

  const UNKNOWN: SourceId := 0

  const MAX_ID := 0xFFFF_FFFF

  datatype TextOrigin = Disk | Memory | Builtin | Generated

  datatype SourceRecord = SourceRecord(
    id: SourceId,
    key: string,
    uri: Option<string>,
    path: Option<Path>,
    origin: TextOrigin)

  datatype RegistryError =
    | Exhausted
    | ConflictingRecord(key: string)
    | ConflictingPath(path: Path, existing: string, incoming: string)
    | ConflictingUri(uri: string, existing: string, incoming: string)
    | UnmappedSource(id: SourceId)

  /** The file system seen by `canonicalize`: None where it fails. */
  type Canonical = Path -> Option<Path>

  predicate PathsEquivalent(left: Path, right: Path, canonical: Canonical) {
    left == right || (canonical(left).Some? && canonical(left) == canonical(right))
  }

  predicate SamePath(left: Option<Path>, right: Option<Path>, canonical: Canonical) {
    left.Some? && right.Some? && PathsEquivalent(left.value, right.value, canonical)
  }

  type Records = seq<SourceRecord>

  /** The session's registry as a value: the records and the index by key. */
  datatype State = State(records: Records, byKey: map<string, SourceId>)

  const EMPTY := State([], map[])

  // --- what holds of every reachable registry ---

  /** Record `i` carries id `i + 1`, and its key leads there. */
  ghost predicate RecordAt(s: State, i: int) {
    0 <= i < |s.records| ==>
      s.records[i].id == i + 1 && s.records[i].key in s.byKey && s.byKey[s.records[i].key] == i + 1
  }

  /** A key of the index leads to a record with that key. */
  ghost predicate KeyAt(s: State, k: string) {
    k in s.byKey ==> 0 < s.byKey[k] <= |s.records| && s.records[s.byKey[k] - 1].key == k
  }

  /** Two records claim different paths and different URIs. */
  ghost predicate ClaimsDiffer(records: Records, i: int, j: int, canonical: Canonical) {
    0 <= i < |records| && 0 <= j < |records| && i != j ==>
      !SamePath(records[i].path, records[j].path, canonical)
      && (records[i].uri.None? || records[i].uri != records[j].uri)
  }

  /** Ids are exactly 1..n, and the index and the records agree both ways. */
  ghost predicate Indexed(s: State) {
    && |s.records| <= MAX_ID
    && (forall i {:trigger RecordAt(s, i)} :: RecordAt(s, i))
    && (forall k {:trigger KeyAt(s, k)} :: KeyAt(s, k))
  }

  ghost predicate Wellformed(s: State, canonical: Canonical) {
    && Indexed(s)
    && forall i, j {:trigger ClaimsDiffer(s.records, i, j, canonical)} :: ClaimsDiffer(s.records, i, j, canonical)
  }

  /** An issued id keeps its key. */
  ghost predicate KeepsId(before: State, after: State, k: string) {
    k in before.byKey ==> k in after.byKey && after.byKey[k] == before.byKey[k]
  }

  ghost predicate Extends(before: State, after: State) {
    && |before.records| <= |after.records|
    && forall k {:trigger KeepsId(before, after, k)} :: KeepsId(before, after, k)
  }

  lemma ExtendsTransitive(a: State, b: State, c: State)
    requires Extends(a, b) && Extends(b, c)
    ensures Extends(a, c)
  {
    forall k
      ensures KeepsId(a, c, k)
    {
      assert KeepsId(a, b, k) && KeepsId(b, c, k);
    }
  }

  // --- registration ---

  predicate PathConflict(existing: SourceRecord, record: SourceRecord, canonical: Canonical) {
    existing.key != record.key && SamePath(existing.path, record.path, canonical)
  }

  predicate UriConflict(existing: SourceRecord, record: SourceRecord) {
    existing.key != record.key && record.uri.Some? && existing.uri == record.uri
  }

  predicate Conflicts(existing: SourceRecord, record: SourceRecord, onUri: bool, canonical: Canonical) {
    if onUri then UriConflict(existing, record) else PathConflict(existing, record, canonical)
  }

  /** The first record from `i` on that claims the same URI, or the same path, under another key. */
  function FindConflict(records: Records, record: SourceRecord, onUri: bool, canonical: Canonical,
                        i: nat): (r: Option<nat>)
    requires i <= |records|
    ensures r.None? <==> forall j :: i <= j < |records| ==> !Conflicts(records[j], record, onUri, canonical)
    ensures r.Some? ==> i <= r.value < |records| && Conflicts(records[r.value], record, onUri, canonical)
                        && forall j :: i <= j < r.value ==> !Conflicts(records[j], record, onUri, canonical)
    decreases |records| - i
  {
    if i == |records| then None
    else if Conflicts(records[i], record, onUri, canonical) then Some(i)
    else FindConflict(records, record, onUri, canonical, i + 1)
  }

  predicate OriginsCompatible(a: TextOrigin, b: TextOrigin) {
    a == b || (a == Disk && b == Memory) || (a == Memory && b == Disk)
  }

  /** Whether a record may be folded into the one already registered under its key. */
  predicate Mergeable(existing: SourceRecord, record: SourceRecord, canonical: Canonical) {
    var same := SamePath(existing.path, record.path, canonical);
    && !(existing.uri.Some? && record.uri.Some? && existing.uri != record.uri && !same)
    && !(existing.path.Some? && record.path.Some? && !same)
    && OriginsCompatible(existing.origin, record.origin)
  }

  function Folded(existing: SourceRecord, record: SourceRecord, canonical: Canonical): SourceRecord {
    var same := SamePath(existing.path, record.path, canonical);
    existing.(
      uri := if existing.uri.None? || (same && record.uri.Some?) then record.uri else existing.uri,
      path := if existing.path.None? then record.path else existing.path,
      origin := if record.origin == Memory then Memory else existing.origin)
  }

  type Registration = Result<(State, SourceId), RegistryError>

  /** The new state and the id, or the error: the specification of `register`. */
  function Registered(s: State, record: SourceRecord, canonical: Canonical): Registration
    requires Indexed(s)
  {
    var pathAt := FindConflict(s.records, record, false, canonical, 0);
    var uriAt := FindConflict(s.records, record, true, canonical, 0);
    if pathAt.Some? then Failure(ConflictingPath(record.path.value, s.records[pathAt.value].key, record.key))
    else if uriAt.Some? then Failure(ConflictingUri(record.uri.value, s.records[uriAt.value].key, record.key))
    else if record.key in s.byKey then
      assert KeyAt(s, record.key);
      var id := s.byKey[record.key];
      var existing := s.records[id - 1];
      if !Mergeable(existing, record, canonical) then Failure(ConflictingRecord(record.key))
      else Success((s.(records := s.records[id - 1 := Folded(existing, record, canonical)]), id))
    else if |s.records| + 1 > MAX_ID then Failure(Exhausted)
    else
      var id := |s.records| + 1;
      Success((State(s.records + [record.(id := id)], s.byKey[record.key := id]), id))
  }

  lemma PathsEquivalentIsEquivalence(a: Path, b: Path, c: Path, canonical: Canonical)
    ensures PathsEquivalent(a, a, canonical)
    ensures PathsEquivalent(a, b, canonical) ==> PathsEquivalent(b, a, canonical)
    ensures PathsEquivalent(a, b, canonical) && PathsEquivalent(b, c, canonical) ==> PathsEquivalent(a, c, canonical)
  {
  }

  lemma SamePathIsTransitive(a: Option<Path>, b: Option<Path>, c: Option<Path>, canonical: Canonical)
    ensures SamePath(a, b, canonical) && SamePath(b, c, canonical) ==> SamePath(a, c, canonical)
    ensures SamePath(a, b, canonical) ==> SamePath(b, a, canonical)
  {
  }

  /** The record under an id claims everything a registered record claimed. */
  ghost predicate Absorbed(e: SourceRecord, record: SourceRecord, canonical: Canonical) {
    && e.key == record.key
    && (record.uri.Some? ==> e.uri == record.uri)
    && (record.path.Some? ==> SamePath(e.path, record.path, canonical))
    && OriginsCompatible(e.origin, record.origin)
    && (record.origin == Memory ==> e.origin == Memory)
  }

  lemma FoldedAbsorbs(e: SourceRecord, record: SourceRecord, canonical: Canonical)
    requires e.key == record.key && Mergeable(e, record, canonical)
    ensures Absorbed(Folded(e, record, canonical), record, canonical)
  {
  }

  /** One entry written: everything else stays, the index gains at most its key. */
  ghost predicate Writes(s: State, s': State, id: SourceId, key: string) {
    && id == (if key in s.byKey then s.byKey[key] else |s.records| + 1)
    && 0 < id <= |s'.records| <= MAX_ID
    && s'.records[id - 1].id == id && s'.records[id - 1].key == key
    && |s'.records| == (if key in s.byKey then |s.records| else |s.records| + 1)
    && (forall i :: 0 <= i < |s.records| && i != id - 1 ==> s'.records[i] == s.records[i])
    && s'.byKey == s.byKey[key := id]
  }

  lemma WritesKeepIndex(s: State, s': State, id: SourceId, key: string)
    requires Indexed(s) && Writes(s, s', id, key)
    ensures Indexed(s') && Extends(s, s')
  {
    assert KeyAt(s, key);
    forall i
      ensures RecordAt(s', i)
    {
      if 0 <= i < |s'.records| && i != id - 1 {
        assert RecordAt(s, i);
        assert s.records[i].key != key;
      }
    }
    forall k
      ensures KeyAt(s', k) && KeepsId(s, s', k)
    {
      if k in s.byKey && k != key {
        assert KeyAt(s, k);
        assert RecordAt(s, s.byKey[k] - 1);
        assert s.byKey[k] != id;
      }
    }
  }

  /** What a registration puts under its id. */
  lemma RegisteredEntry(s: State, record: SourceRecord, canonical: Canonical)
    requires Wellformed(s, canonical) && Registered(s, record, canonical).Success?
    ensures var (s', id) := Registered(s, record, canonical).value;
            Writes(s, s', id, record.key) && Absorbed(s'.records[id - 1], record, canonical)
  {
    if record.key in s.byKey {
      assert KeyAt(s, record.key);
      var id := s.byKey[record.key];
      assert RecordAt(s, id - 1);
      FoldedAbsorbs(s.records[id - 1], record, canonical);
      assert s.byKey[record.key := id] == s.byKey;
    }
  }

  lemma NoConflicts(s: State, record: SourceRecord, canonical: Canonical, i: nat)
    requires Wellformed(s, canonical) && Registered(s, record, canonical).Success? && i < |s.records|
    ensures s.records[i].key != record.key ==>
              !SamePath(s.records[i].path, record.path, canonical)
              && (record.uri.None? || s.records[i].uri != record.uri)
  {
    assert !Conflicts(s.records[i], record, false, canonical);
    assert !Conflicts(s.records[i], record, true, canonical);
  }

  /** Nobody else claims the path or the URI that the folded record claims. */
  lemma FoldedClaimsAreFree(other: SourceRecord, e: SourceRecord, record: SourceRecord, canonical: Canonical)
    requires !SamePath(other.path, record.path, canonical) && (record.uri.None? || other.uri != record.uri)
    requires !SamePath(other.path, e.path, canonical) && (other.uri.None? || other.uri != e.uri)
    ensures var f := Folded(e, record, canonical);
            !SamePath(other.path, f.path, canonical) && (other.uri.None? || other.uri != f.uri)
  {
  }

  /** The claims under a written entry differ from those of every other record. */
  lemma EntryClaimsAreFree(s: State, record: SourceRecord, canonical: Canonical, i: nat)
    requires Wellformed(s, canonical) && Registered(s, record, canonical).Success?
    requires i < |s.records| && i != Registered(s, record, canonical).value.1 - 1
    ensures var (s', id) := Registered(s, record, canonical).value;
            && 0 < id <= |s'.records|
            && !SamePath(s.records[i].path, s'.records[id - 1].path, canonical)
            && (s.records[i].uri.None? || s.records[i].uri != s'.records[id - 1].uri)
  {
    NoConflicts(s, record, canonical, i);
    assert RecordAt(s, i) && KeyAt(s, record.key);
    if record.key in s.byKey {
      var id := s.byKey[record.key];
      assert ClaimsDiffer(s.records, i, id - 1, canonical);
      FoldedClaimsAreFree(s.records[i], s.records[id - 1], record, canonical);
    }
  }

  lemma RegisteredClaimsDiffer(s: State, record: SourceRecord, canonical: Canonical, i: int, j: int)
    requires Wellformed(s, canonical) && Registered(s, record, canonical).Success?
    ensures ClaimsDiffer(Registered(s, record, canonical).value.0.records, i, j, canonical)
  {
    RegisteredEntry(s, record, canonical);
    var (s', id) := Registered(s, record, canonical).value;
    if 0 <= i < |s'.records| && 0 <= j < |s'.records| && i != j {
      if i == id - 1 {
        EntryClaimsAreFree(s, record, canonical, j);
        SamePathIsTransitive(s'.records[i].path, s'.records[j].path, s'.records[i].path, canonical);
      } else if j == id - 1 {
        EntryClaimsAreFree(s, record, canonical, i);
      } else {
        assert ClaimsDiffer(s.records, i, j, canonical);
      }
    }
  }

  /** A successful registration keeps ids dense, the index exact and claims unique, and every issued id its key. */
  lemma RegisteredKeeps(s: State, record: SourceRecord, canonical: Canonical)
    requires Wellformed(s, canonical) && Registered(s, record, canonical).Success?
    ensures Wellformed(Registered(s, record, canonical).value.0, canonical)
    ensures Extends(s, Registered(s, record, canonical).value.0)
  {
    var (s', id) := Registered(s, record, canonical).value;
    RegisteredEntry(s, record, canonical);
    WritesKeepIndex(s, s', id, record.key);
    forall i, j
      ensures ClaimsDiffer(s'.records, i, j, canonical)
    {
      RegisteredClaimsDiffer(s, record, canonical, i, j);
    }
  }

  lemma AbsorbedConflictsWithNone(s: State, record: SourceRecord, canonical: Canonical, i: nat)
    requires Wellformed(s, canonical) && i < |s.records|
    requires record.key in s.byKey && 0 < s.byKey[record.key] <= |s.records|
    requires Absorbed(s.records[s.byKey[record.key] - 1], record, canonical)
    ensures !Conflicts(s.records[i], record, false, canonical) && !Conflicts(s.records[i], record, true, canonical)
  {
    var at := s.byKey[record.key] - 1;
    var e := s.records[at];
    if i != at {
      assert ClaimsDiffer(s.records, i, at, canonical);
      SamePathIsTransitive(e.path, record.path, e.path, canonical);
      SamePathIsTransitive(s.records[i].path, record.path, e.path, canonical);
    }
  }

  /** Registering a record that is already absorbed returns its id and changes nothing. */
  lemma AbsorbedRegistersAgain(s: State, record: SourceRecord, canonical: Canonical)
    requires Wellformed(s, canonical)
    requires record.key in s.byKey && 0 < s.byKey[record.key] <= |s.records|
    requires Absorbed(s.records[s.byKey[record.key] - 1], record, canonical)
    ensures Registered(s, record, canonical) == Success((s, s.byKey[record.key]))
  {
    var id := s.byKey[record.key];
    var e := s.records[id - 1];
    forall i | 0 <= i < |s.records|
      ensures !Conflicts(s.records[i], record, false, canonical) && !Conflicts(s.records[i], record, true, canonical)
    {
      AbsorbedConflictsWithNone(s, record, canonical, i);
    }
    assert Folded(e, record, canonical) == e;
    assert s.records[id - 1 := e] == s.records;
  }

  // --- when a registration succeeds ---

  /** A record under another key has the same URI or an equivalent path. */
  ghost predicate ClaimedElsewhere(s: State, record: SourceRecord, canonical: Canonical) {
    exists i :: 0 <= i < |s.records| && ClaimsFrom(s.records[i], record, canonical)
  }

  ghost predicate ClaimsFrom(other: SourceRecord, record: SourceRecord, canonical: Canonical) {
    && other.key != record.key
    && ((other.path.Some? && record.path.Some? && PathsEquivalent(other.path.value, record.path.value, canonical))
        || (other.uri.Some? && other.uri == record.uri))
  }

  /** One source seen twice: on disk and in memory, at equivalent paths where both have one, and with the same URI
      where both have one, unless the paths tell that it is the same file. */
  ghost predicate SameSource(existing: SourceRecord, record: SourceRecord, canonical: Canonical) {
    && (existing.origin == record.origin || {existing.origin, record.origin} == {Disk, Memory})
    && (existing.path.Some? && record.path.Some? ==>
          PathsEquivalent(existing.path.value, record.path.value, canonical))
    && (existing.uri.Some? && record.uri.Some? && existing.uri != record.uri ==>
          existing.path.Some? && record.path.Some?)
  }

  lemma ConflictsAreClaims(s: State, record: SourceRecord, canonical: Canonical)
    ensures ClaimedElsewhere(s, record, canonical)
            <==> FindConflict(s.records, record, false, canonical, 0).Some?
                 || FindConflict(s.records, record, true, canonical, 0).Some?
  {
    var onPath := FindConflict(s.records, record, false, canonical, 0);
    var onUri := FindConflict(s.records, record, true, canonical, 0);
    if onPath.Some? {
      assert ClaimsFrom(s.records[onPath.value], record, canonical);
    } else if onUri.Some? {
      assert ClaimsFrom(s.records[onUri.value], record, canonical);
    }
  }

  lemma MergeableIsSameSource(existing: SourceRecord, record: SourceRecord, canonical: Canonical)
    ensures Mergeable(existing, record, canonical) <==> SameSource(existing, record, canonical)
  {
    assert {existing.origin, record.origin} == {Disk, Memory}
      <==> (existing.origin == Disk && record.origin == Memory) || (existing.origin == Memory && record.origin == Disk)
    by {
      if {existing.origin, record.origin} == {Disk, Memory} {
        assert existing.origin in {Disk, Memory} && record.origin in {Disk, Memory};
        assert Disk in {existing.origin, record.origin} && Memory in {existing.origin, record.origin};
      }
    }
  }

  /** A registration succeeds exactly when nothing claims its URI or path under another key, and the record under its
      own key is the same source, or there is none and room for one more. It then has the id of its key. */
  lemma RegistersExactly(s: State, record: SourceRecord, canonical: Canonical)
    requires Wellformed(s, canonical)
    ensures Registered(s, record, canonical).Success?
            <==> !ClaimedElsewhere(s, record, canonical)
                 && (if record.key in s.byKey then
                       0 < s.byKey[record.key] <= |s.records|
                       && SameSource(s.records[s.byKey[record.key] - 1], record, canonical)
                     else |s.records| < MAX_ID)
    ensures Registered(s, record, canonical).Success? ==>
      Registered(s, record, canonical).value.1
      == if record.key in s.byKey then s.byKey[record.key] else |s.records| + 1
  {
    ConflictsAreClaims(s, record, canonical);
    assert KeyAt(s, record.key);
    if record.key in s.byKey {
      MergeableIsSameSource(s.records[s.byKey[record.key] - 1], record, canonical);
    }
  }

  /** What two sightings of one source are kept as: its own key and id, the path first seen, the URI of the later
      sighting where the paths tell that it is the same file, and in memory once it has been seen there. */
  ghost predicate KeptAs(existing: SourceRecord, record: SourceRecord, kept: SourceRecord, canonical: Canonical) {
    && kept.id == existing.id && kept.key == existing.key
    && kept.path == (if existing.path.Some? then existing.path else record.path)
    && (kept.origin == Memory <==> existing.origin == Memory || record.origin == Memory)
    && (existing.uri.None? ==> kept.uri == record.uri)
    && (record.uri.None? ==> kept.uri == existing.uri)
    && (existing.path.Some? && record.path.Some? && record.uri.Some? ==> kept.uri == record.uri)
  }

  lemma RegisteringKeeps(s: State, record: SourceRecord, canonical: Canonical)
    requires Wellformed(s, canonical) && record.key in s.byKey && Registered(s, record, canonical).Success?
    ensures var (s', id) := Registered(s, record, canonical).value;
            && 0 < id <= |s.records| == |s'.records| && s'.byKey == s.byKey
            && KeptAs(s.records[id - 1], record, s'.records[id - 1], canonical)
            && forall i :: 0 <= i < |s.records| && i != id - 1 ==> s'.records[i] == s.records[i]
  {
    assert KeyAt(s, record.key);
  }

  /** An editor's unsaved text for a file on disk takes over the file's record. */
  lemma OverlayRegisters(s: State, record: SourceRecord, canonical: Canonical)
    requires Wellformed(s, canonical) && record.key in s.byKey && 0 < s.byKey[record.key] <= |s.records|
    requires !ClaimedElsewhere(s, record, canonical) && record.origin == Memory
    requires var e := s.records[s.byKey[record.key] - 1];
             e.origin == Disk && SamePath(e.path, record.path, canonical)
    ensures var r := Registered(s, record, canonical);
            && r.Success? && r.value.1 == s.byKey[record.key]
            && r.value.0.records[r.value.1 - 1].origin == Memory
  {
    RegistersExactly(s, record, canonical);
    RegisteringKeeps(s, record, canonical);
  }

  // --- merging ---

  type Merge = Result<(State, map<SourceId, SourceId>), RegistryError>

  /** The first `n` incoming records registered one after the other: the specification of `merge_from`. */
  function Merged(s: State, incoming: Records, n: nat, canonical: Canonical): (r: Merge)
    requires n <= |incoming| && Wellformed(s, canonical)
    ensures r.Success? ==> Wellformed(r.value.0, canonical) && Extends(s, r.value.0)
  {
    if n == 0 then Success((s, map[])) else
    var before := Merged(s, incoming, n - 1, canonical);
    if before.Failure? then before else
    var record := incoming[n - 1];
    if record.id == UNKNOWN then Failure(UnmappedSource(UNKNOWN)) else
    match Registered(before.value.0, record, canonical)
    case Failure(e) => Failure(e)
    case Success((s', id)) =>
      RegisteredKeeps(before.value.0, record, canonical);
      ExtendsTransitive(s, before.value.0, s');
      Success((s', before.value.1[record.id := id]))
  }

  /** Incoming record `i` has been translated to the entry that absorbed it. */
  ghost predicate TranslatesAt(ids: map<SourceId, SourceId>, record: SourceRecord, after: State, canonical: Canonical) {
    && record.id in ids && record.key in after.byKey && after.byKey[record.key] == ids[record.id]
    && 0 < ids[record.id] <= |after.records|
    && Absorbed(after.records[ids[record.id] - 1], record, canonical)
  }

  /** The translation of the first `n` incoming records: total on their ids, and nowhere else defined. */
  ghost predicate Translates(ids: map<SourceId, SourceId>, incoming: Records, n: nat, after: State,
                             canonical: Canonical)
    requires n <= |incoming|
  {
    && (forall id :: id in ids <==> 0 < id <= n)
    && (forall i {:trigger TranslatesAt(ids, incoming[i], after, canonical)} ::
          0 <= i < n ==> TranslatesAt(ids, incoming[i], after, canonical))
  }

  lemma TranslationSurvives(ids: map<SourceId, SourceId>, record: SourceRecord, before: State, after: State,
                            id: SourceId, key: string, canonical: Canonical)
    requires Indexed(before) && TranslatesAt(ids, record, before, canonical)
    requires Writes(before, after, id, key) && record.key != key
    ensures TranslatesAt(ids, record, after, canonical)
  {
    assert KeyAt(before, record.key) && KeyAt(before, key);
    assert after.records[ids[record.id] - 1] == before.records[ids[record.id] - 1];
  }

  /** A successful merge of a well-formed registry translates every incoming id to the id that its key has
      in the merged registry, and the entry there claims all that the incoming record claims. */
  lemma {:induction false} MergeTranslates(s: State, incoming: State, n: nat, canonical: Canonical)
    requires Wellformed(s, canonical) && Wellformed(incoming, canonical) && n <= |incoming.records|
    requires Merged(s, incoming.records, n, canonical).Success?
    ensures var (after, ids) := Merged(s, incoming.records, n, canonical).value;
            Translates(ids, incoming.records, n, after, canonical)
  {
    if n > 0 {
      MergeTranslates(s, incoming, n - 1, canonical);
      var (before, ids) := Merged(s, incoming.records, n - 1, canonical).value;
      var record := incoming.records[n - 1];
      var (after, id) := Registered(before, record, canonical).value;
      RegisteredEntry(before, record, canonical);
      OneMoreTranslated(incoming, n, before, ids, after, id, canonical);
    }
  }

  lemma OneMoreTranslated(incoming: State, n: nat, before: State, ids: map<SourceId, SourceId>, after: State,
                          id: SourceId, canonical: Canonical)
    requires Wellformed(incoming, canonical) && 0 < n <= |incoming.records|
    requires Indexed(before) && Translates(ids, incoming.records, n - 1, before, canonical)
    requires Writes(before, after, id, incoming.records[n - 1].key)
    requires Absorbed(after.records[id - 1], incoming.records[n - 1], canonical)
    ensures Translates(ids[incoming.records[n - 1].id := id], incoming.records, n, after, canonical)
  {
    var record := incoming.records[n - 1];
    var ids' := ids[record.id := id];
    assert RecordAt(incoming, n - 1);
    forall i | 0 <= i < n
      ensures TranslatesAt(ids', incoming.records[i], after, canonical)
    {
      assert RecordAt(incoming, i) && RecordAt(incoming, n - 1);
      if i < n - 1 {
        assert TranslatesAt(ids, incoming.records[i], before, canonical);
        TranslationSurvives(ids, incoming.records[i], before, after, id, record.key, canonical);
      }
    }
  }

  /** A translation is injective, because keys are. */
  lemma TranslationIsInjective(ids: map<SourceId, SourceId>, incoming: State, after: State, canonical: Canonical,
                               a: SourceId, b: SourceId)
    requires Indexed(incoming) && Indexed(after)
    requires Translates(ids, incoming.records, |incoming.records|, after, canonical)
    requires a in ids && b in ids && a != b
    ensures ids[a] != ids[b]
  {
    var r, t := incoming.records[a - 1], incoming.records[b - 1];
    assert TranslatesAt(ids, r, after, canonical) && TranslatesAt(ids, t, after, canonical);
    assert RecordAt(incoming, a - 1) && RecordAt(incoming, b - 1);
    assert KeyAt(after, r.key) && KeyAt(after, t.key);
  }

  ghost function UpTo(ids: map<SourceId, SourceId>, n: nat): map<SourceId, SourceId> {
    map id | id in ids && id <= n :: ids[id]
  }

  lemma MergedNext(s: State, incoming: Records, n: nat, canonical: Canonical, mid: State, ids: map<SourceId, SourceId>,
                   s': State, id: SourceId)
    requires Wellformed(s, canonical) && Wellformed(mid, canonical) && 0 < n <= |incoming|
    requires Merged(s, incoming, n - 1, canonical) == Success((mid, ids))
    requires incoming[n - 1].id != UNKNOWN
    requires Registered(mid, incoming[n - 1], canonical) == Success((s', id))
    ensures Merged(s, incoming, n, canonical) == Success((s', ids[incoming[n - 1].id := id]))
  {
  }

  /** Why a merge stops at record `n`. */
  lemma MergedStops(s: State, incoming: Records, n: nat, canonical: Canonical, mid: State, ids: map<SourceId, SourceId>,
                    error: RegistryError)
    requires Wellformed(s, canonical) && Wellformed(mid, canonical) && 0 < n <= |incoming|
    requires Merged(s, incoming, n - 1, canonical) == Success((mid, ids))
    requires if incoming[n - 1].id == UNKNOWN then error == UnmappedSource(UNKNOWN)
             else Registered(mid, incoming[n - 1], canonical) == Failure(error)
    ensures Merged(s, incoming, |incoming|, canonical) == Failure(error)
  {
    MergeFails(s, incoming, n, canonical);
  }

  lemma UpToNext(ids: map<SourceId, SourceId>, n: nat)
    requires 0 < n && n in ids
    ensures UpTo(ids, n - 1)[n := ids[n]] == UpTo(ids, n)
  {
  }

  /** Registering again what the translation already leads to changes nothing. */
  lemma RemergeOne(after: State, incoming: State, id: SourceId, n: nat, canonical: Canonical)
    requires Wellformed(after, canonical) && Wellformed(incoming, canonical) && 0 < n <= |incoming.records|
    requires var record := incoming.records[n - 1];
             && record.key in after.byKey && after.byKey[record.key] == id && 0 < id <= |after.records|
             && Absorbed(after.records[id - 1], record, canonical)
    ensures Registered(after, incoming.records[n - 1], canonical) == Success((after, id))
    ensures incoming.records[n - 1].id == n
  {
    assert RecordAt(incoming, n - 1);
    AbsorbedRegistersAgain(after, incoming.records[n - 1], canonical);
  }

  lemma RemergeNext(after: State, incoming: State, ids: map<SourceId, SourceId>, n: nat, canonical: Canonical)
    requires Wellformed(after, canonical) && Wellformed(incoming, canonical) && 0 < n <= |incoming.records|
    requires n in ids && TranslatesAt(ids, incoming.records[n - 1], after, canonical)
    requires Merged(after, incoming.records, n - 1, canonical) == Success((after, UpTo(ids, n - 1)))
    ensures Merged(after, incoming.records, n, canonical) == Success((after, UpTo(ids, n)))
  {
    assert RecordAt(incoming, n - 1);
    RemergeOne(after, incoming, ids[n], n, canonical);
    MergedNext(after, incoming.records, n, canonical, after, UpTo(ids, n - 1), after, ids[n]);
    UpToNext(ids, n);
  }

  lemma RemergeNothing(after: State, incoming: State, ids: map<SourceId, SourceId>, canonical: Canonical)
    requires Wellformed(after, canonical)
    requires Translates(ids, incoming.records, |incoming.records|, after, canonical)
    ensures Merged(after, incoming.records, 0, canonical) == Success((after, UpTo(ids, 0)))
  {
    assert UpTo(ids, 0) == map[];
  }

  lemma {:induction false} RemergeStep(after: State, incoming: State, ids: map<SourceId, SourceId>, n: nat,
                                       canonical: Canonical)
    requires Wellformed(after, canonical) && Wellformed(incoming, canonical) && n <= |incoming.records|
    requires Translates(ids, incoming.records, |incoming.records|, after, canonical)
    ensures Merged(after, incoming.records, n, canonical) == Success((after, UpTo(ids, n)))
  {
    if n == 0 {
      RemergeNothing(after, incoming, ids, canonical);
    } else {
      RemergeStep(after, incoming, ids, n - 1, canonical);
      assert TranslatesAt(ids, incoming.records[n - 1], after, canonical);
      RemergeNext(after, incoming, ids, n, canonical);
    }
  }

  /** A second merge of the same registry succeeds, changes nothing and translates in the same way. */
  lemma MergeIsIdempotent(s: State, incoming: State, canonical: Canonical)
    requires Wellformed(s, canonical) && Wellformed(incoming, canonical)
    requires Merged(s, incoming.records, |incoming.records|, canonical).Success?
    ensures var merged := Merged(s, incoming.records, |incoming.records|, canonical).value;
            Merged(merged.0, incoming.records, |incoming.records|, canonical) == Success(merged)
  {
    var n := |incoming.records|;
    MergeTranslates(s, incoming, n, canonical);
    var (after, ids) := Merged(s, incoming.records, n, canonical).value;
    RemergeStep(after, incoming, ids, n, canonical);
    assert UpTo(ids, n) == ids;
  }

  // --- what a merge hands back ---

  datatype SourceIdRemap = SourceIdRemap(ids: map<SourceId, SourceId>, unknownTarget: Option<SourceId>)

  function Remap(remap: SourceIdRemap, id: SourceId): Result<SourceId, RegistryError> {
    if id == UNKNOWN then Success(if remap.unknownTarget.Some? then remap.unknownTarget.value else UNKNOWN)
    else if id in remap.ids then Success(remap.ids[id])
    else Failure(UnmappedSource(id))
  }

  /** Where a remap takes an id: to the record that absorbed its key, and nowhere else. */
  ghost predicate RemapsTo(incoming: State, after: State, id: SourceId, r: Result<SourceId, RegistryError>,
                           canonical: Canonical)
  {
    match r
    case Success(to) =>
      if id == UNKNOWN then to == UNKNOWN
      else id <= |incoming.records| && 0 < to <= |after.records|
           && Absorbed(after.records[to - 1], incoming.records[id - 1], canonical)
    case Failure(e) => id > |incoming.records| && e == UnmappedSource(id)
  }

  lemma TranslationRemaps(ids: map<SourceId, SourceId>, incoming: State, after: State, canonical: Canonical,
                          id: SourceId)
    requires Indexed(incoming) && Translates(ids, incoming.records, |incoming.records|, after, canonical)
    ensures RemapsTo(incoming, after, id, Remap(SourceIdRemap(ids, None), id), canonical)
  {
    if 0 < id <= |incoming.records| {
      assert RecordAt(incoming, id - 1);
      assert TranslatesAt(ids, incoming.records[id - 1], after, canonical);
    }
  }

  /** The remap of a merge takes every incoming id to the record that absorbed its key, keeps the unknown source, and
      refuses every other id. */
  lemma MergeRemaps(s: State, incoming: State, canonical: Canonical, id: SourceId)
    requires Wellformed(s, canonical) && Wellformed(incoming, canonical)
    requires Merged(s, incoming.records, |incoming.records|, canonical).Success?
    ensures var (after, ids) := Merged(s, incoming.records, |incoming.records|, canonical).value;
            RemapsTo(incoming, after, id, Remap(SourceIdRemap(ids, None), id), canonical)
  {
    MergeTranslates(s, incoming, |incoming.records|, canonical);
    var (after, ids) := Merged(s, incoming.records, |incoming.records|, canonical).value;
    TranslationRemaps(ids, incoming, after, canonical, id);
  }

  datatype Operation = RegisterOne(record: SourceRecord) | MergeAll(records: Records)

  /** A failing operation leaves the registry as it is. */
  function Performed(s: State, op: Operation, canonical: Canonical): (s': State)
    requires Wellformed(s, canonical)
    ensures Wellformed(s', canonical) && Extends(s, s')
  {
    match op
    case RegisterOne(record) =>
      var r := Registered(s, record, canonical);
      if r.Success? then RegisteredKeeps(s, record, canonical); r.value.0 else s
    case MergeAll(records) =>
      var r := Merged(s, records, |records|, canonical);
      if r.Success? then r.value.0 else s
  }

  /** The registry after a history of operations. */
  function Reached(ops: seq<Operation>, canonical: Canonical): (s: State)
    ensures Wellformed(s, canonical)
  {
    if ops == [] then EMPTY else
    Performed(Reached(ops[..|ops| - 1], canonical), ops[|ops| - 1], canonical)
  }

  /** Over any history the registry stays well-formed, and every id ever issued keeps its key. */
  lemma {:induction false} IssuedIdsKeepTheirKey(ops: seq<Operation>, k: nat, canonical: Canonical)
    requires k <= |ops|
    ensures Extends(Reached(ops[..k], canonical), Reached(ops, canonical))
    decreases |ops|
  {
    if k < |ops| {
      var shorter := ops[..|ops| - 1];
      IssuedIdsKeepTheirKey(shorter, k, canonical);
      assert shorter[..k] == ops[..k];
      ExtendsTransitive(Reached(ops[..k], canonical), Reached(shorter, canonical), Reached(ops, canonical));
    } else {
      assert ops[..k] == ops;
    }
  }

  // --- the registry object ---

  class Registry {
    var records: Records
    var byKey: map<string, SourceId>
    const canonical: Canonical

    ghost function Contents(): State
      reads this
    {
      State(records, byKey)
    }

    ghost predicate Valid()
      reads this
    {
      Wellformed(Contents(), canonical)
    }

    constructor (canonical: Canonical)
      ensures Valid() && Contents() == EMPTY && this.canonical == canonical
    {
      this.canonical := canonical;
      records := [];
      byKey := map[];
    }

    method FirstConflict(record: SourceRecord, onUri: bool) returns (r: Option<nat>)
      ensures r == FindConflict(records, record, onUri, canonical, 0)
    {
      var i := 0;
      while i < |records|
        invariant i <= |records|
        invariant FindConflict(records, record, onUri, canonical, 0)
          == FindConflict(records, record, onUri, canonical, i)
      {
        if Conflicts(records[i], record, onUri, canonical) {
          return Some(i);
        }
        i := i + 1;
      }
      return None;
    }

    method Register(record: SourceRecord) returns (r: Result<SourceId, RegistryError>)
      requires Valid()
      modifies this
      ensures Valid() && Extends(old(Contents()), Contents())
      ensures match Registered(old(Contents()), record, canonical)
              case Success((s, id)) => r == Success(id) && Contents() == s
              case Failure(e) => r == Failure(e) && Contents() == old(Contents())
    {
      if Registered(Contents(), record, canonical).Success? {
        RegisteredKeeps(Contents(), record, canonical);
      }
      var onPath := FirstConflict(record, false);
      if onPath.Some? {
        return Failure(ConflictingPath(record.path.value, records[onPath.value].key, record.key));
      }
      var onUri := FirstConflict(record, true);
      if onUri.Some? {
        return Failure(ConflictingUri(record.uri.value, records[onUri.value].key, record.key));
      }
      assert KeyAt(Contents(), record.key);
      if record.key in byKey {
        var id := byKey[record.key];
        var existing := records[id - 1];
        if !Mergeable(existing, record, canonical) {
          return Failure(ConflictingRecord(record.key));
        }
        records := records[id - 1 := Folded(existing, record, canonical)];
        return Success(id);
      }
      if |records| + 1 > MAX_ID {
        return Failure(Exhausted);
      }
      var id := |records| + 1;
      byKey := byKey[record.key := id];
      records := records + [record.(id := id)];
      return Success(id);
    }

    method IdForKey(key: string) returns (r: Option<SourceId>)
      requires Valid()
      ensures r.Some? ==> 0 < r.value <= |records| && records[r.value - 1].key == key
      ensures r.None? ==> forall i :: 0 <= i < |records| ==> records[i].key != key
    {
      assert KeyAt(Contents(), key);
      r := if key in byKey then Some(byKey[key]) else None;
      if r.None? {
        forall i | 0 <= i < |records|
          ensures records[i].key != key
        {
          assert RecordAt(Contents(), i);
        }
      }
    }

    method Record(id: SourceId) returns (r: Option<SourceRecord>)
      requires Valid()
      ensures r.Some? <==> 0 < id <= |records|
      ensures r.Some? ==> r.value.id == id && r.value.key in byKey && byKey[r.value.key] == id
    {
      assert RecordAt(Contents(), id - 1);
      r := if 0 < id <= |records| then Some(records[id - 1]) else None;
    }

    /** One record of a merge. */
    method RegisterNext(incoming: Records, k: nat, ids: map<SourceId, SourceId>, ghost s: State)
      returns (r: Result<map<SourceId, SourceId>, RegistryError>)
      requires Valid() && Wellformed(s, canonical) && k < |incoming|
      requires Merged(s, incoming, k, canonical) == Success((Contents(), ids))
      modifies this
      ensures Valid()
      ensures r.Success? ==> Merged(s, incoming, k + 1, canonical) == Success((Contents(), r.value))
      ensures r.Failure? ==> Merged(s, incoming, |incoming|, canonical) == Failure(r.error)
    {
      var record := incoming[k];
      ghost var mid := Contents();
      if record.id == UNKNOWN {
        MergedStops(s, incoming, k + 1, canonical, mid, ids, UnmappedSource(record.id));
        return Failure(UnmappedSource(record.id));
      }
      var id := Register(record);
      assert match id
             case Success(i) => Registered(mid, record, canonical) == Success((Contents(), i))
             case Failure(e) => Registered(mid, record, canonical) == Failure(e);
      if id.Failure? {
        MergedStops(s, incoming, k + 1, canonical, mid, ids, id.error);
        return Failure(id.error);
      }
      MergedNext(s, incoming, k + 1, canonical, mid, ids, Contents(), id.value);
      return Success(ids[record.id := id.value]);
    }

    /** The loop of `merge_from`, which runs on a copy of the registry. */
    method RegisterAll(incoming: Records) returns (r: Result<map<SourceId, SourceId>, RegistryError>)
      requires Valid()
      modifies this
      ensures Valid()
      ensures match Merged(old(Contents()), incoming, |incoming|, canonical)
              case Success((s, ids)) => r == Success(ids) && Contents() == s
              case Failure(e) => r == Failure(e)
    {
      var ids: map<SourceId, SourceId> := map[];
      ghost var s := Contents();
      for k := 0 to |incoming|
        invariant Valid()
        invariant Merged(s, incoming, k, canonical) == Success((Contents(), ids))
      {
        var next := RegisterNext(incoming, k, ids, s);
        if next.Failure? {
          return next;
        }
        ids := next.value;
      }
      return Success(ids);
    }

    /** `merge_from`: all records or none. */
    method MergeFrom(other: Registry) returns (r: Result<SourceIdRemap, RegistryError>)
      requires Valid() && other.Valid() && other.canonical == canonical
      modifies this
      ensures Valid() && Extends(old(Contents()), Contents())
      ensures match Merged(old(Contents()), old(other.records), |old(other.records)|, canonical)
              case Success((s, ids)) => r == Success(SourceIdRemap(ids, None)) && Contents() == s
              case Failure(e) => r == Failure(e) && Contents() == old(Contents())
    {
      var merged := new Registry(canonical);
      merged.records, merged.byKey := records, byKey;
      var ids := merged.RegisterAll(other.records);
      if ids.Failure? {
        return Failure(ids.error);
      }
      records, byKey := merged.records, merged.byKey;
      return Success(SourceIdRemap(ids.value, None));
    }
  }

  /** A merge that fails after some records fails altogether, with the same error. */
  lemma {:induction false} MergeFails(s: State, incoming: Records, k: nat, canonical: Canonical)
    requires Wellformed(s, canonical) && k <= |incoming|
    requires Merged(s, incoming, k, canonical).Failure?
    ensures Merged(s, incoming, |incoming|, canonical) == Merged(s, incoming, k, canonical)
    decreases |incoming| - k
  {
    if k < |incoming| {
      MergeFails(s, incoming, k + 1, canonical);
    }
  }
}
