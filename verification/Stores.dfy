/** The in-memory and the file profile store against one abstract table (src/connection/store.rs). */
module Stores {
  import opened Wrappers
  import opened Profiles
  import opened Autoconnect

  type Table = map<ProfileId, ConnectionProfile>

  /** The text of each profile file, by the stem of its name. */
  type Directory = map<ProfileId, string>

  /** The text form of a profile. */
  datatype Codec = Codec(show: ConnectionProfile -> string, read: string -> Option<ConnectionProfile>) {
    ghost predicate Lawful() {
      forall p :: read(show(p)) == Some(p)
    }
  }

  datatype Write = Create(profile: ConnectionProfile) | Update(profile: ConnectionProfile) | Delete(id: ProfileId)

  // --- The two stores as functions ---------------------------------------------------------------

  /** In memory a profile is validated before its id is looked up. */
  function WriteTable(t: Table, w: Write): (Table, Option<StoreError>) {
    match w
    case Create(p) =>
      if Validate(p).Some? then (t, Some(Invalid(Validate(p).value)))
      else if p.id in t then (t, Some(AlreadyExists))
      else (t[p.id := p], None)
    case Update(p) =>
      if Validate(p).Some? then (t, Some(Invalid(Validate(p).value)))
      else if p.id !in t then (t, Some(NotFound))
      else (t[p.id := p], None)
    case Delete(id) => if id !in t then (t, Some(NotFound)) else (t - {id}, None)
  }

  function SaveProfile(d: Directory, p: ConnectionProfile, codec: Codec): (Directory, Option<StoreError>) {
    if Validate(p).Some? then (d, Some(Invalid(Validate(p).value))) else (d[p.id := codec.show(p)], None)
  }

  /** On file the id is looked up first. */
  function WriteFile(d: Directory, w: Write, codec: Codec): (Directory, Option<StoreError>) {
    match w
    case Create(p) => if p.id in d then (d, Some(AlreadyExists)) else SaveProfile(d, p, codec)
    case Update(p) => if p.id !in d then (d, Some(NotFound)) else SaveProfile(d, p, codec)
    case Delete(id) => if id !in d then (d, Some(NotFound)) else (d - {id}, None)
  }

  /** A file is refused unless it parses to a valid profile with the id of its name. */
  function ParseProfile(id: ProfileId, text: string, codec: Codec): Result<ConnectionProfile, StoreError> {
    match codec.read(text)
    case None => Failure(Malformed(id))
    case Some(p) => if p.id != id || Validate(p).Some? then Failure(Malformed(id)) else Success(p)
  }

  function RunTable(t: Table, writes: seq<Write>): (Table, seq<Option<StoreError>>)
    decreases |writes|
  {
    if writes == [] then (t, [])
    else
      var (next, reply) := WriteTable(t, writes[0]);
      var (last, replies) := RunTable(next, writes[1..]);
      (last, [reply] + replies)
  }

  function RunFile(d: Directory, writes: seq<Write>, codec: Codec): (Directory, seq<Option<StoreError>>)
    decreases |writes|
  {
    if writes == [] then (d, [])
    else
      var (next, reply) := WriteFile(d, writes[0], codec);
      var (last, replies) := RunFile(next, writes[1..], codec);
      (last, [reply] + replies)
  }

  // --- The file store mirrors the table -------------------------------------------------------------

  /** The directory holds exactly the table's profiles, each readable as itself. */
  ghost predicate Mirrors(d: Directory, t: Table, codec: Codec) {
    && d.Keys == t.Keys
    && (forall id :: id in t ==> ParseProfile(id, d[id], codec) == Success(t[id]))
  }

  /** What every write does to the table: which are accepted, what they change, and that nothing else changes. */
  lemma WritesDo(t: Table, w: Write, other: ProfileId)
    ensures var (after, error) := WriteTable(t, w);
            var id := if w.Delete? then w.id else w.profile.id;
            && (error.None? <==> (if w.Delete? then id in t
                                  else Validate(w.profile).None? && (w.Create? <==> id !in t)))
            && (error.None? && w.Delete? ==> id !in after)
            && (error.None? && !w.Delete? ==> id in after && after[id] == w.profile)
            && (error.Some? || other != id
                ==> (other in after <==> other in t) && (other in t ==> after[other] == t[other]))
            && (error.Some? ==>
                  error == if !w.Delete? && Validate(w.profile).Some? then Some(Invalid(Validate(w.profile).value))
                           else if w.Create? then Some(AlreadyExists)
                           else Some(NotFound))
  {
  }

  /** What a file must hold to be read under a name: a valid profile with that id. */
  lemma ReadsExactly(id: ProfileId, text: string, codec: Codec)
    ensures ParseProfile(id, text, codec)
            == if codec.read(text).Some? && codec.read(text).value.id == id && Validate(codec.read(text).value).None?
               then Success(codec.read(text).value) else Failure(Malformed(id))
  {
  }

  /** A write with two faults: the stores report different ones. */
  predicate TwoFaults(t: Table, w: Write) {
    match w
    case Create(p) => Validate(p).Some? && p.id in t
    case Update(p) => Validate(p).Some? && p.id !in t
    case Delete(_) => false
  }

  lemma WriteMirrors(d: Directory, t: Table, w: Write, codec: Codec)
    requires codec.Lawful() && Mirrors(d, t, codec)
    ensures Mirrors(WriteFile(d, w, codec).0, WriteTable(t, w).0, codec)
    ensures WriteFile(d, w, codec).1.None? <==> WriteTable(t, w).1.None?
    ensures WriteFile(d, w, codec).1 == WriteTable(t, w).1 <==> !TwoFaults(t, w)
  {
    if !w.Delete? {
      assert codec.read(codec.show(w.profile)) == Some(w.profile);
    }
  }

  /** Creating a profile without a name under a taken id: one store says invalid, the other says taken. */
  lemma EmptyNameUnderTakenId(p: ConnectionProfile, codec: Codec)
    requires Validate(p).None?
    ensures var w := Create(p.(name := []));
            && WriteTable(map[p.id := p], w).1 == Some(Invalid(EmptyName))
            && WriteFile(map[p.id := codec.show(p)], w, codec).1 == Some(AlreadyExists)
  {
  }

  lemma TableAfter(t: Table, writes: seq<Write>, i: nat)
    requires 0 < i <= |writes|
    ensures RunTable(t, writes[..i]).0 == RunTable(WriteTable(t, writes[0]).0, writes[1..][..i - 1]).0
  {
    assert writes[..i][1..] == writes[1..][..i - 1];
  }

  /** Every run of writes, from a directory that mirrors a table, keeps it mirrored; the two stores
      accept the same writes, and answer alike except for writes with two faults. */
  lemma {:induction false} RunMirrors(d: Directory, t: Table, writes: seq<Write>, codec: Codec)
    requires codec.Lawful() && Mirrors(d, t, codec)
    ensures Mirrors(RunFile(d, writes, codec).0, RunTable(t, writes).0, codec)
    ensures var onFile, inMemory := RunFile(d, writes, codec).1, RunTable(t, writes).1;
            && |onFile| == |inMemory| == |writes|
            && (forall i :: 0 <= i < |writes| ==>
                  && (onFile[i].None? <==> inMemory[i].None?)
                  && (onFile[i] == inMemory[i] <==> !TwoFaults(RunTable(t, writes[..i]).0, writes[i])))
    decreases |writes|
  {
    if writes != [] {
      WriteMirrors(d, t, writes[0], codec);
      var nextD, nextT := WriteFile(d, writes[0], codec).0, WriteTable(t, writes[0]).0;
      RunMirrors(nextD, nextT, writes[1..], codec);
      forall i | 0 < i < |writes|
        ensures RunTable(t, writes[..i]).0 == RunTable(nextT, writes[1..][..i - 1]).0
      {
        TableAfter(t, writes, i);
      }
    }
  }

  // --- Listing in order ---------------------------------------------------------------------------------

  /** What a list is sorted by. */
  type SortKey<!T> = T -> string

  function IdOf(p: ConnectionProfile): string {
    p.id
  }

  /** The file of a profile, relative to the directory. */
  function PathFor(id: ProfileId): string {
    id + ".toml"
  }

  predicate Precedes(a: string, b: string) {
    AtMost(a, b) && a != b
  }

  predicate Ascending<T>(items: seq<T>, key: SortKey<T>) {
    forall i, j :: 0 <= i < j < |items| ==> Precedes(key(items[i]), key(items[j]))
  }

  function InsertByKey<T(!new)>(sorted: seq<T>, x: T, key: SortKey<T>): (r: seq<T>)
    ensures forall y :: y in r <==> y == x || y in sorted
  {
    if sorted == [] || AtMost(key(x), key(sorted[0])) then [x] + sorted
    else
      assert sorted == [sorted[0]] + sorted[1..];
      [sorted[0]] + InsertByKey(sorted[1..], x, key)
  }

  lemma {:induction false} InsertByKeyAscends<T(!new)>(sorted: seq<T>, x: T, key: SortKey<T>)
    requires Ascending(sorted, key) && forall y :: y in sorted ==> key(y) != key(x)
    ensures Ascending(InsertByKey(sorted, x, key), key)
  {
    if sorted != [] {
      var first, rest := sorted[0], sorted[1..];
      assert first in sorted;
      if AtMost(key(x), key(first)) {
        forall y | y in sorted ensures Precedes(key(x), key(y)) {
          if y != first {
            AtMostTransitive(key(x), key(first), key(y));
          }
        }
      } else {
        AtMostTotal(key(x), key(first));
        InsertByKeyAscends(rest, x, key);
        forall y | y in InsertByKey(rest, x, key) ensures Precedes(key(first), key(y)) {
        }
      }
    }
  }

  /** All of the table's profiles, by ascending id. */
  ghost predicate Lists(profiles: seq<ConnectionProfile>, t: Table) {
    Ascending(profiles, IdOf) && forall p :: p in profiles <==> p.id in t && t[p.id] == p
  }

  lemma FirstIsLeast(profiles: seq<ConnectionProfile>, p: ConnectionProfile)
    requires Ascending(profiles, IdOf) && p in profiles
    ensures AtMost(profiles[0].id, p.id)
    ensures p != profiles[0] ==> p in profiles[1..]
    ensures profiles[0] !in profiles[1..]
  {
    AtMostTotal(p.id, p.id);
    assert profiles == [profiles[0]] + profiles[1..];
    forall i | 0 <= i < |profiles[1..]| ensures profiles[1..][i] != profiles[0] {
      assert Precedes(profiles[0].id, profiles[i + 1].id);
    }
  }

  /** Two ascending lists with the same members are the same list. */
  lemma {:induction false} AscendingIsUnique(a: seq<ConnectionProfile>, b: seq<ConnectionProfile>)
    requires Ascending(a, IdOf) && Ascending(b, IdOf) && forall p :: p in a <==> p in b
    ensures a == b
    decreases |a|
  {
    assert b != [] ==> b[0] in b;
    if a != [] {
      assert a[0] in b;
      FirstIsLeast(a, a[0]);
      FirstIsLeast(b, a[0]);
      assert b[0] in a;
      FirstIsLeast(a, b[0]);
      AtMostAntisymmetric(a[0].id, b[0].id);
      SameIdSamePlace(a, a[0], b[0]);
      forall p ensures p in a[1..] <==> p in b[1..] {
        if p in a[1..] {
          assert p in a && p in b;
          FirstIsLeast(b, p);
        } else if p in b[1..] {
          assert p in b && p in a;
          FirstIsLeast(a, p);
        }
      }
      AscendingIsUnique(a[1..], b[1..]);
      assert a == [a[0]] + a[1..] && b == [b[0]] + b[1..];
    }
  }

  lemma SameIdSamePlace(a: seq<ConnectionProfile>, p: ConnectionProfile, q: ConnectionProfile)
    requires Ascending(a, IdOf) && p in a && q in a && p.id == q.id
    ensures p == q
  {
    var i :| 0 <= i < |a| && a[i] == p;
    var j :| 0 <= j < |a| && a[j] == q;
    assert i < j ==> Precedes(IdOf(a[i]), IdOf(a[j]));
    assert j < i ==> Precedes(IdOf(a[j]), IdOf(a[i]));
  }

  // --- The store objects -----------------------------------------------------------------------------------

  method SortById(profiles: seq<ConnectionProfile>) returns (sorted: seq<ConnectionProfile>)
    requires forall i, j :: 0 <= i < j < |profiles| ==> profiles[i].id != profiles[j].id
    ensures Ascending(sorted, IdOf) && forall p :: p in sorted <==> p in profiles
  {
    sorted := [];
    for i := 0 to |profiles|
      invariant Ascending(sorted, IdOf) && forall p :: p in sorted <==> p in profiles[..i]
    {
      InsertByKeyAscends(sorted, profiles[i], IdOf);
      sorted := InsertByKey(sorted, profiles[i], IdOf);
      assert profiles[..i + 1] == profiles[..i] + [profiles[i]];
    }
    assert profiles[..|profiles|] == profiles;
  }

  lemma PathsDiffer(a: ProfileId, b: ProfileId)
    requires a != b
    ensures PathFor(a) != PathFor(b)
  {
    if |a| == |b| {
      assert PathFor(a)[..|a|] == a && PathFor(b)[..|b|] == b;
    }
  }

  /** The names of a directory, by ascending path. */
  method SortedNames(names: set<ProfileId>) returns (sorted: seq<ProfileId>)
    ensures Ascending(sorted, PathFor) && forall id :: id in sorted <==> id in names
  {
    sorted := [];
    var rest := names;
    while rest != {}
      invariant rest <= names && Ascending(sorted, PathFor)
      invariant forall id :: id in sorted <==> id in names && id !in rest
      decreases |rest|
    {
      var id :| id in rest;
      forall other | other in sorted ensures PathFor(other) != PathFor(id) {
        PathsDiffer(other, id);
      }
      InsertByKeyAscends(sorted, id, PathFor);
      sorted := InsertByKey(sorted, id, PathFor);
      rest := rest - {id};
    }
  }

  class InMemoryProfileStore {
    var profiles: Table

    ghost predicate Valid()
      reads this
    {
      forall id :: id in profiles ==> profiles[id].id == id && Validate(profiles[id]).None?
    }

    constructor ()
      ensures Valid() && profiles == map[]
    {
      profiles := map[];
    }

    method CreateProfile(p: ConnectionProfile) returns (error: Option<StoreError>)
      requires Valid()
      modifies this
      ensures Valid() && (profiles, error) == WriteTable(old(profiles), Create(p))
    {
      var problem := Validate(p);
      if problem.Some? {
        return Some(Invalid(problem.value));
      }
      if p.id in profiles {
        return Some(AlreadyExists);
      }
      profiles := profiles[p.id := p];
      error := None;
    }

    method UpdateProfile(p: ConnectionProfile) returns (error: Option<StoreError>)
      requires Valid()
      modifies this
      ensures Valid() && (profiles, error) == WriteTable(old(profiles), Update(p))
    {
      var problem := Validate(p);
      if problem.Some? {
        return Some(Invalid(problem.value));
      }
      if p.id !in profiles {
        return Some(NotFound);
      }
      profiles := profiles[p.id := p];
      error := None;
    }

    method DeleteProfile(id: ProfileId) returns (error: Option<StoreError>)
      requires Valid()
      modifies this
      ensures Valid() && (profiles, error) == WriteTable(old(profiles), Delete(id))
    {
      if id !in profiles {
        return Some(NotFound);
      }
      profiles := profiles - {id};
      error := None;
    }

    /** The profiles in the order of their keys. */
    method ListProfiles() returns (listed: seq<ConnectionProfile>)
      requires Valid()
      ensures Lists(listed, profiles)
    {
      listed := [];
      var rest := profiles.Keys;
      while rest != {}
        invariant rest <= profiles.Keys && Ascending(listed, IdOf)
        invariant forall p :: p in listed <==> p.id in profiles && p.id !in rest && profiles[p.id] == p
        decreases |rest|
      {
        var id :| id in rest;
        InsertByKeyAscends(listed, profiles[id], IdOf);
        listed := InsertByKey(listed, profiles[id], IdOf);
        rest := rest - {id};
      }
    }
  }

  class FileProfileStore {
    var files: Directory
    const codec: Codec

    constructor (initial: Directory, codec: Codec)
      ensures files == initial && this.codec == codec
    {
      files := initial;
      this.codec := codec;
    }

    method WriteProfile(p: ConnectionProfile) returns (error: Option<StoreError>)
      modifies this
      ensures (files, error) == SaveProfile(old(files), p, codec)
    {
      var problem := Validate(p);
      if problem.Some? {
        return Some(Invalid(problem.value));
      }
      files := files[p.id := codec.show(p)];
      error := None;
    }

    method CreateProfile(p: ConnectionProfile) returns (error: Option<StoreError>)
      modifies this
      ensures (files, error) == WriteFile(old(files), Create(p), codec)
    {
      if p.id in files {
        return Some(AlreadyExists);
      }
      error := WriteProfile(p);
    }

    method UpdateProfile(p: ConnectionProfile) returns (error: Option<StoreError>)
      modifies this
      ensures (files, error) == WriteFile(old(files), Update(p), codec)
    {
      if p.id !in files {
        return Some(NotFound);
      }
      error := WriteProfile(p);
    }

    method DeleteProfile(id: ProfileId) returns (error: Option<StoreError>)
      modifies this
      ensures (files, error) == WriteFile(old(files), Delete(id), codec)
    {
      if id !in files {
        return Some(NotFound);
      }
      files := files - {id};
      error := None;
    }

    /** A file that is refused, with no refused file before it in path order. */
    ghost predicate FirstRefused(id: ProfileId)
      reads this
    {
      && id in files && ParseProfile(id, files[id], codec).Failure?
      && (forall other :: other in files && ParseProfile(other, files[other], codec).Failure?
                          ==> other == id || Precedes(PathFor(id), PathFor(other)))
    }

    /** Reads the files in path order, giving up at the first that is refused, and sorts what was read by id. */
    method ListProfiles() returns (r: Result<seq<ConnectionProfile>, StoreError>)
      ensures r.Failure? <==> exists id :: id in files && ParseProfile(id, files[id], codec).Failure?
      ensures r.Failure? ==> exists id :: FirstRefused(id) && r == Failure(Malformed(id))
      ensures r.Success? ==> forall t :: Mirrors(files, t, codec) ==> Lists(r.value, t)
    {
      var read: seq<ConnectionProfile> := [];
      var names := SortedNames(files.Keys);
      for n := 0 to |names|
        invariant |read| == n
        invariant forall i :: 0 <= i < n ==> ParseProfile(names[i], files[names[i]], codec) == Success(read[i])
      {
        assert names[n] in names;
        var parsed := ParseProfile(names[n], files[names[n]], codec);
        if parsed.Failure? {
          assert FirstRefused(names[n]) by {
            EarlierAreRead(files, names, n, codec);
          }
          return Failure(parsed.error);
        }
        read := read + [parsed.value];
      }
      ReadAreDistinct(files, names, read, codec);
      var sorted := SortById(read);
      r := Success(sorted);
    }
  }

  lemma EarlierAreRead(files: Directory, names: seq<ProfileId>, n: nat, codec: Codec)
    requires n < |names| && Ascending(names, PathFor) && forall id :: id in names <==> id in files
    requires forall i :: 0 <= i < n ==> ParseProfile(names[i], files[names[i]], codec).Success?
    ensures forall other :: other in files && ParseProfile(other, files[other], codec).Failure?
                            ==> other == names[n] || Precedes(PathFor(names[n]), PathFor(other))
  {
    forall other | other in files && ParseProfile(other, files[other], codec).Failure? && other != names[n]
      ensures Precedes(PathFor(names[n]), PathFor(other))
    {
      assert other in names;
      var k :| 0 <= k < |names| && names[k] == other;
      assert n < k;
    }
  }

  /** Profiles read from files with different names are different, and are all that there are. */
  lemma ReadAreDistinct(files: Directory, names: seq<ProfileId>, read: seq<ConnectionProfile>, codec: Codec)
    requires |read| == |names| && Ascending(names, PathFor) && forall id :: id in names <==> id in files
    requires forall i :: 0 <= i < |names| ==> ParseProfile(names[i], files[names[i]], codec) == Success(read[i])
    ensures forall i, j :: 0 <= i < j < |read| ==> read[i].id != read[j].id
    ensures forall p :: p in read <==> p.id in files && ParseProfile(p.id, files[p.id], codec) == Success(p)
    ensures forall id :: id in files ==> ParseProfile(id, files[id], codec).Success?
  {
    forall i | 0 <= i < |read| ensures read[i].id == names[i] {
    }
    forall i, j | 0 <= i < j < |read| ensures read[i].id != read[j].id {
      assert Precedes(PathFor(names[i]), PathFor(names[j]));
    }
    forall id | id in files
      ensures exists k :: 0 <= k < |names| && names[k] == id && ParseProfile(id, files[id], codec) == Success(read[k])
    {
      assert id in names;
      var k :| 0 <= k < |names| && names[k] == id;
      assert ParseProfile(names[k], files[names[k]], codec) == Success(read[k]);
    }
  }

  // --- Either store behind the manager --------------------------------------------------------------------------

  /** What reading each id gives. */
  type Readings = map<ProfileId, Result<ConnectionProfile, StoreError>>

  function FileReadings(d: Directory, codec: Codec): Readings {
    map id | id in d :: ParseProfile(id, d[id], codec)
  }

  function TableReadings(t: Table): Readings {
    map id | id in t :: Success(t[id])
  }

  /** The readings as the manager meets them: every id once, in any order. */
  ghost predicate Views(store: Store, readings: Readings) {
    && (forall i, j :: 0 <= i < j < |store.entries| ==> store.entries[i].0 != store.entries[j].0)
    && (forall i :: 0 <= i < |store.entries| ==>
          store.entries[i].0 in readings && store.entries[i].1 == readings[store.entries[i].0])
    && (forall id :: id in readings ==> exists i :: 0 <= i < |store.entries| && store.entries[i].0 == id)
  }

  lemma {:induction false} GetAtIndex(entries: seq<(ProfileId, Result<ConnectionProfile, StoreError>)>, i: nat)
    requires i < |entries| && forall j :: 0 <= j < i ==> entries[j].0 != entries[i].0
    ensures GetFrom(entries, entries[i].0) == entries[i].1
  {
    if i > 0 {
      GetAtIndex(entries[1..], i - 1);
    }
  }

  lemma {:induction false} GetOfMissing(entries: seq<(ProfileId, Result<ConnectionProfile, StoreError>)>, id: ProfileId)
    requires forall i :: 0 <= i < |entries| ==> entries[i].0 != id
    ensures GetFrom(entries, id) == Failure(NotFound)
  {
    if entries != [] {
      GetOfMissing(entries[1..], id);
    }
  }

  lemma ViewGets(store: Store, readings: Readings, id: ProfileId)
    requires Views(store, readings)
    ensures store.Get(id) == if id in readings then readings[id] else Failure(NotFound)
  {
    if id in readings {
      var i :| 0 <= i < |store.entries| && store.entries[i].0 == id;
      GetAtIndex(store.entries, i);
    } else {
      GetOfMissing(store.entries, id);
    }
  }

  lemma {:induction false} ListOfReadable(entries: seq<(ProfileId, Result<ConnectionProfile, StoreError>)>)
    requires forall i :: 0 <= i < |entries| ==> entries[i].1.Success?
    ensures ListFrom(entries).Success?
  {
    if entries != [] {
      ListOfReadable(entries[1..]);
    }
  }

  /** Two views of the same readable profiles lead to the same choice. */
  lemma ChoiceIgnoresOrder(a: Store, b: Store, readings: Readings, device: DeviceInfo, tracked: set<ProfileId>)
    requires Views(a, readings) && Views(b, readings)
    requires forall id :: id in readings ==> readings[id].Success? && readings[id].value.id == id
    ensures a.Valid() && b.Valid()
    ensures Choose(a, device, tracked) == Choose(b, device, tracked)
  {
    ListOfReadable(a.entries);
    ListOfReadable(b.entries);
    forall q ensures Eligible(q, a, device, tracked) <==> Eligible(q, b, device, tracked) {
      ViewGets(a, readings, q.id);
      ViewGets(b, readings, q.id);
    }
    FoundIsBest(a, device, tracked);
    var choice := Choose(a, device, tracked).value;
    if choice.Some? {
      ChoosesTheBest(b, device, tracked, choice.value);
    } else {
      FoundIsBest(b, device, tracked);
    }
  }

  /** After any run of writes from empty, the manager reads every id alike from either store, needs
      nothing more of them, and picks the same profile. */
  lemma StoresAreInterchangeable(
      writes: seq<Write>, codec: Codec, onFile: Store, inMemory: Store, device: DeviceInfo, tracked: set<ProfileId>)
    requires codec.Lawful()
    requires Views(onFile, FileReadings(RunFile(map[], writes, codec).0, codec))
    requires Views(inMemory, TableReadings(RunTable(map[], writes).0))
    ensures onFile.Valid() && inMemory.Valid()
    ensures forall id :: onFile.Get(id) == inMemory.Get(id)
    ensures Choose(onFile, device, tracked) == Choose(inMemory, device, tracked)
  {
    RunMirrors(map[], map[], writes, codec);
    var d, t := RunFile(map[], writes, codec).0, RunTable(map[], writes).0;
    var readings := TableReadings(t);
    assert FileReadings(d, codec) == readings;
    ChoiceIgnoresOrder(onFile, inMemory, readings, device, tracked);
    forall id ensures onFile.Get(id) == inMemory.Get(id) {
      ViewGets(onFile, readings, id);
      ViewGets(inMemory, readings, id);
    }
  }
}
