/** Which profile an automatic activation picks (src/connection/policy.rs, src/connection/activation.rs). */
module Autoconnect {
  import opened Wrappers
  import opened Profiles

  // --- Profile ids in order ------------------------------------------------------------------

  /** Lexicographic order on ids. */
  predicate AtMost(a: ProfileId, b: ProfileId)
    decreases |a|
  {
    a == [] || (b != [] && (a[0] < b[0] || (a[0] == b[0] && AtMost(a[1..], b[1..]))))
  }

  lemma {:induction false} AtMostTotal(a: ProfileId, b: ProfileId)
    ensures AtMost(a, b) || AtMost(b, a)
    decreases |a|
  {
    if a != [] && b != [] {
      AtMostTotal(a[1..], b[1..]);
    }
  }

  lemma {:induction false} AtMostAntisymmetric(a: ProfileId, b: ProfileId)
    requires AtMost(a, b) && AtMost(b, a)
    ensures a == b
    decreases |a|
  {
    if a != [] && b != [] {
      AtMostAntisymmetric(a[1..], b[1..]);
      assert a == [a[0]] + a[1..] && b == [b[0]] + b[1..];
    }
  }

  lemma {:induction false} AtMostTransitive(a: ProfileId, b: ProfileId, c: ProfileId)
    requires AtMost(a, b) && AtMost(b, c)
    ensures AtMost(a, c)
    decreases |a|
  {
    if a != [] && a[0] == b[0] && b[0] == c[0] {
      AtMostTransitive(a[1..], b[1..], c[1..]);
    }
  }

  // --- Ordering profiles --------------------------------------------------------------------------

  /** Higher priority first, ties broken by ascending id. */
  predicate Before(p: ConnectionProfile, q: ConnectionProfile) {
    p.priority > q.priority || (p.priority == q.priority && AtMost(p.id, q.id))
  }

  lemma BeforeTransitive(p: ConnectionProfile, q: ConnectionProfile, r: ConnectionProfile)
    requires Before(p, q) && Before(q, r)
    ensures Before(p, r)
  {
    if p.priority == q.priority == r.priority {
      AtMostTransitive(p.id, q.id, r.id);
    }
  }

  predicate Candidate(p: ConnectionProfile) {
    p.enabled && p.autoconnect
  }

  function Candidates(profiles: seq<ConnectionProfile>): seq<ConnectionProfile> {
    if profiles == [] then []
    else
      var front := Candidates(profiles[..|profiles| - 1]);
      var last := profiles[|profiles| - 1];
      if Candidate(last) then front + [last] else front
  }

  /** Places a profile after everything that does not come strictly later. */
  function Insert(sorted: seq<ConnectionProfile>, p: ConnectionProfile): seq<ConnectionProfile> {
    if sorted == [] then [p]
    else if Before(sorted[0], p) then [sorted[0]] + Insert(sorted[1..], p)
    else [p] + sorted
  }

  function Sort(profiles: seq<ConnectionProfile>): seq<ConnectionProfile> {
    if profiles == [] then [] else Insert(Sort(profiles[..|profiles| - 1]), profiles[|profiles| - 1])
  }

  predicate Sorted(profiles: seq<ConnectionProfile>) {
    forall i, j :: 0 <= i < j < |profiles| ==> Before(profiles[i], profiles[j])
  }

  lemma {:induction false} InsertKeepsAll(sorted: seq<ConnectionProfile>, p: ConnectionProfile)
    ensures multiset(Insert(sorted, p)) == multiset(sorted) + multiset{p}
    ensures forall q :: q in Insert(sorted, p) <==> q == p || q in sorted
  {
    if sorted != [] {
      assert sorted == [sorted[0]] + sorted[1..];
      InsertKeepsAll(sorted[1..], p);
    }
  }

  lemma SortedCons(p: ConnectionProfile, rest: seq<ConnectionProfile>)
    requires Sorted(rest) && forall q :: q in rest ==> Before(p, q)
    ensures Sorted([p] + rest)
  {
  }

  lemma {:induction false} InsertSorts(sorted: seq<ConnectionProfile>, p: ConnectionProfile)
    requires Sorted(sorted)
    ensures Sorted(Insert(sorted, p))
  {
    if sorted != [] {
      var first, rest := sorted[0], sorted[1..];
      forall q | q in rest ensures Before(first, q) {
      }
      if Before(first, p) {
        InsertSorts(rest, p);
        InsertKeepsAll(rest, p);
        SortedCons(first, Insert(rest, p));
      } else {
        BeforeTotal(first, p);
        forall q | q in sorted ensures Before(p, q) {
          if q != first {
            BeforeTransitive(p, first, q);
          }
        }
        SortedCons(p, sorted);
      }
    }
  }

  lemma BeforeTotal(p: ConnectionProfile, q: ConnectionProfile)
    ensures Before(p, q) || Before(q, p)
  {
    AtMostTotal(p.id, q.id);
  }

  lemma {:induction false} SortSorts(profiles: seq<ConnectionProfile>)
    ensures Sorted(Sort(profiles))
    ensures multiset(Sort(profiles)) == multiset(profiles)
    ensures forall q :: q in Sort(profiles) <==> q in profiles
  {
    if profiles != [] {
      var front, last := profiles[..|profiles| - 1], profiles[|profiles| - 1];
      SortSorts(front);
      InsertKeepsAll(Sort(front), last);
      InsertSorts(Sort(front), last);
      assert profiles == front + [last];
    }
  }

  lemma {:induction false} CandidatesMembers(profiles: seq<ConnectionProfile>)
    ensures forall q :: q in Candidates(profiles) <==> q in profiles && Candidate(q)
  {
    if profiles != [] {
      var front, last := profiles[..|profiles| - 1], profiles[|profiles| - 1];
      CandidatesMembers(front);
      assert profiles == front + [last];
    }
  }

  function Ids(profiles: seq<ConnectionProfile>): seq<ProfileId> {
    seq(|profiles|, i requires 0 <= i < |profiles| => profiles[i].id)
  }

  function Order(profiles: seq<ConnectionProfile>): seq<ProfileId> {
    Ids(Sort(Candidates(profiles)))
  }

  /** Collects the candidates and sorts them. */
  method OrderForAutoconnect(profiles: seq<ConnectionProfile>) returns (order: seq<ProfileId>)
    ensures order == Order(profiles)
    ensures |order| == |Candidates(profiles)|
    ensures exists sorted :: Sorted(sorted) && multiset(sorted) == multiset(Candidates(profiles))
                             && order == Ids(sorted)
  {
    var candidates: seq<ConnectionProfile> := [];
    for i := 0 to |profiles|
      invariant candidates == Candidates(profiles[..i])
    {
      assert profiles[..i + 1][..i] == profiles[..i];
      if profiles[i].enabled && profiles[i].autoconnect {
        candidates := candidates + [profiles[i]];
      }
    }
    assert profiles[..|profiles|] == profiles;
    var sorted: seq<ConnectionProfile> := [];
    for i := 0 to |candidates|
      invariant sorted == Sort(candidates[..i])
    {
      assert candidates[..i + 1][..i] == candidates[..i];
      sorted := Insert(sorted, candidates[i]);
    }
    assert candidates[..|candidates|] == candidates;
    SortSorts(candidates);
    assert |multiset(sorted)| == |multiset(candidates)|;
    order := Ids(sorted);
  }

  // --- Stores ---------------------------------------------------------------------------------------

  datatype StoreError =
    | NotFound | AlreadyExists | Invalid(reason: ValidationError) | Malformed(id: ProfileId) | IoFailed

  /** A profile store as its readers see it: ids in order, each with its profile or the error that
      reading it gives. */
  datatype Store = Store(entries: seq<(ProfileId, Result<ConnectionProfile, StoreError>)>) {

    /** Ids are distinct, and a stored profile carries the id it is stored under. */
    ghost predicate Valid() {
      && (forall i, j :: 0 <= i < j < |entries| ==> entries[i].0 != entries[j].0)
      && (forall i :: 0 <= i < |entries| && entries[i].1.Success? ==> entries[i].1.value.id == entries[i].0)
    }

    function List(): Result<seq<ConnectionProfile>, StoreError> {
      ListFrom(entries)
    }

    function Get(id: ProfileId): Result<ConnectionProfile, StoreError> {
      GetFrom(entries, id)
    }
  }

  function ListFrom(entries: seq<(ProfileId, Result<ConnectionProfile, StoreError>)>):
    Result<seq<ConnectionProfile>, StoreError>
  {
    if entries == [] then Success([])
    else
      var first :- entries[0].1;
      var rest :- ListFrom(entries[1..]);
      Success([first] + rest)
  }

  function GetFrom(entries: seq<(ProfileId, Result<ConnectionProfile, StoreError>)>, id: ProfileId):
    Result<ConnectionProfile, StoreError>
  {
    if entries == [] then Failure(NotFound)
    else if entries[0].0 == id then entries[0].1
    else GetFrom(entries[1..], id)
  }

  lemma {:induction false} GetFindsListed(store: Store, p: ConnectionProfile)
    requires store.Valid() && store.List().Success?
    ensures p in store.List().value <==> store.Get(p.id) == Success(p)
    decreases |store.entries|
  {
    if store.entries != [] {
      var rest := Store(store.entries[1..]);
      assert rest.Valid();
      GetFindsListed(rest, p);
      if store.entries[0].0 == p.id && p in rest.List().value {
        assert rest.Get(p.id).Success?;
        GetFindsEntry(rest.entries, p.id);
      }
    }
  }

  lemma {:induction false} GetFindsEntry(
      entries: seq<(ProfileId, Result<ConnectionProfile, StoreError>)>, id: ProfileId)
    requires GetFrom(entries, id).Success?
    ensures exists i :: 0 <= i < |entries| && entries[i].0 == id && entries[i].1 == GetFrom(entries, id)
  {
    if entries[0].0 != id {
      GetFindsEntry(entries[1..], id);
      var i :| 0 <= i < |entries[1..]| && entries[1..][i].0 == id && entries[1..][i].1 == GetFrom(entries, id);
      assert entries[i + 1].0 == id;
    }
  }

  lemma GetReturnsItsId(store: Store, id: ProfileId)
    requires store.Valid() && store.Get(id).Success?
    ensures store.Get(id).value.id == id
  {
    GetFindsEntry(store.entries, id);
  }

  // --- Choosing ------------------------------------------------------------------------------------------

  predicate Suitable(p: ConnectionProfile, device: DeviceInfo, tracked: set<ProfileId>) {
    Matches(p, device) && p.id !in tracked
  }

  /** The first id whose profile can still be read, fits the device and is not tracked. */
  function FirstSuitable(order: seq<ProfileId>, store: Store, device: DeviceInfo, tracked: set<ProfileId>):
    Option<ConnectionProfile>
  {
    if order == [] then None
    else
      var found := store.Get(order[0]);
      if found.Success? && Suitable(found.value, device, tracked) then Some(found.value)
      else FirstSuitable(order[1..], store, device, tracked)
  }

  function Choose(
      store: Store, device: DeviceInfo, tracked: set<ProfileId>): Result<Option<ConnectionProfile>, StoreError> {
    var profiles :- store.List();
    Success(FirstSuitable(Order(profiles), store, device, tracked))
  }

  ghost predicate Eligible(p: ConnectionProfile, store: Store, device: DeviceInfo, tracked: set<ProfileId>) {
    store.Get(p.id) == Success(p) && Candidate(p) && Suitable(p, device, tracked)
  }

  lemma {:induction false} FirstSuitableInOrder(
      sorted: seq<ConnectionProfile>, store: Store, device: DeviceInfo, tracked: set<ProfileId>)
    requires forall i :: 0 <= i < |sorted| ==> store.Get(sorted[i].id) == Success(sorted[i])
    ensures var found := FirstSuitable(Ids(sorted), store, device, tracked);
            && (found.None? ==> forall q :: q in sorted ==> !Suitable(q, device, tracked))
            && (found.Some? ==> exists i :: 0 <= i < |sorted| && sorted[i] == found.value
                                  && Suitable(found.value, device, tracked)
                                  && forall j :: 0 <= j < i ==> !Suitable(sorted[j], device, tracked))
  {
    if sorted != [] {
      assert Ids(sorted)[1..] == Ids(sorted[1..]);
      assert sorted == [sorted[0]] + sorted[1..];
      FirstSuitableInOrder(sorted[1..], store, device, tracked);
      var found := FirstSuitable(Ids(sorted), store, device, tracked);
      if Suitable(sorted[0], device, tracked) {
        assert sorted[0] == found.value;
      } else if found.Some? {
        var i :| 0 <= i < |sorted[1..]| && sorted[1..][i] == found.value
          && forall j :: 0 <= j < i ==> !Suitable(sorted[1..][j], device, tracked);
        assert sorted[i + 1] == found.value;
        forall j | 0 <= j < i + 1 ensures !Suitable(sorted[j], device, tracked) {
          if j > 0 {
            assert sorted[j] == sorted[1..][j - 1];
          }
        }
      }
    }
  }

  /** The ordered candidates are exactly the enabled autoconnect profiles that the store holds. */
  lemma OrderedCandidates(store: Store)
    requires store.Valid() && store.List().Success?
    ensures var sorted := Sort(Candidates(store.List().value));
            && Sorted(sorted)
            && (forall q :: q in sorted <==> store.Get(q.id) == Success(q) && Candidate(q))
  {
    var profiles := store.List().value;
    var sorted := Sort(Candidates(profiles));
    CandidatesMembers(profiles);
    SortSorts(Candidates(profiles));
    forall q ensures q in sorted <==> store.Get(q.id) == Success(q) && Candidate(q) {
      GetFindsListed(store, q);
    }
  }

  ghost predicate Best(p: ConnectionProfile, store: Store, device: DeviceInfo, tracked: set<ProfileId>) {
    && Eligible(p, store, device, tracked)
    && (forall q :: Eligible(q, store, device, tracked) ==> q == p || (Before(p, q) && !Before(q, p)))
  }

  lemma EligibleTiesAreEqual(
      p: ConnectionProfile, q: ConnectionProfile, store: Store, device: DeviceInfo, tracked: set<ProfileId>)
    requires Eligible(p, store, device, tracked) && Eligible(q, store, device, tracked)
    requires Before(p, q) && Before(q, p)
    ensures p == q
  {
    AtMostAntisymmetric(p.id, q.id);
  }

  /** The first suitable profile of the order comes strictly before any other eligible one. */
  lemma FirstBeatsOthers(
      sorted: seq<ConnectionProfile>, i: nat, q: ConnectionProfile,
      store: Store, device: DeviceInfo, tracked: set<ProfileId>)
    requires Sorted(sorted) && i < |sorted| && q in sorted && q != sorted[i]
    requires Eligible(sorted[i], store, device, tracked) && Eligible(q, store, device, tracked)
    requires forall j :: 0 <= j < i ==> !Suitable(sorted[j], device, tracked)
    ensures Before(sorted[i], q) && !Before(q, sorted[i])
  {
    var k :| 0 <= k < |sorted| && sorted[k] == q;
    assert i < k;
    if Before(q, sorted[i]) {
      EligibleTiesAreEqual(sorted[i], q, store, device, tracked);
    }
  }

  /** What is found is the best, and if nothing is found nothing is eligible. */
  lemma FoundIsBest(store: Store, device: DeviceInfo, tracked: set<ProfileId>)
    requires store.Valid() && store.List().Success?
    ensures var choice := Choose(store, device, tracked).value;
            if choice.Some? then Best(choice.value, store, device, tracked)
            else forall q :: !Eligible(q, store, device, tracked)
  {
    var sorted := Sort(Candidates(store.List().value));
    OrderedCandidates(store);
    FirstSuitableInOrder(sorted, store, device, tracked);
    var choice := Choose(store, device, tracked).value;
    if choice.Some? {
      var i :| 0 <= i < |sorted| && sorted[i] == choice.value && Suitable(choice.value, device, tracked)
        && forall j :: 0 <= j < i ==> !Suitable(sorted[j], device, tracked);
      assert sorted[i] in sorted;
      forall q | Eligible(q, store, device, tracked) && q != sorted[i]
        ensures Before(sorted[i], q) && !Before(q, sorted[i])
      {
        FirstBeatsOthers(sorted, i, q, store, device, tracked);
      }
    }
  }

  /** Automatic activation picks the unique best profile among all enabled, autoconnect, matching
      and untracked ones, and finds none exactly when there are none. */
  lemma ChoosesTheBest(store: Store, device: DeviceInfo, tracked: set<ProfileId>, p: ConnectionProfile)
    requires store.Valid() && store.List().Success?
    ensures Choose(store, device, tracked) == Success(Some(p)) <==> Best(p, store, device, tracked)
    ensures Choose(store, device, tracked) == Success(None)
            <==> (forall q :: !Eligible(q, store, device, tracked))
  {
    FoundIsBest(store, device, tracked);
    var choice := Choose(store, device, tracked).value;
    if choice.Some? && Best(p, store, device, tracked) && p != choice.value {
      assert false;
    }
  }

  // --- The same in plain terms ------------------------------------------------------------------------------

  /** Strictly smaller: a proper prefix, or the smaller character where the two first differ. */
  ghost predicate Smaller(a: string, b: string) {
    || (|a| < |b| && a == b[..|a|])
    || (exists i :: 0 <= i < |a| && i < |b| && a[..i] == b[..i] && a[i] < b[i])
  }

  lemma {:induction false} SmallerIsStrict(a: string, b: string)
    ensures Smaller(a, b) <==> AtMost(a, b) && a != b
    decreases |a|
  {
    if a != [] && b != [] {
      SmallerIsStrict(a[1..], b[1..]);
      assert a == [a[0]] + a[1..] && b == [b[0]] + b[1..];
      if a[0] == b[0] {
        SmallerTail(a, b);
      } else if a[0] < b[0] {
        assert a[..0] == b[..0];
      }
    }
  }

  /** With equal first characters, the rest decides. */
  lemma SmallerTail(a: string, b: string)
    requires a != [] && b != [] && a[0] == b[0]
    ensures Smaller(a, b) <==> Smaller(a[1..], b[1..])
  {
    var s, t := a[1..], b[1..];
    forall i | 0 <= i < |s| && i < |t| ensures s[..i] == t[..i] <==> a[..i + 1] == b[..i + 1] {
      assert a[..i + 1] == [a[0]] + s[..i] && b[..i + 1] == [b[0]] + t[..i];
      assert a[..i + 1][1..] == s[..i] && b[..i + 1][1..] == t[..i];
    }
    if |a| <= |b| {
      assert a == [a[0]] + s && b[..|a|] == [b[0]] + t[..|s|];
      assert b[..|a|][1..] == t[..|s|];
    }
    if i :| 0 <= i < |s| && i < |t| && s[..i] == t[..i] && s[i] < t[i] {
      assert a[i + 1] < b[i + 1];
    }
    if i :| 0 <= i < |a| && i < |b| && a[..i] == b[..i] && a[i] < b[i] {
      assert s[i - 1] < t[i - 1];
    }
  }

  /** What makes a profile a candidate for a device. */
  ghost predicate Usable(p: ConnectionProfile, store: Store, device: DeviceInfo, tracked: set<ProfileId>) {
    && store.Get(p.id) == Success(p) && p.enabled && p.autoconnect && p.id !in tracked
    && (match p.connectionType
        case Wifi(_) => device.kind.WifiDevice?
        case Ethernet(_) => device.kind.EthernetDevice?)
    && (p.deviceMatch.interfaceName.None? || p.deviceMatch.interfaceName == Some(device.interfaceName))
    && (p.deviceMatch.macAddress.None? || p.deviceMatch.macAddress == device.macAddress)
  }

  /** A higher priority wins, and at the same priority the smaller id. */
  ghost predicate Wins(p: ConnectionProfile, q: ConnectionProfile) {
    q.priority < p.priority || (q.priority == p.priority && Smaller(p.id, q.id))
  }

  ghost predicate WinsOrTies(p: ConnectionProfile, q: ConnectionProfile) {
    Wins(p, q) || (p.id == q.id && p.priority == q.priority)
  }

  lemma WinsIsBefore(p: ConnectionProfile, q: ConnectionProfile)
    requires p.id != q.id
    ensures Wins(p, q) <==> Before(p, q) && !Before(q, p)
    ensures Wins(p, q) <==> Before(p, q)
  {
    SmallerIsStrict(p.id, q.id);
    if AtMost(p.id, q.id) && AtMost(q.id, p.id) {
      AtMostAntisymmetric(p.id, q.id);
    }
  }

  /** Automatic activation picks `p` if and only if `p` is usable and wins over every other usable profile, and
      it picks none if and only if none is usable. */
  lemma ChoosesTheWinner(store: Store, device: DeviceInfo, tracked: set<ProfileId>, p: ConnectionProfile)
    requires store.Valid() && store.List().Success?
    ensures Choose(store, device, tracked) == Success(Some(p))
            <==> && Usable(p, store, device, tracked)
                 && (forall q :: Usable(q, store, device, tracked) && q != p ==> Wins(p, q))
    ensures Choose(store, device, tracked) == Success(None) <==> (forall q :: !Usable(q, store, device, tracked))
  {
    ChoosesTheBest(store, device, tracked, p);
    forall q ensures Eligible(q, store, device, tracked) <==> Usable(q, store, device, tracked) {
    }
    forall q | Usable(p, store, device, tracked) && Usable(q, store, device, tracked) && q != p
      ensures Wins(p, q) <==> Before(p, q) && !Before(q, p)
    {
      assert p.id != q.id;
      WinsIsBefore(p, q);
    }
  }

  lemma {:induction false} CandidatesAreFiltered(profiles: seq<ConnectionProfile>, q: ConnectionProfile)
    ensures multiset(Candidates(profiles))[q] == if q.enabled && q.autoconnect then multiset(profiles)[q] else 0
  {
    if profiles != [] {
      var front, last := profiles[..|profiles| - 1], profiles[|profiles| - 1];
      CandidatesAreFiltered(front, q);
      assert profiles == front + [last];
    }
  }

  /** The order is the list of ids of the enabled autoconnect profiles, each as often as it was given, sorted by
      falling priority and then by rising id. */
  lemma OrderIsByPriorityThenId(profiles: seq<ConnectionProfile>) returns (sorted: seq<ConnectionProfile>)
    ensures |Order(profiles)| == |sorted| && forall i :: 0 <= i < |sorted| ==> Order(profiles)[i] == sorted[i].id
    ensures forall q :: multiset(sorted)[q] == if q.enabled && q.autoconnect then multiset(profiles)[q] else 0
    ensures forall i, j :: 0 <= i < j < |sorted| ==> WinsOrTies(sorted[i], sorted[j])
  {
    sorted := Sort(Candidates(profiles));
    SortSorts(Candidates(profiles));
    forall q ensures multiset(sorted)[q] == if q.enabled && q.autoconnect then multiset(profiles)[q] else 0 {
      CandidatesAreFiltered(profiles, q);
    }
    forall i, j | 0 <= i < j < |sorted|
      ensures WinsOrTies(sorted[i], sorted[j])
    {
      assert Before(sorted[i], sorted[j]);
      if sorted[i].id != sorted[j].id {
        WinsIsBefore(sorted[i], sorted[j]);
      }
    }
  }
}
