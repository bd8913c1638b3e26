/**
 * The state of `SubmissionStore` (app/store/__init__.py) as a value, and what
 * each of its operations does to it. The class in module Store is proved to
 * follow these functions; the lemmas here state what the store promises.
 */
module StoreModel {
  import opened Wrappers
  import opened Normalize
  import opened Submissions

  /**
   * A dedup key: its prefix (`name:` or `rg:`) and the normalised string that
   * the source digests with SHA-256. Constructors are injective, so two keys
   * are equal exactly when prefix and normalised string agree.
   */
  datatype DedupKey = NameKey(name: string) | RgKey(digits: string)

  /** `_dedup_keys`: a name key when the normalised name is non-empty, then an RG key when the RG is given and has digits. */
  function DedupKeys(s: Submission): (r: seq<DedupKey>)
    ensures forall n :: NameKey(n) in r <==> n == NormalizeName(s.guestName) && n != ""
    ensures forall g :: RgKey(g) in r <==> Truthy(s.rg) && g == NormalizeRg(s.rg.value) && g != ""
    ensures |r| <= 2
  {
    var n := NormalizeName(s.guestName);
    (if n != "" then [NameKey(n)] else [])
    + (if Truthy(s.rg) && NormalizeRg(s.rg.value) != "" then [RgKey(NormalizeRg(s.rg.value))] else [])
  }

  /** The keys of `DedupKeys(s)` as a set. */
  function KeySet(s: Submission): set<DedupKey> {
    set k | k in DedupKeys(s)
  }

  /** `_store`, `_dashboard_index` and `_dedup_index`. */
  datatype StoreState = StoreState(
    byId: map<string, Submission>,
    index: map<int, seq<string>>,
    dedup: map<int, set<DedupKey>>)

  /** The state of a freshly constructed store. */
  function Empty(): StoreState {
    StoreState(map[], map[], map[])
  }

  /** `_dashboard_index.get(d, [])`. */
  function Indexed(st: StoreState, d: int): seq<string> {
    if d in st.index then st.index[d] else []
  }

  /** `_dedup_index.get(d, set())`. */
  function Seen(st: StoreState, d: int): set<DedupKey> {
    if d in st.dedup then st.dedup[d] else {}
  }

  /**
   * What the store keeps true between operations: each submission is filed
   * under its own id, is indexed under its own dashboard, and its dedup keys
   * are registered for that dashboard.
   */
  ghost predicate Inv(st: StoreState) {
    forall id :: id in st.byId ==>
      && st.byId[id].submissionId == id
      && id in Indexed(st, st.byId[id].dashboardId)
      && KeySet(st.byId[id]) <= Seen(st, st.byId[id].dashboardId)
  }

  /** No index entry points at a stored submission of another dashboard (true unless an id is re-added under a new dashboard). */
  ghost predicate NoStaleIndex(st: StoreState) {
    forall d, id :: d in st.index && id in st.index[d] && id in st.byId ==> st.byId[id].dashboardId == d
  }

  /** `get(id)`. */
  function Get(st: StoreState, id: string): Option<Submission> {
    if id in st.byId then Some(st.byId[id]) else None
  }

  /** `is_duplicate(s)`: some key of `s` is already registered for its dashboard. */
  predicate IsDuplicate(st: StoreState, s: Submission) {
    exists k :: k in DedupKeys(s) && k in Seen(st, s.dashboardId)
  }

  /** `[m[sid] for sid in ids if sid in m]`. */
  function Present(m: map<string, Submission>, ids: seq<string>): seq<Submission> {
    if ids == [] then []
    else
      var last := ids[|ids| - 1];
      Present(m, ids[..|ids| - 1]) + (if last in m then [m[last]] else [])
  }

  /** `[sid for sid in ids if sid in m]`. */
  function LiveIds(m: map<string, Submission>, ids: seq<string>): seq<string> {
    if ids == [] then []
    else
      var last := ids[|ids| - 1];
      LiveIds(m, ids[..|ids| - 1]) + (if last in m then [last] else [])
  }

  /** `list_for_dashboard(d)`. */
  function ListFor(st: StoreState, d: int): seq<Submission> {
    Present(st.byId, Indexed(st, d))
  }

  /** `count_for_dashboard(d)`. */
  function CountFor(st: StoreState, d: int): nat {
    |LiveIds(st.byId, Indexed(st, d))|
  }

  /** `ids.remove(x)`: the first occurrence of `x` taken out, the list unchanged when there is none. */
  function RemoveFirst(s: seq<string>, x: string): (r: seq<string>)
    ensures x !in s ==> r == s
    ensures x in s ==> |r| == |s| - 1
    ensures multiset(r) == multiset(s) - multiset{x}
  {
    if s == [] then []
    else if s[0] == x then
      assert s == [x] + s[1..];
      s[1..]
    else
      assert s == [s[0]] + s[1..];
      [s[0]] + RemoveFirst(s[1..], x)
  }

  /** `list.remove` takes out the first occurrence and keeps the order of everything else. */
  lemma {:induction false} RemoveFirstOrder(s: seq<string>, x: string) returns (i: nat)
    requires x in s
    ensures i < |s| && s[i] == x && x !in s[..i]
    ensures RemoveFirst(s, x) == s[..i] + s[i + 1..]
  {
    if s[0] == x {
      i := 0;
      assert s[..0] + s[1..] == s[1..];
    } else {
      var k := RemoveFirstOrder(s[1..], x);
      i := k + 1;
      RemoveFirstStep(s, x, k);
    }
  }

  /** One step of `RemoveFirstOrder`: a first element other than `x` stays in front. */
  lemma RemoveFirstStep(s: seq<string>, x: string, k: nat)
    requires s != [] && s[0] != x && k < |s| - 1
    requires s[1..][k] == x && x !in s[1..][..k]
    requires RemoveFirst(s[1..], x) == s[1..][..k] + s[1..][k + 1..]
    ensures s[k + 1] == x && x !in s[..k + 1]
    ensures RemoveFirst(s, x) == s[..k + 1] + s[k + 2..]
  {
    assert RemoveFirst(s, x) == [s[0]] + RemoveFirst(s[1..], x);
    SpliceCons(s, k);
  }

  /** Removing position `k + 1` of `s` is keeping `s[0]` and removing position `k` of the tail. */
  lemma SpliceCons(s: seq<string>, k: nat)
    requires k < |s| - 1
    ensures [s[0]] + (s[1..][..k] + s[1..][k + 1..]) == s[..k + 1] + s[k + 2..]
    ensures s[..k + 1] == [s[0]] + s[1..][..k]
  {
    assert s[..k + 1] == [s[0]] + s[1..][..k];
    assert s[k + 2..] == s[1..][k + 1..];
  }

  /** `add(s)`: store under its id, append the id to its dashboard's index, register its keys. */
  function Added(st: StoreState, s: Submission): StoreState {
    StoreState(
      st.byId[s.submissionId := s],
      st.index[s.dashboardId := Indexed(st, s.dashboardId) + [s.submissionId]],
      st.dedup[s.dashboardId := Seen(st, s.dashboardId) + KeySet(s)])
  }

  /** `delete(id)`: drop the submission and one index entry of it; the dedup sets stay. */
  function Deleted(st: StoreState, id: string): StoreState {
    if id !in st.byId then st
    else
      var d := st.byId[id].dashboardId;
      StoreState(
        st.byId - {id},
        if d in st.index then st.index[d := RemoveFirst(st.index[d], id)] else st.index,
        st.dedup)
  }

  /** The ids indexed under any dashboard of `ds`. */
  function IndexedUnder(st: StoreState, ds: set<int>): set<string> {
    set d, id | d in ds && d in st.index && id in st.index[d] :: id
  }

  /** `purge_dashboard(d)`: drop every id indexed under `d`, then `d`'s index and dedup set. */
  function Purged(st: StoreState, d: int): StoreState {
    StoreState(st.byId - (set id | id in Indexed(st, d)), st.index - {d}, st.dedup - {d})
  }

  /** Every dashboard of `ds` purged (in any order, see PurgedThenPurged). */
  function PurgedAll(st: StoreState, ds: set<int>): StoreState {
    StoreState(st.byId - IndexedUnder(st, ds), st.index - ds, st.dedup - ds)
  }

  // ---------------------------------------------------------------------------
  // Keys and duplicates

  /** Duplicate detection is name-OR-RG: a submission is a duplicate iff its normalised name or its normalised RG was seen. */
  lemma DuplicateByIdentity(st: StoreState, s: Submission)
    ensures IsDuplicate(st, s) <==>
      || (NormalizeName(s.guestName) != "" && NameKey(NormalizeName(s.guestName)) in Seen(st, s.dashboardId))
      || (Truthy(s.rg) && NormalizeRg(s.rg.value) != "" && RgKey(NormalizeRg(s.rg.value)) in Seen(st, s.dashboardId))
  {
    var n := NormalizeName(s.guestName);
    if n != "" && NameKey(n) in Seen(st, s.dashboardId) {
      assert NameKey(n) in DedupKeys(s);
    }
    if Truthy(s.rg) && NormalizeRg(s.rg.value) != "" && RgKey(NormalizeRg(s.rg.value)) in Seen(st, s.dashboardId) {
      assert RgKey(NormalizeRg(s.rg.value)) in DedupKeys(s);
    }
  }

  /** A submission without a usable name or RG is never a duplicate, whatever the store holds. */
  lemma NoKeysNeverDuplicate(st: StoreState, s: Submission)
    requires NormalizeName(s.guestName) == ""
    requires !Truthy(s.rg) || NormalizeRg(s.rg.value) == ""
    ensures DedupKeys(s) == []
    ensures !IsDuplicate(st, s)
  {
  }

  /** Once `s1` is added, any later submission to the same dashboard with the same normalised name, or the same normalised RG, is a duplicate. */
  lemma AddedMakesDuplicate(st: StoreState, s1: Submission, s2: Submission)
    requires s1.dashboardId == s2.dashboardId
    requires || (NormalizeName(s1.guestName) == NormalizeName(s2.guestName) != "")
             || (Truthy(s1.rg) && Truthy(s2.rg) && NormalizeRg(s1.rg.value) == NormalizeRg(s2.rg.value) != "")
    ensures IsDuplicate(Added(st, s1), s2)
  {
    var after := Added(st, s1);
    if NormalizeName(s1.guestName) == NormalizeName(s2.guestName) != "" {
      var k := NameKey(NormalizeName(s2.guestName));
      assert k in DedupKeys(s1) && k in DedupKeys(s2);
      assert k in Seen(after, s2.dashboardId);
    } else {
      var k := RgKey(NormalizeRg(s2.rg.value));
      assert k in DedupKeys(s1) && k in DedupKeys(s2);
      assert k in Seen(after, s2.dashboardId);
    }
  }

  // ---------------------------------------------------------------------------
  // Reads

  /** The listing holds exactly the indexed ids still stored, in index order, and the count is its length. */
  lemma {:induction false} PresentIsLiveIds(m: map<string, Submission>, ids: seq<string>)
    ensures |Present(m, ids)| == |LiveIds(m, ids)|
    ensures forall i :: 0 <= i < |Present(m, ids)| ==> LiveIds(m, ids)[i] in m && Present(m, ids)[i] == m[LiveIds(m, ids)[i]]
  {
    if ids != [] {
      PresentIsLiveIds(m, ids[..|ids| - 1]);
    }
  }

  /** `count_for_dashboard` agrees with the length of `list_for_dashboard`. */
  lemma CountIsListLength(st: StoreState, d: int)
    ensures CountFor(st, d) == |ListFor(st, d)|
  {
    PresentIsLiveIds(st.byId, Indexed(st, d));
  }

  /** The live ids are the indexed ids that are stored, in index order. */
  lemma {:induction false} LiveIdsMembers(m: map<string, Submission>, ids: seq<string>)
    ensures forall id :: id in LiveIds(m, ids) <==> id in ids && id in m
  {
    if ids != [] {
      LiveIdsMembers(m, ids[..|ids| - 1]);
      assert ids == ids[..|ids| - 1] + [ids[|ids| - 1]];
    }
  }

  /** Every stored submission of dashboard `d` is in `list_for_dashboard(d)`. */
  lemma StoredIsListed(st: StoreState, id: string)
    requires Inv(st) && id in st.byId
    ensures st.byId[id] in ListFor(st, st.byId[id].dashboardId)
  {
    var d := st.byId[id].dashboardId;
    LiveIdsMembers(st.byId, Indexed(st, d));
    PresentIsLiveIds(st.byId, Indexed(st, d));
    var live := LiveIds(st.byId, Indexed(st, d));
    var i :| 0 <= i < |live| && live[i] == id;
    assert ListFor(st, d)[i] == st.byId[id];
  }

  /** Every submission listed for a dashboard is stored under its own id. */
  lemma ListedAreStored(st: StoreState, d: int, i: nat)
    requires Inv(st) && i < |ListFor(st, d)|
    ensures ListFor(st, d)[i].submissionId in st.byId
    ensures st.byId[ListFor(st, d)[i].submissionId] == ListFor(st, d)[i]
  {
    PresentIsLiveIds(st.byId, Indexed(st, d));
  }

  // ---------------------------------------------------------------------------
  // add

  /** After `add(s)`: `get` returns `s`, its id ends its dashboard's index, its keys are registered, and nothing else is touched. */
  lemma AddedFacts(st: StoreState, s: Submission)
    ensures Get(Added(st, s), s.submissionId) == Some(s)
    ensures var ids := Indexed(Added(st, s), s.dashboardId); |ids| > 0 && ids[|ids| - 1] == s.submissionId
    ensures KeySet(s) <= Seen(Added(st, s), s.dashboardId)
    ensures Seen(st, s.dashboardId) <= Seen(Added(st, s), s.dashboardId)
    ensures forall e :: e != s.dashboardId ==> Indexed(Added(st, s), e) == Indexed(st, e) && Seen(Added(st, s), e) == Seen(st, e)
  {
  }

  /** Adding a submission under an id never used before lists it once, at the end of its dashboard's listing. */
  lemma AddedListsOnceMore(st: StoreState, s: Submission)
    requires s.submissionId !in st.byId && s.submissionId !in Indexed(st, s.dashboardId)
    ensures ListFor(Added(st, s), s.dashboardId) == ListFor(st, s.dashboardId) + [s]
  {
    var ids := Indexed(st, s.dashboardId);
    var after := Added(st, s);
    var ids' := Indexed(after, s.dashboardId);
    assert ids' == ids + [s.submissionId];
    assert ids'[..|ids'| - 1] == ids;
    assert Present(after.byId, ids') == Present(after.byId, ids) + [s];
    PresentAgree(st.byId, after.byId, ids);
  }

  /** Two maps that agree on the ids they hold among `ids` give the same listing. */
  lemma {:induction false} PresentAgree(m: map<string, Submission>, m': map<string, Submission>, ids: seq<string>)
    requires forall id :: id in ids ==> (id in m <==> id in m') && (id in m ==> m[id] == m'[id])
    ensures Present(m, ids) == Present(m', ids)
  {
    if ids != [] {
      assert forall id :: id in ids[..|ids| - 1] ==> id in ids;
      PresentAgree(m, m', ids[..|ids| - 1]);
    }
  }

  /** `add` keeps the invariant. */
  lemma AddedInv(st: StoreState, s: Submission)
    requires Inv(st)
    ensures Inv(Added(st, s))
  {
    var after := Added(st, s);
    forall id | id in after.byId
      ensures after.byId[id].submissionId == id || id == s.submissionId
      ensures id in Indexed(after, after.byId[id].dashboardId)
      ensures KeySet(after.byId[id]) <= Seen(after, after.byId[id].dashboardId)
    {
      if id != s.submissionId {
        var e := st.byId[id].dashboardId;
        assert id in Indexed(st, e) && KeySet(st.byId[id]) <= Seen(st, e);
      }
    }
  }

  // ---------------------------------------------------------------------------
  // delete

  /** `delete` of an unknown id changes nothing. */
  lemma DeletedUnknown(st: StoreState, id: string)
    requires Get(st, id) == None
    ensures Deleted(st, id) == st
  {
  }

  /** `delete` leaves every dedup set, and so every `is_duplicate` answer, as it was. */
  lemma DeletedKeepsDedup(st: StoreState, id: string, s: Submission)
    ensures Deleted(st, id).dedup == st.dedup
    ensures IsDuplicate(Deleted(st, id), s) == IsDuplicate(st, s)
  {
  }

  /** After `delete(id)` the submission is gone from `get` and from every listing, and one index entry of it is removed. */
  lemma DeletedIsGone(st: StoreState, id: string, d: int)
    requires Inv(st)
    ensures Get(Deleted(st, id), id) == None
    ensures forall x :: x in ListFor(Deleted(st, id), d) ==> x.submissionId != id
    ensures id in st.byId ==>
      Indexed(Deleted(st, id), st.byId[id].dashboardId) == RemoveFirst(Indexed(st, st.byId[id].dashboardId), id)
  {
    var after := Deleted(st, id);
    DeletedInv(st, id);
    forall x | x in ListFor(after, d) ensures x.submissionId != id {
      var i :| 0 <= i < |ListFor(after, d)| && ListFor(after, d)[i] == x;
      ListedAreStored(after, d, i);
    }
  }

  /** The strings other than `x` survive `remove(x)`. */
  lemma {:induction false} RemoveFirstKeepsOthers(s: seq<string>, x: string, y: string)
    requires y in s && y != x
    ensures y in RemoveFirst(s, x)
  {
    if s[0] != x && s[0] != y {
      RemoveFirstKeepsOthers(s[1..], x, y);
    }
  }

  /** `delete` keeps the invariant. */
  lemma DeletedInv(st: StoreState, id: string)
    requires Inv(st)
    ensures Inv(Deleted(st, id))
  {
    if id in st.byId {
      var after := Deleted(st, id);
      forall other | other in after.byId
        ensures other in Indexed(after, after.byId[other].dashboardId)
      {
        var e := st.byId[other].dashboardId;
        assert other in Indexed(st, e);
        if e == st.byId[id].dashboardId {
          RemoveFirstKeepsOthers(st.index[e], id, other);
        }
      }
    }
  }

  // ---------------------------------------------------------------------------
  // purge_dashboard

  /** After `purge_dashboard(d)`: nothing is listed for `d`, nothing is a duplicate for `d`, every id indexed under `d` is gone, and other dashboards keep their index and dedup entries. */
  lemma PurgedFacts(st: StoreState, d: int)
    ensures ListFor(Purged(st, d), d) == [] && CountFor(Purged(st, d), d) == 0
    ensures forall s: Submission :: s.dashboardId == d ==> !IsDuplicate(Purged(st, d), s)
    ensures forall id :: id in Indexed(st, d) ==> Get(Purged(st, d), id) == None
    ensures forall e :: e != d ==> Indexed(Purged(st, d), e) == Indexed(st, e) && Seen(Purged(st, d), e) == Seen(st, e)
  {
  }

  /** After `purge_dashboard(d)` no stored submission belongs to `d`. */
  lemma PurgedRemovesDashboard(st: StoreState, d: int)
    requires Inv(st)
    ensures forall id :: id in Purged(st, d).byId ==> Purged(st, d).byId[id].dashboardId != d
  {
  }

  /** A second `purge_dashboard(d)` is a no-op. */
  lemma PurgedIdempotent(st: StoreState, d: int)
    ensures Purged(Purged(st, d), d) == Purged(st, d)
  {
    assert (set id | id in Indexed(Purged(st, d), d)) == {};
  }

  /** `purge_dashboard` keeps the invariant. */
  lemma PurgedInv(st: StoreState, d: int)
    requires Inv(st)
    ensures Inv(Purged(st, d))
  {
    forall id | id in Purged(st, d).byId {
      PurgedKeepsEntry(st, d, id);
    }
  }

  /** A submission that survives `purge_dashboard(d)` belongs to another dashboard, whose entries are untouched. */
  lemma PurgedKeepsEntry(st: StoreState, d: int, id: string)
    requires Inv(st) && id in Purged(st, d).byId
    ensures var s := Purged(st, d).byId[id];
      s == st.byId[id] && s.dashboardId != d
      && Indexed(Purged(st, d), s.dashboardId) == Indexed(st, s.dashboardId)
      && Seen(Purged(st, d), s.dashboardId) == Seen(st, s.dashboardId)
  {
    var gone := set x | x in Indexed(st, d);
    assert id in st.byId && id !in gone;
    var e := st.byId[id].dashboardId;
    assert id in Indexed(st, e);
    assert e != d;
    var after := Purged(st, d);
    assert e in after.index <==> e in st.index;
    assert e in after.index ==> after.index[e] == st.index[e];
    assert e in after.dedup <==> e in st.dedup;
    assert e in after.dedup ==> after.dedup[e] == st.dedup[e];
  }

  /** Purging one more dashboard after a set of them is purging the larger set. */
  lemma PurgedThenPurged(st: StoreState, ds: set<int>, d: int)
    ensures Purged(PurgedAll(st, ds), d) == PurgedAll(st, ds + {d})
  {
    var mid := PurgedAll(st, ds);
    assert (set id | id in Indexed(mid, d)) + IndexedUnder(st, ds) == IndexedUnder(st, ds + {d}) by {
      if d in ds {
        assert Indexed(mid, d) == [];
      } else {
        assert Indexed(mid, d) == Indexed(st, d);
      }
    }
  }

  /** Purging nothing changes nothing. */
  lemma PurgedNone(st: StoreState)
    ensures PurgedAll(st, {}) == st
  {
    assert IndexedUnder(st, {}) == {};
  }

  /** Purging two sets of dashboards one after the other purges their union. */
  lemma PurgedAllTwice(st: StoreState, a: set<int>, b: set<int>)
    ensures PurgedAll(PurgedAll(st, a), b) == PurgedAll(st, a + b)
  {
    var mid := PurgedAll(st, a);
    assert IndexedUnder(mid, b) + IndexedUnder(st, a) == IndexedUnder(st, a + b) by {
      forall id | id in IndexedUnder(st, a + b) ensures id in IndexedUnder(mid, b) + IndexedUnder(st, a) {
        var d :| d in a + b && d in st.index && id in st.index[d];
        if d !in a {
          assert d in mid.index && id in mid.index[d];
        }
      }
    }
  }

  /** Purging a set of dashboards keeps the invariant. */
  lemma PurgedAllInv(st: StoreState, ds: set<int>)
    requires Inv(st)
    ensures Inv(PurgedAll(st, ds))
  {
    var after := PurgedAll(st, ds);
    forall id | id in after.byId ensures after.byId[id].dashboardId !in ds {
      var e := st.byId[id].dashboardId;
      assert id in Indexed(st, e);
      assert e in ds && e in st.index ==> id in IndexedUnder(st, ds);
    }
  }

  /** After purging `ds`, each of them lists nothing and flags nothing as duplicate. */
  lemma PurgedAllCleared(st: StoreState, ds: set<int>, d: int)
    requires d in ds
    ensures ListFor(PurgedAll(st, ds), d) == []
    ensures forall s: Submission :: s.dashboardId == d ==> !IsDuplicate(PurgedAll(st, ds), s)
  {
  }

  /** A dashboard outside `ds` keeps its index and dedup set, and, when no index entry is stale, its listing. */
  lemma PurgedAllSparesOthers(st: StoreState, ds: set<int>, e: int)
    requires e !in ds
    ensures Indexed(PurgedAll(st, ds), e) == Indexed(st, e)
    ensures Seen(PurgedAll(st, ds), e) == Seen(st, e)
    ensures NoStaleIndex(st) ==> ListFor(PurgedAll(st, ds), e) == ListFor(st, e)
  {
    var after := PurgedAll(st, ds);
    if NoStaleIndex(st) {
      forall id | id in Indexed(st, e) && id in st.byId
        ensures id !in IndexedUnder(st, ds)
      {
        assert st.byId[id].dashboardId == e;
      }
      PresentAgree(st.byId, after.byId, Indexed(st, e));
    }
  }

  // ---------------------------------------------------------------------------
  // delete versus purge

  /**
   * The one asymmetry of the store: after `delete` a later submission with the
   * same name or RG is still a duplicate, after `purge_dashboard` it is not.
   */
  lemma DeleteKeepsPurgeClearsDedup(st: StoreState, s1: Submission, s2: Submission)
    requires s1.dashboardId == s2.dashboardId
    requires NormalizeName(s1.guestName) == NormalizeName(s2.guestName) != ""
    ensures IsDuplicate(Deleted(Added(st, s1), s1.submissionId), s2)
    ensures Inv(st) ==> s1 !in ListFor(Deleted(Added(st, s1), s1.submissionId), s1.dashboardId)
    ensures !IsDuplicate(Purged(Added(st, s1), s1.dashboardId), s2)
  {
    AddedMakesDuplicate(st, s1, s2);
    var added := Added(st, s1);
    if Inv(st) {
      AddedInv(st, s1);
      DeletedIsGone(added, s1.submissionId, s1.dashboardId);
    }
  }

  /**
   * Re-adding an id already stored appends it to the dashboard index again,
   * so the listing shows the submission twice.
   */
  lemma ReAddListsTwice(s: Submission)
    ensures ListFor(Added(Added(Empty(), s), s), s.dashboardId) == [s, s]
  {
    var once := Added(Empty(), s);
    var twice := Added(once, s);
    var ids := [s.submissionId, s.submissionId];
    assert Indexed(twice, s.dashboardId) == ids;
    assert ids[..1] == [s.submissionId] && ids[..1][..0] == [];
    assert Present(twice.byId, ids[..1]) == [s];
    assert Present(twice.byId, ids) == Present(twice.byId, ids[..1]) + [s];
  }
}
