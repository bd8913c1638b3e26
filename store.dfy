/**
 * `SubmissionStore` of app/store/__init__.py: three maps updated in place.
 * Each method is one atomic step (the source runs it under one lock) and is
 * proved to move the state as the matching function of StoreModel says.
 */
module Store {
  import opened Wrappers
  import opened Submissions
  import opened StoreModel

  /** The loop `for key in keys: seen.add(key)`: every key joins the set. */
  method AddAll(seen: set<DedupKey>, keys: seq<DedupKey>) returns (r: set<DedupKey>)
    ensures r == seen + set k | k in keys
  {
    r := seen;
    for i := 0 to |keys|
      invariant r == seen + set k | k in keys[..i]
    {
      assert keys[..i + 1] == keys[..i] + [keys[i]];
      r := r + {keys[i]};
    }
    assert keys[..|keys|] == keys;
  }

  /** The loop `for sid in ids: m.pop(sid, None)`: every listed id leaves the map, present or not. */
  method PopAll(m: map<string, Submission>, ids: seq<string>) returns (r: map<string, Submission>)
    ensures r == m - set id | id in ids
  {
    r := m;
    for i := 0 to |ids|
      invariant r == m - set id | id in ids[..i]
    {
      assert ids[..i + 1] == ids[..i] + [ids[i]];
      r := r - {ids[i]};
    }
    assert ids[..|ids|] == ids;
  }

  class SubmissionStore {
    /** `_store`: submission id to submission. */
    var store: map<string, Submission>
    /** `_dashboard_index`: dashboard id to the ids filed under it, in insertion order. */
    var dashboardIndex: map<int, seq<string>>
    /** `_dedup_index`: dashboard id to the dedup keys seen for it. */
    var dedupIndex: map<int, set<DedupKey>>

    /** The three maps as one value. */
    function State(): StoreState
      reads this
    {
      StoreState(store, dashboardIndex, dedupIndex)
    }

    ghost predicate Valid()
      reads this
    {
      Inv(State())
    }

    constructor ()
      ensures Valid() && State() == Empty()
    {
      store := map[];
      dashboardIndex := map[];
      dedupIndex := map[];
    }

    /** `is_duplicate(s)`: scans the keys of `s` against its dashboard's dedup set. */
    method IsDuplicate(s: Submission) returns (dup: bool)
      ensures dup == StoreModel.IsDuplicate(State(), s)
    {
      var existing := if s.dashboardId in dedupIndex then dedupIndex[s.dashboardId] else {};
      var keys := DedupKeys(s);
      var i := 0;
      while i < |keys|
        invariant 0 <= i <= |keys|
        invariant forall j :: 0 <= j < i ==> keys[j] !in existing
      {
        if keys[i] in existing {
          return true;
        }
        i := i + 1;
      }
      return false;
    }

    /** `add(s)`: returns the submission id. */
    method Add(s: Submission) returns (sid: string)
      requires Valid()
      modifies this
      ensures Valid()
      ensures State() == Added(old(State()), s)
      ensures sid == s.submissionId
    {
      ghost var before := State();
      var d := s.dashboardId;
      sid := s.submissionId;
      store := store[sid := s];
      var ids := if d in dashboardIndex then dashboardIndex[d] else [];
      dashboardIndex := dashboardIndex[d := ids + [sid]];
      var seen := if d in dedupIndex then dedupIndex[d] else {};
      seen := AddAll(seen, DedupKeys(s));
      dedupIndex := dedupIndex[d := seen];
      AddedInv(before, s);
    }

    /** `get(id)`. */
    function Get(id: string): (r: Option<Submission>)
      reads this
      ensures r == StoreModel.Get(State(), id)
    {
      if id in store then Some(store[id]) else None
    }

    /** `list_for_dashboard(d)`: the stored submissions among the ids indexed under `d`. */
    method ListForDashboard(d: int) returns (r: seq<Submission>)
      ensures r == ListFor(State(), d)
    {
      var ids := if d in dashboardIndex then dashboardIndex[d] else [];
      r := [];
      for i := 0 to |ids|
        invariant r == Present(store, ids[..i])
      {
        assert ids[..i + 1][..i] == ids[..i];
        if ids[i] in store {
          r := r + [store[ids[i]]];
        }
      }
      assert ids[..|ids|] == ids;
    }

    /** `count_for_dashboard(d)`: how many of the ids indexed under `d` are stored. */
    method CountForDashboard(d: int) returns (n: nat)
      ensures n == CountFor(State(), d)
    {
      var ids := if d in dashboardIndex then dashboardIndex[d] else [];
      ghost var live: seq<string> := [];
      n := 0;
      for i := 0 to |ids|
        invariant live == LiveIds(store, ids[..i]) && n == |live|
      {
        assert ids[..i + 1][..i] == ids[..i];
        if ids[i] in store {
          live := live + [ids[i]];
          n := n + 1;
        }
      }
      assert ids[..|ids|] == ids;
    }

    /** `delete(id)`: a no-op for an unknown id. */
    method Delete(id: string)
      requires Valid()
      modifies this
      ensures Valid()
      ensures State() == Deleted(old(State()), id)
    {
      if id in store {
        var sub := store[id];
        store := store - {id};
        if sub.dashboardId in dashboardIndex {
          var ids := dashboardIndex[sub.dashboardId];
          if id in ids {
            dashboardIndex := dashboardIndex[sub.dashboardId := RemoveFirst(ids, id)];
          }
        }
      }
      DeletedInv(old(State()), id);
    }

    /** `purge_dashboard(d)`: a no-op for a dashboard with nothing indexed and no dedup set. */
    method PurgeDashboard(d: int)
      requires Valid()
      modifies this
      ensures Valid()
      ensures State() == Purged(old(State()), d)
    {
      ghost var before := State();
      var ids := if d in dashboardIndex then dashboardIndex[d] else [];
      dashboardIndex := dashboardIndex - {d};
      store := PopAll(store, ids);
      dedupIndex := dedupIndex - {d};
      assert State() == Purged(before, d);
      PurgedInv(before, d);
    }
  }
}
