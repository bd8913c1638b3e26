/**
 * The session-expiry reaper of app/sessions/expiry.py. One cycle
 * (`_expire_sessions`) deactivates every active dashboard session whose expiry
 * has passed and purges its submissions, commits, and then purges the
 * submissions of every inactive session. `_run` repeats cycles forever and
 * swallows any exception a cycle raises.
 *
 * The `dashboard_sessions` table is a class whose `rows` the commit replaces;
 * the clock reading of each cycle is a parameter, and so is the point (if any)
 * at which the database raises.
 */
module Expiry {
  import opened Wrappers
  import opened Submissions
  import opened StoreModel
  import opened Store

  /**
   * `expires_at`: a wall-clock reading in seconds and the UTC offset it carries
   * in seconds, `None` for a naive datetime.
   */
  datatype Timestamp = Timestamp(wall: int, offset: Option<int>)

  /**
   * The instant a timestamp names, in seconds since the epoch, UTC. A naive
   * timestamp is read as UTC (`expires.replace(tzinfo=timezone.utc)`).
   */
  function AsUtc(t: Timestamp): int {
    t.wall - t.offset.GetOr(0)
  }

  /** `now >= expires`, where `now` is a UTC instant. */
  predicate Expired(now: int, t: Timestamp) {
    now >= AsUtc(t)
  }

  /** A row of `dashboard_sessions`: its id, `is_active` and `expires_at`. */
  datatype Session = Session(id: int, isActive: bool, expiresAt: Timestamp)

  /** The `dashboard_sessions` table; `rows` is what a query reads and what a commit writes. */
  class SessionTable {
    var rows: seq<Session>

    constructor (rows: seq<Session>)
      ensures this.rows == rows
    {
      this.rows := rows;
    }
  }

  /** Where a cycle can raise: nowhere, at the first query, at the commit, or at the second query. */
  datatype Fault = NoFault | FirstQueryFails | CommitFails | SecondQueryFails

  // ---------------------------------------------------------------------------
  // One cycle as functions on values

  /** The first loop's step on one row: an active, expired session becomes inactive. */
  function Expire(s: Session, now: int): Session {
    if s.isActive && Expired(now, s.expiresAt) then s.(isActive := false) else s
  }

  /** The rows after the first loop. */
  function ExpireAll(rows: seq<Session>, now: int): (r: seq<Session>)
    ensures |r| == |rows|
  {
    if rows == [] then [] else ExpireAll(rows[..|rows| - 1], now) + [Expire(rows[|rows| - 1], now)]
  }

  /** The ids the first loop purges: those of the active, expired sessions. */
  function ExpiredIds(rows: seq<Session>, now: int): set<int> {
    if rows == [] then {}
    else
      var s := rows[|rows| - 1];
      ExpiredIds(rows[..|rows| - 1], now) + (if s.isActive && Expired(now, s.expiresAt) then {s.id} else {})
  }

  /** The ids the second loop purges: those of the inactive sessions. */
  function InactiveIds(rows: seq<Session>): set<int> {
    if rows == [] then {}
    else
      var s := rows[|rows| - 1];
      InactiveIds(rows[..|rows| - 1]) + (if !s.isActive then {s.id} else {})
  }

  /** The table after a cycle: the first loop's changes persist only once the commit succeeds. */
  function CycleRows(rows: seq<Session>, now: int, fault: Fault): seq<Session> {
    if fault == FirstQueryFails || fault == CommitFails then rows else ExpireAll(rows, now)
  }

  /** The store after a cycle: the purges done before the point of failure stay done. */
  function CycleStore(st: StoreState, rows: seq<Session>, now: int, fault: Fault): StoreState {
    match fault
    case FirstQueryFails => st
    case CommitFails => PurgedAll(st, ExpiredIds(rows, now))
    case SecondQueryFails => PurgedAll(st, ExpiredIds(rows, now))
    case NoFault => PurgedAll(PurgedAll(st, ExpiredIds(rows, now)), InactiveIds(ExpireAll(rows, now)))
  }

  // ---------------------------------------------------------------------------
  // Facts about the functions

  /** The first loop rewrites each row on its own, and only its `is_active`. */
  lemma {:induction false} ExpireAllAt(rows: seq<Session>, now: int)
    ensures |ExpireAll(rows, now)| == |rows|
    ensures forall j :: 0 <= j < |rows| ==> ExpireAll(rows, now)[j] == Expire(rows[j], now)
  {
    if rows != [] {
      ExpireAllAt(rows[..|rows| - 1], now);
    }
  }

  /** An id is purged by the first loop exactly when some active session with it has expired. */
  lemma {:induction false} ExpiredIdsMembers(rows: seq<Session>, now: int, id: int)
    ensures id in ExpiredIds(rows, now) <==> exists j :: 0 <= j < |rows| && rows[j].id == id && rows[j].isActive && Expired(now, rows[j].expiresAt)
  {
    if rows != [] {
      var init := rows[..|rows| - 1];
      ExpiredIdsMembers(init, now, id);
      if id in ExpiredIds(init, now) {
        var j :| 0 <= j < |init| && init[j].id == id && init[j].isActive && Expired(now, init[j].expiresAt);
        assert rows[j] == init[j];
      }
      forall j | 0 <= j < |rows| - 1 ensures rows[j] == init[j] {
      }
    }
  }

  /** An id is purged by the second loop exactly when some inactive session has it. */
  lemma {:induction false} InactiveIdsMembers(rows: seq<Session>, id: int)
    ensures id in InactiveIds(rows) <==> exists j :: 0 <= j < |rows| && rows[j].id == id && !rows[j].isActive
  {
    if rows != [] {
      var init := rows[..|rows| - 1];
      InactiveIdsMembers(init, id);
      if id in InactiveIds(init) {
        var j :| 0 <= j < |init| && init[j].id == id && !init[j].isActive;
        assert rows[j] == init[j];
      }
      forall j | 0 <= j < |rows| - 1 ensures rows[j] == init[j] {
      }
    }
  }

  /** A naive `expires_at` is compared as a UTC instant; an aware one by the instant it names. */
  lemma NaiveIsUtc(now: int, wall: int, offset: int)
    ensures Expired(now, Timestamp(wall, None)) <==> now >= wall
    ensures Expired(now, Timestamp(wall, None)) == Expired(now, Timestamp(wall, Some(0)))
    ensures Expired(now, Timestamp(wall, Some(offset))) <==> now + offset >= wall
  {
  }

  /** Every session the first loop deactivates is inactive afterwards, so the second loop purges it again. */
  lemma ExpiredAreInactive(rows: seq<Session>, now: int)
    ensures ExpiredIds(rows, now) <= InactiveIds(ExpireAll(rows, now))
  {
    ExpireAllAt(rows, now);
    forall id | id in ExpiredIds(rows, now) ensures id in InactiveIds(ExpireAll(rows, now)) {
      ExpiredIdsMembers(rows, now, id);
      var j :| 0 <= j < |rows| && rows[j].id == id && rows[j].isActive && Expired(now, rows[j].expiresAt);
      InactiveIdsMembers(ExpireAll(rows, now), id);
      assert ExpireAll(rows, now)[j].id == id && !ExpireAll(rows, now)[j].isActive;
    }
  }

  /** A full cycle's store is the original with every session inactive after the cycle purged. */
  lemma CycleStoreFull(st: StoreState, rows: seq<Session>, now: int)
    requires ExpiredIds(rows, now) <= InactiveIds(ExpireAll(rows, now))
    ensures CycleStore(st, rows, now, NoFault) == PurgedAll(st, InactiveIds(ExpireAll(rows, now)))
  {
    var e := ExpiredIds(rows, now);
    var i := InactiveIds(ExpireAll(rows, now));
    PurgedAllTwice(st, e, i);
    assert e + i == i;
  }

  /**
   * An active session whose expiry has passed is inactive after the cycle,
   * nothing is listed or counted as a duplicate for its dashboard, and no
   * submission of its dashboard is left in the store.
   */
  lemma ExpiredSessionIsReaped(st: StoreState, rows: seq<Session>, now: int, j: nat)
    requires j < |rows| && rows[j].isActive && Expired(now, rows[j].expiresAt)
    ensures !CycleRows(rows, now, NoFault)[j].isActive
    ensures ListFor(CycleStore(st, rows, now, NoFault), rows[j].id) == []
    ensures forall s: Submission :: s.dashboardId == rows[j].id ==> !IsDuplicate(CycleStore(st, rows, now, NoFault), s)
    ensures Inv(st) ==> forall id :: id in CycleStore(st, rows, now, NoFault).byId ==>
      CycleStore(st, rows, now, NoFault).byId[id].dashboardId != rows[j].id
  {
    ExpireAllAt(rows, now);
    ExpiredIdsMembers(rows, now, rows[j].id);
    ExpiredAreInactive(rows, now);
    CycleStoreFull(st, rows, now);
    PurgedAllCleared(st, InactiveIds(ExpireAll(rows, now)), rows[j].id);
    if Inv(st) {
      var after := CycleStore(st, rows, now, NoFault);
      CycleKeepsInv(st, rows, now, NoFault);
      forall id | id in after.byId
        ensures after.byId[id].dashboardId != rows[j].id
      {
        StoredIsListed(after, id);
      }
    }
  }

  /**
   * An active session that has not expired stays active, and when no other row
   * has its id (ids are the primary key) and the store's index holds no stale
   * entry, its dashboard keeps its listing and its dedup set.
   */
  lemma LiveSessionIsKept(st: StoreState, rows: seq<Session>, now: int, j: nat)
    requires j < |rows| && rows[j].isActive && !Expired(now, rows[j].expiresAt)
    requires forall k :: 0 <= k < |rows| && rows[k].id == rows[j].id ==> k == j
    ensures CycleRows(rows, now, NoFault)[j] == rows[j]
    ensures Seen(CycleStore(st, rows, now, NoFault), rows[j].id) == Seen(st, rows[j].id)
    ensures Indexed(CycleStore(st, rows, now, NoFault), rows[j].id) == Indexed(st, rows[j].id)
    ensures NoStaleIndex(st) ==> ListFor(CycleStore(st, rows, now, NoFault), rows[j].id) == ListFor(st, rows[j].id)
  {
    var id := rows[j].id;
    ExpireAllAt(rows, now);
    ExpiredAreInactive(rows, now);
    CycleStoreFull(st, rows, now);
    InactiveIdsMembers(ExpireAll(rows, now), id);
    PurgedAllSparesOthers(st, InactiveIds(ExpireAll(rows, now)), id);
  }

  /**
   * After a full cycle every inactive session, whether this cycle deactivated
   * it or something else did, has nothing listed and nothing counted as a
   * duplicate.
   */
  lemma InactiveSessionsAreEmpty(st: StoreState, rows: seq<Session>, now: int, s: Session)
    requires s in CycleRows(rows, now, NoFault) && !s.isActive
    ensures ListFor(CycleStore(st, rows, now, NoFault), s.id) == []
    ensures forall x: Submission :: x.dashboardId == s.id ==> !IsDuplicate(CycleStore(st, rows, now, NoFault), x)
  {
    var after := ExpireAll(rows, now);
    var j :| 0 <= j < |after| && after[j] == s;
    InactiveIdsMembers(after, s.id);
    ExpiredAreInactive(rows, now);
    CycleStoreFull(st, rows, now);
    PurgedAllCleared(st, InactiveIds(after), s.id);
  }

  /** The rows of `after` are those of `before` with, at most, some `is_active` turned from true to false. */
  predicate NoReactivation(before: seq<Session>, after: seq<Session>) {
    && |after| == |before|
    && forall j :: 0 <= j < |before| ==>
         && after[j].id == before[j].id && after[j].expiresAt == before[j].expiresAt
         && (after[j].isActive ==> before[j].isActive)
  }

  /** A cycle, whatever it raises, never reactivates a session and changes nothing but `is_active`. */
  lemma CycleNeverReactivates(rows: seq<Session>, now: int, fault: Fault)
    ensures NoReactivation(rows, CycleRows(rows, now, fault))
  {
    ExpireAllAt(rows, now);
  }

  lemma NoReactivationTransitive(a: seq<Session>, b: seq<Session>, c: seq<Session>)
    requires NoReactivation(a, b) && NoReactivation(b, c)
    ensures NoReactivation(a, c)
  {
  }

  /** A second cycle at the same instant finds nothing more to do. */
  lemma CycleIdempotent(st: StoreState, rows: seq<Session>, now: int)
    ensures CycleRows(CycleRows(rows, now, NoFault), now, NoFault) == CycleRows(rows, now, NoFault)
    ensures CycleStore(CycleStore(st, rows, now, NoFault), CycleRows(rows, now, NoFault), now, NoFault) ==
            CycleStore(st, rows, now, NoFault)
  {
    var once := ExpireAll(rows, now);
    ExpireAllAt(rows, now);
    ExpireAllAt(once, now);
    assert ExpireAll(once, now) == once;
    ExpiredAreInactive(rows, now);
    ExpiredAreInactive(once, now);
    CycleStoreFull(st, rows, now);
    CycleStoreFull(CycleStore(st, rows, now, NoFault), once, now);
    PurgedAllTwice(st, InactiveIds(once), InactiveIds(once));
    assert InactiveIds(once) + InactiveIds(once) == InactiveIds(once);
  }

  /** Whatever a cycle raises, the store keeps its invariant. */
  lemma CycleKeepsInv(st: StoreState, rows: seq<Session>, now: int, fault: Fault)
    requires Inv(st)
    ensures Inv(CycleStore(st, rows, now, fault))
  {
    PurgedAllInv(st, ExpiredIds(rows, now));
    PurgedAllInv(PurgedAll(st, ExpiredIds(rows, now)), InactiveIds(ExpireAll(rows, now)));
  }

  // ---------------------------------------------------------------------------
  // The reaper

  /**
   * Lines 28-36 of `_expire_sessions`: the first query returns the active rows
   * in table order, so the loop over them is one pass over the rows that skips
   * the inactive ones. Each expired session is deactivated in `pending` (the
   * ORM's uncommitted changes) and its dashboard purged.
   */
  method ExpireActive(rows: seq<Session>, store: SubmissionStore, now: int) returns (pending: seq<Session>)
    requires store.Valid()
    modifies store
    ensures store.Valid()
    ensures pending == ExpireAll(rows, now)
    ensures store.State() == PurgedAll(old(store.State()), ExpiredIds(rows, now))
  {
    ghost var st := store.State();
    pending := rows;
    for i := 0 to |rows|
      invariant store.Valid()
      invariant |pending| == |rows|
      invariant forall j :: 0 <= j < i ==> pending[j] == Expire(rows[j], now)
      invariant forall j :: i <= j < |rows| ==> pending[j] == rows[j]
      invariant store.State() == PurgedAll(st, ExpiredIds(rows[..i], now))
    {
      var s := rows[i];
      ghost var done := ExpiredIds(rows[..i], now);
      assert rows[..i + 1][..i] == rows[..i];
      assert ExpiredIds(rows[..i + 1], now) == done + (if s.isActive && Expired(now, s.expiresAt) then {s.id} else {});
      if s.isActive && now >= AsUtc(s.expiresAt) {
        pending := pending[i := s.(isActive := false)];
        store.PurgeDashboard(s.id);
        PurgedThenPurged(st, done, s.id);
      } else {
        assert done + {} == done;
      }
    }
    assert rows[..|rows|] == rows;
    ExpireAllAt(rows, now);
  }

  /** Lines 40-42 of `_expire_sessions`: the dashboard of every inactive row is purged. */
  method PurgeInactive(rows: seq<Session>, store: SubmissionStore)
    requires store.Valid()
    modifies store
    ensures store.Valid()
    ensures store.State() == PurgedAll(old(store.State()), InactiveIds(rows))
  {
    ghost var st := store.State();
    for i := 0 to |rows|
      invariant store.Valid()
      invariant store.State() == PurgedAll(st, InactiveIds(rows[..i]))
    {
      ghost var done := InactiveIds(rows[..i]);
      assert rows[..i + 1][..i] == rows[..i];
      assert InactiveIds(rows[..i + 1]) == done + (if !rows[i].isActive then {rows[i].id} else {});
      if !rows[i].isActive {
        store.PurgeDashboard(rows[i].id);
        PurgedThenPurged(st, done, rows[i].id);
      } else {
        assert done + {} == done;
      }
    }
    assert rows[..|rows|] == rows;
  }

  /** `_expire_sessions(app)` at clock reading `now`, raising at `fault`; `raised` says whether it raised. */
  method ExpireSessions(table: SessionTable, store: SubmissionStore, now: int, fault: Fault) returns (raised: bool)
    requires store.Valid()
    modifies table, store
    ensures store.Valid()
    ensures raised <==> fault != NoFault
    ensures table.rows == CycleRows(old(table.rows), now, fault)
    ensures store.State() == CycleStore(old(store.State()), old(table.rows), now, fault)
  {
    if fault == FirstQueryFails {
      return true;
    }
    var pending := ExpireActive(table.rows, store, now);
    if fault == CommitFails {
      return true;
    }
    table.rows := pending;
    if fault == SecondQueryFails {
      return true;
    }
    PurgeInactive(table.rows, store);
    return false;
  }

  /**
   * The body of `_run` for the clock readings `nows`: one cycle per reading,
   * each one's exception caught, so every cycle runs whatever the previous ones
   * raised. The rows only ever lose `is_active`, and after a cycle that raised
   * nothing, every inactive session has nothing listed.
   */
  method Run(table: SessionTable, store: SubmissionStore, nows: seq<int>, faults: seq<Fault>)
    requires store.Valid() && |faults| == |nows|
    modifies table, store
    ensures store.Valid()
    ensures NoReactivation(old(table.rows), table.rows)
    ensures nows != [] && faults[|faults| - 1] == NoFault ==>
      forall s :: s in table.rows && !s.isActive ==> ListFor(store.State(), s.id) == []
  {
    for i := 0 to |nows|
      invariant store.Valid()
      invariant NoReactivation(old(table.rows), table.rows)
      invariant i > 0 && faults[i - 1] == NoFault ==>
        forall s :: s in table.rows && !s.isActive ==> ListFor(store.State(), s.id) == []
    {
      ghost var rows := table.rows;
      ghost var st := store.State();
      var raised := ExpireSessions(table, store, nows[i], faults[i]);
      CycleNeverReactivates(rows, nows[i], faults[i]);
      NoReactivationTransitive(old(table.rows), rows, table.rows);
      if faults[i] == NoFault {
        forall s | s in table.rows && !s.isActive ensures ListFor(store.State(), s.id) == [] {
          InactiveSessionsAreEmpty(st, rows, nows[i], s);
        }
      }
    }
  }
}
