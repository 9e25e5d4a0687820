/** Any interleaving of sessions on the feed tables: what every run keeps. */
module FeedRuns {
  import opened Sequences
  import opened FeedStore

  type SessionId = nat

  /** What a session has read and not yet committed. */
  datatype Pending = Inserting(fs: seq<NewFeed>) | Refreshing(id: FeedId)

  /** used holds every id ever given out: ids are random UUIDs and never come twice. */
  datatype System = System(db: Db, used: set<FeedId>, sessions: map<SessionId, Pending>)

  const START := System(Db(map[], []), {}, map[])

  datatype Action =
    // Adding, ensuring or seeding: a check by name, and later a commit.
    | BeginInsert(s: SessionId, wanted: seq<NewFeed>)
    | CommitInsert(s: SessionId, ids: seq<FeedId>)
    | DeleteFeed(id: FeedId)
    | ToggleFeed(id: FeedId)
    // Refreshing: a look-up, a fetch during which anything may happen, and a commit.
    | BeginRefresh(s: SessionId, id: FeedId)
    | FetchFails(s: SessionId)
    | CommitRefresh(s: SessionId, data: seq<CveData>, now: nat)

  ghost predicate Enabled(sys: System, a: Action) {
    match a
    case BeginInsert(s, wanted) => s !in sys.sessions
    case CommitInsert(s, ids) =>
      s in sys.sessions && sys.sessions[s].Inserting? && |ids| == |sys.sessions[s].fs| && FreshIds(ids, sys.used)
    case DeleteFeed(id) => true
    case ToggleFeed(id) => true
    case BeginRefresh(s, id) => s !in sys.sessions && id in sys.db.feeds
    case FetchFails(s) => s in sys.sessions && sys.sessions[s].Refreshing?
    case CommitRefresh(s, data, now) => s in sys.sessions && sys.sessions[s].Refreshing?
  }

  function Committed(db: Db, outcome: Option<Db>): Db {
    if outcome.Some? then outcome.value else db
  }

  ghost function Step(sys: System, a: Action): System
    requires Enabled(sys, a)
  {
    match a
    case BeginInsert(s, wanted) =>
      sys.(sessions := sys.sessions[s := Inserting(Missing(sys.db.feeds, wanted))])
    case CommitInsert(s, ids) =>
      System(Committed(sys.db, InsertAll(sys.db, ids, sys.sessions[s].fs)),
             sys.used + (set id | id in ids), sys.sessions - {s})
    case DeleteFeed(id) => sys.(db := Delete(sys.db, id))
    case ToggleFeed(id) => sys.(db := Toggle(sys.db, id))
    case BeginRefresh(s, id) => sys.(sessions := sys.sessions[s := Refreshing(id)])
    case FetchFails(s) => sys.(sessions := sys.sessions - {s})
    case CommitRefresh(s, data, now) =>
      sys.(db := Replace(sys.db, sys.sessions[s].id, data, now), sessions := sys.sessions - {s})
  }

  /** Does this action write feed j? */
  ghost predicate Touches(sys: System, a: Action, j: FeedId)
    requires Enabled(sys, a)
  {
    match a
    case CommitInsert(s, ids) => j in ids
    case DeleteFeed(id) => id == j
    case ToggleFeed(id) => id == j
    case CommitRefresh(s, data, now) => sys.sessions[s].id == j
    case _ => false
  }

  ghost predicate SystemInv(sys: System) {
    Inv(sys.db) && sys.db.feeds.Keys <= sys.used
  }

  lemma StepKeepsInv(sys: System, a: Action)
    requires SystemInv(sys) && Enabled(sys, a)
    ensures SystemInv(Step(sys, a)) && sys.used <= Step(sys, a).used
    ensures forall j :: !Touches(sys, a, j) ==> SameFeed(sys.db, Step(sys, a).db, j)
  {
    hide Inv, SameFeed, Delete, Toggle, Replace;
    NothingChanges(sys.db);
    match a
    case CommitInsert(s, ids) => InsertAllKeepsInv(sys.db, ids, sys.sessions[s].fs);
    case DeleteFeed(id) =>
      DeleteKeepsInv(sys.db, id);
      KeysAfter(sys, id, [], 0);
    case ToggleFeed(id) =>
      ToggleKeepsInv(sys.db, id);
      KeysAfter(sys, id, [], 0);
    case CommitRefresh(s, data, now) =>
      ReplaceKeepsInv(sys.db, sys.sessions[s].id, data, now);
      KeysAfter(sys, sys.sessions[s].id, data, now);
    case _ =>
  }

  lemma KeysAfter(sys: System, id: FeedId, data: seq<CveData>, now: nat)
    ensures Delete(sys.db, id).feeds.Keys <= sys.db.feeds.Keys
    ensures Toggle(sys.db, id).feeds.Keys == sys.db.feeds.Keys
    ensures Replace(sys.db, id, data, now).feeds.Keys == sys.db.feeds.Keys
  {
    hide Without, ForFeed;
  }

  // ---------------------------------------------------------------------
  // Runs
  // ---------------------------------------------------------------------

  ghost predicate IsRun(sys: System, actions: seq<Action>, end: System)
    decreases actions
  {
    if actions == [] then end == sys
    else Enabled(sys, actions[0]) && IsRun(Step(sys, actions[0]), actions[1..], end)
  }

  /** Names stay unique, entries keep their feed, and every count is right, whatever the interleaving. */
  lemma {:induction false} RunsKeepInv(sys: System, actions: seq<Action>, end: System)
    requires SystemInv(sys) && IsRun(sys, actions, end)
    ensures SystemInv(end) && sys.used <= end.used
    decreases actions
  {
    hide SystemInv, Step, Enabled;
    if actions != [] {
      StepKeepsInv(sys, actions[0]);
      RunsKeepInv(Step(sys, actions[0]), actions[1..], end);
    }
  }

  lemma EveryReachableStateIsConsistent(actions: seq<Action>, end: System)
    requires IsRun(START, actions, end)
    ensures Inv(end.db)
  {
    assert SystemInv(START);
    RunsKeepInv(START, actions, end);
  }

  ghost predicate NeverTouched(sys: System, actions: seq<Action>, j: FeedId)
    decreases actions
  {
    actions != [] ==>
      && Enabled(sys, actions[0])
      && !Touches(sys, actions[0], j)
      && NeverTouched(Step(sys, actions[0]), actions[1..], j)
  }

  /** A run that never writes a feed leaves its row and its entries as they were, whatever it does to other feeds. */
  lemma {:induction false} UntouchedFeedsStay(sys: System, actions: seq<Action>, end: System, j: FeedId)
    requires SystemInv(sys) && IsRun(sys, actions, end) && NeverTouched(sys, actions, j)
    ensures SameFeed(sys.db, end.db, j)
    decreases actions
  {
    hide SystemInv, Step, Enabled, Touches, SameFeed;
    if actions == [] {
      NothingChanges(sys.db);
    } else {
      var next := Step(sys, actions[0]);
      StepKeepsInv(sys, actions[0]);
      UntouchedFeedsStay(next, actions[1..], end, j);
      SameFeedTransitive(sys.db, next.db, end.db, j);
    }
  }

  ghost predicate IsGone(sys: System, id: FeedId) {
    id in sys.used && id !in sys.db.feeds
  }

  lemma GoneStaysGoneStep(sys: System, a: Action, id: FeedId)
    requires SystemInv(sys) && Enabled(sys, a) && IsGone(sys, id)
    ensures IsGone(Step(sys, a), id)
  {
    hide Inv, Delete, Toggle, Replace;
    StepKeepsInv(sys, a);
    match a
    case CommitInsert(s, ids) => InsertAllKeepsInv(sys.db, ids, sys.sessions[s].fs);
    case DeleteFeed(x) => KeysAfter(sys, x, [], 0);
    case ToggleFeed(x) => KeysAfter(sys, x, [], 0);
    case CommitRefresh(s, data, now) => KeysAfter(sys, sys.sessions[s].id, data, now);
    case _ =>
  }

  /** A deleted feed never comes back, nor do its entries: a refresh that was under way commits nothing. */
  lemma DeletedFeedsStayDeleted(sys: System, actions: seq<Action>, end: System, id: FeedId)
    requires SystemInv(sys) && id in sys.db.feeds
    requires IsRun(Step(sys, DeleteFeed(id)), actions, end)
    ensures id !in end.db.feeds && RowsOf(end.db.rows, id) == []
  {
    StepKeepsInv(sys, DeleteFeed(id));
    GoneStaysGone(Step(sys, DeleteFeed(id)), actions, end, id);
  }

  lemma {:induction false} GoneStaysGone(sys: System, actions: seq<Action>, end: System, id: FeedId)
    requires SystemInv(sys) && IsRun(sys, actions, end) && IsGone(sys, id)
    ensures id !in end.db.feeds && RowsOf(end.db.rows, id) == []
    decreases actions
  {
    hide Step, Enabled;
    if actions == [] {
      NoRowsOfUnknown(sys.db.rows, id);
    } else {
      StepKeepsInv(sys, actions[0]);
      GoneStaysGoneStep(sys, actions[0], id);
      GoneStaysGone(Step(sys, actions[0]), actions[1..], end, id);
    }
  }

  ghost predicate SameIdentity(db: Db, after: Db, id: FeedId) {
    id in db.feeds && id in after.feeds ==>
      db.feeds[id].name == after.feeds[id].name && db.feeds[id].url == after.feeds[id].url
  }

  lemma StepKeepsIdentity(sys: System, a: Action, id: FeedId)
    requires SystemInv(sys) && Enabled(sys, a) && id in sys.db.feeds
    ensures SameIdentity(sys.db, Step(sys, a).db, id)
  {
    hide Inv, Without, ForFeed, RowsOf;
    StepKeepsInv(sys, a);
    if a.CommitInsert? {
      assert id in sys.used && !Touches(sys, a, id);
    }
  }

  /** A feed that is there at both ends of a run is the same feed: its name and address never change. */
  lemma {:induction false} FeedsKeepTheirIdentity(sys: System, actions: seq<Action>, end: System, id: FeedId)
    requires SystemInv(sys) && IsRun(sys, actions, end)
    requires id in sys.db.feeds && id in end.db.feeds
    ensures SameIdentity(sys.db, end.db, id)
    decreases actions
  {
    hide Step, Enabled, Inv;
    if actions != [] {
      var next := Step(sys, actions[0]);
      StepKeepsInv(sys, actions[0]);
      StepKeepsIdentity(sys, actions[0], id);
      if id !in next.db.feeds {
        GoneStaysGone(next, actions[1..], end, id);
      } else {
        FeedsKeepTheirIdentity(next, actions[1..], end, id);
      }
    }
  }

  /** A refresh that fails, at whatever moment, has written nothing; one that commits has replaced its own feed, if that still exists. */
  lemma {:induction false} RefreshIsAllOrNothing(sys: System, s: SessionId, data: seq<CveData>, now: nat)
    requires SystemInv(sys) && s in sys.sessions && sys.sessions[s].Refreshing?
    ensures Step(sys, FetchFails(s)).db == sys.db
    ensures var id, after := sys.sessions[s].id, Step(sys, CommitRefresh(s, data, now)).db;
            if id in sys.db.feeds
            then after.feeds[id].entryCount == |data| && RowsOf(after.rows, id) == ForFeed(id, data)
            else after == sys.db
  {
    hide RowsOf, ForFeed, Without;
    ReplaceKeepsInv(sys.db, sys.sessions[s].id, data, now);
  }

  function SessionOf(a: Action): Option<SessionId> {
    match a
    case BeginInsert(s, _) => Some(s)
    case CommitInsert(s, _) => Some(s)
    case BeginRefresh(s, _) => Some(s)
    case FetchFails(s) => Some(s)
    case CommitRefresh(s, _, _) => Some(s)
    case _ => None
  }

  /** sys and busy differ only in that session s has begun a refresh in busy. */
  ghost predicate BusyIn(sys: System, busy: System, s: SessionId) {
    && s !in sys.sessions && s in busy.sessions && busy.sessions[s].Refreshing?
    && busy == sys.(sessions := sys.sessions[s := busy.sessions[s]])
  }

  lemma BusySteps(sys: System, busy: System, s: SessionId, a: Action)
    requires BusyIn(sys, busy, s) && SessionOf(a) != Some(s) && Enabled(busy, a)
    ensures Enabled(sys, a) && BusyIn(Step(sys, a), Step(busy, a), s)
  {
    hide FreshIds, InsertAll, Delete, Toggle, Replace, NameTaken;
    var x, y := Step(sys, a), Step(busy, a);
    assert y.sessions == x.sessions[s := busy.sessions[s]];
  }

  lemma {:induction false} BusyRuns(sys: System, busy: System, s: SessionId, actions: seq<Action>, end: System)
    requires BusyIn(sys, busy, s) && IsRun(busy, actions, end)
    requires forall a :: a in actions ==> SessionOf(a) != Some(s)
    ensures s in end.sessions && end.sessions[s].Refreshing?
    ensures IsRun(sys, actions, end.(sessions := end.sessions - {s}))
    decreases actions
  {
    hide Step, Enabled;
    if actions == [] {
      assert sys.sessions == busy.sessions - {s};
    } else {
      BusySteps(sys, busy, s, actions[0]);
      BusyRuns(Step(sys, actions[0]), Step(busy, actions[0]), s, actions[1..], end);
    }
  }

  /** A run in which a refresh begins and fails ends as the run of the other sessions alone does, tables and sessions. */
  lemma FailedRefreshLeavesNoTrace(
    sys: System, s: SessionId, id: FeedId, actions: seq<Action>, end: System)
    requires Enabled(sys, BeginRefresh(s, id)) && IsRun(Step(sys, BeginRefresh(s, id)), actions, end)
    requires forall a :: a in actions ==> SessionOf(a) != Some(s)
    ensures Enabled(end, FetchFails(s)) && IsRun(sys, actions, Step(end, FetchFails(s)))
  {
    var busy := Step(sys, BeginRefresh(s, id));
    BusyRuns(sys, busy, s, actions, end);
  }

  /**
   * A refresh that commits amid anything other sessions do to other feeds: in
   * the end its feed has the fetched entries and their number, and is otherwise
   * as it was.
   */
  lemma RefreshAmidOthers(
    sys: System, before: seq<Action>, middle: System, s: SessionId, data: seq<CveData>, now: nat,
    after: seq<Action>, end: System, id: FeedId)
    requires SystemInv(sys) && id in sys.db.feeds
    requires IsRun(sys, before, middle) && NeverTouched(sys, before, id)
    requires Enabled(middle, CommitRefresh(s, data, now)) && middle.sessions[s].id == id
    requires IsRun(Step(middle, CommitRefresh(s, data, now)), after, end)
    requires NeverTouched(Step(middle, CommitRefresh(s, data, now)), after, id)
    ensures id in end.db.feeds && RowsOf(end.db.rows, id) == ForFeed(id, data)
    ensures end.db.feeds[id] == sys.db.feeds[id].(lastFetched := Some(now), entryCount := |data|)
  {
    hide RowsOf, ForFeed, Without, NeverTouched, IsRun;
    RunsKeepInv(sys, before, middle);
    UntouchedFeedsStay(sys, before, middle, id);
    StepKeepsInv(middle, CommitRefresh(s, data, now));
    ReplaceKeepsInv(middle.db, id, data, now);
    UntouchedFeedsStay(Step(middle, CommitRefresh(s, data, now)), after, end, id);
  }
}
