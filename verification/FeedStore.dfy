/**
 * The CVE feed tables (control-plane/app/models.py) and the operations on them
 * (control-plane/app/routers/cve.py, control-plane/app/cve_service.py), each
 * commit being atomic.
 */
module FeedStore {
  import opened Sequences

  type FeedId = nat

  datatype Feed = Feed(name: string, url: string, feedType: string, enabled: bool,
                       lastFetched: Option<nat>, entryCount: nat)
  datatype NewFeed = NewFeed(name: string, url: string, feedType: string)
  datatype CveData = CveData(cveId: string, severity: string)
  datatype Row = Row(feedId: FeedId, data: CveData)

  datatype Db = Db(feeds: map<FeedId, Feed>, rows: seq<Row>)

  const K8S_FEED := NewFeed("Kubernetes Official CVE Feed",
                            "https://k8s.io/docs/reference/issues-security/official-cve-feed/index.json", "json_feed")

  // ---------------------------------------------------------------------
  // Tables
  // ---------------------------------------------------------------------

  function RowsOf(rows: seq<Row>, id: FeedId): seq<Row> {
    if rows == [] then []
    else if Last(rows).feedId == id then RowsOf(Init(rows), id) + [Last(rows)] else RowsOf(Init(rows), id)
  }

  function Without(rows: seq<Row>, id: FeedId): seq<Row> {
    if rows == [] then []
    else if Last(rows).feedId == id then Without(Init(rows), id) else Without(Init(rows), id) + [Last(rows)]
  }

  function ForFeed(id: FeedId, data: seq<CveData>): seq<Row> {
    if data == [] then [] else ForFeed(id, Init(data)) + [Row(id, Last(data))]
  }

  /** The row that a column default leaves: enabled, never fetched, no entries. */
  function Created(f: NewFeed): Feed {
    Feed(f.name, f.url, f.feedType, true, None, 0)
  }

  predicate NameTaken(feeds: map<FeedId, Feed>, name: string) {
    exists id :: id in feeds && feeds[id].name == name
  }

  // ---------------------------------------------------------------------
  // Commits
  // ---------------------------------------------------------------------

  /** One insert under a fresh id; the unique constraint on names rejects the whole transaction. */
  function InsertFeed(db: Db, id: FeedId, f: NewFeed): Option<Db> {
    if NameTaken(db.feeds, f.name) then None else Some(db.(feeds := db.feeds[id := Created(f)]))
  }

  function InsertAll(db: Db, ids: seq<FeedId>, fs: seq<NewFeed>): Option<Db>
    requires |ids| == |fs|
  {
    if fs == [] then Some(db)
    else
      match InsertAll(db, Init(ids), Init(fs))
      case None => None
      case Some(d) => InsertFeed(d, Last(ids), Last(fs))
  }

  /** ON DELETE CASCADE takes the entries along. */
  function Delete(db: Db, id: FeedId): Db {
    Db(db.feeds - {id}, Without(db.rows, id))
  }

  function Toggle(db: Db, id: FeedId): Db {
    if id in db.feeds
    then db.(feeds := db.feeds[id := db.feeds[id].(enabled := !db.feeds[id].enabled)]) else db
  }

  /** The transaction of a refresh; for a feed that is gone the foreign key rejects it. */
  function Replace(db: Db, id: FeedId, data: seq<CveData>, now: nat): Db {
    if id in db.feeds
    then Db(db.feeds[id := db.feeds[id].(lastFetched := Some(now), entryCount := |data|)],
            Without(db.rows, id) + ForFeed(id, data))
    else db
  }

  ghost predicate Inv(db: Db) {
    && (forall i, j :: i in db.feeds && j in db.feeds && db.feeds[i].name == db.feeds[j].name ==> i == j)
    && (forall r :: r in db.rows ==> r.feedId in db.feeds)
    && (forall id :: id in db.feeds ==> db.feeds[id].entryCount == |RowsOf(db.rows, id)|)
  }

  lemma {:induction false} RowsOfWithout(rows: seq<Row>, id: FeedId, j: FeedId)
    ensures RowsOf(Without(rows, id), j) == if j == id then [] else RowsOf(rows, j)
    ensures forall r :: r in Without(rows, id) <==> r in rows && r.feedId != id
  {
    if rows != [] {
      var front, l := Without(Init(rows), id), Last(rows);
      RowsOfWithout(Init(rows), id, j);
      if l.feedId != id {
        assert Init(front + [l]) == front;
      }
    }
  }

  lemma {:induction false} RowsOfConcat(a: seq<Row>, b: seq<Row>, j: FeedId)
    ensures RowsOf(a + b, j) == RowsOf(a, j) + RowsOf(b, j)
  {
    if b == [] {
      assert a + b == a;
    } else {
      InitOfConcat(a, b);
      RowsOfConcat(a, Init(b), j);
    }
  }

  lemma {:induction false} RowsOfNew(id: FeedId, data: seq<CveData>, j: FeedId)
    ensures RowsOf(ForFeed(id, data), j) == if j == id then ForFeed(id, data) else []
    ensures |ForFeed(id, data)| == |data|
    ensures forall i :: 0 <= i < |data| ==> ForFeed(id, data)[i] == Row(id, data[i])
  {
    if data != [] {
      RowsOfNew(id, Init(data), j);
      assert Init(ForFeed(id, data)) == ForFeed(id, Init(data));
    }
  }

  lemma {:induction false} NoRowsOfUnknown(rows: seq<Row>, id: FeedId)
    requires forall r :: r in rows ==> r.feedId != id
    ensures RowsOf(rows, id) == []
  {
    if rows != [] {
      assert Last(rows) in rows;
      NoRowsOfUnknown(Init(rows), id);
    }
  }

  // ---------------------------------------------------------------------
  // Each commit keeps the invariant and touches one feed
  // ---------------------------------------------------------------------

  /** Feed id reads the same in both: its row, and its entries. */
  ghost predicate SameFeed(db: Db, after: Db, id: FeedId) {
    && (id in db.feeds <==> id in after.feeds)
    && (id in db.feeds ==> db.feeds[id] == after.feeds[id])
    && RowsOf(db.rows, id) == RowsOf(after.rows, id)
  }

  lemma InsertKeepsInv(db: Db, id: FeedId, f: NewFeed)
    requires Inv(db) && id !in db.feeds
    ensures InsertFeed(db, id, f).Some? ==> Inv(InsertFeed(db, id, f).value)
    ensures InsertFeed(db, id, f).Some? <==> !NameTaken(db.feeds, f.name)
    ensures InsertFeed(db, id, f).Some? ==>
      forall j :: j != id ==> SameFeed(db, InsertFeed(db, id, f).value, j)
  {
    NoRowsOfUnknown(db.rows, id);
  }

  lemma DeleteKeepsInv(db: Db, id: FeedId)
    requires Inv(db)
    ensures Inv(Delete(db, id))
    ensures id !in Delete(db, id).feeds && RowsOf(Delete(db, id).rows, id) == []
    ensures forall j :: j != id ==> SameFeed(db, Delete(db, id), j)
  {
    hide RowsOf, Without;
    forall j ensures RowsOf(Delete(db, id).rows, j) == if j == id then [] else RowsOf(db.rows, j) {
      RowsOfWithout(db.rows, id, j);
    }
    RowsOfWithout(db.rows, id, id);
  }

  lemma ToggleKeepsInv(db: Db, id: FeedId)
    requires Inv(db)
    ensures Inv(Toggle(db, id))
    ensures Toggle(Toggle(db, id), id) == db
    ensures forall j :: j != id ==> SameFeed(db, Toggle(db, id), j)
  {
    if id in db.feeds {
      assert Toggle(Toggle(db, id), id).feeds == db.feeds;
    }
  }

  lemma ReplacedRows(db: Db, id: FeedId, data: seq<CveData>, now: nat, j: FeedId)
    requires id in db.feeds
    ensures RowsOf(Replace(db, id, data, now).rows, j) == if j == id then ForFeed(id, data) else RowsOf(db.rows, j)
  {
    hide RowsOf, Without, ForFeed;
    RowsOfWithout(db.rows, id, j);
    RowsOfConcat(Without(db.rows, id), ForFeed(id, data), j);
    RowsOfNew(id, data, j);
  }

  lemma ReplacedRowsHaveFeeds(db: Db, id: FeedId, data: seq<CveData>, now: nat)
    requires Inv(db)
    ensures forall r :: r in Replace(db, id, data, now).rows ==> r.feedId in db.feeds
  {
    hide RowsOf, Without, ForFeed;
    if id in db.feeds {
      RowsOfWithout(db.rows, id, id);
      RowsOfNew(id, data, id);
      forall r | r in ForFeed(id, data) ensures r.feedId == id {
        var i :| 0 <= i < |ForFeed(id, data)| && ForFeed(id, data)[i] == r;
      }
    }
  }

  lemma ReplaceKeepsInv(db: Db, id: FeedId, data: seq<CveData>, now: nat)
    requires Inv(db)
    ensures Inv(Replace(db, id, data, now))
    ensures id in db.feeds ==> RowsOf(Replace(db, id, data, now).rows, id) == ForFeed(id, data)
    ensures forall j :: j != id ==> SameFeed(db, Replace(db, id, data, now), j)
  {
    hide RowsOf, Without, ForFeed;
    if id in db.feeds {
      forall j ensures RowsOf(Replace(db, id, data, now).rows, j) ==
                       if j == id then ForFeed(id, data) else RowsOf(db.rows, j) {
        ReplacedRows(db, id, data, now, j);
      }
      RowsOfNew(id, data, id);
      ReplacedRowsHaveFeeds(db, id, data, now);
    }
  }

  ghost predicate FreshIds(ids: seq<FeedId>, used: set<FeedId>) {
    NoDuplicates(ids) && forall id :: id in ids ==> id !in used
  }

  lemma {:induction false} InsertAllKeepsInv(db: Db, ids: seq<FeedId>, fs: seq<NewFeed>)
    requires |ids| == |fs| && Inv(db) && FreshIds(ids, db.feeds.Keys)
    ensures InsertAll(db, ids, fs).Some? ==>
      var after := InsertAll(db, ids, fs).value;
      && Inv(after) && after.rows == db.rows
      && after.feeds.Keys == db.feeds.Keys + (set id | id in ids)
      && forall j :: j !in ids ==> SameFeed(db, after, j)
  {
    hide Inv, NameTaken, SameFeed;
    if fs == [] {
      assert forall j :: SameFeed(db, db, j) by { NothingChanges(db); }
    } else {
      assert forall id :: id in ids <==> id in Init(ids) || id == Last(ids);
      InsertAllKeepsInv(db, Init(ids), Init(fs));
      if InsertAll(db, Init(ids), Init(fs)).Some? {
        var middle := InsertAll(db, Init(ids), Init(fs)).value;
        assert Last(ids) !in Init(ids);
        InsertKeepsInv(middle, Last(ids), Last(fs));
        if InsertAll(db, ids, fs).Some? {
          forall j | j !in ids ensures SameFeed(db, InsertAll(db, ids, fs).value, j) {
            SameFeedTransitive(db, middle, InsertAll(db, ids, fs).value, j);
          }
        }
      }
    }
  }

  lemma NothingChanges(db: Db)
    ensures forall j :: SameFeed(db, db, j)
  {
  }

  lemma SameFeedTransitive(a: Db, b: Db, c: Db, id: FeedId)
    requires SameFeed(a, b, id) && SameFeed(b, c, id)
    ensures SameFeed(a, c, id)
  {
  }

  // ---------------------------------------------------------------------
  // Seeding
  // ---------------------------------------------------------------------

  /** The wanted feeds whose names are free right now. */
  function Missing(feeds: map<FeedId, Feed>, wanted: seq<NewFeed>): seq<NewFeed> {
    if wanted == [] then []
    else if NameTaken(feeds, Last(wanted).name) then Missing(feeds, Init(wanted))
    else Missing(feeds, Init(wanted)) + [Last(wanted)]
  }

  function NamesOf(fs: seq<NewFeed>): seq<string> {
    if fs == [] then [] else NamesOf(Init(fs)) + [Last(fs).name]
  }

  lemma {:induction false} MissingAreFree(feeds: map<FeedId, Feed>, wanted: seq<NewFeed>)
    ensures |Missing(feeds, wanted)| <= |wanted|
    ensures forall f :: f in Missing(feeds, wanted) <==> f in wanted && !NameTaken(feeds, f.name)
  {
    hide NameTaken;
    if wanted != [] {
      MissingAreFree(feeds, Init(wanted));
      assert forall f :: f in wanted <==> f in Init(wanted) || f == Last(wanted);
    }
  }

  lemma InsertNames(db: Db, id: FeedId, f: NewFeed, name: string)
    requires id !in db.feeds && InsertFeed(db, id, f).Some?
    ensures NameTaken(InsertFeed(db, id, f).value.feeds, name) <==> NameTaken(db.feeds, name) || name == f.name
  {
    var after := InsertFeed(db, id, f).value.feeds;
    assert after[id].name == f.name;
    if i :| i in db.feeds && db.feeds[i].name == name {
      assert after[i].name == name;
    }
  }

  lemma {:induction false} InsertAllNames(db: Db, ids: seq<FeedId>, fs: seq<NewFeed>, name: string)
    requires |ids| == |fs| && Inv(db) && FreshIds(ids, db.feeds.Keys)
    ensures InsertAll(db, ids, fs).Some? ==>
      (NameTaken(InsertAll(db, ids, fs).value.feeds, name) <==> NameTaken(db.feeds, name) || name in NamesOf(fs))
  {
    hide Inv, NameTaken, SameFeed, InsertFeed;
    if fs != [] {
      assert forall id :: id in ids <==> id in Init(ids) || id == Last(ids);
      InsertAllNames(db, Init(ids), Init(fs), name);
      InsertAllKeepsInv(db, Init(ids), Init(fs));
      if InsertAll(db, ids, fs).Some? {
        assert Last(ids) !in Init(ids);
        InsertNames(InsertAll(db, Init(ids), Init(fs)).value, Last(ids), Last(fs), name);
      }
    }
  }

  lemma {:induction false} NoneTakenInPrefix(db: Db, fs: seq<NewFeed>)
    requires fs != []
    ensures (NoDuplicates(NamesOf(fs)) && forall f :: f in fs ==> !NameTaken(db.feeds, f.name)) <==>
            && NoDuplicates(NamesOf(Init(fs))) && (forall f :: f in Init(fs) ==> !NameTaken(db.feeds, f.name))
            && Last(fs).name !in NamesOf(Init(fs)) && !NameTaken(db.feeds, Last(fs).name)
  {
    hide NameTaken;
    assert NamesOf(fs) == NamesOf(Init(fs)) + [Last(fs).name];
    assert Init(NamesOf(fs)) == NamesOf(Init(fs)) && Last(NamesOf(fs)) == Last(fs).name;
    NoDuplicatesSnoc(NamesOf(Init(fs)), Last(fs).name);
    assert forall f :: f in fs <==> f in Init(fs) || f == Last(fs);
  }

  /** A transaction of inserts commits exactly when its names are free and no two of them are the same. */
  lemma {:induction false} InsertAllExactly(db: Db, ids: seq<FeedId>, fs: seq<NewFeed>)
    requires |ids| == |fs| && Inv(db) && FreshIds(ids, db.feeds.Keys)
    ensures InsertAll(db, ids, fs).Some? <==>
            NoDuplicates(NamesOf(fs)) && forall f :: f in fs ==> !NameTaken(db.feeds, f.name)
  {
    hide Inv, NameTaken, NamesOf, NoDuplicates;
    if fs == [] {
      NoNames();
    } else {
      FreshInit(ids, db.feeds.Keys);
      InsertAllExactly(db, Init(ids), Init(fs));
      InsertAllNames(db, Init(ids), Init(fs), Last(fs).name);
      NoneTakenInPrefix(db, fs);
    }
  }

  lemma NoNames()
    ensures NoDuplicates(NamesOf([]))
  {
  }

  lemma FreshInit(ids: seq<FeedId>, used: set<FeedId>)
    requires ids != [] && FreshIds(ids, used)
    ensures FreshIds(Init(ids), used)
  {
    assert forall id :: id in Init(ids) ==> id in ids;
  }

  lemma FreshPrefix(ids: seq<FeedId>, n: nat, used: set<FeedId>)
    requires n <= |ids| && FreshIds(ids, used)
    ensures FreshIds(ids[..n], used)
  {
    assert forall id :: id in ids[..n] ==> id in ids;
  }

  lemma {:induction false} SeededNames(db: Db, ids: seq<FeedId>, defaults: seq<NewFeed>)
    requires Inv(db) && |ids| == |Missing(db.feeds, defaults)| && FreshIds(ids, db.feeds.Keys)
    requires InsertAll(db, ids, Missing(db.feeds, defaults)).Some?
    ensures forall f :: f in defaults ==>
              NameTaken(InsertAll(db, ids, Missing(db.feeds, defaults)).value.feeds, f.name)
  {
    hide Inv, NameTaken, InsertAll;
    MissingAreFree(db.feeds, defaults);
    forall f | f in defaults
      ensures NameTaken(InsertAll(db, ids, Missing(db.feeds, defaults)).value.feeds, f.name)
    {
      InsertAllNames(db, ids, Missing(db.feeds, defaults), f.name);
      NamesOfMembers(Missing(db.feeds, defaults), f);
    }
  }

  lemma {:induction false} NamesOfMembers(fs: seq<NewFeed>, f: NewFeed)
    ensures f in fs ==> f.name in NamesOf(fs)
  {
    if fs != [] {
      NamesOfMembers(Init(fs), f);
    }
  }

  /** The transaction leaves every feed that was there, and puts each new one under its id. */
  lemma {:induction false} SeededFeeds(db: Db, ids: seq<FeedId>, fs: seq<NewFeed>, id: FeedId)
    requires |ids| == |fs| && Inv(db) && FreshIds(ids, db.feeds.Keys) && InsertAll(db, ids, fs).Some?
    ensures InsertAll(db, ids, fs).value.rows == db.rows
    ensures var after := InsertAll(db, ids, fs).value.feeds;
            && (id in after <==> id in db.feeds || id in ids)
            && (id in db.feeds ==> after[id] == db.feeds[id])
            && (id in ids ==> exists f :: f in fs && after[id] == Created(f))
  {
    hide Inv, Created, NameTaken;
    if fs != [] {
      FreshInit(ids, db.feeds.Keys);
      assert id in ids <==> id in Init(ids) || id == Last(ids);
      SeededFeeds(db, Init(ids), Init(fs), id);
      assert Last(ids) in ids && Last(ids) !in Init(ids);
      assert forall f :: f in Init(fs) ==> f in fs;
      assert Last(fs) in fs;
    }
  }

  /** The look-ups of the seeding loop: the defaults whose names are not in the table. */
  method LookUpMissing(feeds: map<FeedId, Feed>, defaults: seq<NewFeed>) returns (missing: seq<NewFeed>)
    ensures missing == Missing(feeds, defaults)
  {
    hide NameTaken;
    missing := [];
    for i := 0 to |defaults|
      invariant missing == Missing(feeds, defaults[..i])
    {
      InitOfPrefix(defaults, i);
      if !NameTaken(feeds, defaults[i].name) {
        missing := missing + [defaults[i]];
      }
    }
    assert defaults[..|defaults|] == defaults;
  }

  // ---------------------------------------------------------------------
  // Rows by their fields
  // ---------------------------------------------------------------------

  lemma {:induction false} WithoutByFields(rows: seq<Row>, id: FeedId)
    ensures forall r :: multiset(Without(rows, id))[r] == if r.feedId == id then 0 else multiset(rows)[r]
  {
    if rows != [] {
      WithoutByFields(Init(rows), id);
      assert multiset(rows) == multiset(Init(rows)) + multiset{Last(rows)};
    }
  }

  /** The rows of a feed: those with its id, as often as they are stored. */
  lemma {:induction false} RowsOfByFields(rows: seq<Row>, id: FeedId)
    ensures forall r :: multiset(RowsOf(rows, id))[r] == if r.feedId == id then multiset(rows)[r] else 0
  {
    if rows != [] {
      RowsOfByFields(Init(rows), id);
      assert multiset(rows) == multiset(Init(rows)) + multiset{Last(rows)};
    }
  }

  lemma NoRowsToDelete(db: Db, id: FeedId)
    requires Inv(db)
    ensures id !in db.feeds ==> forall r: Row :: r.feedId == id ==> multiset(db.rows)[r] == 0
  {
    forall r: Row | id !in db.feeds && r.feedId == id ensures multiset(db.rows)[r] == 0 {
      assert r !in db.rows;
    }
  }

  /** The rows of other feeds, none lost, and then one row per fetched entry, in order. */
  ghost predicate AreReplaced(before: seq<Row>, id: FeedId, data: seq<CveData>, after: seq<Row>) {
    exists kept :: AreKept(before, id, kept) && |after| == |kept| + |data| && after[..|kept|] == kept
      && forall i :: 0 <= i < |data| ==> after[|kept| + i] == Row(id, data[i])
  }

  ghost predicate AreKept(before: seq<Row>, id: FeedId, kept: seq<Row>) {
    forall r :: multiset(kept)[r] == if r.feedId == id then 0 else multiset(before)[r]
  }

  lemma ReplacedByFields(before: seq<Row>, id: FeedId, data: seq<CveData>)
    ensures AreReplaced(before, id, data, Without(before, id) + ForFeed(id, data))
  {
    hide Without, ForFeed;
    var kept := Without(before, id);
    WithoutByFields(before, id);
    RowsOfNew(id, data, id);
    assert AreKept(before, id, kept);
  }

  /** A default whose name was free, as a feed that was never fetched. */
  ghost predicate IsNewDefault(feeds: map<FeedId, Feed>, defaults: seq<NewFeed>, feed: Feed) {
    exists f :: f in defaults && (forall j :: j in feeds ==> feeds[j].name != f.name)
             && feed == Feed(f.name, f.url, f.feedType, true, None, 0)
  }

  lemma CreatedByFields(feeds: map<FeedId, Feed>, defaults: seq<NewFeed>, f: NewFeed)
    requires f in Missing(feeds, defaults)
    ensures IsNewDefault(feeds, defaults, Created(f))
  {
    MissingAreFree(feeds, defaults);
  }

  // ---------------------------------------------------------------------
  // One session at work on the tables
  // ---------------------------------------------------------------------

  class FeedTables {
    var feeds: map<FeedId, Feed>
    var rows: seq<Row>

    ghost function View(): Db
      reads this
    {
      Db(feeds, rows)
    }

    constructor ()
      ensures View() == Db(map[], []) && Inv(View())
    {
      feeds, rows := map[], [];
    }

    /** POST /feeds: false is the 400 for a name that exists. */
    method AddFeed(id: FeedId, f: NewFeed) returns (added: bool)
      requires Inv(View()) && id !in feeds
      modifies this
      ensures Inv(View())
      ensures added <==> !NameTaken(old(feeds), f.name)
      ensures View() == if added then InsertFeed(old(View()), id, f).value else old(View())
      ensures added <==> forall j :: j in old(feeds) ==> old(feeds)[j].name != f.name
      ensures added ==> rows == old(rows) && feeds == old(feeds)[id := Feed(f.name, f.url, f.feedType, true, None, 0)]
    {
      InsertKeepsInv(View(), id, f);
      if NameTaken(feeds, f.name) {
        return false;
      }
      feeds := feeds[id := Created(f)];
      return true;
    }

    /** ensure_k8s_feed: the id of the one feed with that name, created when missing. */
    method EnsureK8sFeed(newId: FeedId) returns (id: FeedId)
      requires Inv(View()) && newId !in feeds
      modifies this
      ensures Inv(View()) && id in feeds && feeds[id].name == K8S_FEED.name
      ensures NameTaken(old(feeds), K8S_FEED.name) ==> View() == old(View())
      ensures !NameTaken(old(feeds), K8S_FEED.name) ==>
        id == newId && View() == InsertFeed(old(View()), newId, K8S_FEED).value
      ensures feeds[id].name == "Kubernetes Official CVE Feed"
      ensures id !in old(feeds) ==>
        feeds[id].feedType == "json_feed" && feeds[id].enabled && feeds[id].lastFetched == None && feeds[id].entryCount == 0
    {
      if NameTaken(feeds, K8S_FEED.name) {
        id :| id in feeds && feeds[id].name == K8S_FEED.name;
        return;
      }
      InsertKeepsInv(View(), newId, K8S_FEED);
      feeds := feeds[newId := Created(K8S_FEED)];
      return newId;
    }

    /**
     * The startup hook: the defaults whose names are not in the table go into
     * one transaction, which does not see its own pending inserts. It fails as
     * a whole, leaving all as it was, exactly when two of them share a name.
     */
    method SeedDefaults(ids: seq<FeedId>, defaults: seq<NewFeed>) returns (committed: bool)
      requires |ids| == |defaults| && Inv(View()) && FreshIds(ids, feeds.Keys)
      modifies this
      ensures Inv(View())
      ensures committed <==> NoDuplicates(NamesOf(Missing(old(feeds), defaults)))
      ensures !committed ==> View() == old(View())
      ensures committed ==> rows == old(rows) && forall f :: f in defaults ==> NameTaken(feeds, f.name)
      ensures forall id :: id in old(feeds) ==> id in feeds && feeds[id] == old(feeds)[id]
      ensures forall id :: id in feeds && id !in old(feeds) ==>
                id in ids && exists f :: f in Missing(old(feeds), defaults) && feeds[id] == Created(f)
      ensures forall id :: id in feeds && id !in old(feeds) ==> IsNewDefault(old(feeds), defaults, feeds[id])
    {
      hide Inv, NoDuplicates, NamesOf, NameTaken, SameFeed, RowsOf, Missing, InsertAll, Created, FreshIds;
      var missing := LookUpMissing(feeds, defaults);
      MissingAreFree(feeds, defaults);
      var newIds := ids[..|missing|];
      FreshPrefix(ids, |missing|, feeds.Keys);
      InsertAllExactly(View(), newIds, missing);
      InsertAllKeepsInv(View(), newIds, missing);
      var outcome := InsertAll(Db(feeds, rows), newIds, missing);
      if outcome.None? {
        return false;
      }
      SeededNames(View(), newIds, defaults);
      forall id ensures && (id in outcome.value.feeds <==> id in feeds || id in newIds)
                        && (id in feeds ==> outcome.value.feeds[id] == feeds[id])
                        && (id in newIds ==> exists f :: f in missing && outcome.value.feeds[id] == Created(f)) {
        SeededFeeds(View(), newIds, missing, id);
      }
      forall id | id in newIds ensures IsNewDefault(feeds, defaults, outcome.value.feeds[id]) {
        var f :| f in missing && outcome.value.feeds[id] == Created(f);
        CreatedByFields(feeds, defaults, f);
      }
      feeds := outcome.value.feeds;
      return true;
    }

    /** DELETE /feeds/{id}: false is the 404. */
    method DeleteFeed(id: FeedId) returns (found: bool)
      requires Inv(View())
      modifies this
      ensures Inv(View()) && (found <==> id in old(feeds))
      ensures View() == if found then Delete(old(View()), id) else old(View())
      ensures feeds == old(feeds) - {id}
      ensures forall r :: multiset(rows)[r] == if r.feedId == id then 0 else multiset(old(rows))[r]
    {
      WithoutByFields(rows, id);
      NoRowsToDelete(View(), id);
      DeleteKeepsInv(View(), id);
      if id !in feeds {
        return false;
      }
      feeds, rows := feeds - {id}, Without(rows, id);
      return true;
    }

    /** PATCH /feeds/{id}/toggle: the new setting, or None for the 404. */
    method ToggleFeed(id: FeedId) returns (enabled: Option<bool>)
      requires Inv(View())
      modifies this
      ensures Inv(View()) && View() == Toggle(old(View()), id)
      ensures enabled == if id in old(feeds) then Some(!old(feeds)[id].enabled) else None
      ensures rows == old(rows)
      ensures feeds == if id !in old(feeds) then old(feeds)
                       else old(feeds)[id := old(feeds)[id].(enabled := !old(feeds)[id].enabled)]
    {
      ToggleKeepsInv(View(), id);
      if id !in feeds {
        return None;
      }
      feeds := feeds[id := feeds[id].(enabled := !feeds[id].enabled)];
      return Some(feeds[id].enabled);
    }

    /** refresh_feed with what the fetch gave; a failed fetch, or an unknown feed, raises before anything is written. */
    method RefreshFeed(id: FeedId, fetched: Option<seq<CveData>>, now: nat) returns (loaded: Option<nat>)
      requires Inv(View())
      modifies this
      ensures Inv(View())
      ensures loaded == if id in old(feeds) && fetched.Some? then Some(|fetched.value|) else None
      ensures View() == if loaded.Some? then Replace(old(View()), id, fetched.value, now) else old(View())
      ensures loaded.None? ==> feeds == old(feeds) && rows == old(rows)
      ensures loaded.Some? ==>
        && feeds == old(feeds)[id := old(feeds)[id].(lastFetched := Some(now), entryCount := |fetched.value|)]
        && AreReplaced(old(rows), id, fetched.value, rows)
    {
      if id !in feeds || fetched.None? {
        return None;
      }
      ReplacedByFields(rows, id, fetched.value);
      ReplaceKeepsInv(View(), id, fetched.value, now);
      rows := Without(rows, id);
      rows := rows + ForFeed(id, fetched.value);
      feeds := feeds[id := feeds[id].(lastFetched := Some(now), entryCount := |fetched.value|)];
      return Some(|fetched.value|);
    }

    /** refresh_all_feeds: every enabled feed that could be fetched is replaced, every other feed is as before. */
    method RefreshAll(fetched: map<FeedId, seq<CveData>>, now: nat) returns (loaded: map<FeedId, nat>)
      requires Inv(View())
      modifies this
      ensures Inv(View())
      ensures forall j :: RefreshedTo(old(View()), View(), IsEnabled(old(feeds), j), j, fetched, now)
      ensures forall j :: j in loaded <==> j in old(feeds) && old(feeds)[j].enabled && j in fetched
      ensures forall j :: j in loaded ==> loaded[j] == |fetched[j]|
    {
      hide RefreshedTo, Inv, Replace;
      loaded := map[];
      ghost var before := View();
      var todo := set j | j in feeds && feeds[j].enabled;
      NothingRefreshed(before, fetched, now);
      while todo != {}
        invariant Inv(View())
        invariant forall j :: j in todo ==> IsEnabled(before.feeds, j)
        invariant forall j :: RefreshedTo(before, View(), IsEnabled(before.feeds, j) && j !in todo, j, fetched, now)
        invariant forall j :: j in loaded <==> IsEnabled(before.feeds, j) && j in fetched && j !in todo
        invariant forall j :: j in loaded ==> loaded[j] == |fetched[j]|
        decreases |todo|
      {
        var id :| id in todo;
        ghost var middle := View();
        RefreshOne(before, middle, todo, id, fetched, now);
        todo := todo - {id};
        var result := RefreshFeed(id, if id in fetched then Some(fetched[id]) else None, now);
        if result.Some? {
          loaded := loaded[id := result.value];
        }
      }
    }
  }

  predicate IsEnabled(feeds: map<FeedId, Feed>, id: FeedId) {
    id in feeds && feeds[id].enabled
  }

  /** What refreshing, if it is j's turn, leaves of feed j. */
  ghost predicate RefreshedTo(before: Db, after: Db, turn: bool, j: FeedId, fetched: map<FeedId, seq<CveData>>, now: nat) {
    if turn && j in before.feeds && j in fetched
    then && j in after.feeds
         && after.feeds[j] == before.feeds[j].(lastFetched := Some(now), entryCount := |fetched[j]|)
         && RowsOf(after.rows, j) == ForFeed(j, fetched[j])
    else SameFeed(before, after, j)
  }

  lemma NothingRefreshed(db: Db, fetched: map<FeedId, seq<CveData>>, now: nat)
    ensures forall j :: RefreshedTo(db, db, false, j, fetched, now)
  {
  }

  lemma RefreshOne(before: Db, middle: Db, todo: set<FeedId>, id: FeedId,
                                      fetched: map<FeedId, seq<CveData>>, now: nat)
    requires Inv(middle) && id in todo && IsEnabled(before.feeds, id)
    requires forall j :: RefreshedTo(before, middle, IsEnabled(before.feeds, j) && j !in todo, j, fetched, now)
    ensures id in middle.feeds
    ensures var after := if id in fetched then Replace(middle, id, fetched[id], now) else middle;
            forall j :: RefreshedTo(before, after, IsEnabled(before.feeds, j) && j !in todo - {id}, j, fetched, now)
  {
    hide RowsOf, ForFeed, Without, Inv;
    assert RefreshedTo(before, middle, false, id, fetched, now);
    if id in fetched {
      ReplaceKeepsInv(middle, id, fetched[id], now);
      var after := Replace(middle, id, fetched[id], now);
      forall j | j != id
        ensures RefreshedTo(before, after, IsEnabled(before.feeds, j) && j !in todo - {id}, j, fetched, now)
      {
        assert RefreshedTo(before, middle, IsEnabled(before.feeds, j) && j !in todo, j, fetched, now);
        assert SameFeed(middle, after, j);
      }
    }
  }
}
