/**
 The event-sourced read model: an append-only log of transitions with a unique (bid, seq) key, and
 one row per bid that is maintained incrementally. Costs are whole micro-USD, the scale of both columns.
 */
module Projection {
  import opened Prelude

  datatype Entry = Entry(bidId: string, workflowId: string, seqNo: nat, tenantId: string, fromState: Option<string>,
                         toState: string, profile: string, artifactKeys: seq<string>, occurredAt: string,
                         cost: Option<int>)

  datatype Row = Row(workflowId: string, tenantId: string, currentState: string, profile: string, clientName: string,
                     industry: string, lastSeq: nat, lastAt: string, artifactsDone: map<string, string>,
                     isTerminal: bool, outcome: Option<string>, totalCost: int)

  datatype Store = Store(log: seq<Entry>, rows: map<string, Row>)

  const EMPTY := Store([], map[])

  predicate IsTerminal(state: string) {
    state == "S11_DONE" || state == "S9_BLOCKED" || state == "S1_NO_BID"
  }

  function OutcomeOf(state: string): Option<string> {
    if state == "S11_DONE" then Some("COMPLETED")
    else if state == "S9_BLOCKED" then Some("BLOCKED")
    else if state == "S1_NO_BID" then Some("NO_BID")
    else None
  }

  /** The three final states and what each is reported as; every other state has no outcome yet. */
  lemma OutcomesOfFinalStates(state: string)
    ensures IsTerminal(state) <==> OutcomeOf(state).Some?
    ensures OutcomeOf("S11_DONE") == Some("COMPLETED") && OutcomeOf("S9_BLOCKED") == Some("BLOCKED")
    ensures OutcomeOf("S1_NO_BID") == Some("NO_BID")
    ensures IsTerminal(state) ==> state == "S11_DONE" || state == "S9_BLOCKED" || state == "S1_NO_BID"
  {
    assert "S9_BLOCKED"[1] != "S11_DONE"[1] && "S1_NO_BID"[2] != "S11_DONE"[2];
  }

  // ---------------------------------------------------------------- one entry

  predicate SameKey(e: Entry, f: Entry) {
    e.bidId == f.bidId && e.seqNo == f.seqNo
  }

  predicate InLog(log: seq<Entry>, e: Entry) {
    exists i :: 0 <= i < |log| && SameKey(log[i], e)
  }

  /** First-seen timestamps win. */
  function Stamp(done: map<string, string>, keys: seq<string>, at: string): map<string, string> {
    map k | k in done.Keys + Elements(keys) :: if k in done then done[k] else at
  }

  function Find(rows: map<string, Row>, bidId: string): Option<Row> {
    if bidId in rows then Some(rows[bidId]) else None
  }

  /** The row written for an entry newer than the row there is, if any. */
  function Advanced(existing: Option<Row>, e: Entry, isNew: bool): Row {
    Row(e.workflowId, e.tenantId, e.toState, e.profile,
        if existing.Some? then existing.value.clientName else "",
        if existing.Some? then existing.value.industry else "",
        e.seqNo, e.occurredAt,
        Stamp(if existing.Some? then existing.value.artifactsDone else map[], e.artifactKeys, e.occurredAt),
        IsTerminal(e.toState), OutcomeOf(e.toState),
        (if existing.Some? then existing.value.totalCost else 0) + if isNew then CostOf(e.cost) else 0)
  }

  /** A late or repeated entry touches nothing but the cost, and that only when it is new to the log. */
  function Upserted(existing: Option<Row>, e: Entry, isNew: bool): Row {
    if existing.Some? && e.seqNo <= existing.value.lastSeq then
      existing.value.(totalCost := existing.value.totalCost + if isNew then CostOf(e.cost) else 0)
    else Advanced(existing, e, isNew)
  }

  function Apply(s: Store, e: Entry): Store {
    var isNew := !InLog(s.log, e);
    Store(if isNew then s.log + [e] else s.log,
          s.rows[e.bidId := Upserted(Find(s.rows, e.bidId), e, isNew)])
  }

  function ApplyAll(s: Store, entries: seq<Entry>): Store {
    if entries == [] then s else Apply(ApplyAll(s, entries[..|entries| - 1]), entries[|entries| - 1])
  }

  lemma ApplyAllSnoc(s: Store, entries: seq<Entry>, e: Entry)
    ensures ApplyAll(s, entries + [e]) == Apply(ApplyAll(s, entries), e)
  {
    assert (entries + [e])[..|entries|] == entries;
  }

  // ---------------------------------------------------------------- the view of a log

  ghost predicate UniqueKeys(log: seq<Entry>) {
    forall i, j :: 0 <= i < j < |log| ==> !SameKey(log[i], log[j])
  }

  /** `e` is the newest logged transition of its bid. */
  ghost predicate Newest(log: seq<Entry>, e: Entry) {
    e in log && forall f :: f in log && f.bidId == e.bidId ==> f.seqNo <= e.seqNo
  }

  /** `e` is newer than everything logged of its bid. */
  predicate Advances(log: seq<Entry>, e: Entry) {
    forall i :: 0 <= i < |log| && log[i].bidId == e.bidId ==> log[i].seqNo < e.seqNo
  }

  function TotalCost(log: seq<Entry>, bidId: string): int {
    if log == [] then 0 else
      var e := log[|log| - 1];
      TotalCost(log[..|log| - 1], bidId) + if e.bidId == bidId then CostOf(e.cost) else 0
  }

  /** The stamps left by the entries that arrived on time. */
  function Stamps(log: seq<Entry>, bidId: string): map<string, string> {
    if log == [] then map[] else
      var before, e := log[..|log| - 1], log[|log| - 1];
      if e.bidId == bidId && Advances(before, e) then Stamp(Stamps(before, bidId), e.artifactKeys, e.occurredAt)
      else Stamps(before, bidId)
  }

  /** `row` shows transition `e`. */
  predicate Shows(row: Row, e: Entry) {
    && row.workflowId == e.workflowId && row.tenantId == e.tenantId && row.profile == e.profile
    && row.currentState == e.toState && row.lastSeq == e.seqNo && row.lastAt == e.occurredAt
    && row.isTerminal == IsTerminal(e.toState) && row.outcome == OutcomeOf(e.toState)
    && row.clientName == "" && row.industry == ""
  }

  /** The row is a function of the log alone: newest transition, sum of costs, stamps of what came on time. */
  ghost predicate RowOk(log: seq<Entry>, bidId: string, row: Row) {
    && (exists e :: Newest(log, e) && e.bidId == bidId && Shows(row, e))
    && row.totalCost == TotalCost(log, bidId)
    && row.artifactsDone == Stamps(log, bidId)
  }

  ghost predicate Logged(log: seq<Entry>, bidId: string) {
    exists e :: e in log && e.bidId == bidId
  }

  /** The rows are a materialised view of the log. */
  ghost predicate View(s: Store) {
    && UniqueKeys(s.log)
    && (forall bidId {:trigger Logged(s.log, bidId)} :: bidId in s.rows <==> Logged(s.log, bidId))
    && (forall bidId {:trigger s.rows[bidId]} :: bidId in s.rows ==> RowOk(s.log, bidId, s.rows[bidId]))
  }

  // ---------------------------------------------------------------- every entry keeps the view

  lemma AppendedLog(log: seq<Entry>, e: Entry)
    requires UniqueKeys(log) && !InLog(log, e)
    ensures UniqueKeys(log + [e])
    ensures forall f :: f in log + [e] <==> f in log || f == e
    ensures (log + [e])[..|log|] == log
  {
  }

  lemma NewestIs(log: seq<Entry>, bidId: string, row: Row) returns (e: Entry)
    requires RowOk(log, bidId, row)
    ensures Newest(log, e) && e.bidId == bidId && Shows(row, e)
  {
    e :| Newest(log, e) && e.bidId == bidId && Shows(row, e);
  }

  /** An entry already logged changes nothing. */
  lemma ReplayIsNoOp(s: Store, e: Entry)
    requires View(s) && InLog(s.log, e)
    ensures Apply(s, e) == s
  {
    var i :| 0 <= i < |s.log| && SameKey(s.log[i], e);
    assert Logged(s.log, e.bidId);
    var newest := NewestIs(s.log, e.bidId, s.rows[e.bidId]);
    assert s.log[i].seqNo <= newest.seqNo;
    assert s.rows[e.bidId := s.rows[e.bidId]] == s.rows;
  }

  lemma AdvancesIsNewer(log: seq<Entry>, e: Entry, newest: Entry)
    requires Newest(log, newest) && newest.bidId == e.bidId
    ensures Advances(log, e) <==> newest.seqNo < e.seqNo
  {
    var i :| 0 <= i < |log| && log[i] == newest;
  }

  lemma KeyDiffers(log: seq<Entry>, e: Entry, f: Entry)
    requires !InLog(log, e) && f in log
    ensures !SameKey(f, e)
  {
    var i :| 0 <= i < |log| && log[i] == f;
  }

  lemma SnocFolds(log: seq<Entry>, e: Entry)
    ensures TotalCost(log + [e], e.bidId) == TotalCost(log, e.bidId) + CostOf(e.cost)
    ensures Stamps(log + [e], e.bidId)
            == if Advances(log, e) then Stamp(Stamps(log, e.bidId), e.artifactKeys, e.occurredAt)
               else Stamps(log, e.bidId)
  {
    assert (log + [e])[..|log|] == log;
  }

  lemma ViewRow(s: Store, bidId: string)
    requires View(s)
    ensures UniqueKeys(s.log) && (bidId in s.rows <==> Logged(s.log, bidId))
    ensures bidId in s.rows ==> RowOk(s.log, bidId, s.rows[bidId])
  {
    hide UniqueKeys, RowOk;
    assert bidId in s.rows <==> Logged(s.log, bidId);
  }

  /** A new entry of the bid leaves that bid's row right. */
  lemma NewEntryRow(s: Store, e: Entry)
    requires View(s) && !InLog(s.log, e)
    ensures RowOk(s.log + [e], e.bidId, Apply(s, e).rows[e.bidId])
  {
    hide View, Logged, UniqueKeys, TotalCost, Stamps, Stamp, Advances, InLog, IsTerminal, OutcomeOf, CostOf;
    ViewRow(s, e.bidId);
    SnocFolds(s.log, e);
    AppendedLog(s.log, e);
    var row := Apply(s, e).rows[e.bidId];
    if Logged(s.log, e.bidId) {
      var newest := NewestIs(s.log, e.bidId, s.rows[e.bidId]);
      AdvancesIsNewer(s.log, e, newest);
      KeyDiffers(s.log, e, newest);
      if newest.seqNo < e.seqNo {
        assert Newest(s.log + [e], e) && Shows(row, e);
      } else {
        assert Newest(s.log + [e], newest) && Shows(row, newest);
      }
    } else {
      NothingLogged(s.log, e.bidId);
      NothingToPass(s.log, e);
      assert Newest(s.log + [e], e) && Shows(row, e);
    }
  }

  /** What the row of a bid has cost so far; a bid without a row has cost nothing. */
  function Spent(rows: map<string, Row>, bidId: string): int {
    if bidId in rows then rows[bidId].totalCost else 0
  }

  /** A cost is added once, with the first entry of its key, on time or late; an entry without one adds nothing. */
  lemma CostIsAddedOnce(s: Store, e: Entry)
    requires View(s)
    ensures e.bidId in Apply(s, e).rows
    ensures Apply(s, e).rows[e.bidId].totalCost
            == if InLog(s.log, e) then Spent(s.rows, e.bidId)
               else match e.cost case None => Spent(s.rows, e.bidId) case Some(c) => Spent(s.rows, e.bidId) + c
    ensures forall b :: b != e.bidId ==> Spent(Apply(s, e).rows, b) == Spent(s.rows, b)
  {
    if InLog(s.log, e) { ReplayIsNoOp(s, e); }
  }

  lemma {:induction false} NothingLogged(log: seq<Entry>, bidId: string)
    requires !Logged(log, bidId)
    ensures TotalCost(log, bidId) == 0 && Stamps(log, bidId) == map[]
    ensures forall i :: 0 <= i < |log| ==> log[i].bidId != bidId
  {
    forall i | 0 <= i < |log|
      ensures log[i].bidId != bidId
    {
      assert log[i] in log;
    }
    if log != [] { NothingLogged(log[..|log| - 1], bidId); }
  }

  lemma NothingToPass(log: seq<Entry>, e: Entry)
    requires !Logged(log, e.bidId)
    ensures Advances(log, e)
  {
    NothingLogged(log, e.bidId);
  }

  /** A new entry of another bid leaves this row right. */
  lemma OtherRow(log: seq<Entry>, e: Entry, bidId: string, row: Row)
    requires UniqueKeys(log) && !InLog(log, e) && RowOk(log, bidId, row) && e.bidId != bidId
    ensures RowOk(log + [e], bidId, row)
  {
    AppendedLog(log, e);
    var newest := NewestIs(log, bidId, row);
    assert Newest(log + [e], newest);
  }

  /** Every entry keeps the rows a materialised view of the log, duplicates and late entries included. */
  lemma ApplyKeepsView(s: Store, e: Entry)
    requires View(s)
    ensures View(Apply(s, e))
  {
    if InLog(s.log, e) {
      ReplayIsNoOp(s, e);
    } else {
      var after := Apply(s, e);
      AppendedLog(s.log, e);
      forall bidId
        ensures bidId in after.rows <==> Logged(after.log, bidId)
        ensures bidId in after.rows ==> RowOk(after.log, bidId, after.rows[bidId])
      {
        assert Logged(after.log, bidId) <==> Logged(s.log, bidId) || bidId == e.bidId by {
          assert e in after.log;
        }
        if bidId == e.bidId {
          NewEntryRow(s, e);
        } else if bidId in s.rows {
          OtherRow(s.log, e, bidId, s.rows[bidId]);
        }
      }
    }
  }

  lemma {:induction false} ApplyAllKeepsView(s: Store, entries: seq<Entry>)
    requires View(s)
    ensures View(ApplyAll(s, entries))
  {
    if entries != [] {
      ApplyAllKeepsView(s, entries[..|entries| - 1]);
      ApplyKeepsView(ApplyAll(s, entries[..|entries| - 1]), entries[|entries| - 1]);
    }
  }

  // ---------------------------------------------------------------- what a delivery leaves behind

  /** One content per key: what one producer that numbers its events emits. */
  ghost predicate OneContent(entries: seq<Entry>) {
    forall e, f :: e in entries && f in entries && SameKey(e, f) ==> e == f
  }

  lemma {:induction false} LogHoldsDelivered(entries: seq<Entry>)
    ensures var log := ApplyAll(EMPTY, entries).log;
            (forall e :: e in log ==> e in entries) && (forall e :: e in entries ==> InLog(log, e))
  {
    if entries != [] {
      var n := |entries| - 1;
      var before := ApplyAll(EMPTY, entries[..n]).log;
      var log := ApplyAll(EMPTY, entries).log;
      LogHoldsDelivered(entries[..n]);
      assert entries == entries[..n] + [entries[n]];
      forall e | e in entries
        ensures InLog(log, e)
      {
        if InLog(before, e) {
          var i :| 0 <= i < |before| && SameKey(before[i], e);
          assert log[i] == before[i];
        } else {
          assert e == entries[n] && log[|before|] == e;
        }
      }
    }
  }

  /** The log holds exactly the entries delivered, each once, whatever the order and the repeats. */
  lemma LogIsDelivered(entries: seq<Entry>)
    requires OneContent(entries)
    ensures var log := ApplyAll(EMPTY, entries).log;
            UniqueKeys(log) && forall e :: e in log <==> e in entries
  {
    EmptyView();
    ApplyAllKeepsView(EMPTY, entries);
    LogHoldsDelivered(entries);
    var log := ApplyAll(EMPTY, entries).log;
    forall e | e in entries
      ensures e in log
    {
      var i :| 0 <= i < |log| && SameKey(log[i], e);
      assert log[i] in entries;
    }
  }

  lemma EmptyView()
    ensures View(EMPTY)
  {
  }

  // ---------------------------------------------------------------- the first delivery of each key

  /** The entries whose key had not been delivered before, in the order of delivery. */
  function Firsts(entries: seq<Entry>): seq<Entry> {
    if entries == [] then [] else
      var n := |entries| - 1;
      Firsts(entries[..n]) + if InLog(entries[..n], entries[n]) then [] else [entries[n]]
  }

  /** The log is the first deliveries: whatever else came with a key that was logged is lost. */
  lemma {:induction false} LogIsFirsts(entries: seq<Entry>)
    ensures ApplyAll(EMPTY, entries).log == Firsts(entries)
  {
    if entries != [] {
      var n := |entries| - 1;
      var log := ApplyAll(EMPTY, entries[..n]).log;
      LogIsFirsts(entries[..n]);
      LogHoldsDelivered(entries[..n]);
      if InLog(log, entries[n]) {
        var i :| 0 <= i < |log| && SameKey(log[i], entries[n]);
        assert log[i] in entries[..n];
      } else {
        NotDelivered(entries[..n], entries[n]);
      }
    }
  }

  lemma FirstsElements(entries: seq<Entry>)
    ensures UniqueKeys(Firsts(entries))
    ensures forall e :: e in Firsts(entries) ==> e in entries
    ensures forall e :: e in entries ==> InLog(Firsts(entries), e)
  {
    hide ApplyAll, Firsts;
    EmptyView();
    ApplyAllKeepsView(EMPTY, entries);
    LogIsFirsts(entries);
    LogHoldsDelivered(entries);
  }

  /** Later deliveries never displace a first one. */
  lemma {:induction false} FirstsAppend(before: seq<Entry>, after: seq<Entry>)
    ensures Firsts(before) <= Firsts(before + after)
    ensures forall e :: e in Firsts(before + after) ==> e in Firsts(before) || e in after
  {
    if after == [] {
      assert before + after == before;
    } else {
      var n := |after| - 1;
      FirstsAppend(before, after[..n]);
      assert (before + after)[..|before + after| - 1] == before + after[..n];
    }
  }

  lemma {:induction false} ApplyAllAppend(s: Store, a: seq<Entry>, b: seq<Entry>)
    ensures ApplyAll(s, a + b) == ApplyAll(ApplyAll(s, a), b)
  {
    hide Apply;
    if b == [] {
      assert a + b == a;
    } else {
      var n := |b| - 1;
      ApplyAllAppend(s, a, b[..n]);
      assert (a + b)[..|a + b| - 1] == a + b[..n];
    }
  }

  /** A delivery whose entries of the bid all repeat logged keys leaves the bid's row as it is, artifacts and all. */
  lemma {:induction false} ReplaysKeepRow(s: Store, entries: seq<Entry>, bidId: string)
    requires View(s) && forall e :: e in entries && e.bidId == bidId ==> InLog(s.log, e)
    ensures var after := ApplyAll(s, entries);
            View(after) && s.log <= after.log && Find(after.rows, bidId) == Find(s.rows, bidId)
  {
    hide View, UniqueKeys, Upserted;
    if entries != [] {
      var n := |entries| - 1;
      var before, e := ApplyAll(s, entries[..n]), entries[n];
      ReplaysKeepRow(s, entries[..n], bidId);
      ApplyKeepsView(before, e);
      if e.bidId == bidId {
        var i :| 0 <= i < |s.log| && SameKey(s.log[i], e);
        assert before.log[i] == s.log[i];
        ReplayIsNoOp(before, e);
      }
    }
  }

  /** A delivery of nothing but logged keys changes nothing at all. */
  lemma {:induction false} ReplaysAreNoOp(s: Store, entries: seq<Entry>)
    requires View(s) && forall e :: e in entries ==> InLog(s.log, e)
    ensures ApplyAll(s, entries) == s
  {
    hide View, Apply, InLog;
    if entries != [] {
      var n := |entries| - 1;
      ReplaysAreNoOp(s, entries[..n]);
      ReplayIsNoOp(s, entries[n]);
    }
  }

  function Without(log: seq<Entry>, i: nat): seq<Entry>
    requires i < |log|
  {
    log[..i] + log[i + 1..]
  }

  lemma TotalCostSnoc(log: seq<Entry>, e: Entry, bidId: string)
    ensures TotalCost(log + [e], bidId) == TotalCost(log, bidId) + if e.bidId == bidId then CostOf(e.cost) else 0
  {
    assert (log + [e])[..|log|] == log;
  }

  lemma {:induction false} TotalCostWithout(log: seq<Entry>, i: nat, bidId: string)
    requires i < |log|
    ensures TotalCost(log, bidId)
            == TotalCost(Without(log, i), bidId) + if log[i].bidId == bidId then CostOf(log[i].cost) else 0
  {
    var n := |log| - 1;
    if i == n {
      assert Without(log, i) == log[..n];
    } else {
      TotalCostWithout(log[..n], i, bidId);
      assert Without(log, i) == Without(log[..n], i) + [log[n]];
      TotalCostSnoc(Without(log[..n], i), log[n], bidId);
    }
  }

  lemma WithoutElements(log: seq<Entry>, i: nat)
    requires i < |log| && UniqueKeys(log)
    ensures UniqueKeys(Without(log, i))
    ensures forall e :: e in Without(log, i) <==> e in log && e != log[i]
  {
    var rest := Without(log, i);
    forall e | e in rest
      ensures e in log && e != log[i]
    {
      var k :| 0 <= k < |rest| && rest[k] == e;
      assert e == log[if k < i then k else k + 1];
    }
    forall e | e in log && e != log[i]
      ensures e in rest
    {
      var k :| 0 <= k < |log| && log[k] == e;
      assert e == rest[if k < i then k else k - 1];
    }
  }

  /** The cost depends on which entries are logged, not on their order. */
  lemma {:induction false} TotalCostOrderFree(a: seq<Entry>, b: seq<Entry>, bidId: string)
    requires UniqueKeys(a) && UniqueKeys(b) && forall e :: e in a <==> e in b
    ensures TotalCost(a, bidId) == TotalCost(b, bidId)
  {
    if a == [] {
      NoElements(b);
    } else {
      var n := |a| - 1;
      assert a[n] in b;
      var i :| 0 <= i < |b| && b[i] == a[n];
      assert Without(a, n) == a[..n];
      WithoutElements(a, n);
      WithoutElements(b, i);
      TotalCostOrderFree(a[..n], Without(b, i), bidId);
      TotalCostWithout(b, i, bidId);
    }
  }

  /** Everything in a row except `artifactsDone`. */
  function Core(row: Row): Row {
    row.(artifactsDone := map[])
  }

  /** Two views of logs with the same entries agree on every row but for `artifactsDone`. */
  lemma {:induction false} SameLogSameRow(a: Store, b: Store, bidId: string)
    requires View(a) && View(b) && bidId in a.rows
    requires forall e :: e in a.log <==> e in b.log
    ensures bidId in b.rows && Core(a.rows[bidId]) == Core(b.rows[bidId])
  {
    var e := NewestIs(a.log, bidId, a.rows[bidId]);
    assert e in b.log;
    assert Logged(b.log, bidId);
    var f := NewestIs(b.log, bidId, b.rows[bidId]);
    assert f in a.log && SameKey(e, f);
    var i :| 0 <= i < |a.log| && a.log[i] == e;
    var j :| 0 <= j < |a.log| && a.log[j] == f;
    TotalCostOrderFree(a.log, b.log, bidId);
  }

  /**
   Confluence: two deliveries of the same entries, in any order and with any repeats, log the same
   entries and end in the same rows in every field except `artifactsDone`.
   */
  lemma {:induction false} Confluence(a: seq<Entry>, b: seq<Entry>)
    requires OneContent(a) && forall e :: e in a <==> e in b
    ensures var x, y := ApplyAll(EMPTY, a), ApplyAll(EMPTY, b);
            && |x.log| == |y.log| && (forall e :: e in x.log <==> e in y.log)
            && x.rows.Keys == y.rows.Keys
            && forall bidId :: bidId in x.rows ==> Core(x.rows[bidId]) == Core(y.rows[bidId])
  {
    hide View, UniqueKeys, ApplyAll;
    var x, y := ApplyAll(EMPTY, a), ApplyAll(EMPTY, b);
    EmptyView();
    ApplyAllKeepsView(EMPTY, a);
    ApplyAllKeepsView(EMPTY, b);
    LogIsDelivered(a);
    LogIsDelivered(b);
    SameLength(x.log, y.log);
    forall bidId
      ensures bidId in x.rows ==> bidId in y.rows && Core(x.rows[bidId]) == Core(y.rows[bidId])
      ensures bidId in y.rows ==> bidId in x.rows
    {
      if bidId in x.rows { SameLogSameRow(x, y, bidId); }
      if bidId in y.rows { SameLogSameRow(y, x, bidId); }
    }
  }

  lemma {:induction false} SameLength(a: seq<Entry>, b: seq<Entry>)
    requires UniqueKeys(a) && UniqueKeys(b) && forall e :: e in a <==> e in b
    ensures |a| == |b|
  {
    if a == [] {
      NoElements(b);
    } else {
      var n := |a| - 1;
      assert a[n] in b;
      var i :| 0 <= i < |b| && b[i] == a[n];
      assert Without(a, n) == a[..n];
      WithoutElements(a, n);
      WithoutElements(b, i);
      SameLength(a[..n], Without(b, i));
    }
  }

  // ---------------------------------------------------------------- `artifactsDone` and delivery order

  /** Entry `i` of the log was newer than everything logged of its bid before it. */
  predicate OnTime(log: seq<Entry>, i: nat, bidId: string) {
    i < |log| && log[i].bidId == bidId && Advances(log[..i], log[i])
  }

  /** Key `k` was stamped by entry `i`: the first on-time entry that carries it. */
  ghost predicate StampedBy(log: seq<Entry>, bidId: string, k: string, i: nat) {
    && i < |log| && OnTime(log, i, bidId) && k in log[i].artifactKeys
    && forall j: nat :: j < i && OnTime(log, j, bidId) ==> k !in log[j].artifactKeys
  }

  lemma OnTimePrefix(log: seq<Entry>, i: nat, bidId: string)
    requires i < |log| - 1
    ensures OnTime(log, i, bidId) == OnTime(log[..|log| - 1], i, bidId)
  {
    assert log[..|log| - 1][..i] == log[..i];
  }

  lemma StampedPrefix(log: seq<Entry>, bidId: string, k: string, i: nat)
    requires i < |log| - 1
    ensures StampedBy(log, bidId, k, i) == StampedBy(log[..|log| - 1], bidId, k, i)
  {
    forall j: nat | j <= i
      ensures OnTime(log, j, bidId) == OnTime(log[..|log| - 1], j, bidId)
    {
      OnTimePrefix(log, j, bidId);
    }
  }

  /** A stamp is there exactly when an on-time entry carries the key, and it is the first such entry's time. */
  lemma {:induction false} StampsExact(log: seq<Entry>, bidId: string, k: string)
    ensures k in Stamps(log, bidId) <==> exists i: nat :: StampedBy(log, bidId, k, i)
    ensures forall i: nat :: StampedBy(log, bidId, k, i) ==> Stamps(log, bidId)[k] == log[i].occurredAt
    ensures forall i: nat :: i < |log| && OnTime(log, i, bidId) && k in log[i].artifactKeys ==> k in Stamps(log, bidId)
  {
    hide OnTime, Stamp;
    if log != [] {
      var n := |log| - 1;
      var before, e := log[..n], log[n];
      StampsExact(before, bidId, k);
      forall i: nat | i < n
        ensures StampedBy(log, bidId, k, i) == StampedBy(before, bidId, k, i)
        ensures OnTime(log, i, bidId) == OnTime(before, i, bidId)
      {
        StampedPrefix(log, bidId, k, i);
        OnTimePrefix(log, i, bidId);
      }
      StampsLast(log, bidId, k);
      if k in Stamps(before, bidId) {
        var i: nat :| StampedBy(before, bidId, k, i);
        assert StampedBy(log, bidId, k, i);
      } else if k in Stamps(log, bidId) {
        assert StampedBy(log, bidId, k, n);
      }
    }
  }

  lemma StampsLast(log: seq<Entry>, bidId: string, k: string)
    requires log != []
    ensures var n := |log| - 1;
            var before := Stamps(log[..n], bidId);
            var after := Stamps(log, bidId);
            && (k in after <==> k in before || (OnTime(log, n, bidId) && k in log[n].artifactKeys))
            && (k in before ==> after[k] == before[k])
            && (k in after && k !in before ==> after[k] == log[n].occurredAt)
  {
  }

  ghost predicate LateAt(log: seq<Entry>, i: nat, bidId: string) {
    i < |log| && log[i].bidId == bidId && !OnTime(log, i, bidId)
  }

  ghost predicate CarriedOnTime(log: seq<Entry>, bidId: string, k: string) {
    exists j: nat :: j < |log| && OnTime(log, j, bidId) && k in log[j].artifactKeys
  }

  /**
   `artifactsDone` names every artifact the log does exactly when each key that came late also came
   on time: late entries do not merge theirs.
   */
  lemma {:induction false} ArtifactsCompleteIff(s: Store, bidId: string)
    requires View(s) && bidId in s.rows
    ensures (forall e, k :: e in s.log && e.bidId == bidId && k in e.artifactKeys ==> k in s.rows[bidId].artifactsDone)
      <==> (forall i: nat, k ::
              LateAt(s.log, i, bidId) && k in s.log[i].artifactKeys ==> CarriedOnTime(s.log, bidId, k))
  {
    var log, done := s.log, s.rows[bidId].artifactsDone;
    assert RowOk(log, bidId, s.rows[bidId]);
    forall k
      ensures k in done <==> CarriedOnTime(log, bidId, k)
    {
      StampsExact(log, bidId, k);
    }
    if forall i: nat, k :: LateAt(log, i, bidId) && k in log[i].artifactKeys ==> CarriedOnTime(log, bidId, k) {
      forall e, k | e in log && e.bidId == bidId && k in e.artifactKeys
        ensures k in done
      {
        var i :| 0 <= i < |log| && log[i] == e;
        assert OnTime(log, i, bidId) || LateAt(log, i, bidId);
      }
    }
  }

  function Sample(seqNo: nat, toState: string, key: string, at: string): Entry {
    Entry("bid", "wf", seqNo, "tenant", None, toState, "M", [key], at, None)
  }

  /** Delivered in the other order, the same two entries leave an artifact out of the row. */
  lemma LateArtifactIsLost()
    ensures var first, second := Sample(1, "S5_DONE", "hld", "now"), Sample(2, "S6_DONE", "wbs", "now");
            && ApplyAll(EMPTY, [first, second]).rows["bid"].artifactsDone == map["hld" := "now", "wbs" := "now"]
            && ApplyAll(EMPTY, [second, first]).rows["bid"].artifactsDone == map["wbs" := "now"]
  {
    var first, second := Sample(1, "S5_DONE", "hld", "now"), Sample(2, "S6_DONE", "wbs", "now");
    hide ApplyAll, Stamp;
    TwoFresh(first, second);
    TwoFresh(second, first);
    StampOne(map[], "hld", "now");
    StampOne(map[], "wbs", "now");
    assert "wbs"[0] != "hld"[0];
    StampOne(map["hld" := "now"], "wbs", "now");
  }

  /**
   A rewind to S6 announces the same key twice. Delivered in the other order, both entries of the key
   are accounted for by name, and yet the row keeps the later time.
   */
  lemma LateStampIsWrong()
    ensures var first, second := Sample(6, "S6_DONE", "wbs", "t6"), Sample(10, "S6_DONE", "wbs", "t10");
            && ApplyAll(EMPTY, [first, second]).rows["bid"].artifactsDone == map["wbs" := "t6"]
            && ApplyAll(EMPTY, [second, first]).rows["bid"].artifactsDone == map["wbs" := "t10"]
            && map["wbs" := "t6"] != map["wbs" := "t10"]
  {
    var first, second := Sample(6, "S6_DONE", "wbs", "t6"), Sample(10, "S6_DONE", "wbs", "t10");
    hide ApplyAll, Stamp;
    TwoFresh(first, second);
    TwoFresh(second, first);
    StampOne(map[], "wbs", "t6");
    StampOne(map[], "wbs", "t10");
    StampAgain(map["wbs" := "t6"], "wbs", "t10");
    assert map["wbs" := "t6"]["wbs"][1] == '6' && map["wbs" := "t10"]["wbs"][1] == '1';
  }

  lemma StampAgain(done: map<string, string>, k: string, at: string)
    requires k in done
    ensures Stamp(done, [k], at) == done
  {
    assert Elements([k]) == {k};
  }

  lemma StampOne(done: map<string, string>, k: string, at: string)
    requires k !in done
    ensures Stamp(done, [k], at) == done[k := at]
  {
    assert Elements([k]) == {k};
  }

  /** The stamps of two different transitions of one bid, delivered in this order. */
  lemma TwoFresh(a: Entry, b: Entry)
    requires a.bidId == b.bidId && a.seqNo != b.seqNo
    ensures var row := ApplyAll(EMPTY, [a, b]).rows[a.bidId];
            var stamps := Stamp(map[], a.artifactKeys, a.occurredAt);
            row.artifactsDone == if a.seqNo < b.seqNo then Stamp(stamps, b.artifactKeys, b.occurredAt) else stamps
  {
    hide Stamp;
    assert [a, b][..1] == [a] && [a][..0] == [];
    assert ApplyAll(EMPTY, []) == EMPTY;
    assert ApplyAll(EMPTY, [a]) == Apply(EMPTY, a);
    assert ApplyAll(EMPTY, [a, b]) == Apply(Apply(EMPTY, a), b);
    assert Apply(EMPTY, a).log == [a];
  }

  /** Each entry repeats one already delivered or is newer than everything delivered of its bid. */
  ghost predicate InOrder(entries: seq<Entry>) {
    forall j: nat :: j < |entries| ==> InLog(entries[..j], entries[j]) || Advances(entries[..j], entries[j])
  }

  ghost predicate Ascending(log: seq<Entry>) {
    forall j: nat :: j < |log| ==> Advances(log[..j], log[j])
  }

  lemma AdvancesSubset(a: seq<Entry>, b: seq<Entry>, e: Entry)
    requires Advances(a, e) && forall f :: f in b ==> f in a
    ensures Advances(b, e)
  {
    forall i | 0 <= i < |b| && b[i].bidId == e.bidId
      ensures b[i].seqNo < e.seqNo
    {
      assert b[i] in a;
    }
  }

  lemma AscendingSnoc(log: seq<Entry>, e: Entry)
    requires Ascending(log) && Advances(log, e)
    ensures Ascending(log + [e])
  {
    var more := log + [e];
    forall j: nat | j < |more|
      ensures Advances(more[..j], more[j])
    {
      assert more[..j] == log[..j];
    }
  }

  lemma NotDelivered(entries: seq<Entry>, e: Entry)
    requires !InLog(ApplyAll(EMPTY, entries).log, e)
    ensures !InLog(entries, e)
  {
    var log := ApplyAll(EMPTY, entries).log;
    LogHoldsDelivered(entries);
    forall i | 0 <= i < |entries|
      ensures !SameKey(entries[i], e)
    {
      assert entries[i] in entries;
      var k :| 0 <= k < |log| && SameKey(log[k], entries[i]);
    }
  }

  lemma {:induction false} InOrderLog(entries: seq<Entry>)
    requires InOrder(entries)
    ensures Ascending(ApplyAll(EMPTY, entries).log)
  {
    if entries != [] {
      var n := |entries| - 1;
      forall j: nat | j < n
        ensures InLog(entries[..n][..j], entries[..n][j]) || Advances(entries[..n][..j], entries[..n][j])
      {
        assert entries[..n][..j] == entries[..j];
      }
      InOrderLog(entries[..n]);
      LogHoldsDelivered(entries[..n]);
      var log := ApplyAll(EMPTY, entries[..n]).log;
      if !InLog(log, entries[n]) {
        NotDelivered(entries[..n], entries[n]);
        AdvancesSubset(entries[..n], log, entries[n]);
        AscendingSnoc(log, entries[n]);
      }
    }
  }

  /** `e` is the first transition of the bid, in sequence order, that carries `k`. */
  ghost predicate FirstCarrier(entries: seq<Entry>, bidId: string, k: string, e: Entry) {
    && e in entries && e.bidId == bidId && k in e.artifactKeys
    && forall f :: f in entries && f.bidId == bidId && k in f.artifactKeys ==> e.seqNo <= f.seqNo
  }

  /**
   Delivered in order, with any repeats, `artifactsDone` is the union of all artifact keys, each
   with the time of the first transition that carries it.
   */
  lemma InOrderArtifacts(entries: seq<Entry>, bidId: string, k: string)
    requires InOrder(entries) && OneContent(entries) && bidId in ApplyAll(EMPTY, entries).rows
    ensures var done := ApplyAll(EMPTY, entries).rows[bidId].artifactsDone;
            && (k in done <==> exists e :: FirstCarrier(entries, bidId, k, e))
            && (forall e :: FirstCarrier(entries, bidId, k, e) ==> k in done && done[k] == e.occurredAt)
  {
    var s := ApplyAll(EMPTY, entries);
    EmptyView();
    ApplyAllKeepsView(EMPTY, entries);
    assert RowOk(s.log, bidId, s.rows[bidId]);
    InOrderLog(entries);
    LogIsDelivered(entries);
    StampsExact(s.log, bidId, k);
    forall e | FirstCarrier(entries, bidId, k, e)
      ensures exists i: nat :: StampedBy(s.log, bidId, k, i) && s.log[i] == e
    {
      CarrierStamps(s.log, bidId, k, e);
    }
    if k in s.rows[bidId].artifactsDone {
      var i: nat :| StampedBy(s.log, bidId, k, i);
      StampIsFirst(s.log, bidId, k, i);
      assert FirstCarrier(entries, bidId, k, s.log[i]);
    }
  }

  lemma CarrierStamps(log: seq<Entry>, bidId: string, k: string, e: Entry)
    requires Ascending(log) && FirstCarrier(log, bidId, k, e)
    ensures exists i: nat :: StampedBy(log, bidId, k, i) && log[i] == e
  {
    var i: nat :| i < |log| && log[i] == e;
    forall j: nat | j < i && OnTime(log, j, bidId)
      ensures k !in log[j].artifactKeys
    {
      assert Advances(log[..i], log[i]);
      assert log[..i][j] == log[j] && log[j] in log;
    }
    assert StampedBy(log, bidId, k, i);
  }

  lemma StampIsFirst(log: seq<Entry>, bidId: string, k: string, i: nat)
    requires Ascending(log) && StampedBy(log, bidId, k, i)
    ensures FirstCarrier(log, bidId, k, log[i])
  {
    forall f | f in log && f.bidId == bidId && k in f.artifactKeys
      ensures log[i].seqNo <= f.seqNo
    {
      var j: nat :| j < |log| && log[j] == f;
      assert OnTime(log, j, bidId);
      if i < j { assert log[..j][i] == log[i]; }
    }
  }

  // ---------------------------------------------------------------- when the stamps are the in-order ones

  lemma {:induction false} FirstCarrierExists(log: seq<Entry>, bidId: string, k: string, i: nat) returns (j: nat)
    requires i < |log| && log[i].bidId == bidId && k in log[i].artifactKeys
    ensures j < |log| && FirstCarrier(log, bidId, k, log[j])
    decreases log[i].seqNo
  {
    if f :| f in log && f.bidId == bidId && k in f.artifactKeys && f.seqNo < log[i].seqNo {
      var m: nat :| m < |log| && log[m] == f;
      j := FirstCarrierExists(log, bidId, k, m);
    } else {
      j := i;
      assert log[i] in log;
    }
  }

  /** The first carrier of a key stamps it exactly when it arrived on time. */
  lemma FirstStampsIff(log: seq<Entry>, bidId: string, k: string, j: nat)
    requires UniqueKeys(log) && j < |log| && FirstCarrier(log, bidId, k, log[j])
    ensures StampedBy(log, bidId, k, j) <==> OnTime(log, j, bidId)
  {
    forall i: nat | i < j && OnTime(log, i, bidId) && OnTime(log, j, bidId)
      ensures k !in log[i].artifactKeys
    {
      assert log[..j][i] == log[i] && log[i] in log;
    }
  }

  /** No other transition of the bid that carries `k` has the time of `e`. */
  ghost predicate OwnTime(log: seq<Entry>, bidId: string, k: string, e: Entry) {
    forall f :: f in log && f.bidId == bidId && k in f.artifactKeys && f.occurredAt == e.occurredAt ==> f == e
  }

  /** The stamp of `k` is the time of the first carrier. */
  ghost predicate RightStamp(done: map<string, string>, k: string, first: Entry) {
    k in done && done[k] == first.occurredAt
  }

  /**
   Key by key: the stamp is the one that in-order delivery gives if the key's first carrier arrived
   on time, and, unless another carrier happened at the very same time, only if it did.
   */
  lemma StampRightIff(log: seq<Entry>, bidId: string, k: string, j: nat)
    requires UniqueKeys(log) && j < |log| && FirstCarrier(log, bidId, k, log[j])
    ensures OnTime(log, j, bidId) ==> RightStamp(Stamps(log, bidId), k, log[j])
    ensures OwnTime(log, bidId, k, log[j]) ==> (RightStamp(Stamps(log, bidId), k, log[j]) <==> OnTime(log, j, bidId))
  {
    hide Stamps, OnTime;
    FirstStampsIff(log, bidId, k, j);
    StampsExact(log, bidId, k);
    if RightStamp(Stamps(log, bidId), k, log[j]) {
      var i: nat :| StampedBy(log, bidId, k, i);
      OnTimeIsOfBid(log, i, bidId);
      assert log[i] in log;
      if log[i] == log[j] { SameIndex(log, i, j); }
    }
  }

  lemma RowStamps(s: Store, bidId: string)
    requires View(s) && bidId in s.rows
    ensures UniqueKeys(s.log) && s.rows[bidId].artifactsDone == Stamps(s.log, bidId)
  {
    assert RowOk(s.log, bidId, s.rows[bidId]);
  }

  lemma OnTimeIsOfBid(log: seq<Entry>, i: nat, bidId: string)
    requires i < |log| && OnTime(log, i, bidId)
    ensures log[i].bidId == bidId
  {
  }

  lemma SameIndex(log: seq<Entry>, i: nat, j: nat)
    requires UniqueKeys(log) && i < |log| && j < |log| && log[i] == log[j]
    ensures i == j
  {
    assert i < j ==> SameKey(log[i], log[j]);
    assert j < i ==> SameKey(log[j], log[i]);
  }

  /** Every key's first carrier arrived on time. */
  ghost predicate FirstsOnTime(log: seq<Entry>, bidId: string) {
    forall k, j: nat :: j < |log| && FirstCarrier(log, bidId, k, log[j]) ==> OnTime(log, j, bidId)
  }

  /** `done` names exactly the keys carried, each with its first carrier's time: what in-order delivery leaves. */
  ghost predicate InOrderStamps(log: seq<Entry>, bidId: string, done: map<string, string>) {
    && (forall k :: k in done ==> exists e :: FirstCarrier(log, bidId, k, e))
    && (forall k, e :: FirstCarrier(log, bidId, k, e) ==> RightStamp(done, k, e))
  }

  /** The bid's transitions that share a key happened at different times. */
  ghost predicate DistinctTimes(log: seq<Entry>, bidId: string) {
    forall k, e :: FirstCarrier(log, bidId, k, e) ==> OwnTime(log, bidId, k, e)
  }

  /**
   The whole of `artifactsDone` is what in-order delivery would have left exactly when every key's
   first carrier arrived on time.
   */
  lemma {:induction false} ArtifactsInOrderIff(s: Store, bidId: string)
    requires View(s) && bidId in s.rows
    ensures FirstsOnTime(s.log, bidId) ==> InOrderStamps(s.log, bidId, s.rows[bidId].artifactsDone)
    ensures DistinctTimes(s.log, bidId)
      ==> (InOrderStamps(s.log, bidId, s.rows[bidId].artifactsDone) <==> FirstsOnTime(s.log, bidId))
  {
    hide View, Stamps, OnTime, FirstCarrier, OwnTime, RightStamp;
    RowStamps(s, bidId);
    var log, done := s.log, s.rows[bidId].artifactsDone;
    forall k | k in done
      ensures exists e :: FirstCarrier(log, bidId, k, e)
    {
      StampHasFirst(s, bidId, k);
    }
    forall k, j: nat | j < |log| && FirstCarrier(log, bidId, k, log[j])
      ensures OnTime(log, j, bidId) ==> RightStamp(done, k, log[j])
      ensures OwnTime(log, bidId, k, log[j]) ==> (RightStamp(done, k, log[j]) <==> OnTime(log, j, bidId))
    {
      StampRightIff(log, bidId, k, j);
    }
    forall k, e | FirstCarrier(log, bidId, k, e)
      ensures exists j: nat :: j < |log| && log[j] == e
    {
      CarrierIsLogged(log, bidId, k, e);
    }
  }

  lemma StampHasFirst(s: Store, bidId: string, k: string)
    requires View(s) && bidId in s.rows && k in s.rows[bidId].artifactsDone
    ensures exists e :: FirstCarrier(s.log, bidId, k, e)
  {
    hide View, Stamps, OnTime;
    RowStamps(s, bidId);
    StampsExact(s.log, bidId, k);
    var i: nat :| StampedBy(s.log, bidId, k, i);
    OnTimeIsOfBid(s.log, i, bidId);
    var j := FirstCarrierExists(s.log, bidId, k, i);
  }

  lemma CarrierIsLogged(log: seq<Entry>, bidId: string, k: string, e: Entry)
    requires FirstCarrier(log, bidId, k, e)
    ensures exists j: nat :: j < |log| && log[j] == e
  {
  }
}
