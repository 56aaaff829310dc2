/**
 The workflow and its read model together: the events of a run, flattened onto the stream and
 delivered at least once in any order amid other traffic, end in a row that tells how the run went.
 */
module Composition {
  import opened Prelude
  import W = WorkflowModel
  import BidWorkflow
  import opened Projection
  import Codec
  import Consumer

  function StageText(s: W.Stage): (t: string)
    ensures t != ""
  {
    match s
    case S0 => "S0" case S1 => "S1" case S0_5 => "S0_5" case S2 => "S2" case S3 => "S3" case S4 => "S4" case S5 => "S5"
    case S6 => "S6" case S7 => "S7" case S8 => "S8" case S9 => "S9" case S10 => "S10" case S11 => "S11"
  }

  function PhaseText(p: W.Phase): string {
    if p.Declined? then "S1_NO_BID" else StageText(p.stage) + "_DONE"
  }

  function ProfileText(p: W.Profile): (t: string)
    ensures t != ""
  {
    match p case ProfileS => "S" case ProfileM => "M" case ProfileL => "L" case ProfileXL => "XL"
  }

  /** The activity's payload for an event of the workflow. */
  function AsEntry(e: W.Event): Entry {
    Entry(e.bidId, e.workflowId, e.seqNo, e.tenantId,
          if e.fromState.Some? then Some(PhaseText(e.fromState.value)) else None,
          PhaseText(e.toState), ProfileText(e.profile), e.artifactKeys, e.occurredAt, e.cost)
  }

  lemma PhaseTextIsTerminal(p: W.Phase)
    ensures PhaseText(p) != ""
    ensures IsTerminal(PhaseText(p)) <==> p == W.Declined || p == W.Completed(W.S11)
    ensures OutcomeOf(PhaseText(p)) ==
            if p == W.Declined then Some("NO_BID") else if p == W.Completed(W.S11) then Some("COMPLETED") else None
  {
    var t := PhaseText(p);
    assert "S9_BLOCKED"[3] == 'B' && "S1_NO_BID"[3] == 'N' && "S11_DONE"[2] == '1' && "S11_DONE"[1] == '1';
    if p.Completed? {
      var s := StageText(p.stage);
      assert t[|s|..] == "_DONE" && t[..|s|] == s;
      assert "_DONE"[1] == 'D';
      match p.stage {
        case S11 => assert t == "S11_DONE";
        case S10 => assert t[2] == '0';
        case S0_5 => assert t[2] == '_';
        case _ => assert |s| == 2 && t[2] == '_' && t[3] == 'D';
      }
    }
  }

  /** A stage is written as its number; only the one between S1 and S2 has no whole one. */
  lemma StageTextIsNumber(s: W.Stage)
    ensures StageText(s) == if s == W.S0_5 then "S0_5"
                            else "S" + Codec.NatText(if W.Rank(s) < 2 then W.Rank(s) else W.Rank(s) - 1)
  {
    var n := if W.Rank(s) < 2 then W.Rank(s) else W.Rank(s) - 1;
    assert Codec.NatText(n) == if n < 10 then [Codec.DigitChar(n)] else [Codec.DigitChar(1), Codec.DigitChar(n - 10)];
  }

  /** What the read model is told a phase and a profile are called. */
  lemma NamesOnTheWire(s: W.Stage)
    ensures PhaseText(W.Completed(s)) == StageText(s) + "_DONE" && PhaseText(W.Declined) == "S1_NO_BID"
    ensures ProfileText(W.ProfileS) == "S" && ProfileText(W.ProfileM) == "M"
    ensures ProfileText(W.ProfileL) == "L" && ProfileText(W.ProfileXL) == "XL"
  {
  }

  /** Different phases have different names, so a row's state tells how far the bid is. */
  lemma {:induction false} PhaseTextInjective(p: W.Phase, q: W.Phase)
    requires PhaseText(p) == PhaseText(q)
    ensures p == q
  {
    hide StageText;
    DeclinedApart(p);
    DeclinedApart(q);
    if p.Completed? && q.Completed? {
      var a, b := StageText(p.stage), StageText(q.stage);
      assert (a + "_DONE")[..|a|] == a && (b + "_DONE")[..|b|] == b;
      assert |a| == |b|;
      StagesApart(p.stage, q.stage);
    }
  }

  lemma DeclinedApart(p: W.Phase)
    ensures p.Completed? ==> PhaseText(p) != "S1_NO_BID"
  {
    if p.Completed? {
      var s := StageText(p.stage);
      assert PhaseText(p)[|s| + 1] == 'D' && PhaseText(p)[|s|] == '_';
      assert |PhaseText(p)| == 9 ==> |s| == 4 && s[2] == '_';
    }
  }

  lemma StagesApart(s: W.Stage, t: W.Stage)
    requires StageText(s) == StageText(t)
    ensures s == t
  {
    var a, b := StageText(s), StageText(t);
    assert |a| == |b| && a[1] == b[1] && (|a| > 2 ==> a[2] == b[2]);
  }

  lemma EntryFields(e: W.Event)
    ensures AsEntry(e).artifactKeys == e.artifactKeys && AsEntry(e).cost == e.cost && AsEntry(e).tenantId == e.tenantId
    ensures AsEntry(e).fromState.Some? <==> e.fromState.Some?
    ensures e.fromState.Some? ==> AsEntry(e).fromState == Some(PhaseText(e.fromState.value))
  {
  }

  /** Every event of a run gets through the stream unchanged. */
  lemma EventRoundTrip(e: W.Event, other: string -> Option<seq<string>>)
    requires e.bidId != ""
    ensures Codec.Parse(Codec.Encode(AsEntry(e)), other) == Some(AsEntry(e))
  {
    hide Codec.Parse, Codec.Encode, PhaseText, IsTerminal, OutcomeOf;
    PhaseTextIsTerminal(e.toState);
    if e.fromState.Some? { PhaseTextIsTerminal(e.fromState.value); }
    Codec.RoundTrip(AsEntry(e), other);
  }

  /** The transitions in a delivery of stream entries; malformed ones drop out. */
  function Parsed(fields: seq<seq<string>>, other: string -> Option<seq<string>>): seq<Entry> {
    if fields == [] then [] else
      var n := |fields| - 1;
      var e := Codec.Parse(fields[n], other);
      Parsed(fields[..n], other) + if e.Some? then [e.value] else []
  }

  lemma {:induction false} ParsedElements(fields: seq<seq<string>>, other: string -> Option<seq<string>>, x: Entry)
    ensures x in Parsed(fields, other) <==> exists f :: f in fields && Codec.Parse(f, other) == Some(x)
  {
    hide Codec.Parse;
    if fields != [] {
      var n := |fields| - 1;
      ParsedElements(fields[..n], other, x);
      assert fields == fields[..n] + [fields[n]];
    }
  }

  function Entries(events: seq<W.Event>): seq<Entry> {
    seq(|events|, i requires 0 <= i < |events| => AsEntry(events[i]))
  }

  /** Numbered 1, 2, 3, ... and all of one bid: what the key of the log sees of a run. */
  ghost predicate Numbered(events: seq<W.Event>, bidId: string) {
    forall i: nat {:trigger events[i]} :: i < |events| ==> events[i].seqNo == i + 1 && events[i].bidId == bidId
  }

  lemma ChainIsNumbered(events: seq<W.Event>, bidId: string)
    requires W.Chained(events, bidId)
    ensures Numbered(events, bidId)
  {
    forall i: nat | i < |events|
      ensures events[i].seqNo == i + 1 && events[i].bidId == bidId
    {
      assert W.ChainedAt(events, i);
    }
  }

  /** Every event is among the entries at least once. */
  ghost predicate AllIn(events: seq<W.Event>, entries: seq<Entry>) {
    forall e :: e in events ==> AsEntry(e) in entries
  }

  lemma EntryIsIn(events: seq<W.Event>, entries: seq<Entry>, x: Entry)
    requires AllIn(events, entries) && x in Entries(events)
    ensures x in entries
  {
    var i: nat :| i < |events| && Entries(events)[i] == x;
    assert events[i] in events;
  }

  /** Each of the bid's keys was first delivered with an event of `events`. */
  ghost predicate FirstsAreRun(entries: seq<Entry>, events: seq<W.Event>, bidId: string) {
    forall x :: x in Firsts(entries) && x.bidId == bidId ==> x in Entries(events)
  }

  /** So it is when nothing else carries the bid. */
  lemma {:induction false} SoleRun(entries: seq<Entry>, events: seq<W.Event>, bidId: string)
    requires forall x :: x in entries && x.bidId == bidId ==> x in Entries(events)
    ensures FirstsAreRun(entries, events, bidId)
  {
    FirstsElements(entries);
  }

  /** Every event of the run is on the stream, and no key of its bid was first delivered with anything else. */
  ghost predicate Delivers(fields: seq<seq<string>>, events: seq<W.Event>, bidId: string,
                           other: string -> Option<seq<string>>) {
    && (forall e :: e in events ==> Codec.Encode(AsEntry(e)) in fields)
    && FirstsAreRun(Parsed(fields, other), events, bidId)
  }

  /** The encoded events come out of the parser whatever else is on the stream. */
  lemma {:induction false} DeliveredEntries(fields: seq<seq<string>>, events: seq<W.Event>, bidId: string,
                                            other: string -> Option<seq<string>>)
    requires Numbered(events, bidId) && bidId != ""
    requires forall e :: e in events ==> Codec.Encode(AsEntry(e)) in fields
    ensures AllIn(events, Parsed(fields, other))
  {
    hide Codec.Parse, Codec.Encode, Parsed;
    forall e | e in events
      ensures AsEntry(e) in Parsed(fields, other)
    {
      EventOfBid(events, bidId, e);
      EventRoundTrip(e, other);
      ParsedElements(fields, other, AsEntry(e));
    }
  }

  lemma EventOfBid(events: seq<W.Event>, bidId: string, e: W.Event)
    requires Numbered(events, bidId) && e in events
    ensures e.bidId == bidId && AsEntry(e) in Entries(events)
  {
    var i: nat :| i < |events| && events[i] == e;
    assert Entries(events)[i] == AsEntry(e);
  }

  // ---------------------------------------------------------------- the log of one bid

  function OfBid(log: seq<Entry>, bidId: string): seq<Entry> {
    if log == [] then [] else
      var e := log[|log| - 1];
      OfBid(log[..|log| - 1], bidId) + if e.bidId == bidId then [e] else []
  }

  lemma {:induction false} OfBidElements(log: seq<Entry>, bidId: string)
    ensures forall e :: e in OfBid(log, bidId) <==> e in log && e.bidId == bidId
  {
    if log != [] {
      var n := |log| - 1;
      OfBidElements(log[..n], bidId);
      assert log == log[..n] + [log[n]];
      assert forall e :: e in log <==> e in log[..n] || e == log[n];
    }
  }

  lemma {:induction false} OfBidUnique(log: seq<Entry>, bidId: string)
    requires UniqueKeys(log)
    ensures UniqueKeys(OfBid(log, bidId))
  {
    if log != [] {
      var n := |log| - 1;
      var rest := OfBid(log[..n], bidId);
      OfBidUnique(log[..n], bidId);
      OfBidElements(log[..n], bidId);
      forall i | 0 <= i < |rest|
        ensures !SameKey(rest[i], log[n])
      {
        assert rest[i] in log[..n];
      }
    }
  }

  lemma {:induction false} OfBidCost(log: seq<Entry>, bidId: string)
    ensures TotalCost(OfBid(log, bidId), bidId) == TotalCost(log, bidId)
  {
    if log != [] {
      var n := |log| - 1;
      OfBidCost(log[..n], bidId);
      assert OfBid(log[..n], bidId) + [] == OfBid(log[..n], bidId);
      TotalCostSnoc(OfBid(log[..n], bidId), log[n], bidId);
    }
  }

  lemma {:induction false} EntriesCost(events: seq<W.Event>, bidId: string)
    requires Numbered(events, bidId)
    ensures TotalCost(Entries(events), bidId) == W.CostSum(events)
  {
    hide AsEntry, Entries, TotalCost;
    if events == [] {
      NoEntries(bidId);
    } else {
      var n := |events| - 1;
      EntriesCost(events[..n], bidId);
      EntriesSnoc(events);
      TotalCostSnoc(Entries(events[..n]), AsEntry(events[n]), bidId);
    }
  }

  lemma NoEntries(bidId: string)
    ensures TotalCost(Entries([]), bidId) == 0
  {
    assert Entries([]) == [];
  }

  lemma EntriesSnoc(events: seq<W.Event>)
    requires events != []
    ensures var n := |events| - 1;
            && Entries(events) == Entries(events[..n]) + [AsEntry(events[n])]
            && AsEntry(events[n]).bidId == events[n].bidId && AsEntry(events[n]).cost == events[n].cost
  {
  }

  lemma EntriesUnique(events: seq<W.Event>, bidId: string)
    requires Numbered(events, bidId)
    ensures UniqueKeys(Entries(events))
    ensures forall i: nat :: i < |events| ==> Entries(events)[i].seqNo == i + 1 && Entries(events)[i].bidId == bidId
  {
    assert forall i: nat :: i < |events| ==> Entries(events)[i] == AsEntry(events[i]);
  }

  ghost predicate HasSeq(log: seq<Entry>, bidId: string, n: nat) {
    exists e :: e in log && e.bidId == bidId && e.seqNo == n
  }

  /** What the store holds of a bid when its log is `events`. */
  ghost predicate Projects(s: Store, bidId: string, events: seq<W.Event>) {
    && bidId in s.rows && events != []
    && (var row := s.rows[bidId]; var last := events[|events| - 1];
        && row.lastSeq == |events| && row.currentState == PhaseText(last.toState)
        && row.workflowId == last.workflowId && row.tenantId == last.tenantId
        && row.profile == ProfileText(last.profile) && row.lastAt == last.occurredAt
        && row.totalCost == W.CostSum(events)
        && row.isTerminal == IsTerminal(row.currentState) && row.outcome == OutcomeOf(row.currentState))
    && UniqueKeys(s.log)
    && (forall n: nat :: HasSeq(s.log, bidId, n) <==> 1 <= n <= |events|)
  }

  /** What is logged of the bid is `events`. */
  ghost predicate LogIsRun(log: seq<Entry>, events: seq<W.Event>, bidId: string) {
    forall x :: x in log && x.bidId == bidId <==> x in Entries(events)
  }

  /** With every event delivered, the log of the bid is the run exactly when every first delivery is the run's. */
  lemma {:induction false} LogIsRunIff(entries: seq<Entry>, events: seq<W.Event>, bidId: string)
    requires Numbered(events, bidId) && AllIn(events, entries)
    ensures LogIsRun(ApplyAll(EMPTY, entries).log, events, bidId) <==> FirstsAreRun(entries, events, bidId)
  {
    hide ApplyAll, AsEntry, Firsts, Entries;
    LogIsFirsts(entries);
    FirstsElements(entries);
    EntriesUnique(events, bidId);
    if FirstsAreRun(entries, events, bidId) {
      forall x | x in Entries(events)
        ensures x in Firsts(entries) && x.bidId == bidId
      {
        EntryIsIn(events, entries, x);
        EntryIndex(events, bidId, x);
        EventIsFirst(entries, events, bidId, x);
      }
    }
  }

  /** An event of the run that was delivered is itself the first delivery of its key. */
  lemma EventIsFirst(entries: seq<Entry>, events: seq<W.Event>, bidId: string, x: Entry)
    requires Numbered(events, bidId) && FirstsAreRun(entries, events, bidId)
    requires x in Entries(events) && InLog(Firsts(entries), x)
    ensures x in Firsts(entries)
  {
    hide AsEntry, Entries, Firsts;
    var log := Firsts(entries);
    EntriesUnique(events, bidId);
    EntryIndex(events, bidId, x);
    var k :| 0 <= k < |log| && SameKey(log[k], x);
    assert log[k] in log;
    EntryIndex(events, bidId, log[k]);
  }

  lemma EntryIndex(events: seq<W.Event>, bidId: string, x: Entry)
    requires Numbered(events, bidId) && x in Entries(events)
    ensures 1 <= x.seqNo <= |events| && Entries(events)[x.seqNo - 1] == x
  {
    hide AsEntry;
    EntriesUnique(events, bidId);
    var i: nat :| i < |events| && Entries(events)[i] == x;
  }

  /** The seqs logged for the bid are exactly 1, ..., n. */
  lemma SeqsOfRun(log: seq<Entry>, events: seq<W.Event>, bidId: string, n: nat)
    requires Numbered(events, bidId)
    requires LogIsRun(log, events, bidId)
    ensures HasSeq(log, bidId, n) <==> 1 <= n <= |events|
  {
    EntriesUnique(events, bidId);
    if 1 <= n <= |events| {
      var e := Entries(events)[n - 1];
      assert e in Entries(events);
    }
    if HasSeq(log, bidId, n) {
      var e :| e in log && e.bidId == bidId && e.seqNo == n;
      EntryIndex(events, bidId, e);
    }
  }

  lemma RowOfRun(s: Store, events: seq<W.Event>, bidId: string)
    requires View(s) && Numbered(events, bidId) && events != []
    requires LogIsRun(s.log, events, bidId)
    ensures Projects(s, bidId, events)
  {
    hide PhaseText, IsTerminal, OutcomeOf, ProfileText, UniqueKeys, HasSeq, W.CostSum, TotalCost, Stamps;
    var newest := NewestOfRun(s, events, bidId);
    CostOfRun(s, events, bidId);
    forall k: nat
      ensures HasSeq(s.log, bidId, k) <==> 1 <= k <= |events|
    {
      SeqsOfRun(s.log, events, bidId, k);
    }
  }

  lemma NewestOfRun(s: Store, events: seq<W.Event>, bidId: string) returns (newest: Entry)
    requires View(s) && Numbered(events, bidId) && events != []
    requires LogIsRun(s.log, events, bidId)
    ensures bidId in s.rows && Shows(s.rows[bidId], newest) && newest == AsEntry(events[|events| - 1])
    ensures newest.seqNo == |events|
  {
    hide AsEntry, View, RowOk, Shows;
    var n := |events| - 1;
    var last := Entries(events)[n];
    EntriesUnique(events, bidId);
    ViewRow(s, bidId);
    assert last in Entries(events) && Logged(s.log, bidId);
    newest := NewestIs(s.log, bidId, s.rows[bidId]);
    EntryIndex(events, bidId, newest);
    assert last.seqNo <= newest.seqNo;
  }

  lemma CostOfRun(s: Store, events: seq<W.Event>, bidId: string)
    requires View(s) && Numbered(events, bidId) && bidId in s.rows
    requires LogIsRun(s.log, events, bidId)
    ensures s.rows[bidId].totalCost == W.CostSum(events)
  {
    hide AsEntry, Shows, Stamps, TotalCost, OfBid, Entries;
    EntriesUnique(events, bidId);
    OfBidElements(s.log, bidId);
    OfBidUnique(s.log, bidId);
    OfBidCost(s.log, bidId);
    TotalCostOrderFree(OfBid(s.log, bidId), Entries(events), bidId);
    EntriesCost(events, bidId);
    assert RowOk(s.log, bidId, s.rows[bidId]);
  }

  /**
   The row of a bid ends at the last of `events`, with the sum of their costs, and the log holds exactly
   their seqs, if every one was applied and each key of the bid was first applied with one of them.
   */
  lemma {:induction false} EntriesAreProjected(entries: seq<Entry>, events: seq<W.Event>, bidId: string)
    requires Numbered(events, bidId) && events != []
    requires AllIn(events, entries) && FirstsAreRun(entries, events, bidId)
    ensures Projects(ApplyAll(EMPTY, entries), bidId, events)
  {
    hide ApplyAll, View, Projects, Numbered, AllIn, FirstsAreRun, LogIsRun;
    EmptyView();
    ApplyAllKeepsView(EMPTY, entries);
    LogIsRunIff(entries, events, bidId);
    RowOfRun(ApplyAll(EMPTY, entries), events, bidId);
  }

  /**
   Composition: however the events of a run are repeated, reordered and mixed with other bids' entries,
   with malformed ones and with later runs of the bid, the row and the log show this run as long as none
   of its keys was first delivered by another.
   */
  lemma {:induction false} EventsAreProjected(fields: seq<seq<string>>, events: seq<W.Event>, bidId: string,
                                              other: string -> Option<seq<string>>)
    requires Numbered(events, bidId) && events != [] && bidId != "" && Delivers(fields, events, bidId, other)
    ensures Projects(ApplyAll(EMPTY, Parsed(fields, other)), bidId, events)
  {
    hide ApplyAll, Projects, Numbered, AllIn, FirstsAreRun, Parsed;
    DeliveredEntries(fields, events, bidId, other);
    EntriesAreProjected(Parsed(fields, other), events, bidId);
  }

  /** The phase that a run announces last. */
  function FinalPhase(state: W.WorkflowState): W.Phase {
    if state == W.NoBid then W.Declined else W.Completed(if state == W.Blocked then W.S9 else W.S11)
  }

  function FinalOutcome(state: W.WorkflowState): Option<string> {
    if state == W.NoBid then Some("NO_BID") else if state == W.Blocked then None else Some("COMPLETED")
  }

  /**
   The row of a chain of events that ends as a run in `state` does: it is terminal exactly when the
   bid was declined or finished. A bid blocked at the gate is never shown as terminal, because its
   last event is S9_DONE: the consumer's S9_BLOCKED is announced by nobody.
   */
  lemma {:induction false} ChainIsProjected(fields: seq<seq<string>>, events: seq<W.Event>, bidId: string,
                                            other: string -> Option<seq<string>>, state: W.WorkflowState)
    requires W.Chained(events, bidId) && events != [] && bidId != "" && Delivers(fields, events, bidId, other)
    requires events[|events| - 1].toState == FinalPhase(state)
    ensures var s := ApplyAll(EMPTY, Parsed(fields, other));
            && Projects(s, bidId, events) && s.rows[bidId].outcome == FinalOutcome(state)
            && (s.rows[bidId].isTerminal <==> state != W.Blocked)
  {
    hide ApplyAll, Parsed, Delivers, PhaseText, IsTerminal, OutcomeOf, W.Chained, Numbered;
    PhaseTextIsTerminal(FinalPhase(state));
    ChainIsNumbered(events, bidId);
    EventsAreProjected(fields, events, bidId, other);
  }

  /** The row of a run that returned, delivered in any way: it tells how the run went and all that it spent. */
  lemma {:induction false} RunIsProjected(w: BidWorkflow.Workflow, pos: nat, fields: seq<seq<string>>,
                                          other: string -> Option<seq<string>>)
    requires w.Inv() && w.Returned(pos) && w.bidCard.Some? && w.bidCard.value.bidId != ""
    requires Delivers(fields, w.emitted, w.bidCard.value.bidId, other)
    ensures var bidId := w.bidCard.value.bidId;
            var s := ApplyAll(EMPTY, Parsed(fields, other));
            && Projects(s, bidId, w.emitted) && s.rows[bidId].totalCost == w.spent
            && s.rows[bidId].outcome == FinalOutcome(w.state) && (s.rows[bidId].isTerminal <==> w.state != W.Blocked)
  {
    hide W.Itinerary, W.CostSum, ApplyAll, Parsed, Delivers, PhaseText, IsTerminal, OutcomeOf, W.Pipeline, FinalPhase,
         FinalOutcome;
    EndsAsAnnounced(w, pos);
    ChainIsProjected(fields, w.emitted, w.bidCard.value.bidId, other, w.state);
  }

  lemma {:induction false} EndsAsAnnounced(w: BidWorkflow.Workflow, pos: nat)
    requires w.Inv() && w.Returned(pos) && w.bidCard.Some?
    ensures W.Chained(w.emitted, w.bidCard.value.bidId) && w.emitted != []
    ensures w.emitted[|w.emitted| - 1].toState == FinalPhase(w.state)
  {
    hide W.Itinerary, W.CostSum, W.Pipeline;
    assert |W.Phases(w.emitted)| == |w.emitted|;
    if w.state == W.NoBid {
      assert W.Phases(w.emitted)[2] == W.Declined;
    } else {
      w.LastAnnounced(pos);
    }
  }

  // ---------------------------------------------------------------- two runs of one bid

  /**
   What is logged when a bid has been run twice: every start numbers its events from 1 again, and the
   key of the log does not tell the runs apart, so each number belongs to whichever run was delivered first.
   */
  function Winners(entries: seq<Entry>, a: seq<W.Event>, b: seq<W.Event>): seq<W.Event> {
    seq(if |b| <= |a| then |a| else |b|, i requires 0 <= i < if |b| <= |a| then |a| else |b| =>
      if i < |a| && (|b| <= i || AsEntry(a[i]) in Firsts(entries)) then a[i] else b[i])
  }

  /** The bid's keys were first delivered with events of either run. */
  ghost predicate FirstsAreEither(entries: seq<Entry>, a: seq<W.Event>, b: seq<W.Event>, bidId: string) {
    forall x :: x in Firsts(entries) && x.bidId == bidId ==> x in Entries(a) || x in Entries(b)
  }

  lemma WinnersAreIn(entries: seq<Entry>, a: seq<W.Event>, b: seq<W.Event>, bidId: string)
    requires Numbered(a, bidId) && Numbered(b, bidId) && AllIn(a, entries) && AllIn(b, entries)
    ensures Numbered(Winners(entries, a, b), bidId) && AllIn(Winners(entries, a, b), entries)
  {
    hide Firsts, AsEntry;
    var w := Winners(entries, a, b);
    forall i: nat | i < |w|
      ensures w[i].seqNo == i + 1 && w[i].bidId == bidId && AsEntry(w[i]) in entries
    {
      assert w[i] == if i < |a| && (|b| <= i || AsEntry(a[i]) in Firsts(entries)) then a[i] else b[i];
    }
  }

  lemma FirstIsWinner(entries: seq<Entry>, a: seq<W.Event>, b: seq<W.Event>, bidId: string, x: Entry)
    requires Numbered(a, bidId) && Numbered(b, bidId)
    requires x in Firsts(entries) && (x in Entries(a) || x in Entries(b))
    ensures x in Entries(Winners(entries, a, b))
  {
    hide Firsts, AsEntry;
    var w, i := Winners(entries, a, b), x.seqNo - 1;
    FirstsElements(entries);
    EntriesUnique(a, bidId);
    EntriesUnique(b, bidId);
    if x in Entries(a) { EntryIndex(a, bidId, x); } else { EntryIndex(b, bidId, x); }
    if 0 <= i < |a| && AsEntry(a[i]) in Firsts(entries) {
      SameFirst(entries, x, Entries(a)[i]);
    }
    assert Entries(w)[i] == x;
  }

  lemma SameFirst(entries: seq<Entry>, x: Entry, y: Entry)
    requires x in Firsts(entries) && y in Firsts(entries) && SameKey(x, y)
    ensures x == y
  {
    FirstsElements(entries);
    var log := Firsts(entries);
    var i :| 0 <= i < |log| && log[i] == x;
    var j :| 0 <= j < |log| && log[j] == y;
    assert SameKey(log[j], log[i]);
  }

  /**
   Two runs of one bid, delivered in any order and interleaved in any way: the row shows a run nobody
   made, with each number's event taken from whichever run came first.
   */
  lemma {:induction false} TwoRunsAreProjected(entries: seq<Entry>, a: seq<W.Event>, b: seq<W.Event>, bidId: string)
    requires Numbered(a, bidId) && Numbered(b, bidId) && (a != [] || b != [])
    requires AllIn(a, entries) && AllIn(b, entries) && FirstsAreEither(entries, a, b, bidId)
    ensures Projects(ApplyAll(EMPTY, entries), bidId, Winners(entries, a, b))
  {
    hide ApplyAll, Projects, Numbered, AllIn, Firsts, Entries;
    WinnersAreIn(entries, a, b, bidId);
    forall x | x in Firsts(entries) && x.bidId == bidId
      ensures x in Entries(Winners(entries, a, b))
    {
      FirstIsWinner(entries, a, b, bidId, x);
    }
    EntriesAreProjected(entries, Winners(entries, a, b), bidId);
  }

  /** The first run, then what the second has past its length. It is numbered again, so a third run adds to it alike. */
  function InTurn(a: seq<W.Event>, b: seq<W.Event>): seq<W.Event> {
    if |b| <= |a| then a else a + b[|a|..]
  }

  lemma {:induction false} InTurnCost(a: seq<W.Event>, b: seq<W.Event>)
    ensures W.CostSum(InTurn(a, b)) + W.CostSum(b[..if |b| <= |a| then |b| else |a|]) == W.CostSum(a) + W.CostSum(b)
  {
    if |b| <= |a| {
      assert b[..|b|] == b;
    } else {
      CostAppend(a, b[|a|..]);
      CostAppend(b[..|a|], b[|a|..]);
      assert b[..|a|] + b[|a|..] == b;
    }
  }

  lemma {:induction false} CostAppend(a: seq<W.Event>, b: seq<W.Event>)
    ensures W.CostSum(a + b) == W.CostSum(a) + W.CostSum(b)
  {
    if b == [] {
      assert a + b == a;
    } else {
      var n := |b| - 1;
      CostAppend(a, b[..n]);
      assert (a + b)[..|a + b| - 1] == a + b[..n];
    }
  }

  /** The first run has been delivered whole before anything of the second: its events keep their numbers. */
  lemma {:induction false} FirstRunWins(before: seq<Entry>, after: seq<Entry>, a: seq<W.Event>, b: seq<W.Event>,
                                        bidId: string)
    requires Numbered(a, bidId) && AllIn(a, before) && FirstsAreRun(before, a, bidId)
    ensures Winners(before + after, a, b) == InTurn(a, b)
  {
    hide Firsts, AsEntry, Numbered, FirstsAreRun, AllIn;
    var w := Winners(before + after, a, b);
    assert forall i: nat :: i < |a| ==> w[i] == a[i] by {
      forall i: nat | i < |a|
        ensures w[i] == a[i]
      {
        StaysFirst(before, after, a, bidId, i);
      }
    }
    assert forall i: nat :: |a| <= i < |b| ==> w[i] == b[i];
  }

  lemma StaysFirst(before: seq<Entry>, after: seq<Entry>, a: seq<W.Event>, bidId: string, i: nat)
    requires Numbered(a, bidId) && AllIn(a, before) && FirstsAreRun(before, a, bidId) && i < |a|
    ensures AsEntry(a[i]) in Firsts(before + after)
  {
    hide Firsts, AsEntry;
    FirstsElements(before);
    FirstsAppend(before, after);
    assert Entries(a)[i] == AsEntry(a[i]) && a[i] in a;
    EventIsFirst(before, a, bidId, AsEntry(a[i]));
  }

  /** The second run has been delivered as well, and nothing else carries the bid. */
  ghost predicate RunAgain(before: seq<Entry>, after: seq<Entry>, a: seq<W.Event>, b: seq<W.Event>, bidId: string) {
    && Numbered(a, bidId) && Numbered(b, bidId) && (a != [] || b != [])
    && AllIn(a, before) && FirstsAreRun(before, a, bidId) && AllIn(b, before + after)
    && forall x :: x in after && x.bidId == bidId ==> x in Entries(a) || x in Entries(b)
  }

  lemma AgainIsEither(before: seq<Entry>, after: seq<Entry>, a: seq<W.Event>, b: seq<W.Event>, bidId: string)
    requires RunAgain(before, after, a, b, bidId)
    ensures FirstsAreEither(before + after, a, b, bidId) && AllIn(a, before + after)
  {
    hide Firsts, AsEntry, Entries;
    FirstsAppend(before, after);
  }

  /**
   A bid run twice, one run after the other: the second run's events up to the first one's length count as
   replays, their costs are dropped, and only what it has past that length reaches the row.
   */
  lemma {:induction false} SecondRunIsProjected(before: seq<Entry>, after: seq<Entry>, a: seq<W.Event>,
                                                b: seq<W.Event>, bidId: string)
    requires RunAgain(before, after, a, b, bidId)
    ensures var s := ApplyAll(EMPTY, before + after);
            && Projects(s, bidId, InTurn(a, b))
            && s.rows[bidId].totalCost + W.CostSum(b[..if |b| <= |a| then |b| else |a|])
               == W.CostSum(a) + W.CostSum(b)
  {
    hide ApplyAll, Firsts, Entries, FirstsAreRun, FirstsAreEither, Numbered, AllIn;
    AgainIsEither(before, after, a, b, bidId);
    FirstRunWins(before, after, a, b, bidId);
    TwoRunsAreProjected(before + after, a, b, bidId);
    InTurnCost(a, b);
  }

  /** A second run no longer than the first leaves the row exactly as the first did, artifacts included. */
  lemma {:induction false} ShorterRunIsLost(before: seq<Entry>, after: seq<Entry>, a: seq<W.Event>, b: seq<W.Event>,
                                            bidId: string)
    requires RunAgain(before, after, a, b, bidId) && |b| <= |a|
    ensures Find(ApplyAll(EMPTY, before + after).rows, bidId) == Find(ApplyAll(EMPTY, before).rows, bidId)
  {
    hide ApplyAll, Firsts, FirstsAreRun, AsEntry;
    var s := ApplyAll(EMPTY, before);
    EmptyView();
    ApplyAllKeepsView(EMPTY, before);
    LogHoldsDelivered(before);
    forall x | x in after && x.bidId == bidId
      ensures InLog(s.log, x)
    {
      KeyOfFirst(a, b, bidId, x);
      EntryIsIn(a, before, Entries(a)[x.seqNo - 1]);
      SameKeyInLog(s.log, Entries(a)[x.seqNo - 1], x);
    }
    ReplaysKeepRow(s, after, bidId);
    ApplyAllAppend(EMPTY, before, after);
  }

  lemma KeyOfFirst(a: seq<W.Event>, b: seq<W.Event>, bidId: string, x: Entry)
    requires Numbered(a, bidId) && Numbered(b, bidId) && |b| <= |a| && (x in Entries(a) || x in Entries(b))
    ensures 1 <= x.seqNo <= |a| && Entries(a)[x.seqNo - 1] in Entries(a) && SameKey(Entries(a)[x.seqNo - 1], x)
  {
    hide AsEntry;
    EntriesUnique(a, bidId);
    EntriesUnique(b, bidId);
    if x in Entries(a) { EntryIndex(a, bidId, x); } else { EntryIndex(b, bidId, x); }
  }

  lemma SameKeyInLog(log: seq<Entry>, x: Entry, y: Entry)
    requires InLog(log, x) && SameKey(x, y)
    ensures InLog(log, y)
  {
    var i :| 0 <= i < |log| && SameKey(log[i], x);
    assert SameKey(log[i], y);
  }

  /** The row shows the second workflow exactly when its run was the longer one. */
  lemma {:induction false} ShowsSecondRunIff(before: seq<Entry>, after: seq<Entry>, a: seq<W.Event>, b: seq<W.Event>,
                                             bidId: string, first: string, second: string)
    requires RunAgain(before, after, a, b, bidId) && W.OfRun(a, first) && W.OfRun(b, second) && first != second
    ensures var s := ApplyAll(EMPTY, before + after);
            bidId in s.rows && s.rows[bidId].workflowId == if |a| < |b| then second else first
    ensures ApplyAll(EMPTY, before + after).rows[bidId].workflowId == second <==> |a| < |b|
  {
    hide ApplyAll, Firsts, Entries, FirstsAreRun, PhaseText, ProfileText, IsTerminal, OutcomeOf, W.CostSum;
    SecondRunIsProjected(before, after, a, b, bidId);
    var w := InTurn(a, b);
    assert w[|w| - 1] == if |a| < |b| then b[|b| - 1] else a[|a| - 1];
  }

  /** Delivered straight after the first, the second run changes the tables exactly when it is the longer one. */
  lemma {:induction false} SecondRunIsReplayIff(a: seq<W.Event>, b: seq<W.Event>, bidId: string)
    requires Numbered(a, bidId) && Numbered(b, bidId)
    ensures ApplyAll(EMPTY, Entries(a) + Entries(b)) == ApplyAll(EMPTY, Entries(a)) <==> |b| <= |a|
  {
    hide ApplyAll, AsEntry, Entries;
    var s, both := ApplyAll(EMPTY, Entries(a)), Entries(a) + Entries(b);
    LogHoldsDelivered(Entries(a));
    LogHoldsDelivered(both);
    EntriesUnique(a, bidId);
    EntriesUnique(b, bidId);
    if |b| <= |a| {
      forall x | x in Entries(b)
        ensures InLog(s.log, x)
      {
        KeyOfFirst(a, b, bidId, x);
        SameKeyInLog(s.log, Entries(a)[x.seqNo - 1], x);
      }
      EmptyView();
      ApplyAllKeepsView(EMPTY, Entries(a));
      ReplaysAreNoOp(s, Entries(b));
      ApplyAllAppend(EMPTY, Entries(a), Entries(b));
    } else {
      PastIsNew(s.log, a, b, bidId);
    }
  }

  /** The second run's first event past the first run's length has a key of its own. */
  lemma PastIsNew(log: seq<Entry>, a: seq<W.Event>, b: seq<W.Event>, bidId: string)
    requires Numbered(a, bidId) && Numbered(b, bidId) && |a| < |b| && forall x :: x in log ==> x in Entries(a)
    ensures |Entries(b)| == |b| && Entries(b)[|a|] in Entries(b) && !InLog(log, Entries(b)[|a|])
  {
    hide AsEntry;
    EntriesUnique(b, bidId);
    forall i | 0 <= i < |log|
      ensures !SameKey(log[i], Entries(b)[|a|])
    {
      assert log[i] in log;
      EntryIndex(a, bidId, log[i]);
    }
  }

  function Announced(workflowId: string, seqNo: nat, from: Option<W.Phase>, phase: W.Phase): W.Event {
    W.Event("bid", workflowId, seqNo, "tenant", from, phase, W.ProfileM, W.ArtifactKeys(phase), "now", None)
  }

  /** A run that reaches `phase` after triage. */
  function ThreeEvents(workflowId: string, phase: W.Phase): seq<W.Event> {
    [Announced(workflowId, 1, None, W.Completed(W.S0)),
     Announced(workflowId, 2, Some(W.Completed(W.S0)), W.Completed(W.S1)),
     Announced(workflowId, 3, Some(W.Completed(W.S1)), phase)]
  }

  lemma ThreeAreChained(workflowId: string, phase: W.Phase)
    ensures W.Chained(ThreeEvents(workflowId, phase), "bid") && W.OfRun(ThreeEvents(workflowId, phase), workflowId)
  {
    hide W.ArtifactKeys;
    var events := ThreeEvents(workflowId, phase);
    assert W.ChainedAt(events, 0) && W.ChainedAt(events, 1) && W.ChainedAt(events, 2);
  }

  /** A bid declined at triage and started again is still shown as declined when the second run is past triage. */
  lemma DeclinedThenRestarted()
    ensures var a, b := ThreeEvents("bid-1", W.Declined), ThreeEvents("bid-2", W.Completed(W.S0_5));
            var s := ApplyAll(EMPTY, Entries(a) + Entries(b));
            && W.Chained(a, "bid") && W.Chained(b, "bid")
            && "bid" in s.rows && s.rows["bid"].workflowId == "bid-1"
            && s.rows["bid"].isTerminal && s.rows["bid"].outcome == Some("NO_BID")
  {
    hide ApplyAll, AsEntry, Entries, Firsts, ThreeEvents, W.Chained, W.CostSum, IsTerminal, OutcomeOf, PhaseText;
    var a, b := ThreeEvents("bid-1", W.Declined), ThreeEvents("bid-2", W.Completed(W.S0_5));
    ThreeAreChained("bid-1", W.Declined);
    ThreeAreChained("bid-2", W.Completed(W.S0_5));
    ThreeEnd("bid-1", W.Declined);
    ThreeEnd("bid-2", W.Completed(W.S0_5));
    ChainIsNumbered(a, "bid");
    ChainIsNumbered(b, "bid");
    SecondRunIsReplayIff(a, b, "bid");
    EntriesAreIn(a);
    SoleRun(Entries(a), a, "bid");
    EntriesAreProjected(Entries(a), a, "bid");
    PhaseTextIsTerminal(W.Declined);
  }

  lemma ThreeEnd(workflowId: string, phase: W.Phase)
    ensures var events := ThreeEvents(workflowId, phase);
            |events| == 3 && events[2].toState == phase && events[2].workflowId == workflowId
  {
  }

  lemma EntriesAreIn(events: seq<W.Event>)
    ensures AllIn(events, Entries(events))
  {
    forall e | e in events
      ensures AsEntry(e) in Entries(events)
    {
      var i: nat :| i < |events| && events[i] == e;
      assert Entries(events)[i] == AsEntry(e);
    }
  }

  // ---------------------------------------------------------------- through the failing consumer

  /** Every event of a run applied, and no key of its bid first applied with anything else. */
  lemma {:induction false} AppliedChainIsProjected(applied: seq<Entry>, events: seq<W.Event>, bidId: string,
                                                   state: W.WorkflowState)
    requires W.Chained(events, bidId) && events != [] && events[|events| - 1].toState == FinalPhase(state)
    requires AllIn(events, applied) && FirstsAreRun(applied, events, bidId)
    ensures var s := ApplyAll(EMPTY, applied);
            && Projects(s, bidId, events) && s.rows[bidId].outcome == FinalOutcome(state)
            && (s.rows[bidId].isTerminal <==> state != W.Blocked)
  {
    hide ApplyAll, AllIn, FirstsAreRun, PhaseText, IsTerminal, OutcomeOf, W.Chained, Numbered;
    ChainIsNumbered(events, bidId);
    EntriesAreProjected(applied, events, bidId);
    PhaseTextIsTerminal(FinalPhase(state));
  }

  /** The stream entry of this event has been acknowledged. */
  ghost predicate Acknowledged(c: Consumer.ProjectionConsumer, v: W.Event)
    reads c`acked
  {
    exists id :: id in c.acked && id in c.stream && c.stream[id] == Codec.Encode(AsEntry(v))
  }

  /** An acknowledged event of the run has been applied, not merely another with its key. */
  lemma AcknowledgedIsApplied(c: Consumer.ProjectionConsumer, events: seq<W.Event>, bidId: string, v: W.Event)
    requires c.Inv() && Numbered(events, bidId) && bidId != "" && FirstsAreRun(c.applied, events, bidId)
    requires v in events && Acknowledged(c, v)
    ensures AsEntry(v) in c.applied
  {
    hide Codec.Parse, Codec.Encode, ApplyAll, AsEntry, Firsts, Entries;
    var id :| id in c.acked && id in c.stream && c.stream[id] == Codec.Encode(AsEntry(v));
    assert c.AckedOk(id);
    EventOfBid(events, bidId, v);
    EventRoundTrip(v, c.other);
    LogIsFirsts(c.applied);
    EventIsFirst(c.applied, events, bidId, AsEntry(v));
    FirstsElements(c.applied);
  }

  /** What the consumer's tables show of a run that ended in `state`. */
  ghost predicate ShowsRun(s: Store, bidId: string, events: seq<W.Event>, state: W.WorkflowState, spent: int) {
    && Projects(s, bidId, events) && s.rows[bidId].totalCost == spent
    && s.rows[bidId].outcome == FinalOutcome(state) && (s.rows[bidId].isTerminal <==> state != W.Blocked)
  }

  /**
   The whole path, failures included: whatever transactions and acknowledgements failed on the way,
   once every event of a returned run has been applied, the consumer's own tables show the run.
   */
  lemma {:induction false} ConsumedRunIsProjected(c: Consumer.ProjectionConsumer, w: BidWorkflow.Workflow, pos: nat)
    requires c.Inv() && w.Inv() && w.Returned(pos) && w.bidCard.Some?
    requires AllIn(w.emitted, c.applied) && FirstsAreRun(c.applied, w.emitted, w.bidCard.value.bidId)
    ensures ShowsRun(Store(c.log, c.rows), w.bidCard.value.bidId, w.emitted, w.state, w.spent)
  {
    hide W.Itinerary, W.CostSum, W.Pipeline, ApplyAll, AllIn, FirstsAreRun, FinalPhase, FinalOutcome;
    EndsAsAnnounced(w, pos);
    AppliedChainIsProjected(c.applied, w.emitted, w.bidCard.value.bidId, w.state);
  }

  /** The same once every event has been acknowledged, which is all the stream can tell. */
  lemma {:induction false} AcknowledgedRunIsProjected(c: Consumer.ProjectionConsumer, w: BidWorkflow.Workflow, pos: nat)
    requires c.Inv() && w.Inv() && w.Returned(pos) && w.bidCard.Some? && w.bidCard.value.bidId != ""
    requires FirstsAreRun(c.applied, w.emitted, w.bidCard.value.bidId)
    requires forall v {:trigger Acknowledged(c, v)} :: v in w.emitted ==> Acknowledged(c, v)
    ensures ShowsRun(Store(c.log, c.rows), w.bidCard.value.bidId, w.emitted, w.state, w.spent)
  {
    hide W.Itinerary, W.CostSum, W.Pipeline, W.Chained, ApplyAll, AsEntry, FirstsAreRun, FinalPhase, FinalOutcome,
         Acknowledged, ShowsRun;
    EndsAsAnnounced(w, pos);
    ChainIsNumbered(w.emitted, w.bidCard.value.bidId);
    forall v | v in w.emitted
      ensures AsEntry(v) in c.applied
    {
      assert Acknowledged(c, v);
      AcknowledgedIsApplied(c, w.emitted, w.bidCard.value.bidId, v);
    }
    ConsumedRunIsProjected(c, w, pos);
  }

  /**
   A bid whose workflow was started again after its first run had returned: the tables tell how the longer
   run went. If the first finished and the second was blocked no later than at its length, the bid stays
   COMPLETED and terminal and the second run's cost is not in the row.
   */
  lemma {:induction false} RestartedBidIsProjected(c: Consumer.ProjectionConsumer, first: BidWorkflow.Workflow, i: nat,
                                                   second: BidWorkflow.Workflow, j: nat, bidId: string, n: nat)
    requires c.Inv() && n <= |c.applied| && ReturnedFor(first, i, bidId) && ReturnedFor(second, j, bidId)
    requires RunAgain(c.applied[..n], c.applied[n..], first.emitted, second.emitted, bidId)
    requires first.workflowId != second.workflowId
    ensures bidId in c.rows
    ensures var row := c.rows[bidId];
            var shown := if |first.emitted| < |second.emitted| then second else first;
            && row.workflowId == shown.workflowId && row.outcome == FinalOutcome(shown.state)
            && (row.isTerminal <==> shown.state != W.Blocked) && row.lastSeq == |shown.emitted|
            && (|second.emitted| <= |first.emitted| ==> row.totalCost == first.spent)
  {
    hide ApplyAll, Firsts, Entries, FirstsAreRun, RunAgain, ReturnedFor, PhaseText, ProfileText, IsTerminal, OutcomeOf,
         W.CostSum;
    var a, b := first.emitted, second.emitted;
    ReturnedEnds(first, i, bidId);
    ReturnedEnds(second, j, bidId);
    assert c.applied[..n] + c.applied[n..] == c.applied;
    SecondRunIsProjected(c.applied[..n], c.applied[n..], a, b, bidId);
    ShowsSecondRunIff(c.applied[..n], c.applied[n..], a, b, bidId, first.workflowId, second.workflowId);
    PhaseTextIsTerminal(FinalPhase(first.state));
    PhaseTextIsTerminal(FinalPhase(second.state));
    var w := InTurn(a, b);
    assert w[|w| - 1] == if |a| < |b| then b[|b| - 1] else a[|a| - 1];
  }

  ghost predicate ReturnedFor(w: BidWorkflow.Workflow, pos: nat, bidId: string)
    reads w
  {
    w.Inv() && w.Returned(pos) && w.bidCard.Some? && w.bidCard.value.bidId == bidId
  }

  lemma ReturnedEnds(w: BidWorkflow.Workflow, pos: nat, bidId: string)
    requires ReturnedFor(w, pos, bidId)
    ensures w.emitted != [] && w.emitted[|w.emitted| - 1].toState == FinalPhase(w.state)
    ensures W.OfRun(w.emitted, w.workflowId) && W.CostSum(w.emitted) == w.spent
  {
    hide W.Itinerary, W.CostSum, W.Pipeline, FinalPhase, W.Chained;
    EndsAsAnnounced(w, pos);
  }
}
