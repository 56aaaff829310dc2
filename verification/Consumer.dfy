/**
 The consumer of the `bid.transitions` stream: it owns the log and the projection rows, applies each
 entry in one transaction and acknowledges it. The database and the stream may fail at any step.
 */
module Consumer {
  import opened Prelude
  import opened Projection
  import Codec

  datatype StreamEntry = StreamEntry(id: string, fields: seq<string>)

  class ProjectionConsumer {
    var log: seq<Entry>
    var rows: map<string, Row>
    var acked: set<string>
    /** What JSON.parse and String make of `artifact_keys` texts that are not arrays of strings. */
    const other: string -> Option<seq<string>>
    /** The append-only stream: what every entry id holds. */
    ghost const stream: map<string, seq<string>>
    /** The entries applied so far, in order. */
    ghost var applied: seq<Entry>

    /** An acknowledged entry is malformed or its transition is in the log. */
    ghost predicate AckedOk(id: string)
      reads `log
    {
      id in stream && var e := Codec.Parse(stream[id], other); e.None? || InLog(log, e.value)
    }

    /** A transition that the stream carries. */
    ghost predicate OnStream(e: Entry) {
      exists id :: id in stream && Codec.Parse(stream[id], other) == Some(e)
    }

    ghost predicate Inv()
      reads `log, `rows, `acked, `applied
    {
      && Store(log, rows) == ApplyAll(EMPTY, applied)
      && (forall e {:trigger OnStream(e)} :: e in applied ==> OnStream(e))
      && forall id {:trigger AckedOk(id)} :: id in acked ==> AckedOk(id)
    }

    constructor (other: string -> Option<seq<string>>, ghost stream: map<string, seq<string>>)
      ensures Inv() && log == [] && rows == map[] && acked == {} && applied == []
      ensures this.stream == stream && this.other == other
    {
      this.other, this.stream := other, stream;
      log, rows, acked, applied := [], map[], {}, [];
    }

    /** Inserts the log row; false when `(bid_id, transition_seq)` is already there. */
    method InsertTransitionLog(e: Entry) returns (isNew: bool)
      modifies `log
      ensures isNew == !InLog(old(log), e) && log == if isNew then old(log) + [e] else old(log)
    {
      if InLog(log, e) { return false; }
      log := log + [e];
      isNew := true;
    }

    /** The loop over the entry's artifact keys. */
    method StampKeys(done: map<string, string>, keys: seq<string>, at: string) returns (r: map<string, string>)
      ensures r == Stamp(done, keys, at)
    {
      r := done;
      for i := 0 to |keys|
        invariant r == Stamp(done, keys[..i], at)
      {
        assert Elements(keys[..i + 1]) == Elements(keys[..i]) + {keys[i]};
        if keys[i] !in r { r := r[keys[i] := at]; }
      }
      assert keys[..|keys|] == keys;
    }

    method UpsertProjection(e: Entry, isNew: bool)
      modifies `rows
      ensures rows == old(rows)[e.bidId := Upserted(Find(old(rows), e.bidId), e, isNew)]
    {
      var existing := Find(rows, e.bidId);
      var isTerminal := IsTerminal(e.toState);
      var outcome := if isTerminal then OutcomeOf(e.toState) else None;
      if existing.Some? && e.seqNo <= existing.value.lastSeq {
        if isNew && e.cost.Some? {
          rows := rows[e.bidId := existing.value.(totalCost := existing.value.totalCost + e.cost.value)];
        }
        return;
      }
      var before := if existing.Some? then existing.value.artifactsDone else map[];
      var done := StampKeys(before, e.artifactKeys, e.occurredAt);
      var previousCost := if existing.Some? then existing.value.totalCost else 0;
      var totalCost := if isNew && e.cost.Some? then previousCost + e.cost.value else previousCost;
      var clientName := if existing.Some? then existing.value.clientName else "";
      var industry := if existing.Some? then existing.value.industry else "";
      rows := rows[e.bidId := Row(e.workflowId, e.tenantId, e.toState, e.profile, clientName, industry, e.seqNo,
                                  e.occurredAt, done, isTerminal, outcome, totalCost)];
    }

    /** One transaction: a failure at either statement or at the commit leaves both tables as they were. */
    method ApplyTransition(e: Entry, fails: bool)
      requires Inv() && OnStream(e)
      modifies `log, `rows, `applied
      ensures Inv() && (!fails ==> InLog(log, e)) && (forall f :: InLog(old(log), f) ==> InLog(log, f))
      ensures applied == old(applied) + if fails then [] else [e]
      ensures Store(log, rows) == if fails then old(Store(log, rows)) else Apply(old(Store(log, rows)), e)
    {
      hide ApplyAll, Codec.Parse, Upserted, InLog;
      var logBefore, rowsBefore := log, rows;
      var early: bool := *;  // whether a failure comes before the second statement
      var isNew := InsertTransitionLog(e);
      if !fails || !early { UpsertProjection(e, isNew); }
      if fails {
        log, rows := logBefore, rowsBefore;
      } else {
        NowLogged(logBefore, e);
        ApplyAllSnoc(EMPTY, applied, e);
        applied := applied + [e];
      }
      forall id | id in acked
        ensures AckedOk(id)
      {
        assert old(AckedOk(id));
      }
    }

    /** A failing XACK is only logged. */
    method SafeAck(id: string, fails: bool)
      modifies `acked
      ensures acked == old(acked) + if fails then {} else {id}
    {
      if !fails { acked := acked + {id}; }
    }

    /** One entry: applied and acknowledged, acknowledged as malformed, or left pending. */
    method ProcessEntry(x: StreamEntry, fails: bool, ackFails: bool)
      requires Inv() && x.id in stream && stream[x.id] == x.fields
      modifies `log, `rows, `acked, `applied
      ensures Inv()
      ensures acked == old(acked) + if Handled(x, fails, other) && !ackFails then {x.id} else {}
      ensures var e := Codec.Parse(x.fields, other);
              applied == old(applied) + if e.Some? && !fails then [e.value] else []
    {
      hide ApplyAll, Codec.Parse, InLog;
      var parsed := Codec.ParseEntry(x.fields, other);
      if parsed.Some? {
        assert OnStream(parsed.value);
        ApplyTransition(parsed.value, fails);
      }
      if parsed.None? || !fails { SafeAck(x.id, ackFails); }
      assert AckedOk(x.id) || !Handled(x, fails, other);
    }

    /**
     One batch: a malformed or failing entry never stops the rest. Exactly the well-formed entries whose
     transaction did not fail are applied, and exactly those and the malformed ones are acknowledged.
     */
    method ProcessBatch(entries: seq<StreamEntry>, fails: seq<bool>, ackFails: seq<bool>)
      requires |fails| == |entries| == |ackFails|
      requires Inv() && forall x :: x in entries ==> x.id in stream && stream[x.id] == x.fields
      modifies `log, `rows, `acked, `applied
      ensures Inv() && applied == old(applied) + Taken(entries, fails, other)
      ensures forall id :: id in acked <==> id in old(acked) || AckedBy(entries, fails, ackFails, other, id)
    {
      hide Inv, ApplyAll, Codec.Parse, InLog, Handled;
      for i := 0 to |entries|
        invariant Inv() && applied == old(applied) + Taken(entries[..i], fails[..i], other)
        invariant forall id :: id in acked <==>
                    id in old(acked) || AckedBy(entries[..i], fails[..i], ackFails[..i], other, id)
      {
        ghost var before := acked;
        assert entries[i] in entries;
        assert entries[..i + 1][..i] == entries[..i] && fails[..i + 1][..i] == fails[..i];
        assert ackFails[..i + 1][..i] == ackFails[..i];
        ProcessEntry(entries[i], fails[i], ackFails[i]);
        forall id
          ensures id in acked <==>
                    id in old(acked) || AckedBy(entries[..i + 1], fails[..i + 1], ackFails[..i + 1], other, id)
        {
          AckedSnoc(entries[..i + 1], fails[..i + 1], ackFails[..i + 1], other, id);
          assert id in before <==> id in old(acked) || AckedBy(entries[..i], fails[..i], ackFails[..i], other, id);
        }
      }
      assert entries[..|entries|] == entries && fails[..|fails|] == fails && ackFails[..|ackFails|] == ackFails;
    }
  }

  /** The entry needs no further delivery: it is malformed, or its transaction committed. */
  predicate Handled(x: StreamEntry, fails: bool, other: string -> Option<seq<string>>) {
    Codec.Parse(x.fields, other).None? || !fails
  }

  /** Some entry of the batch with this id is acknowledged. */
  ghost predicate AckedBy(entries: seq<StreamEntry>, fails: seq<bool>, ackFails: seq<bool>,
                          other: string -> Option<seq<string>>, id: string)
    requires |fails| == |entries| == |ackFails|
  {
    exists i :: 0 <= i < |entries| && entries[i].id == id && Handled(entries[i], fails[i], other) && !ackFails[i]
  }

  lemma AckedSnoc(entries: seq<StreamEntry>, fails: seq<bool>, ackFails: seq<bool>,
                  other: string -> Option<seq<string>>, id: string)
    requires |fails| == |entries| == |ackFails| && entries != []
    ensures var n := |entries| - 1;
            AckedBy(entries, fails, ackFails, other, id)
            <==> AckedBy(entries[..n], fails[..n], ackFails[..n], other, id)
                 || (entries[n].id == id && Handled(entries[n], fails[n], other) && !ackFails[n])
  {
    hide Handled;
    var n := |entries| - 1;
    if AckedBy(entries, fails, ackFails, other, id) {
      var i :| 0 <= i < |entries| && entries[i].id == id && Handled(entries[i], fails[i], other) && !ackFails[i];
      if i < n { assert entries[..n][i] == entries[i] && fails[..n][i] == fails[i] && ackFails[..n][i] == ackFails[i]; }
    }
    if AckedBy(entries[..n], fails[..n], ackFails[..n], other, id) {
      var i :| 0 <= i < n && entries[..n][i].id == id && Handled(entries[..n][i], fails[..n][i], other)
               && !ackFails[..n][i];
      assert entries[..n][i] == entries[i];
    }
  }

  /** In every reachable state the rows are a materialised view of the log. */
  lemma RowsAreView(c: ProjectionConsumer)
    requires c.Inv()
    ensures View(Store(c.log, c.rows))
  {
    EmptyView();
    ApplyAllKeepsView(EMPTY, c.applied);
  }

  lemma NowLogged(log: seq<Entry>, e: Entry)
    ensures InLog(log + [e], e) && forall f :: InLog(log, f) ==> InLog(log + [e], f)
  {
    assert SameKey((log + [e])[|log|], e);
    forall f | InLog(log, f)
      ensures InLog(log + [e], f)
    {
      var i :| 0 <= i < |log| && SameKey(log[i], f);
      assert SameKey((log + [e])[i], f);
    }
  }

  /** The transitions of a batch whose transaction committed. */
  function Taken(entries: seq<StreamEntry>, fails: seq<bool>, other: string -> Option<seq<string>>): seq<Entry>
    requires |fails| == |entries|
  {
    if entries == [] then [] else
      var n := |entries| - 1;
      var e := Codec.Parse(entries[n].fields, other);
      Taken(entries[..n], fails[..n], other) + if e.Some? && !fails[n] then [e.value] else []
  }
}
