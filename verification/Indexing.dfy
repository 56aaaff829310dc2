/**
 The indexer's routing and its bucketed upserts: chunks go to one bucket a collection, a full bucket
 is flushed at once, the rest at the end.
 */
module Indexing {
  import opened Prelude

  const UPSERT_BATCH: nat := 64

  const STAGING := "bid-atoms-staging"
  const PROD := "bid-atoms-prod"

  datatype Mode = Staging | Prod | Auto | Legacy

  /** A payload value of the kinds that routing tells apart; anything else is opaque. */
  datatype Value = Text(text: string) | Texts(texts: seq<string>) | Flag(flag: bool) | Opaque(shape: int)

  type Payload = map<string, Value>

  datatype Point = Point(id: string, payload: Payload)

  datatype Flush = Flush(collection: string, points: seq<Point>)

  const ATOM_TYPES: set<string> := {"functional", "nfr", "technical", "compliance", "timeline", "unclear"}
  const PRIORITIES: set<string> := {"MUST", "SHOULD", "COULD", "WONT"}

  /** A payload that passed its role's schema. */
  datatype Model = AtomModel(approved: bool, active: bool) | OtherModel

  predicate NonemptyText(p: Payload, field: string) {
    field in p && p[field].Text? && p[field].text != ""
  }

  predicate TextIn(p: Payload, field: string, allowed: set<string>) {
    field in p && p[field].Text? && p[field].text in allowed
  }

  predicate OptionalText(p: Payload, field: string) {
    field in p ==> p[field].Text?
  }

  /** A required boolean; `coerce` is the schema library's reading of values that are not booleans. */
  function BoolField(p: Payload, field: string, coerce: Value -> Option<bool>): Option<bool> {
    if field !in p then None else if p[field].Flag? then Some(p[field].flag) else coerce(p[field])
  }

  /** The fields every role requires. */
  predicate BaseValid(p: Payload) {
    NonemptyText(p, "tenant_id") && NonemptyText(p, "bid_id")
  }

  predicate AtomFieldsValid(p: Payload) {
    && NonemptyText(p, "atom_id") && TextIn(p, "atom_type", ATOM_TYPES) && TextIn(p, "priority", PRIORITIES)
    && ("tags" in p ==> p["tags"].Texts?) && OptionalText(p, "category") && OptionalText(p, "source_file")
  }

  /** `validate_payload`; `others` decides the roles that are never routed to prod. */
  function ValidatePayload(p: Payload, role: string, coerce: Value -> Option<bool>,
                           others: (Payload, string) -> bool): Option<Model> {
    if role == "requirement_atom" then
      var approved, active := BoolField(p, "approved", coerce), BoolField(p, "active", coerce);
      if BaseValid(p) && AtomFieldsValid(p) && approved.Some? && active.Some?
      then Some(AtomModel(approved.value, active.value)) else None
    else if BaseValid(p) && others(p, role) then Some(OtherModel)
    else None
  }

  function RoutesToProd(m: Model): bool {
    m.AtomModel? && m.approved && m.active
  }

  /** `_resolve_collection`; `legacy` is the configured collection. */
  function Resolve(p: Payload, mode: Mode, legacy: string, coerce: Value -> Option<bool>,
                   others: (Payload, string) -> bool): string {
    match mode
    case Staging => STAGING
    case Prod => PROD
    case Legacy => legacy
    case Auto =>
      if !("role" in p && p["role"].Text?) then STAGING
      else
        var m := ValidatePayload(p, p["role"].text, coerce, others);
        if m.Some? && RoutesToProd(m.value) then PROD else STAGING
  }

  /** The field holds a boolean that is true, or something that the schema library reads as true. */
  predicate ReadsTrue(p: Payload, field: string, coerce: Value -> Option<bool>) {
    field in p && (p[field] == Flag(true) || (!p[field].Flag? && coerce(p[field]) == Some(true)))
  }

  /** The field holds one of these texts. */
  predicate HoldsOneOf(p: Payload, field: string, texts: seq<string>) {
    exists i :: 0 <= i < |texts| && field in p && p[field] == Text(texts[i])
  }

  /** The field holds a text that is not empty. */
  predicate Given(p: Payload, field: string) {
    field in p && p[field].Text? && |p[field].text| > 0
  }

  /** An atom with every required field of the right kind, approved and active. */
  predicate ApprovedAtom(p: Payload, coerce: Value -> Option<bool>) {
    && HoldsOneOf(p, "role", ["requirement_atom"])
    && Given(p, "tenant_id") && Given(p, "bid_id") && Given(p, "atom_id")
    && HoldsOneOf(p, "atom_type", ["functional", "nfr", "technical", "compliance", "timeline", "unclear"])
    && HoldsOneOf(p, "priority", ["MUST", "SHOULD", "COULD", "WONT"])
    && ("tags" in p ==> p["tags"].Texts?)
    && ("category" in p ==> p["category"].Text?) && ("source_file" in p ==> p["source_file"].Text?)
    && ReadsTrue(p, "approved", coerce) && ReadsTrue(p, "active", coerce)
  }

  lemma AtomTypesHold(p: Payload)
    ensures TextIn(p, "atom_type", ATOM_TYPES)
            <==> HoldsOneOf(p, "atom_type", ["functional", "nfr", "technical", "compliance", "timeline", "unclear"])
    ensures TextIn(p, "priority", PRIORITIES) <==> HoldsOneOf(p, "priority", ["MUST", "SHOULD", "COULD", "WONT"])
    ensures HoldsOneOf(p, "role", ["requirement_atom"]) <==> "role" in p && p["role"] == Text("requirement_atom")
  {
    var types := ["functional", "nfr", "technical", "compliance", "timeline", "unclear"];
    var levels := ["MUST", "SHOULD", "COULD", "WONT"];
    assert types[0] == "functional" && types[1] == "nfr" && types[2] == "technical" && types[3] == "compliance";
    assert types[4] == "timeline" && types[5] == "unclear";
    assert levels[0] == "MUST" && levels[1] == "SHOULD" && levels[2] == "COULD" && levels[3] == "WONT";
    assert ["requirement_atom"][0] == "requirement_atom";
    assert forall x :: x in ATOM_TYPES <==> x in types;
    assert forall x :: x in PRIORITIES <==> x in levels;
  }

  /** Under `auto`, exactly the complete atoms that are approved and active are sent to prod. */
  lemma OnlyApprovedReachProd(p: Payload, legacy: string, coerce: Value -> Option<bool>,
                              others: (Payload, string) -> bool)
    ensures Resolve(p, Auto, legacy, coerce, others) == PROD <==> ApprovedAtom(p, coerce)
    ensures Resolve(p, Auto, legacy, coerce, others) == STAGING <==> !ApprovedAtom(p, coerce)
  {
    hide TextIn, HoldsOneOf;
    AtomTypesHold(p);
    assert STAGING[10] != PROD[10];
  }

  /** Every other mode sends all points to one collection, whatever they are. */
  lemma OtherModesIgnorePayload(p: Payload, legacy: string, coerce: Value -> Option<bool>,
                                others: (Payload, string) -> bool)
    ensures Resolve(p, Staging, legacy, coerce, others) == "bid-atoms-staging"
    ensures Resolve(p, Prod, legacy, coerce, others) == "bid-atoms-prod"
    ensures Resolve(p, Legacy, legacy, coerce, others) == legacy
  {
  }

  /** An approved atom whose payload lost its id stays in staging, whatever else it holds. */
  lemma AtomWithoutIdIsStaged(p: Payload, legacy: string, coerce: Value -> Option<bool>,
                              others: (Payload, string) -> bool)
    requires "atom_id" !in p
    ensures Resolve(p, Auto, legacy, coerce, others) == STAGING
  {
    OnlyApprovedReachProd(p, legacy, coerce, others);
  }

  // ---------------------------------------------------------------- what the buckets must preserve

  /** The points bound for a collection, in order. */
  function Routed(points: seq<Point>, target: Point -> string, c: string): seq<Point> {
    if points == [] then [] else
      var p := points[|points| - 1];
      Routed(points[..|points| - 1], target, c) + if target(p) == c then [p] else []
  }

  /** Everything upserted into a collection, in order. */
  function Upserted(flushes: seq<Flush>, c: string): seq<Point> {
    if flushes == [] then [] else
      var f := flushes[|flushes| - 1];
      Upserted(flushes[..|flushes| - 1], c) + if f.collection == c then f.points else []
  }

  function Waiting(pending: map<string, seq<Point>>, c: string): seq<Point> {
    if c in pending then pending[c] else []
  }

  function Volume(flushes: seq<Flush>): nat {
    if flushes == [] then 0 else Volume(flushes[..|flushes| - 1]) + |flushes[|flushes| - 1].points|
  }

  ghost predicate FlushOk(f: Flush) {
    1 <= |f.points| <= UPSERT_BATCH
  }

  /** For every collection, what was flushed and what waits is what has been routed there. */
  ghost predicate Conserves(flushes: seq<Flush>, pending: map<string, seq<Point>>, done: seq<Point>,
                            target: Point -> string) {
    forall c {:trigger Routed(done, target, c)} :: Upserted(flushes, c) + Waiting(pending, c) == Routed(done, target, c)
  }

  /** Every upsert is a full batch. */
  ghost predicate AllFull(flushes: seq<Flush>) {
    forall f :: f in flushes ==> |f.points| == 64
  }

  /** Only the last upsert of a collection may be smaller than a full batch. */
  ghost predicate Packed(flushes: seq<Flush>) {
    forall i, j :: 0 <= i < j < |flushes| && flushes[i].collection == flushes[j].collection ==>
      |flushes[i].points| == 64
  }

  lemma UpsertedSnoc(flushes: seq<Flush>, f: Flush, c: string)
    ensures Upserted(flushes + [f], c) == Upserted(flushes, c) + if f.collection == c then f.points else []
    ensures Volume(flushes + [f]) == Volume(flushes) + |f.points|
  {
    assert (flushes + [f])[..|flushes|] == flushes;
  }

  lemma RoutedSnoc(points: seq<Point>, p: Point, target: Point -> string, c: string)
    ensures Routed(points + [p], target, c) == Routed(points, target, c) + if target(p) == c then [p] else []
  {
    assert (points + [p])[..|points|] == points;
  }

  /** Putting a point into its bucket. */
  lemma Buckets(flushes: seq<Flush>, pending: map<string, seq<Point>>, done: seq<Point>, target: Point -> string,
                p: Point)
    requires Conserves(flushes, pending, done, target)
    ensures Conserves(flushes, pending[target(p) := Waiting(pending, target(p)) + [p]], done + [p], target)
  {
    hide Upserted, Routed;
    var t := target(p);
    var after := pending[t := Waiting(pending, t) + [p]];
    forall c
      ensures Upserted(flushes, c) + Waiting(after, c) == Routed(done + [p], target, c)
    {
      RoutedSnoc(done, p, target, c);
      assert Upserted(flushes, c) + Waiting(pending, c) == Routed(done, target, c);
      assert c == t ==> Upserted(flushes, c) + (Waiting(pending, c) + [p])
                        == Upserted(flushes, c) + Waiting(pending, c) + [p];
    }
  }

  /** Flushing a bucket and emptying it. */
  lemma Flushes(flushes: seq<Flush>, pending: map<string, seq<Point>>, done: seq<Point>, target: Point -> string,
                c: string)
    requires Conserves(flushes, pending, done, target) && c in pending
    ensures Conserves(flushes + [Flush(c, pending[c])], pending[c := []], done, target)
  {
    hide Upserted, Routed;
    var after := pending[c := []];
    forall d
      ensures Upserted(flushes + [Flush(c, pending[c])], d) + Waiting(after, d) == Routed(done, target, d)
    {
      UpsertedSnoc(flushes, Flush(c, pending[c]), d);
      assert Upserted(flushes, d) + Waiting(pending, d) == Routed(done, target, d);
    }
  }

  // ---------------------------------------------------------------- the loop

  /** How many points wait in the buckets of the listed collections. */
  function Backlog(pending: map<string, seq<Point>>, order: seq<string>): nat {
    if order == [] then 0 else Backlog(pending, order[..|order| - 1]) + |Waiting(pending, order[|order| - 1])|
  }

  class VectorStore {
    /** Every upsert call so far. */
    var flushes: seq<Flush>

    constructor ()
      ensures flushes == []
    {
      flushes := [];
    }

    method FlushBatch(collection: string, points: seq<Point>)
      modifies `flushes
      ensures flushes == old(flushes) + if points == [] then [] else [Flush(collection, points)]
    {
      if points == [] { return; }
      flushes := flushes + [Flush(collection, points)];
    }

    /** The bucket loop of `index_documents`, over chunks already embedded; `mine` are its upserts. */
    method IndexPoints(points: seq<Point>, mode: Mode, legacy: string, coerce: Value -> Option<bool>,
                       others: (Payload, string) -> bool)
      returns (total: nat, ghost mine: seq<Flush>)
      modifies this
      ensures flushes == old(flushes) + mine
      ensures var target := (p: Point) => Resolve(p.payload, mode, legacy, coerce, others);
              forall c :: Upserted(mine, c) == Routed(points, target, c)
      ensures Packed(mine) && forall f :: f in mine ==> 1 <= |f.points| <= 64
      ensures total == Volume(mine) == |points|
    {
      hide BucketsOk, Upserted, Routed, Volume, Resolve;
      ghost var target := (p: Point) => Resolve(p.payload, mode, legacy, coerce, others);
      var pending: map<string, seq<Point>> := map[];
      var order: seq<string> := [];
      total, mine := 0, [];
      ghost var base := flushes;
      StartsOk(target);
      for i := 0 to |points|
        invariant BucketsOk(mine, pending, order, points[..i], total, target) && flushes == base + mine
        invariant AllFull(mine)
      {
        var c := Resolve(points[i].payload, mode, legacy, coerce, others);
        assert points[..i + 1] == points[..i] + [points[i]];
        pending, order, total, mine := AddPoint(points[i], c, pending, order, total, base, mine, points[..i], target);
      }
      assert points[..|points|] == points;
      total, pending, mine := Drain(pending, order, total, base, mine, points, target);
      EndsOk(mine, pending, order, points, total, target);
    }

    /** One turn: the point joins its bucket, and a full bucket is flushed. */
    method AddPoint(p: Point, c: string, given: map<string, seq<Point>>, known: seq<string>, before: nat,
                    ghost base: seq<Flush>, ghost earlier: seq<Flush>, ghost done: seq<Point>,
                    ghost target: Point -> string)
      returns (pending: map<string, seq<Point>>, order: seq<string>, total: nat, ghost mine: seq<Flush>)
      requires flushes == base + earlier
      requires BucketsOk(earlier, given, known, done, before, target) && c == target(p)
      modifies this
      ensures BucketsOk(mine, pending, order, done + [p], total, target) && (AllFull(earlier) ==> AllFull(mine))
      ensures flushes == base + mine
    {
      hide Conserves, Volume, Ordered;
      Buckets(earlier, given, done, target, p);
      BacklogGrows(given, known, c, p);
      order := if c in given then known else known + [c];
      var bucket := Waiting(given, c) + [p];
      pending, total, mine := given[c := bucket], before, earlier;
      if |bucket| >= UPSERT_BATCH {
        pending, total, mine := FlushBucket(c, pending, order, before, earlier, done + [p], target);
      }
    }

    /** Flushes one nonempty bucket. */
    method FlushBucket(c: string, given: map<string, seq<Point>>, ghost order: seq<string>, before: nat,
                       ghost earlier: seq<Flush>, ghost done: seq<Point>, ghost target: Point -> string)
      returns (pending: map<string, seq<Point>>, total: nat, ghost mine: seq<Flush>)
      requires Conserves(earlier, given, done, target) && Ordered(given, order) && before == Volume(earlier)
      requires before + Backlog(given, order) == |done| && forall f :: f in earlier ==> FlushOk(f)
      requires c in given && 1 <= |given[c]| <= UPSERT_BATCH
      requires forall d :: d in given && d != c ==> |given[d]| < UPSERT_BATCH
      modifies this
      ensures BucketsOk(mine, pending, order, done, total, target) && pending == given[c := []]
      ensures mine == earlier + [Flush(c, given[c])] && flushes == old(flushes) + [Flush(c, given[c])]
    {
      hide Conserves, Volume, Ordered;
      Flushes(earlier, given, done, target, c);
      BacklogEmpties(given, order, c);
      UpsertedSnoc(earlier, Flush(c, given[c]), c);
      FlushBatch(c, given[c]);
      total := before + |given[c]|;
      mine := earlier + [Flush(c, given[c])];
      pending := given[c := []];
    }

    /** Flushes what is left in one bucket. */
    method DrainBucket(c: string, given: map<string, seq<Point>>, ghost order: seq<string>, before: nat,
                       ghost earlier: seq<Flush>, ghost done: seq<Point>, ghost target: Point -> string)
      returns (pending: map<string, seq<Point>>, total: nat, ghost mine: seq<Flush>)
      requires BucketsOk(earlier, given, order, done, before, target) && c in given
      modifies this
      ensures BucketsOk(mine, pending, order, done, total, target) && pending == given[c := []]
      ensures mine == if given[c] == [] then earlier else earlier + [Flush(c, given[c])]
      ensures flushes == if given[c] == [] then old(flushes) else old(flushes) + [Flush(c, given[c])]
    {
      hide Conserves, Volume, Ordered;
      if given[c] == [] {
        assert given[c := []] == given;
        pending, total, mine := given, before, earlier;
      } else {
        pending, total, mine := FlushBucket(c, given, order, before, earlier, done, target);
      }
    }

    /** The final loop over the buckets. */
    method Drain(given: map<string, seq<Point>>, order: seq<string>, before: nat, ghost base: seq<Flush>,
                 ghost earlier: seq<Flush>, ghost done: seq<Point>, ghost target: Point -> string)
      returns (total: nat, pending: map<string, seq<Point>>, ghost mine: seq<Flush>)
      requires BucketsOk(earlier, given, order, done, before, target) && AllFull(earlier)
      requires flushes == base + earlier
      modifies this
      ensures BucketsOk(mine, pending, order, done, total, target) && Packed(mine)
      ensures forall c :: c in pending ==> pending[c] == []
      ensures flushes == base + mine
    {
      hide BucketsOk, Packed, DrainedTo;
      PackedFull(earlier);
      NoneDrained(order, earlier, given);
      total, pending, mine := before, given, earlier;
      for i := 0 to |order|
        invariant BucketsOk(mine, pending, order, done, total, target) && Packed(mine) && flushes == base + mine
        invariant DrainedTo(order, i, mine, pending)
      {
        OrderListed(mine, pending, order, done, total, target);
        DrainStep(order, i, mine, pending);
        pending, total, mine := DrainBucket(order[i], pending, order, total, mine, done, target);
      }
      OrderListed(mine, pending, order, done, total, target);
      AllDrained(order, mine, pending);
    }
  }

  /** The first `i` buckets are empty, and only their collections have had an upsert that is not full. */
  ghost predicate DrainedTo(order: seq<string>, i: nat, mine: seq<Flush>, pending: map<string, seq<Point>>) {
    && i <= |order|
    && (forall f :: f in mine ==> |f.points| == 64 || f.collection in order[..i])
    && (forall k :: 0 <= k < i ==> order[k] in pending && pending[order[k]] == [])
  }

  lemma NoneDrained(order: seq<string>, mine: seq<Flush>, pending: map<string, seq<Point>>)
    requires AllFull(mine)
    ensures DrainedTo(order, 0, mine, pending)
  {
  }

  lemma AllDrained(order: seq<string>, mine: seq<Flush>, pending: map<string, seq<Point>>)
    requires DrainedTo(order, |order|, mine, pending) && forall c :: c in order <==> c in pending
    ensures forall c :: c in pending ==> pending[c] == []
  {
    forall c | c in pending
      ensures pending[c] == []
    {
      assert c in order;
      var k :| 0 <= k < |order| && order[k] == c;
    }
  }

  /** Draining one more bucket. */
  lemma DrainStep(order: seq<string>, i: nat, mine: seq<Flush>, pending: map<string, seq<Point>>)
    requires i < |order| && DrainedTo(order, i, mine, pending) && Packed(mine)
    requires forall j, k :: 0 <= j < k < |order| ==> order[j] != order[k]
    requires forall c :: c in order <==> c in pending
    ensures order[i] in pending
    ensures var c := order[i];
            var more := if pending[c] == [] then mine else mine + [Flush(c, pending[c])];
            DrainedTo(order, i + 1, more, pending[c := []]) && Packed(more)
  {
    var c := order[i];
    assert c in order && c !in order[..i] && order[..i + 1] == order[..i] + [c];
    PackedSnoc(mine, Flush(c, pending[c]), order[..i]);
  }

  lemma PackedFull(flushes: seq<Flush>)
    requires AllFull(flushes)
    ensures Packed(flushes)
  {
  }

  /** An upsert of a collection that has had only full ones. */
  lemma PackedSnoc(flushes: seq<Flush>, f: Flush, drained: seq<string>)
    requires Packed(flushes) && f.collection !in drained
    requires forall g :: g in flushes ==> |g.points| == 64 || g.collection in drained
    ensures Packed(flushes + [f])
    ensures forall g :: g in flushes + [f] ==> |g.points| == 64 || g.collection in drained + [f.collection]
  {
    forall i | 0 <= i < |flushes| && flushes[i].collection == f.collection
      ensures |flushes[i].points| == 64
    {
      assert flushes[i] in flushes;
    }
  }

  /** The buckets are below the batch size, conserve the points, and add up with the flushes to `done`. */
  ghost predicate BucketsOk(flushes: seq<Flush>, pending: map<string, seq<Point>>, order: seq<string>,
                            done: seq<Point>, total: nat,
                            target: Point -> string) {
    && Conserves(flushes, pending, done, target) && Ordered(pending, order)
    && (forall f :: f in flushes ==> FlushOk(f))
    && (forall c :: c in pending ==> |pending[c]| < UPSERT_BATCH)
    && total == Volume(flushes) && total + Backlog(pending, order) == |done|
  }

  lemma OrderListed(flushes: seq<Flush>, pending: map<string, seq<Point>>, order: seq<string>,
                    done: seq<Point>, total: nat, target: Point -> string)
    requires BucketsOk(flushes, pending, order, done, total, target)
    ensures forall i, j :: 0 <= i < j < |order| ==> order[i] != order[j]
    ensures forall c :: c in order <==> c in pending
  {
  }

  lemma StartsOk(target: Point -> string)
    ensures BucketsOk([], map[], [], [], 0, target)
  {
  }

  lemma {:induction false} EndsOk(flushes: seq<Flush>, pending: map<string, seq<Point>>, order: seq<string>,
                                  points: seq<Point>, total: nat,
               target: Point -> string)
    requires BucketsOk(flushes, pending, order, points, total, target) && forall c :: c in pending ==> pending[c] == []
    ensures forall c :: Upserted(flushes, c) == Routed(points, target, c)
    ensures (forall f :: f in flushes ==> FlushOk(f)) && total == Volume(flushes) == |points|
  {
    hide Volume;
    NoBacklog(pending, order);
    forall c
      ensures Upserted(flushes, c) == Routed(points, target, c)
    {
      assert Upserted(flushes, c) + Waiting(pending, c) == Routed(points, target, c);
    }
  }

  /** The buckets in insertion order, each once. */
  ghost predicate Ordered(pending: map<string, seq<Point>>, order: seq<string>) {
    && (forall i, j :: 0 <= i < j < |order| ==> order[i] != order[j])
    && (forall c :: c in order <==> c in pending)
  }

  lemma {:induction false} BacklogUpdate(pending: map<string, seq<Point>>, order: seq<string>, c: string,
                                         bucket: seq<Point>)
    requires forall i, j :: 0 <= i < j < |order| ==> order[i] != order[j]
    ensures Backlog(pending[c := bucket], order)
            == Backlog(pending, order) + if c in order then |bucket| - |Waiting(pending, c)| else 0
  {
    if order != [] {
      var n := |order| - 1;
      BacklogUpdate(pending, order[..n], c, bucket);
      assert order == order[..n] + [order[n]];
    }
  }

  lemma BacklogGrows(pending: map<string, seq<Point>>, order: seq<string>, c: string, p: Point)
    requires Ordered(pending, order)
    ensures var more := if c in pending then order else order + [c];
            var after := pending[c := Waiting(pending, c) + [p]];
            Ordered(after, more) && Backlog(after, more) == Backlog(pending, order) + 1
  {
    hide Backlog;
    var bucket := Waiting(pending, c) + [p];
    BacklogUpdate(pending, order, c, bucket);
    BacklogSnoc(pending[c := bucket], order, c);
    if c !in pending { OrderedSnoc(pending, order, c, bucket); }
  }

  lemma BacklogSnoc(pending: map<string, seq<Point>>, order: seq<string>, c: string)
    ensures Backlog(pending, order + [c]) == Backlog(pending, order) + |Waiting(pending, c)|
  {
    assert (order + [c])[..|order|] == order;
  }

  lemma OrderedSnoc(pending: map<string, seq<Point>>, order: seq<string>, c: string, bucket: seq<Point>)
    requires Ordered(pending, order) && c !in pending
    ensures Ordered(pending[c := bucket], order + [c])
  {
    var more := order + [c];
    forall i, j | 0 <= i < j < |more|
      ensures more[i] != more[j]
    {
      assert order[i] in order;
    }
  }

  lemma BacklogEmpties(pending: map<string, seq<Point>>, order: seq<string>, c: string)
    requires Ordered(pending, order) && c in pending
    ensures Ordered(pending[c := []], order)
            && Backlog(pending[c := []], order) == Backlog(pending, order) - |pending[c]|
  {
    BacklogUpdate(pending, order, c, []);
  }

  lemma {:induction false} NoBacklog(pending: map<string, seq<Point>>, order: seq<string>)
    requires forall k :: 0 <= k < |order| ==> Waiting(pending, order[k]) == []
    ensures Backlog(pending, order) == 0
  {
    if order != [] { NoBacklog(pending, order[..|order| - 1]); }
  }
}
