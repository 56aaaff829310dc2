/**
 Parse sessions and the confirm protocol: every service method is one atomic step, except that a
 confirm reads the session outside its transaction and checks again inside it.
 */
module Confirm {
  import opened Prelude
  import OS = ObjectStore

  datatype Status = PARSING | READY | CONFIRMED | ABANDONED | FAILED

  /** The columns that the parser's result fills. */
  datatype Column = SuggestedBidCard | Atoms | AnchorMd | SummaryMd | Manifest | Conflicts | OpenQuestions

  datatype Session = Session(status: Status, content: map<Column, string>, parseError: Option<string>,
                             confirmedBid: Option<string>, confirmedBy: Option<string>)

  datatype Bid = Bid(session: string, content: map<Column, string>)

  datatype Db = Db(sessions: map<string, Session>, bids: map<string, Bid>)

  datatype Reply = Done | NotFound | Conflict | ServerError

  const NO_DB := Db(map[], map[])

  /** `assertTransition` */
  predicate CanMove(from: Status, to: Status) {
    (from == PARSING && (to == READY || to == FAILED)) || (from == READY && (to == CONFIRMED || to == ABANDONED))
  }

  // ---------------------------------------------------------------- the service methods

  function Create(db: Db, sid: string): Db {
    if sid in db.sessions then db else db.(sessions := db.sessions[sid := Session(PARSING, map[], None, None, None)])
  }

  function WithStatus(s: Session, status: Status, error: Option<string>): Session {
    s.(status := status,
       parseError := if status == FAILED && error.Some? && error.value != "" then error else s.parseError)
  }

  function SetStatus(db: Db, sid: string, status: Status, error: Option<string>): (Db, Reply) {
    if sid !in db.sessions then (db, NotFound)
    else if !CanMove(db.sessions[sid].status, status) then (db, Conflict)
    else (db.(sessions := db.sessions[sid := WithStatus(db.sessions[sid], status, error)]), Done)
  }

  function WithResult(s: Session, payload: map<Column, string>, flip: bool): Session {
    s.(content := s.content + payload, status := if flip && s.status == PARSING then READY else s.status)
  }

  function SetResult(db: Db, sid: string, payload: map<Column, string>, flip: bool): (Db, Reply) {
    if sid !in db.sessions then (db, NotFound)
    else if db.sessions[sid].status != PARSING && db.sessions[sid].status != READY then (db, Conflict)
    else (db.(sessions := db.sessions[sid := WithResult(db.sessions[sid], payload, flip)]), Done)
  }

  function MarkAbandoned(db: Db, sid: string): (Db, Reply) {
    if sid !in db.sessions then (db, NotFound)
    else if db.sessions[sid].status == CONFIRMED then (db, Conflict)
    else (db.(sessions := db.sessions[sid := db.sessions[sid].(status := ABANDONED)]), Done)
  }

  /** The read before the transaction; `expired` is the clock's verdict on the session. */
  function ReadForConfirm(db: Db, sid: string, expired: bool): Reply {
    if sid !in db.sessions then NotFound
    else if expired && (db.sessions[sid].status == PARSING || db.sessions[sid].status == READY) then NotFound
    else if db.sessions[sid].status != READY then Conflict
    else Done
  }

  /** The transaction; `fails` is a failing rename, materialisation or commit, which rolls everything back. */
  function ConfirmTx(db: Db, sid: string, read: Session, bidId: string, user: string, fails: bool): (Db, Reply) {
    if bidId in db.bids || fails then (db, ServerError)
    else if sid !in db.sessions then (db, NotFound)
    else if !CanMove(db.sessions[sid].status, CONFIRMED) then (db, Conflict)
    else (Db(db.sessions[sid := db.sessions[sid].(status := CONFIRMED, confirmedBid := Some(bidId),
                                                  confirmedBy := Some(user))],
             db.bids[bidId := Bid(sid, read.content)]), Done)
  }

  // ---------------------------------------------------------------- interleavings

  /** A confirm between its read and its transaction. */
  datatype Pending = Pending(sid: string, read: Session)

  datatype State = State(db: Db, pending: seq<Pending>)

  const INITIAL := State(NO_DB, [])

  datatype Action =
    | CreateSession(sid: string)
    | ChangeStatus(sid: string, status: Status, error: Option<string>)
    | SyncResult(sid: string, payload: map<Column, string>, flip: bool)
    | Abandon(sid: string)
    | ReadSession(sid: string, expired: bool)
    | Transact(call: nat, bidId: string, user: string, fails: bool)

  function Step(s: State, a: Action): State {
    match a
    case CreateSession(sid) => s.(db := Create(s.db, sid))
    case ChangeStatus(sid, status, error) => s.(db := SetStatus(s.db, sid, status, error).0)
    case SyncResult(sid, payload, flip) => s.(db := SetResult(s.db, sid, payload, flip).0)
    case Abandon(sid) => s.(db := MarkAbandoned(s.db, sid).0)
    case ReadSession(sid, expired) =>
      if ReadForConfirm(s.db, sid, expired) == Done
      then s.(pending := s.pending + [Pending(sid, s.db.sessions[sid])]) else s
    case Transact(i, bidId, user, fails) =>
      if i < |s.pending| then
        State(ConfirmTx(s.db, s.pending[i].sid, s.pending[i].read, bidId, user, fails).0,
              s.pending[..i] + s.pending[i + 1..])
      else s
  }

  function Run(s: State, actions: seq<Action>): State {
    if actions == [] then s else Step(Run(s, actions[..|actions| - 1]), actions[|actions| - 1])
  }

  // ---------------------------------------------------------------- the invariant

  ghost predicate SessionOk(db: Db, sid: string)
    requires sid in db.sessions
  {
    var s := db.sessions[sid];
    && (s.status == CONFIRMED <==> s.confirmedBid.Some?)
    && (s.confirmedBid.Some? ==> s.confirmedBid.value in db.bids && db.bids[s.confirmedBid.value].session == sid)
  }

  /** The bid's session is confirmed and bound to this very bid. */
  ghost predicate BidOk(db: Db, bidId: string)
    requires bidId in db.bids
  {
    var sid := db.bids[bidId].session;
    sid in db.sessions && db.sessions[sid].confirmedBid == Some(bidId)
  }

  ghost predicate Inv(db: Db) {
    && (forall sid {:trigger SessionOk(db, sid)} :: sid in db.sessions ==> SessionOk(db, sid))
    && (forall bidId {:trigger BidOk(db, bidId)} :: bidId in db.bids ==> BidOk(db, bidId))
  }

  /** The one way around the protocol: binding no bid, `setStatus` itself moves a READY session to CONFIRMED. */
  predicate ConfirmsByHand(db: Db, a: Action) {
    a.ChangeStatus? && a.status == CONFIRMED && a.sid in db.sessions && db.sessions[a.sid].status == READY
  }

  /** Changing one session that stays unconfirmed keeps the invariant. */
  lemma UnconfirmedChangeKeeps(db: Db, sid: string, s: Session)
    requires Inv(db) && s.status != CONFIRMED && s.confirmedBid.None?
    requires sid in db.sessions ==> db.sessions[sid].status != CONFIRMED
    ensures Inv(db.(sessions := db.sessions[sid := s]))
  {
    var after := db.(sessions := db.sessions[sid := s]);
    assert sid in db.sessions ==> SessionOk(db, sid);
    forall other | other in after.sessions
      ensures SessionOk(after, other)
    {
      assert other == sid || SessionOk(db, other);
    }
    forall bidId | bidId in after.bids
      ensures BidOk(after, bidId)
    {
      assert BidOk(db, bidId);
    }
  }

  lemma ConfirmKeeps(db: Db, sid: string, read: Session, bidId: string, user: string, fails: bool)
    requires Inv(db)
    ensures Inv(ConfirmTx(db, sid, read, bidId, user, fails).0)
  {
    var after := ConfirmTx(db, sid, read, bidId, user, fails).0;
    if after != db {
      assert SessionOk(db, sid);
      forall other | other in after.sessions
        ensures SessionOk(after, other)
      {
        assert other == sid || SessionOk(db, other);
      }
      forall b | b in after.bids
        ensures BidOk(after, b)
      {
        assert b == bidId || BidOk(db, b);
      }
    }
  }

  /** A step keeps the invariant exactly when it does not confirm by hand. */
  lemma StepKeepsIff(s: State, a: Action)
    requires Inv(s.db)
    ensures Inv(Step(s, a).db) <==> !ConfirmsByHand(s.db, a)
  {
    hide Inv, SessionOk, BidOk;
    var db := s.db;
    match a {
      case CreateSession(sid) =>
        if sid !in db.sessions { UnconfirmedChangeKeeps(db, sid, Create(db, sid).sessions[sid]); }
      case ChangeStatus(sid, status, error) => StatusChangeIff(db, sid, status, error);
      case SyncResult(sid, payload, flip) =>
        if SetResult(db, sid, payload, flip).1 == Done {
          NotConfirmedUnbound(db, sid);
          UnconfirmedChangeKeeps(db, sid, WithResult(db.sessions[sid], payload, flip));
        }
      case Abandon(sid) =>
        if MarkAbandoned(db, sid).1 == Done {
          NotConfirmedUnbound(db, sid);
          UnconfirmedChangeKeeps(db, sid, db.sessions[sid].(status := ABANDONED));
        }
      case ReadSession(_, _) =>
      case Transact(i, bidId, user, fails) =>
        if i < |s.pending| { ConfirmKeeps(db, s.pending[i].sid, s.pending[i].read, bidId, user, fails); }
    }
  }

  lemma NotConfirmedUnbound(db: Db, sid: string)
    requires Inv(db) && sid in db.sessions
    ensures db.sessions[sid].status == CONFIRMED <==> db.sessions[sid].confirmedBid.Some?
  {
    assert SessionOk(db, sid);
  }

  lemma StatusChangeIff(db: Db, sid: string, status: Status, error: Option<string>)
    requires Inv(db)
    ensures Inv(SetStatus(db, sid, status, error).0) <==> !ConfirmsByHand(db, ChangeStatus(sid, status, error))
  {
    if SetStatus(db, sid, status, error).1 == Done {
      NotConfirmedUnbound(db, sid);
      var s := WithStatus(db.sessions[sid], status, error);
      if status == CONFIRMED {
        var after := SetStatus(db, sid, status, error).0;
        assert !SessionOk(after, sid);
      } else {
        UnconfirmedChangeKeeps(db, sid, s);
      }
    }
  }

  /** No step of the run confirms by hand; refused attempts to do so are allowed. */
  ghost predicate ByProtocol(s: State, actions: seq<Action>) {
    forall k: nat {:trigger actions[..k]} :: k < |actions| ==> !ConfirmsByHand(Run(s, actions[..k]).db, actions[k])
  }

  /** A session confirmed without a bid. */
  ghost predicate Unbound(db: Db, sid: string) {
    sid in db.sessions && db.sessions[sid].status == CONFIRMED && db.sessions[sid].confirmedBid.None?
  }

  lemma ByProtocolSnoc(s: State, actions: seq<Action>)
    requires actions != []
    ensures var n := |actions| - 1;
            ByProtocol(s, actions)
            <==> ByProtocol(s, actions[..n]) && !ConfirmsByHand(Run(s, actions[..n]).db, actions[n])
  {
    hide Run, ConfirmsByHand;
    var n := |actions| - 1;
    forall k: nat | k < n
      ensures actions[..n][..k] == actions[..k] && actions[..n][k] == actions[k]
    {
    }
  }

  lemma HandConfirmUnbinds(s: State, a: Action)
    requires Inv(s.db) && ConfirmsByHand(s.db, a)
    ensures Unbound(Step(s, a).db, a.sid)
  {
    NotConfirmedUnbound(s.db, a.sid);
  }

  lemma UnboundStays(s: State, a: Action, sid: string)
    requires Unbound(s.db, sid)
    ensures Unbound(Step(s, a).db, sid)
  {
    StepSettles(s, a, sid);
  }

  lemma {:induction false} RunKeepsOrUnbinds(s: State, actions: seq<Action>) returns (sid: string)
    requires Inv(s.db)
    ensures ByProtocol(s, actions) ==> Inv(Run(s, actions).db)
    ensures !ByProtocol(s, actions) ==> Unbound(Run(s, actions).db, sid)
  {
    sid := "";
    if actions != [] {
      var n := |actions| - 1;
      var before := Run(s, actions[..n]);
      ByProtocolSnoc(s, actions);
      sid := RunKeepsOrUnbinds(s, actions[..n]);
      if !ByProtocol(s, actions[..n]) {
        UnboundStays(before, actions[n], sid);
      } else {
        StepKeepsIff(before, actions[n]);
        if ConfirmsByHand(before.db, actions[n]) {
          HandConfirmUnbinds(before, actions[n]);
          sid := actions[n].sid;
        }
      }
    }
  }

  /**
   Over every interleaving, confirmed sessions and bids are in one-to-one correspondence at the end
   exactly when no step on the way confirmed by hand.
   */
  lemma {:induction false} RunKeepsIff(s: State, actions: seq<Action>)
    requires Inv(s.db)
    ensures Inv(Run(s, actions).db) <==> ByProtocol(s, actions)
  {
    var sid := RunKeepsOrUnbinds(s, actions);
    if !ByProtocol(s, actions) {
      assert !SessionOk(Run(s, actions).db, sid);
    }
  }

  lemma {:induction false} ByProtocolAppend(s: State, a: seq<Action>, b: seq<Action>)
    requires ByProtocol(s, a) && ByProtocol(Run(s, a), b)
    ensures ByProtocol(s, a + b)
  {
    forall k: nat | k < |a + b|
      ensures !ConfirmsByHand(Run(s, (a + b)[..k]).db, (a + b)[k])
    {
      if k < |a| {
        assert (a + b)[..k] == a[..k];
      } else {
        assert (a + b)[..k] == a + b[..k - |a|];
        RunAppend(s, a, b[..k - |a|]);
      }
    }
  }

  /** A bid's session is confirmed, and no other bid is of that session. */
  ghost predicate BidsOk(db: Db) {
    && (forall b {:trigger db.bids[b]} :: b in db.bids ==>
          db.bids[b].session in db.sessions && db.sessions[db.bids[b].session].status == CONFIRMED)
    && (forall b, c {:trigger db.bids[b], db.bids[c]} ::
          b in db.bids && c in db.bids && db.bids[b].session == db.bids[c].session
          ==> b == c)
  }

  lemma StepKeepsBids(s: State, a: Action)
    requires BidsOk(s.db)
    ensures BidsOk(Step(s, a).db)
  {
    forall sid | sid in s.db.sessions
      ensures sid in Step(s, a).db.sessions
      ensures s.db.sessions[sid].status == CONFIRMED ==> Step(s, a).db.sessions[sid] == s.db.sessions[sid]
    {
      StepSettles(s, a, sid);
    }
  }

  lemma {:induction false} RunKeepsBids(actions: seq<Action>)
    ensures BidsOk(Run(INITIAL, actions).db)
  {
    if actions != [] {
      RunKeepsBids(actions[..|actions| - 1]);
      StepKeepsBids(Run(INITIAL, actions[..|actions| - 1]), actions[|actions| - 1]);
    }
  }

  /** In every run, confirmations by hand included, a session yields at most one bid. */
  lemma {:induction false} OneBidPerSession(actions: seq<Action>, b: string, c: string)
    ensures var db := Run(INITIAL, actions).db;
            b in db.bids && c in db.bids && db.bids[b].session == db.bids[c].session ==> b == c
  {
    RunKeepsBids(actions);
  }

  // ---------------------------------------------------------------- what never happens again

  /** The moves a session's status really makes: `markAbandoned` does not ask `assertTransition`. */
  predicate Moves(from: Status, to: Status) {
    from == to || CanMove(from, to) || ((from == PARSING || from == FAILED) && to == ABANDONED)
  }

  /** Once a session is confirmed its row is final; once it has left PARSING and READY its content is. */
  ghost predicate Settles(before: Session, after: Session) {
    && Moves(before.status, after.status)
    && (before.status == CONFIRMED ==> after == before)
    && (before.status != PARSING && before.status != READY ==> after.content == before.content)
  }

  lemma StepSettles(s: State, a: Action, sid: string)
    requires sid in s.db.sessions
    ensures sid in Step(s, a).db.sessions && Settles(s.db.sessions[sid], Step(s, a).db.sessions[sid])
    ensures forall b :: b in s.db.bids ==> b in Step(s, a).db.bids && Step(s, a).db.bids[b] == s.db.bids[b]
  {
  }

  /** The move that `assertTransition` would refuse: `markAbandoned` makes it without asking. */
  predicate Bypasses(s: State, a: Action, sid: string)
    requires sid in s.db.sessions
  {
    a.Abandon? && a.sid == sid && (s.db.sessions[sid].status == PARSING || s.db.sessions[sid].status == FAILED)
  }

  /** A step respects the lifecycle guard exactly when it does not abandon a PARSING or FAILED session. */
  lemma GuardRespectedIff(s: State, a: Action, sid: string)
    requires sid in s.db.sessions
    ensures var before, after := s.db.sessions[sid].status, Step(s, a).db.sessions[sid].status;
            (before == after || CanMove(before, after)) <==> !Bypasses(s, a, sid)
  {
    StepSettles(s, a, sid);
  }

  /** Both forbidden moves happen: an upload that is still parsed, or that failed, is abandoned. */
  lemma GuardBypassed(sid: string)
    ensures var parsing := Run(INITIAL, [CreateSession(sid)]);
            var failed := Step(parsing, ChangeStatus(sid, FAILED, None));
            && parsing.db.sessions[sid].status == PARSING && failed.db.sessions[sid].status == FAILED
            && Step(parsing, Action.Abandon(sid)).db.sessions[sid].status == ABANDONED
            && Step(failed, Action.Abandon(sid)).db.sessions[sid].status == ABANDONED
            && !CanMove(PARSING, ABANDONED) && !CanMove(FAILED, ABANDONED)
  {
    RunOne(INITIAL, CreateSession(sid));
  }

  /** The two tables move together: a step adds a bid exactly when it binds a session to one. */
  lemma TablesMoveTogether(s: State, a: Action)
    requires Inv(s.db)
    ensures Step(s, a).db.bids == s.db.bids
      <==> forall sid :: sid in s.db.sessions ==>
             Step(s, a).db.sessions[sid].confirmedBid == s.db.sessions[sid].confirmedBid
  {
    var t := Step(s, a);
    if t.db.bids != s.db.bids {
      var sid := s.pending[a.call].sid;
      NotConfirmedUnbound(s.db, sid);
      assert t.db.sessions[sid].confirmedBid == Some(a.bidId);
    }
  }

  predicate Absorbing(s: Status) {
    s == CONFIRMED || s == ABANDONED
  }

  /** CONFIRMED and ABANDONED are final over every run, FAILED ends at most in ABANDONED, and bids are never changed. */
  lemma {:induction false} RunSettles(s: State, actions: seq<Action>, sid: string)
    requires sid in s.db.sessions
    ensures sid in Run(s, actions).db.sessions
    ensures var before, after := s.db.sessions[sid], Run(s, actions).db.sessions[sid];
            && (Absorbing(before.status) ==> after.status == before.status)
            && (before.status == FAILED ==> after.status == FAILED || after.status == ABANDONED)
            && (before.status == CONFIRMED ==> after == before)
    ensures forall b :: b in s.db.bids ==> b in Run(s, actions).db.bids && Run(s, actions).db.bids[b] == s.db.bids[b]
  {
    if actions != [] {
      var n := |actions| - 1;
      RunSettles(s, actions[..n], sid);
      StepSettles(Run(s, actions[..n]), actions[n], sid);
    }
  }

  /** A confirm that does not succeed changes neither table. */
  lemma FailedConfirmChangesNothing(db: Db, sid: string, read: Session, bidId: string, user: string, fails: bool)
    ensures var (after, reply) := ConfirmTx(db, sid, read, bidId, user, fails); reply != Done ==> after == db
    ensures ConfirmTx(db, sid, read, bidId, user, fails).1 == Done
            <==> !fails && bidId !in db.bids && sid in db.sessions && db.sessions[sid].status == READY
    ensures ConfirmTx(db, sid, read, bidId, user, fails).1 == ServerError <==> fails || bidId in db.bids
    ensures ConfirmTx(db, sid, read, bidId, user, fails).1 == NotFound
            <==> !fails && bidId !in db.bids && sid !in db.sessions
  {
  }

  /** Of two confirms of one session that both read READY, at most one commits, whatever runs in between. */
  lemma SecondConfirmLoses(db: Db, sid: string, read: Session, bidId: string, user: string,
                           actions: seq<Action>, pending: seq<Pending>, read2: Session, bidId2: string,
                           user2: string, fails: bool)
    requires ConfirmTx(db, sid, read, bidId, user, false).1 == Done
    ensures var later := Run(State(ConfirmTx(db, sid, read, bidId, user, false).0, pending), actions).db;
            ConfirmTx(later, sid, read2, bidId2, user2, fails).1 != Done
  {
    RunSettles(State(ConfirmTx(db, sid, read, bidId, user, false).0, pending), actions, sid);
  }

  // ---------------------------------------------------------------- what one call leaves

  /** A column that may not be filled yet. */
  function Lookup(content: map<Column, string>, c: Column): Option<string> {
    if c in content then Some(content[c]) else None
  }

  /** The session has not been settled: results are still taken. */
  predicate Open(db: Db, sid: string) {
    sid in db.sessions && (db.sessions[sid].status == PARSING || db.sessions[sid].status == READY)
  }

  /** Nothing but this session's row is different. */
  ghost predicate OnlyRow(before: Db, after: Db, sid: string) {
    && after.bids == before.bids && after.sessions.Keys == before.sessions.Keys
    && forall other :: other in before.sessions && other != sid ==> after.sessions[other] == before.sessions[other]
  }

  /**
   A result is taken by exactly the sessions that are not settled. Every given column then holds the given
   value, every other column what it held, and the status changes only on request, from PARSING to READY.
   */
  lemma ResultLands(db: Db, sid: string, payload: map<Column, string>, flip: bool, c: Column)
    ensures var (after, reply) := SetResult(db, sid, payload, flip);
            && (reply == Done <==> Open(db, sid)) && (reply == NotFound <==> sid !in db.sessions)
            && (reply == Done || reply == NotFound || reply == Conflict) && (reply != Done ==> after == db)
            && (reply == Done ==>
                  var s, t := db.sessions[sid], after.sessions[sid];
                  && OnlyRow(db, after, sid)
                  && Lookup(t.content, c) == (if c in payload then Some(payload[c]) else Lookup(s.content, c))
                  && t.status == (if flip then READY else s.status)
                  && t.parseError == s.parseError && t.confirmedBid == s.confirmedBid && t.confirmedBy == s.confirmedBy)
  {
  }

  /** `setStatus` makes exactly the four listed moves; the error text is kept only for a failure that gives one. */
  lemma StatusLands(db: Db, sid: string, status: Status, error: Option<string>)
    ensures var (after, reply) := SetStatus(db, sid, status, error);
            && (reply == NotFound <==> sid !in db.sessions) && (reply != Done ==> after == db)
            && (reply == Done || reply == NotFound || reply == Conflict)
            && (reply == Done <==> sid in db.sessions && var from := db.sessions[sid].status;
                  || (from == PARSING && (status == READY || status == FAILED))
                  || (from == READY && (status == CONFIRMED || status == ABANDONED)))
            && (reply == Done ==>
                  var s, t := db.sessions[sid], after.sessions[sid];
                  && OnlyRow(db, after, sid) && t.status == status && t.content == s.content
                  && t.confirmedBid == s.confirmedBid && t.confirmedBy == s.confirmedBy
                  && (status == FAILED && error.Some? && error.value != "" ==> t.parseError == error)
                  && (status != FAILED || error == None || error == Some("") ==> t.parseError == s.parseError))
  {
  }

  /** `markAbandoned` takes every session that is not confirmed and changes nothing but its status. */
  lemma AbandonLands(db: Db, sid: string)
    ensures var (after, reply) := MarkAbandoned(db, sid);
            && (reply == NotFound <==> sid !in db.sessions) && (reply != Done ==> after == db)
            && (reply == Done || reply == NotFound || reply == Conflict)
            && (reply == Done <==> sid in db.sessions && db.sessions[sid].status != CONFIRMED)
            && (reply == Done ==> OnlyRow(db, after, sid)
                                  && after.sessions[sid] == db.sessions[sid].(status := ABANDONED))
  {
  }

  /** What the read before a confirm refuses. */
  lemma ReadRefuses(db: Db, sid: string, expired: bool)
    ensures ReadForConfirm(db, sid, expired) == Done
            <==> sid in db.sessions && db.sessions[sid].status == READY && !expired
    ensures ReadForConfirm(db, sid, expired) == NotFound <==> sid !in db.sessions || (expired && Open(db, sid))
    ensures ReadForConfirm(db, sid, expired) != ServerError
  {
  }

  /** A confirm that commits makes one bid of the content read and binds this session to it, in this user's name. */
  lemma ConfirmLands(db: Db, sid: string, read: Session, bidId: string, user: string)
    requires ConfirmTx(db, sid, read, bidId, user, false).1 == Done
    ensures var after := ConfirmTx(db, sid, read, bidId, user, false).0;
            var s, t := db.sessions[sid], after.sessions[sid];
            && after.bids.Keys == db.bids.Keys + {bidId} && bidId !in db.bids
            && after.bids[bidId].session == sid && after.bids[bidId].content == read.content
            && (forall b :: b in db.bids ==> after.bids[b] == db.bids[b])
            && OnlyRow(db.(bids := after.bids), after, sid)
            && t.status == CONFIRMED && t.confirmedBid == Some(bidId) && t.confirmedBy == Some(user)
            && t.content == s.content && t.parseError == s.parseError
  {
  }

  // ---------------------------------------------------------------- what a run leaves

  /** The last value given for the column while the session was not settled. */
  function LastSynced(actions: seq<Action>, sid: string, c: Column): Option<string> {
    if actions == [] then None else
      var before, a := actions[..|actions| - 1], actions[|actions| - 1];
      if a.SyncResult? && a.sid == sid && c in a.payload && Open(Run(INITIAL, before).db, sid) then Some(a.payload[c])
      else LastSynced(before, sid, c)
  }

  /** What one step does to a column. */
  lemma ColumnStep(s: State, a: Action, sid: string, c: Column)
    requires sid in Step(s, a).db.sessions
    ensures var before := if sid in s.db.sessions then Lookup(s.db.sessions[sid].content, c) else None;
            Lookup(Step(s, a).db.sessions[sid].content, c)
            == if a.SyncResult? && a.sid == sid && c in a.payload && Open(s.db, sid) then Some(a.payload[c]) else before
  {
  }

  /** Over every run, each column of a session holds the last value synced while the session was not settled. */
  lemma {:induction false} ContentIsLastSynced(actions: seq<Action>, sid: string, c: Column)
    ensures var db := Run(INITIAL, actions).db;
            LastSynced(actions, sid, c) == if sid in db.sessions then Lookup(db.sessions[sid].content, c) else None
  {
    hide Step, Lookup;
    if actions != [] {
      var n := |actions| - 1;
      var before := Run(INITIAL, actions[..n]);
      ContentIsLastSynced(actions[..n], sid, c);
      if sid in Step(before, actions[n]).db.sessions {
        ColumnStep(before, actions[n], sid, c);
      } else {
        SessionsStay(before, actions[n], sid);
      }
    }
  }

  lemma SessionsStay(s: State, a: Action, sid: string)
    ensures sid in s.db.sessions ==> sid in Step(s, a).db.sessions
  {
  }

  /** The `k`-th action read this session, READY at that moment, and found this content. */
  ghost predicate ReadAt(actions: seq<Action>, k: nat, sid: string, content: map<Column, string>) {
    && k < |actions| && actions[k] == ReadSession(sid, false)
    && var db := Run(INITIAL, actions[..k]).db;
       && sid in db.sessions && db.sessions[sid].status == READY
       && forall c: Column :: Lookup(content, c) == LastSynced(actions[..k], sid, c)
  }

  ghost predicate WasRead(actions: seq<Action>, sid: string, content: map<Column, string>) {
    exists k: nat :: ReadAt(actions, k, sid, content)
  }

  lemma ReadStays(actions: seq<Action>, a: Action, sid: string, content: map<Column, string>)
    requires WasRead(actions, sid, content)
    ensures WasRead(actions + [a], sid, content)
  {
    hide Run, LastSynced;
    var k: nat :| ReadAt(actions, k, sid, content);
    assert (actions + [a])[..k] == actions[..k];
    assert ReadAt(actions + [a], k, sid, content);
  }

  lemma ReadNow(actions: seq<Action>, sid: string)
    requires var db := Run(INITIAL, actions).db; sid in db.sessions && db.sessions[sid].status == READY
    ensures WasRead(actions + [ReadSession(sid, false)], sid, Run(INITIAL, actions).db.sessions[sid].content)
  {
    hide Run, LastSynced, Lookup;
    var content := Run(INITIAL, actions).db.sessions[sid].content;
    var more := actions + [ReadSession(sid, false)];
    assert more[..|actions|] == actions;
    forall c: Column
      ensures Lookup(content, c) == LastSynced(actions, sid, c)
    {
      ContentIsLastSynced(actions, sid, c);
    }
    assert ReadAt(more, |actions|, sid, content);
  }

  /** Everything a confirm works with was read. */
  ghost predicate AllRead(actions: seq<Action>, s: State) {
    && (forall i {:trigger s.pending[i]} :: 0 <= i < |s.pending|
          ==> WasRead(actions, s.pending[i].sid, s.pending[i].read.content))
    && (forall b {:trigger s.db.bids[b]} :: b in s.db.bids
          ==> WasRead(actions, s.db.bids[b].session, s.db.bids[b].content))
  }

  /** What a step adds to the pending confirms and to the bids. */
  lemma ReadStep(s: State, a: Action)
    ensures var t := Step(s, a);
            && (forall i :: 0 <= i < |t.pending| && t.pending[i] !in s.pending ==>
                  && a == ReadSession(t.pending[i].sid, false) && t.pending[i].sid in s.db.sessions
                  && s.db.sessions[t.pending[i].sid] == t.pending[i].read && t.pending[i].read.status == READY)
            && (forall b :: b in t.db.bids && b in s.db.bids ==> t.db.bids[b] == s.db.bids[b])
            && (forall b :: b in t.db.bids && b !in s.db.bids ==>
                  exists i :: 0 <= i < |s.pending| && t.db.bids[b].session == s.pending[i].sid
                              && t.db.bids[b].content == s.pending[i].read.content)
  {
  }

  /**
   Over every run, a bid was made from what one earlier read of its READY session found: column by column,
   the last value synced before that read.
   */
  lemma {:induction false} BidsAreAsRead(actions: seq<Action>)
    ensures AllRead(actions, Run(INITIAL, actions))
  {
    hide Step, WasRead;
    if actions != [] {
      var n := |actions| - 1;
      var before, a := Run(INITIAL, actions[..n]), actions[n];
      assert actions == actions[..n] + [a];
      BidsAreAsRead(actions[..n]);
      ReadStep(before, a);
      ReadsStay(actions[..n], a, before);
      var t := Step(before, a);
      forall i | 0 <= i < |t.pending|
        ensures WasRead(actions, t.pending[i].sid, t.pending[i].read.content)
      {
        if t.pending[i] !in before.pending { ReadNow(actions[..n], t.pending[i].sid); }
      }
    }
  }

  lemma ReadsStay(actions: seq<Action>, a: Action, s: State)
    requires AllRead(actions, s)
    ensures AllRead(actions + [a], s)
  {
    hide WasRead;
    forall i | 0 <= i < |s.pending|
      ensures WasRead(actions + [a], s.pending[i].sid, s.pending[i].read.content)
    {
      ReadStays(actions, a, s.pending[i].sid, s.pending[i].read.content);
    }
    forall b | b in s.db.bids
      ensures WasRead(actions + [a], s.db.bids[b].session, s.db.bids[b].content)
    {
      ReadStays(actions, a, s.db.bids[b].session, s.db.bids[b].content);
    }
  }

  // ---------------------------------------------------------------- saves of a stale row

  // `markAbandoned` and `setResult` load the row, await, and save the whole entity. When another
  // request commits between the two, the save puts the loaded columns back.

  /** What `markAbandoned` or `setResult` saves, from the row it loaded. */
  datatype Edit = ToAbandoned | ToResult(payload: map<Column, string>, flip: bool)

  function Edited(loaded: Session, e: Edit): Session {
    match e
    case ToAbandoned => loaded.(status := ABANDONED)
    case ToResult(payload, flip) => WithResult(loaded, payload, flip)
  }

  function Save(db: Db, sid: string, row: Session): Db {
    db.(sessions := db.sessions[sid := row])
  }

  /** A row that the method goes on to save: `setResult` refuses settled rows, `markAbandoned` leaves final ones. */
  predicate Loadable(loaded: Session, e: Edit) {
    && loaded.confirmedBid.None?
    && if e.ToAbandoned? then !Absorbing(loaded.status) else loaded.status == PARSING || loaded.status == READY
  }

  /** The load-and-save pair breaks the correspondence exactly when the row has become CONFIRMED in between. */
  lemma StaleSaveIff(db: Db, sid: string, loaded: Session, e: Edit)
    requires Inv(db) && sid in db.sessions && Loadable(loaded, e)
    ensures Inv(Save(db, sid, Edited(loaded, e))) <==> db.sessions[sid].status != CONFIRMED
  {
    var row := Edited(loaded, e);
    if db.sessions[sid].status != CONFIRMED {
      UnconfirmedChangeKeeps(db, sid, row);
    } else {
      NotConfirmedUnbound(db, sid);
      var b := db.sessions[sid].confirmedBid.value;
      assert SessionOk(db, sid) && b in db.bids;
      assert !BidOk(Save(db, sid, row), b);
    }
  }

  /**
   The save keeps the lifecycle exactly when, for an abandon, the row is not CONFIRMED by now, and, for
   a result, its status is still the one saved or is PARSING and becomes READY.
   */
  lemma StaleSaveMovesIff(db: Db, sid: string, loaded: Session, e: Edit)
    requires sid in db.sessions && Loadable(loaded, e)
    ensures var current, row := db.sessions[sid], Edited(loaded, e);
            Moves(current.status, Save(db, sid, row).sessions[sid].status)
            <==> if e.ToAbandoned? then current.status != CONFIRMED
                 else current.status == row.status || (current.status == PARSING && row.status == READY)
  {
  }

  /**
   A result synced from a row loaded before an abandon revives the session: ABANDONED is not final,
   the bid correspondence still holds, and the revived session can be confirmed.
   */
  lemma StaleSaveRevives(db: Db, sid: string, e: Edit, b: string, user: string)
    requires Inv(db) && sid in db.sessions && db.sessions[sid].status == READY && e.ToResult? && b !in db.bids
    ensures var loaded := db.sessions[sid];
            var abandoned := MarkAbandoned(db, sid).0;
            var revived := Save(abandoned, sid, Edited(loaded, e));
            && abandoned.sessions[sid].status == ABANDONED && revived.sessions[sid].status == READY
            && Inv(revived) && ConfirmTx(revived, sid, revived.sessions[sid], b, user, false).1 == Done
  {
    NotConfirmedUnbound(db, sid);
    UnconfirmedChangeKeeps(db, sid, db.sessions[sid].(status := ABANDONED));
    StaleSaveIff(MarkAbandoned(db, sid).0, sid, db.sessions[sid], e);
  }

  /**
   The worst case: a result synced from a row loaded before the confirm reopens the session, and a second
   confirm yields a second bid.
   */
  lemma StaleSaveGivesTwoBids(db: Db, sid: string, e: Edit, b: string, c: string, user: string)
    requires Inv(db) && sid in db.sessions && db.sessions[sid].status == READY && e.ToResult?
    requires b != c && b !in db.bids && c !in db.bids
    ensures var loaded := db.sessions[sid];
            var (first, reply1) := ConfirmTx(db, sid, loaded, b, user, false);
            var reopened := Save(first, sid, Edited(loaded, e));
            var (second, reply2) := ConfirmTx(reopened, sid, reopened.sessions[sid], c, user, false);
            && reply1 == Done && ReadForConfirm(reopened, sid, false) == Done && reply2 == Done
            && b in second.bids && c in second.bids && second.bids[b].session == sid && second.bids[c].session == sid
  {
  }

  // ---------------------------------------------------------------- transactions that overlap

  // The transaction names no isolation level. Where the database does not serialise it, its second read of
  // the session and its writes are two steps, and other requests commit in between.

  /** The writes of a transaction that read `seen` inside it. */
  function WriteConfirmed(db: Db, sid: string, seen: Session, read: Session, bidId: string, user: string): Db {
    Db(db.sessions[sid := seen.(status := CONFIRMED, confirmedBid := Some(bidId), confirmedBy := Some(user))],
       db.bids[bidId := Bid(sid, read.content)])
  }

  /** With nothing in between, the two steps are the one transaction. */
  lemma WriteIsTransaction(db: Db, sid: string, read: Session, bidId: string, user: string)
    requires sid in db.sessions && bidId !in db.bids && db.sessions[sid].status == READY
    ensures ConfirmTx(db, sid, read, bidId, user, false)
            == (WriteConfirmed(db, sid, db.sessions[sid], read, bidId, user), Done)
  {
  }

  /**
   A transaction that saw READY keeps the correspondence exactly when the session has not been confirmed by
   the time it writes. If it has, the session ends with two bids and its row names the later one.
   */
  lemma LateConfirmIff(db: Db, sid: string, seen: Session, read: Session, bidId: string, user: string)
    requires Inv(db) && sid in db.sessions && bidId !in db.bids
    ensures var after := WriteConfirmed(db, sid, seen, read, bidId, user);
            && (Inv(after) <==> db.sessions[sid].status != CONFIRMED)
            && after.sessions[sid].confirmedBid == Some(bidId) && after.bids[bidId].session == sid
            && (db.sessions[sid].status == CONFIRMED
                ==> db.sessions[sid].confirmedBid.Some? && var first := db.sessions[sid].confirmedBid.value;
                    first != bidId && first in after.bids && after.bids[first].session == sid)
  {
    var after := WriteConfirmed(db, sid, seen, read, bidId, user);
    assert SessionOk(db, sid);
    if db.sessions[sid].status == CONFIRMED {
      var first := db.sessions[sid].confirmedBid.value;
      assert first in after.bids && !BidOk(after, first);
    } else {
      forall other | other in after.sessions
        ensures SessionOk(after, other)
      {
        assert other == sid || SessionOk(db, other);
      }
      forall b | b in after.bids
        ensures BidOk(after, b)
      {
        assert b == bidId || BidOk(db, b);
      }
    }
  }

  /** Two confirms that both read READY inside their transactions before either writes both succeed. */
  lemma OverlapGivesTwoBids(db: Db, sid: string, read: Session, b: string, c: string, user: string, user2: string)
    requires Inv(db) && sid in db.sessions && db.sessions[sid].status == READY
    requires b != c && b !in db.bids && c !in db.bids
    ensures var seen := db.sessions[sid];
            var first := WriteConfirmed(db, sid, seen, read, b, user);
            var second := WriteConfirmed(first, sid, seen, read, c, user2);
            && Inv(first) && !Inv(second) && !BidsOk(second)
            && second.bids == db.bids[b := Bid(sid, read.content)][c := Bid(sid, read.content)]
            && second.sessions[sid].confirmedBid == Some(c) && second.sessions[sid].confirmedBy == Some(user2)
  {
    var seen := db.sessions[sid];
    var first := WriteConfirmed(db, sid, seen, read, b, user);
    LateConfirmIff(db, sid, seen, read, b, user);
    LateConfirmIff(first, sid, seen, read, c, user2);
    var second := WriteConfirmed(first, sid, seen, read, c, user2);
    assert b in second.bids && c in second.bids && second.bids[b].session == second.bids[c].session;
  }

  // ---------------------------------------------------------------- the objects of a session

  function SessionPrefix(sid: string): string {
    "parse_sessions/" + sid + "/"
  }

  function BidPrefix(bidId: string): string {
    "bids/" + bidId + "/"
  }

  lemma PrefixesDisjoint(sid: string, bidId: string)
    ensures OS.Disjoint(SessionPrefix(sid), BidPrefix(bidId)) && OS.Disjoint(BidPrefix(bidId), SessionPrefix(sid))
  {
    assert SessionPrefix(sid)[0] == 'p' && BidPrefix(bidId)[0] == 'b';
  }

  /** The objects after a confirm whose transaction fails once the prefix is renamed: the un-rename names no bid. */
  function AfterFailedConfirm(objects: OS.Objects, sid: string, bidId: string): OS.Objects {
    OS.Moved(OS.Moved(objects, SessionPrefix(sid), BidPrefix(bidId)), BidPrefix("rollback-pending"), SessionPrefix(sid))
  }

  lemma NoKey(objects: OS.Objects, prefix: string, suffix: string)
    requires OS.Under(objects, prefix) == {}
    ensures prefix + suffix !in objects
  {
    OS.SuffixOf(prefix, suffix);
    assert prefix + suffix in objects ==> prefix + suffix in OS.Under(objects, prefix);
  }

  lemma MovedNothing(objects: OS.Objects, oldPrefix: string, newPrefix: string)
    requires OS.Under(objects, oldPrefix) == {}
    ensures OS.Moved(objects, oldPrefix, newPrefix) == objects
  {
    var m := OS.Moved(objects, oldPrefix, newPrefix);
    assert OS.Renamed(objects, oldPrefix, newPrefix) == {};
    forall k | k in m
      ensures m[k] == objects[k]
    {
      if newPrefix <= k { NoKey(objects, oldPrefix, k[|newPrefix|..]); }
    }
  }

  /** The un-rename finds nothing to move: a confirm that fails after its rename leaves the objects renamed. */
  lemma UnrenameMovesNothing(objects: OS.Objects, sid: string, bidId: string)
    requires OS.Under(objects, BidPrefix("rollback-pending")) == {} && bidId != "rollback-pending" && '/' !in bidId
    ensures AfterFailedConfirm(objects, sid, bidId) == OS.Moved(objects, SessionPrefix(sid), BidPrefix(bidId))
  {
    hide OS.Moved;
    var sp, bp, rp := SessionPrefix(sid), BidPrefix(bidId), BidPrefix("rollback-pending");
    var moved := OS.Moved(objects, sp, bp);
    forall k | rp <= k
      ensures k !in moved
    {
      NotUnderBoth(k, bidId, "rollback-pending");
      NotUnderEither(k, sid, "rollback-pending");
      OS.MovedOutside(objects, sp, bp, k);
      assert k in objects ==> k in OS.Under(objects, rp);
    }
    MovedNothing(moved, rp, sp);
  }

  /** A failed confirm leaves the session's objects where they were exactly when the session had none. */
  lemma {:induction false} FailedConfirmRestoresIff(objects: OS.Objects, sid: string, bidId: string)
    requires OS.Under(objects, BidPrefix("rollback-pending")) == {} && bidId != "rollback-pending" && '/' !in bidId
    ensures AfterFailedConfirm(objects, sid, bidId) == objects <==> OS.Under(objects, SessionPrefix(sid)) == {}
    ensures OS.Under(AfterFailedConfirm(objects, sid, bidId), SessionPrefix(sid)) == {}
  {
    hide OS.Moved;
    PrefixesDisjoint(sid, bidId);
    UnrenameMovesNothing(objects, sid, bidId);
    OS.MovedIsUnderway(objects, SessionPrefix(sid), BidPrefix(bidId));
    if OS.Under(objects, SessionPrefix(sid)) == {} {
      MovedNothing(objects, SessionPrefix(sid), BidPrefix(bidId));
    }
  }

  /** The id in a bid's key ends at the first slash after the common part. */
  lemma PartOf(k: string, a: string)
    requires '/' !in a && BidPrefix(a) <= k
    ensures k[5..5 + |a|] == a && k[5 + |a|] == '/' && forall i :: 5 <= i < 5 + |a| ==> k[i] != '/'
  {
    assert BidPrefix(a)[5 + |a|] == '/';
    forall i | 5 <= i < 5 + |a|
      ensures k[i] == a[i - 5] && k[i] != '/'
    {
      assert BidPrefix(a)[i] == a[i - 5] && a[i - 5] in a;
    }
  }

  lemma NotUnderBoth(k: string, a: string, b: string)
    requires '/' !in a && '/' !in b && a != b
    ensures !(BidPrefix(a) <= k && BidPrefix(b) <= k)
  {
    if BidPrefix(a) <= k {
      PartOf(k, a);
      if BidPrefix(b) <= k { PartOf(k, b); }
    }
  }

  lemma NotUnderEither(k: string, sid: string, bidId: string)
    ensures !(SessionPrefix(sid) <= k && BidPrefix(bidId) <= k)
  {
    assert SessionPrefix(sid)[0] == 'p' && BidPrefix(bidId)[0] == 'b';
  }

  // ---------------------------------------------------------------- a confirm after failed ones

  /**
   The objects before and after each failed confirm of a session. Every attempt makes a new bid and moves
   objects towards its prefix: some if it failed inside the rename, all if it failed later.
   */
  ghost predicate Attempts(states: seq<OS.Objects>, sid: string, ids: seq<string>) {
    && |states| == |ids| + 1
    && forall i: nat {:trigger ids[i]} :: i < |ids| ==>
         '/' !in ids[i] && OS.Underway(states[i], states[i + 1], SessionPrefix(sid), BidPrefix(ids[i]))
  }

  /** A confirm that fails after its rename is such an attempt. */
  lemma FailedIsAttempt(objects: OS.Objects, sid: string, bidId: string)
    requires OS.Under(objects, BidPrefix("rollback-pending")) == {} && bidId != "rollback-pending" && '/' !in bidId
    ensures Attempts([objects, AfterFailedConfirm(objects, sid, bidId)], sid, [bidId])
  {
    hide OS.Moved, OS.Underway;
    PrefixesDisjoint(sid, bidId);
    UnrenameMovesNothing(objects, sid, bidId);
    OS.MovedIsUnderway(objects, SessionPrefix(sid), BidPrefix(bidId));
  }

  /** Of the objects under the prefix, `now` has some of those `before` has, unchanged. */
  ghost predicate Fewer(before: OS.Objects, now: OS.Objects, prefix: string) {
    forall k {:trigger k in now} :: k in now && prefix <= k ==> k in before && now[k] == before[k]
  }

  lemma AttemptShrinks(before: OS.Objects, now: OS.Objects, sid: string, bidId: string)
    requires OS.Underway(before, now, SessionPrefix(sid), BidPrefix(bidId))
    ensures Fewer(before, now, SessionPrefix(sid))
  {
    hide SessionPrefix, BidPrefix;
    var sp, bp := SessionPrefix(sid), BidPrefix(bidId);
    forall k | k in now && sp <= k
      ensures k in before && now[k] == before[k]
    {
      OS.KeySplit(sp, k);
      assert OS.SuffixOk(before, now, sp, bp, k[|sp|..]);
    }
  }

  /** No attempt touches another bid's objects. */
  lemma AttemptSpares(before: OS.Objects, now: OS.Objects, sid: string, bidId: string, other: string, k: string)
    requires OS.Underway(before, now, SessionPrefix(sid), BidPrefix(bidId))
    requires '/' !in bidId && '/' !in other && bidId != other && BidPrefix(other) <= k
    ensures (k in now <==> k in before) && (k in now ==> now[k] == before[k])
  {
    hide SessionPrefix, BidPrefix;
    NotUnderBoth(k, bidId, other);
    NotUnderEither(k, sid, other);
    assert OS.OutsideOk(before, now, SessionPrefix(sid), BidPrefix(bidId), k);
  }

  lemma {:induction false} AttemptsShrink(states: seq<OS.Objects>, sid: string, ids: seq<string>, i: nat, j: nat)
    requires Attempts(states, sid, ids) && i <= j <= |ids|
    ensures Fewer(states[i], states[j], SessionPrefix(sid))
    decreases j
  {
    hide SessionPrefix, BidPrefix, OS.Underway;
    if i < j {
      AttemptsShrink(states, sid, ids, i, j - 1);
      assert '/' !in ids[j - 1];
      AttemptShrinks(states[j - 1], states[j], sid, ids[j - 1]);
    }
  }

  lemma {:induction false} AttemptsSpare(states: seq<OS.Objects>, sid: string, ids: seq<string>, i: nat, j: nat,
                                         bidId: string, k: string)
    requires Attempts(states, sid, ids) && i <= j <= |ids| && '/' !in bidId && bidId !in ids[i..j]
             && BidPrefix(bidId) <= k
    ensures (k in states[j] <==> k in states[i]) && (k in states[j] ==> states[j][k] == states[i][k])
    decreases j
  {
    hide SessionPrefix, BidPrefix, OS.Underway;
    if i < j {
      assert ids[i..j] == ids[i..j - 1] + [ids[j - 1]];
      AttemptsSpare(states, sid, ids, i, j - 1, bidId, k);
      AttemptSpares(states[j - 1], states[j], sid, ids[j - 1], bidId, k);
    }
  }

  /** Every object the session had at first is under the bid's prefix. */
  ghost predicate AllHandedOver(first: OS.Objects, last: OS.Objects, sid: string, bidId: string) {
    forall s {:trigger HandedOver(first, last, sid, bidId, s)} :: HandedOver(first, last, sid, bidId, s)
  }

  ghost predicate HandedOver(first: OS.Objects, last: OS.Objects, sid: string, bidId: string, suffix: string) {
    SessionPrefix(sid) + suffix in first ==>
      BidPrefix(bidId) + suffix in last && last[BidPrefix(bidId) + suffix] == first[SessionPrefix(sid) + suffix]
  }

  /**
   The confirm that succeeds in the end hands its bid all of the session's original objects exactly when no
   failed attempt before it took one away from the session.
   */
  lemma {:induction false} ConfirmedHasAllIff(states: seq<OS.Objects>, sid: string, ids: seq<string>, bidId: string)
    requires Attempts(states, sid, ids) && '/' !in bidId && bidId !in ids
    requires OS.Under(states[0], BidPrefix(bidId)) == {}
    ensures var last := OS.Moved(states[|ids|], SessionPrefix(sid), BidPrefix(bidId));
            AllHandedOver(states[0], last, sid, bidId)
            <==> forall i: nat {:trigger states[i]} :: i <= |ids|
                   ==> OS.Under(states[i], SessionPrefix(sid)) == OS.Under(states[0], SessionPrefix(sid))
  {
    hide SessionPrefix, BidPrefix, OS.Underway, OS.Moved, HandedOver;
    var sp, n := SessionPrefix(sid), |ids|;
    var last := OS.Moved(states[n], sp, BidPrefix(bidId));
    forall s
      ensures HandedOver(states[0], last, sid, bidId, s) <==> (sp + s in states[0] ==> sp + s in states[n])
    {
      HandedOverIff(states, sid, ids, bidId, s);
    }
    if AllHandedOver(states[0], last, sid, bidId) {
      KeptThroughout(states, sid, ids);
    } else {
      var s :| !HandedOver(states[0], last, sid, bidId, s);
      OS.SuffixOf(sp, s);
      assert sp + s in OS.Under(states[0], sp) && sp + s !in OS.Under(states[n], sp);
    }
  }

  lemma HandedOverIff(states: seq<OS.Objects>, sid: string, ids: seq<string>, bidId: string, s: string)
    requires Attempts(states, sid, ids) && '/' !in bidId && bidId !in ids
    requires OS.Under(states[0], BidPrefix(bidId)) == {}
    ensures HandedOver(states[0], OS.Moved(states[|ids|], SessionPrefix(sid), BidPrefix(bidId)), sid, bidId, s)
            <==> (SessionPrefix(sid) + s in states[0] ==> SessionPrefix(sid) + s in states[|ids|])
  {
    hide SessionPrefix, BidPrefix, OS.Underway, OS.Moved;
    var n, k := |ids|, BidPrefix(bidId) + s;
    PrefixesDisjoint(sid, bidId);
    OS.MovedSuffix(states[n], SessionPrefix(sid), BidPrefix(bidId), s);
    OS.SuffixOf(BidPrefix(bidId), s);
    OS.SuffixOf(SessionPrefix(sid), s);
    AttemptsShrink(states, sid, ids, 0, n);
    assert ids[0..n] == ids;
    AttemptsSpare(states, sid, ids, 0, n, bidId, k);
    assert k !in OS.Under(states[0], BidPrefix(bidId));
  }

  /** What the session still has at the end it has had throughout. */
  lemma KeptThroughout(states: seq<OS.Objects>, sid: string, ids: seq<string>)
    requires Attempts(states, sid, ids)
    requires forall s :: SessionPrefix(sid) + s in states[0] ==> SessionPrefix(sid) + s in states[|ids|]
    ensures forall i: nat {:trigger states[i]} :: i <= |ids|
              ==> OS.Under(states[i], SessionPrefix(sid)) == OS.Under(states[0], SessionPrefix(sid))
  {
    hide SessionPrefix, BidPrefix, OS.Underway;
    var sp := SessionPrefix(sid);
    forall i: nat | i <= |ids|
      ensures OS.Under(states[i], sp) == OS.Under(states[0], sp)
    {
      AttemptsShrink(states, sid, ids, 0, i);
      AttemptsShrink(states, sid, ids, i, |ids|);
      forall k | k in OS.Under(states[0], sp)
        ensures k in states[i]
      {
        OS.KeySplit(sp, k);
      }
    }
  }

  /** An object that the confirmed bid lacks is not lost: it is under the prefix of a bid that was rolled back. */
  lemma {:induction false} MissingIsElsewhere(states: seq<OS.Objects>, sid: string, ids: seq<string>, n: nat, s: string)
    requires Attempts(states, sid, ids) && n <= |ids| && SessionPrefix(sid) + s in states[0]
    requires forall i, j :: 0 <= i < j < |ids| ==> ids[i] != ids[j]
    ensures SessionPrefix(sid) + s !in states[n]
            ==> exists i: nat :: i < n && BidPrefix(ids[i]) + s in states[n]
                                 && states[n][BidPrefix(ids[i]) + s] == states[0][SessionPrefix(sid) + s]
  {
    hide SessionPrefix, BidPrefix, OS.Underway;
    var o := SessionPrefix(sid) + s;
    if n > 0 && o !in states[n] {
      var b := ids[n - 1];
      OS.SuffixOf(SessionPrefix(sid), s);
      if o in states[n - 1] {
        AttemptsShrink(states, sid, ids, 0, n - 1);
        OS.NothingLost(states[n - 1], states[n], SessionPrefix(sid), BidPrefix(b), o);
        assert OS.NewKey(SessionPrefix(sid), BidPrefix(b), o) == BidPrefix(b) + s;
      } else {
        MissingIsElsewhere(states, sid, ids, n - 1, s);
        var i: nat :| i < n - 1 && BidPrefix(ids[i]) + s in states[n - 1]
                      && states[n - 1][BidPrefix(ids[i]) + s] == states[0][o];
        OS.SuffixOf(BidPrefix(ids[i]), s);
        AttemptSpares(states[n - 1], states[n], sid, b, ids[i], BidPrefix(ids[i]) + s);
      }
    }
  }

  // ---------------------------------------------------------------- the services

  class ParseSessions {
    var sessions: map<string, Session>
    var bids: map<string, Bid>

    ghost function Tables(): Db
      reads this
    {
      Db(sessions, bids)
    }

    constructor ()
      ensures Tables() == NO_DB && Inv(Tables())
    {
      sessions, bids := map[], map[];
    }

    method CreateSession(sid: string)
      requires sid !in sessions
      modifies `sessions
      ensures Tables() == Create(old(Tables()), sid)
    {
      sessions := sessions[sid := Session(PARSING, map[], None, None, None)];
    }

    method ChangeStatus(sid: string, status: Status, error: Option<string>) returns (reply: Reply)
      modifies `sessions
      ensures (Tables(), reply) == SetStatus(old(Tables()), sid, status, error)
    {
      if sid !in sessions { return NotFound; }
      var session := sessions[sid];
      if !CanMove(session.status, status) { return Conflict; }
      session := session.(status := status);
      if status == FAILED && error.Some? && error.value != "" { session := session.(parseError := error); }
      sessions := sessions[sid := session];
      reply := Done;
    }

    /** The column-by-column assignments of `setResult`; an absent column is an undefined property. */
    method Merge(content: map<Column, string>, payload: map<Column, string>) returns (merged: map<Column, string>)
      ensures merged == content + payload
    {
      var columns := [SuggestedBidCard, Atoms, AnchorMd, SummaryMd, Manifest, Conflicts, OpenQuestions];
      hide Restrict;
      AllColumns(payload, columns);
      NoColumns(payload);
      merged := content;
      for i := 0 to |columns|
        invariant merged == content + Restrict(payload, columns[..i])
      {
        RestrictStep(payload, columns, i);
        if columns[i] in payload { merged := merged[columns[i] := payload[columns[i]]]; }
      }
    }

    method SyncResult(sid: string, payload: map<Column, string>, flip: bool) returns (reply: Reply)
      modifies `sessions
      ensures (Tables(), reply) == SetResult(old(Tables()), sid, payload, flip)
    {
      if sid !in sessions { return NotFound; }
      var session := sessions[sid];
      if session.status != PARSING && session.status != READY { return Conflict; }
      var content := Merge(session.content, payload);
      session := session.(content := content);
      if flip && session.status == PARSING { session := session.(status := READY); }
      sessions := sessions[sid := session];
      reply := Done;
    }

    method Abandon(sid: string) returns (reply: Reply)
      modifies `sessions
      ensures (Tables(), reply) == MarkAbandoned(old(Tables()), sid)
    {
      if sid !in sessions { return NotFound; }
      var session := sessions[sid];
      if session.status == CONFIRMED { return Conflict; }
      if session.status != ABANDONED { sessions := sessions[sid := session.(status := ABANDONED)]; }
      assert sessions == old(sessions)[sid := session.(status := ABANDONED)];
      reply := Done;
    }

    /** One whole service call by somebody else, another confirm's read and transaction included. */
    method OtherCall(ghost s: State) returns (ghost actions: seq<Action>)
      requires Inv(Tables()) && s.db == Tables()
      modifies this
      ensures Inv(Tables()) && ByProtocol(s, actions) && Tables() == Run(s, actions).db
              && Run(s, actions).pending == s.pending
    {
      var kind: int := *;
      var sid: string := *;
      ghost var a := Action.Abandon(sid);
      if sid !in sessions {
        a := Action.CreateSession(sid);
        CreateSession(sid);
      } else if kind == 0 {
        var payload: map<Column, string> := *;
        var flip: bool := *;
        a := Action.SyncResult(sid, payload, flip);
        var reply := SyncResult(sid, payload, flip);
      } else if kind == 1 {
        var status: Status := *;
        var error: Option<string> := *;
        if status == CONFIRMED && sessions[sid].status == READY { status := ABANDONED; }  // nobody confirms by hand
        a := Action.ChangeStatus(sid, status, error);
        var reply := ChangeStatus(sid, status, error);
      } else if kind == 2 && sessions[sid].status == READY {
        var bidId: string := *;
        actions := OtherConfirm(s, sid, bidId);
        return;
      } else {
        var reply := Abandon(sid);
      }
      StepKeepsIff(s, a);
      actions := [a];
      RunOne(s, a);
      ByProtocolOne(s, a);
    }

    method OtherConfirm(ghost s: State, sid: string, bidId: string) returns (ghost actions: seq<Action>)
      requires Inv(Tables()) && s.db == Tables() && sid in sessions && sessions[sid].status == READY
      modifies this
      ensures Inv(Tables()) && ByProtocol(s, actions) && Tables() == Run(s, actions).db
              && Run(s, actions).pending == s.pending
    {
      ghost var a := Action.ReadSession(sid, false);
      var read := sessions[sid];
      var fails: bool := *;
      var reply := Transact(sid, read, bidId, "", fails);
      ghost var b := Action.Transact(|s.pending|, bidId, "", fails);
      actions := [a, b];
      RunOne(s, a);
      assert [a, b][..1] == [a];
      ByProtocolOne(s, a);
      ByProtocolOne(Step(s, a), b);
      ByProtocolAppend(s, [a], [b]);
      assert [a] + [b] == [a, b];
      assert Step(s, a).pending[..|s.pending|] + Step(s, a).pending[|s.pending| + 1..] == s.pending;
    }

    /** What other requests do while a confirm is under way. */
    method Others(ghost pending: seq<Pending>) returns (ghost actions: seq<Action>)
      requires Inv(Tables())
      modifies this
      ensures Inv(Tables()) && Tables() == Run(State(old(Tables()), pending), actions).db
      ensures ByProtocol(State(old(Tables()), pending), actions)
    {
      actions := [];
      var calls: int := *;
      for i := 0 to if calls < 0 then 0 else calls
        invariant Inv(Tables()) && ByProtocol(State(old(Tables()), pending), actions)
        invariant Run(State(old(Tables()), pending), actions) == State(Tables(), pending)
      {
        ghost var more := OtherCall(State(Tables(), pending));
        RunAppend(State(old(Tables()), pending), actions, more);
        ByProtocolAppend(State(old(Tables()), pending), actions, more);
        actions := actions + more;
      }
    }

    /**
     `confirmAndStart`: read, let others run (`between`), then one transaction that checks the session again.
     The transaction works on the content read first; `fails` is a failure of anything inside it.
     */
    method ConfirmAndStart(sid: string, expired: bool, bidId: string, user: string, fails: bool)
      returns (reply: Reply, ghost between: seq<Action>)
      requires Inv(Tables())
      modifies this
      ensures Inv(Tables())
      ensures sid !in old(sessions) || (expired && Open(old(Tables()), sid)) ==> reply == NotFound
      ensures sid in old(sessions) && !Open(old(Tables()), sid) ==> reply == Conflict
      ensures sid in old(sessions) && old(sessions)[sid].status == PARSING && !expired ==> reply == Conflict
      ensures sid in old(sessions) && old(sessions)[sid].status == READY && !expired ==>
                var s := State(old(Tables()), [Pending(sid, old(sessions)[sid])]);
                && ByProtocol(s, between)
                && (Tables(), reply) == ConfirmTx(Run(s, between).db, sid, old(sessions)[sid], bidId, user, fails)
      ensures !(sid in old(sessions) && old(sessions)[sid].status == READY && !expired) ==> Tables() == old(Tables())
      ensures reply == Done ==> sid in sessions && sessions[sid].status == CONFIRMED
                                && sessions[sid].confirmedBid == Some(bidId) && sessions[sid].confirmedBy == Some(user)
                                && bidId in bids && bids[bidId] == Bid(sid, old(sessions)[sid].content)
    {
      between := [];
      if sid !in sessions { return NotFound, between; }
      var session := sessions[sid];
      if expired && (session.status == PARSING || session.status == READY) { return NotFound, between; }
      if session.status != READY { return Conflict, between; }
      between := Others([Pending(sid, session)]);
      reply := Transact(sid, session, bidId, user, fails);
    }

    /** The transaction: insert the bid, move the objects, write the vault, flip the session; any failure rolls back. */
    method Transact(sid: string, read: Session, bidId: string, user: string, fails: bool) returns (reply: Reply)
      requires Inv(Tables())
      modifies this
      ensures Inv(Tables()) && (Tables(), reply) == ConfirmTx(old(Tables()), sid, read, bidId, user, fails)
    {
      ConfirmKeeps(Tables(), sid, read, bidId, user, fails);
      ghost var spec := ConfirmTx(Tables(), sid, read, bidId, user, fails);
      if bidId in bids { return ServerError; }
      var bidsBefore := bids;
      bids := bids[bidId := Bid(sid, read.content)];
      if fails { reply := ServerError; }
      else if sid !in sessions { reply := NotFound; }
      else if !CanMove(sessions[sid].status, CONFIRMED) { reply := Conflict; }
      else {
        var row := sessions[sid].(status := CONFIRMED, confirmedBid := Some(bidId), confirmedBy := Some(user));
        sessions := sessions[sid := row];
        reply := Done;
      }
      if reply != Done { bids := bidsBefore; }
      assert (Tables(), reply) == spec;
    }
  }

  lemma RunOne(s: State, a: Action)
    ensures Run(s, [a]) == Step(s, a)
  {
    assert [a][..0] == [];
  }

  lemma ByProtocolOne(s: State, a: Action)
    requires !ConfirmsByHand(s.db, a)
    ensures ByProtocol(s, [a])
  {
    assert [a][..0] == [];
  }

  lemma {:induction false} RunAppend(s: State, a: seq<Action>, b: seq<Action>)
    ensures Run(s, a + b) == Run(Run(s, a), b)
    decreases |b|
  {
    if b == [] {
      assert a + b == a;
    } else {
      var n := |b| - 1;
      RunAppend(s, a, b[..n]);
      assert (a + b)[..|a + b| - 1] == a + b[..n];
    }
  }

  function Restrict(payload: map<Column, string>, columns: seq<Column>): map<Column, string> {
    map c | c in payload && c in columns :: payload[c]
  }

  lemma NoColumns(payload: map<Column, string>)
    ensures Restrict(payload, []) == map[]
  {
  }

  lemma RestrictStep(payload: map<Column, string>, columns: seq<Column>, i: nat)
    requires i < |columns|
    ensures var c := columns[i];
            Restrict(payload, columns[..i + 1])
            == if c in payload then Restrict(payload, columns[..i])[c := payload[c]]
               else Restrict(payload, columns[..i])
  {
    assert columns[..i + 1] == columns[..i] + [columns[i]];
  }

  lemma AllColumns(payload: map<Column, string>, columns: seq<Column>)
    requires columns == [SuggestedBidCard, Atoms, AnchorMd, SummaryMd, Manifest, Conflicts, OpenQuestions]
    ensures Restrict(payload, columns[..|columns|]) == payload
  {
    forall c: Column
      ensures c in columns[..|columns|]
    {
      var i := match c case SuggestedBidCard => 0 case Atoms => 1 case AnchorMd => 2 case SummaryMd => 3
               case Manifest => 4 case Conflicts => 5 case OpenQuestions => 6;
      assert columns[i] == c;
    }
  }
}
