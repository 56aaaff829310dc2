/**
 The throttled token publisher. The code between two awaits runs as one atomic step; timers, queued
 flush tasks and suspended calls interleave in any order.
 */
module TokenStream {
  import opened Prelude

  datatype Message = Message(node: string, seqNo: nat, text: string, done: bool)

  /** A finished session: what it inherited in the buffer, what was pushed in it, what it published. */
  datatype Session = Session(carry: string, accepted: string, sent: seq<Message>)

  datatype State = State(
    // the publisher's attributes
    node: Option<string>, seqNo: nat, buffer: seq<string>, bufferedChars: nat, handle: Option<nat>, closed: bool,
    // the event loop: armed timers, the next timer's identity, queued flush tasks, suspended calls
    timers: set<nat>, nextTimer: nat, tasks: nat, switching: seq<string>, finishing: nat,
    // what happened: finished sessions and the current one
    past: seq<Session>, carry: string, accepted: string, sent: seq<Message>)

  const INITIAL := State(None, 0, [], 0, None, false, {}, 0, 0, [], 0, [], "", "", [])

  datatype Action =
    | Push(delta: string) | SetNode(node: string) | ResumeSetNode(call: nat) | MarkDone | ResumeMarkDone
    | FireTimer(timer: nat) | RunFlushTask | Close

  // ---------------------------------------------------------------- one step

  function CancelTimer(s: State): State {
    if s.handle.Some? then s.(timers := s.timers - {s.handle.value}, handle := None) else s
  }

  function Published(s: State, text: string, done: bool): State
    requires s.node.Some?
  {
    s.(seqNo := s.seqNo + 1, sent := s.sent + [Message(s.node.value, s.seqNo + 1, text, done)])
  }

  /** `_flush_now` up to the publish it awaits. */
  function Flush(s: State): State {
    var t := CancelTimer(s);
    if t.buffer == [] || t.node.None? then t
    else Published(t, Concat(t.buffer), false).(buffer := [], bufferedChars := 0)
  }

  /** The statements of `set_node` after its flush; a new session starts with what is in the buffer now. */
  function Switch(s: State, node: string): State {
    s.(node := Some(node), seqNo := 0,
       past := s.past + [Session(s.carry, s.accepted, s.sent)], carry := Concat(s.buffer), accepted := "", sent := [])
  }

  function Arm(s: State): State {
    if s.handle.None?
    then s.(handle := Some(s.nextTimer), timers := s.timers + {s.nextTimer}, nextTimer := s.nextTimer + 1)
    else s
  }

  function Step(s: State, a: Action, threshold: int): State {
    match a
    case Push(delta) =>
      if s.closed || delta == "" || s.node.None? then s else
        var t := s.(buffer := s.buffer + [delta], bufferedChars := s.bufferedChars + |delta|,
                    accepted := s.accepted + delta);
        if t.bufferedChars >= threshold then Flush(t) else Arm(t)
    case SetNode(node) =>
      if s.node.Some? && s.buffer != [] then Flush(s).(switching := s.switching + [node]) else Switch(s, node)
    case ResumeSetNode(i) =>
      if i < |s.switching| then
        Switch(s, s.switching[i]).(switching := s.switching[..i] + s.switching[i + 1..])
      else s
    case MarkDone =>
      if s.closed || s.node.None? then s
      else if s.buffer != [] then Flush(s).(finishing := s.finishing + 1)
      else Published(Flush(s), "", true)
    case ResumeMarkDone =>
      if s.finishing > 0 && s.node.Some? then Published(s, "", true).(finishing := s.finishing - 1) else s
    case FireTimer(timer) =>
      if timer in s.timers then s.(timers := s.timers - {timer}, tasks := s.tasks + 1) else s
    case RunFlushTask =>
      if s.tasks > 0 then Flush(s.(tasks := s.tasks - 1)) else s
    case Close =>
      if s.closed then s else CancelTimer(s).(closed := true)
  }

  function Run(s: State, actions: seq<Action>, threshold: int): State {
    if actions == [] then s
    else Step(Run(s, actions[..|actions| - 1], threshold), actions[|actions| - 1], threshold)
  }

  // ---------------------------------------------------------------- what every step keeps

  function Texts(sent: seq<Message>): string {
    if sent == [] then "" else Texts(sent[..|sent| - 1]) + sent[|sent| - 1].text
  }

  /** Messages numbered 1, 2, 3, ... */
  ghost predicate Numbered(sent: seq<Message>) {
    forall i :: 0 <= i < |sent| ==> sent[i].seqNo == i + 1
  }

  /** The session's messages in order, then the buffer, are exactly the text it inherited and was given. */
  ghost predicate SessionOk(s: State) {
    && s.carry + s.accepted == Texts(s.sent) + Concat(s.buffer)
    && Numbered(s.sent) && s.seqNo == |s.sent|
    && (forall i :: 0 <= i < |s.sent| ==> s.node == Some(s.sent[i].node))
    && (s.node.None? ==> s.buffer == [] && s.sent == [])
  }

  ghost predicate BufferOk(s: State, threshold: int) {
    && s.bufferedChars == |Concat(s.buffer)| && (s.buffer != [] ==> s.bufferedChars < threshold)
    && forall d :: d in s.buffer ==> d != ""
  }

  /** While open, a nonempty buffer has a flush coming: a live timer or a queued task; there is never a second timer. */
  ghost predicate TimerOk(s: State) {
    && (!s.closed && s.buffer != [] ==> s.handle.Some?)
    && (s.handle.Some? ==> s.handle.value in s.timers || s.tasks > 0)
    && (forall t :: t in s.timers ==> s.handle == Some(t))
    && (s.closed ==> s.handle.None?)
    && (s.handle.Some? ==> s.handle.value < s.nextTimer)
    && (s.finishing > 0 ==> s.node.Some?)
  }

  /** The text that session `k` left in the buffer: what its successor inherited. */
  function LeftBy(past: seq<Session>, carry: string, k: nat): string {
    if k + 1 < |past| then past[k + 1].carry else carry
  }

  ghost predicate PastAt(past: seq<Session>, carry: string, k: nat)
    requires k < |past|
  {
    Numbered(past[k].sent) && past[k].carry + past[k].accepted == Texts(past[k].sent) + LeftBy(past, carry, k)
  }

  /** What finished sessions left over went to their successors. */
  ghost predicate PastOk(past: seq<Session>, carry: string) {
    forall k: nat {:trigger PastAt(past, carry, k)} :: k < |past| ==> PastAt(past, carry, k)
  }

  /** Nothing was inherited by the first session. */
  function FirstCarry(past: seq<Session>, carry: string): string {
    if past == [] then carry else past[0].carry
  }

  ghost predicate Inv(s: State, threshold: int) {
    && SessionOk(s) && BufferOk(s, threshold) && TimerOk(s)
    && PastOk(s.past, s.carry) && FirstCarry(s.past, s.carry) == ""
  }

  lemma TextsSnoc(sent: seq<Message>, m: Message)
    ensures Texts(sent + [m]) == Texts(sent) + m.text
  {
    assert (sent + [m])[..|sent|] == sent;
  }

  lemma PublishKeeps(s: State, text: string, done: bool)
    requires Numbered(s.sent) && s.seqNo == |s.sent| && s.node.Some?
    requires forall i :: 0 <= i < |s.sent| ==> s.node == Some(s.sent[i].node)
    ensures var t := Published(s, text, done);
            && Texts(t.sent) == Texts(s.sent) + text && Numbered(t.sent) && t.seqNo == |t.sent|
            && forall i :: 0 <= i < |t.sent| ==> t.node == Some(t.sent[i].node)
  {
    TextsSnoc(s.sent, Message(s.node.value, s.seqNo + 1, text, done));
  }

  lemma {:induction false} FlushKeeps(s: State)
    requires SessionOk(s)
    ensures SessionOk(Flush(s)) && Flush(s).bufferedChars == (if s.buffer == [] then s.bufferedChars else 0)
    ensures Flush(s).buffer == [] && Flush(s).handle.None? && Flush(s).past == s.past && Flush(s).carry == s.carry
    ensures s.buffer != [] ==> Concat(Flush(s).buffer) == ""
  {
    var t := CancelTimer(s);
    if t.buffer != [] {
      PublishKeeps(t, Concat(t.buffer), false);
      assert Texts(Flush(s).sent) + Concat([]) == Texts(s.sent) + Concat(s.buffer);
    }
  }

  lemma PushKeepsSession(s: State, delta: string)
    requires SessionOk(s) && s.node.Some?
    ensures SessionOk(s.(buffer := s.buffer + [delta], bufferedChars := s.bufferedChars + |delta|,
                         accepted := s.accepted + delta))
  {
    ConcatSnoc(s.buffer, delta);
    assert s.carry + (s.accepted + delta) == (s.carry + s.accepted) + delta;
    assert Texts(s.sent) + (Concat(s.buffer) + delta) == (Texts(s.sent) + Concat(s.buffer)) + delta;
  }

  lemma SwitchKeeps(s: State, node: string)
    requires SessionOk(s) && PastOk(s.past, s.carry)
    ensures SessionOk(Switch(s, node)) && PastOk(Switch(s, node).past, Switch(s, node).carry)
  {
    var t := Switch(s, node);
    assert t.carry + t.accepted == t.carry && Texts(t.sent) + t.carry == t.carry;
    forall k: nat | k < |t.past|
      ensures PastAt(t.past, t.carry, k)
    {
      if k < |s.past| {
        assert PastAt(s.past, s.carry, k) && LeftBy(t.past, t.carry, k) == LeftBy(s.past, s.carry, k);
      }
    }
  }

  lemma DoneKeeps(s: State)
    requires SessionOk(s) && s.node.Some?
    ensures SessionOk(Published(s, "", true))
  {
    PublishKeeps(s, "", true);
    assert Texts(s.sent) + "" == Texts(s.sent);
  }

  lemma ArmKeeps(s: State)
    requires SessionOk(s)
    ensures SessionOk(Arm(s)) && Arm(s).past == s.past && Arm(s).carry == s.carry
  {
  }

  lemma PushKeepsTimers(s: State, delta: string)
    requires TimerOk(s) && !s.closed && s.node.Some?
    ensures var t := s.(buffer := s.buffer + [delta], bufferedChars := s.bufferedChars + |delta|,
                        accepted := s.accepted + delta);
            TimerOk(Flush(t)) && TimerOk(Arm(t))
  {
    hide Concat;
  }

  lemma {:induction false} PushKeeps(s: State, delta: string, threshold: int)
    requires Inv(s, threshold)
    ensures Inv(Step(s, Push(delta), threshold), threshold)
  {
    hide SessionOk, PastOk, TimerOk, Concat;
    if !(s.closed || delta == "" || s.node.None?) {
      var t := s.(buffer := s.buffer + [delta], bufferedChars := s.bufferedChars + |delta|,
                  accepted := s.accepted + delta);
      PushKeepsSession(s, delta);
      PushKeepsTimers(s, delta);
      ConcatSnoc(s.buffer, delta);
      if t.bufferedChars >= threshold { FlushKeeps(t); } else { ArmKeeps(t); }
    }
  }

  lemma FlushesKeep(s: State, threshold: int)
    requires Inv(s, threshold)
    ensures Inv(Flush(s), threshold)
  {
    FlushKeeps(s);
  }

  lemma SetNodeKeeps(s: State, node: string, threshold: int)
    requires Inv(s, threshold)
    ensures Inv(Flush(s).(switching := s.switching + [node]), threshold) && Inv(Switch(s, node), threshold)
  {
    hide PastOk, Texts, Concat;
    FlushesKeep(s, threshold);
    SwitchKeeps(s, node);
  }

  lemma DoneStepKeeps(s: State, threshold: int)
    requires Inv(s, threshold) && s.node.Some?
    ensures Inv(Published(s, "", true), threshold)
  {
    hide PastOk, Texts, Concat;
    DoneKeeps(s);
  }

  /** Every step of every interleaving keeps the invariant. */
  lemma StepKeeps(s: State, a: Action, threshold: int)
    requires Inv(s, threshold)
    ensures Inv(Step(s, a, threshold), threshold)
  {
    hide PastOk, Texts, Concat, Switch, Numbered;
    match a {
      case Push(delta) => PushKeeps(s, delta, threshold);
      case SetNode(node) => SetNodeKeeps(s, node, threshold);
      case ResumeSetNode(i) => if i < |s.switching| { SetNodeKeeps(s, s.switching[i], threshold); }
      case MarkDone => {
        FlushesKeep(s, threshold);
        if s.node.Some? { DoneStepKeeps(Flush(s), threshold); }
      }
      case ResumeMarkDone => if s.node.Some? { DoneStepKeeps(s, threshold); }
      case FireTimer(timer) =>
      case RunFlushTask => FlushKeeps(s.(tasks := if s.tasks > 0 then s.tasks - 1 else 0));
      case Close =>
    }
  }

  /**
   Over every run: the session's text is conserved, numbered from 1, counted right, and never left without a
   flush.
   */
  lemma {:induction false} RunKeeps(actions: seq<Action>, threshold: int)
    ensures Inv(Run(INITIAL, actions, threshold), threshold)
  {
    if actions != [] {
      RunKeeps(actions[..|actions| - 1], threshold);
      StepKeeps(Run(INITIAL, actions[..|actions| - 1], threshold), actions[|actions| - 1], threshold);
    }
  }

  // ---------------------------------------------------------------- conservation over all sessions

  function AllAccepted(past: seq<Session>): string {
    if past == [] then "" else AllAccepted(past[..|past| - 1]) + past[|past| - 1].accepted
  }

  function AllSent(past: seq<Session>): string {
    if past == [] then "" else AllSent(past[..|past| - 1]) + Texts(past[|past| - 1].sent)
  }

  lemma PastPrefix(past: seq<Session>, carry: string)
    requires PastOk(past, carry) && past != []
    ensures var n := |past| - 1; PastOk(past[..n], past[n].carry) && PastAt(past, carry, n)
  {
    var n := |past| - 1;
    assert PastAt(past, carry, n);
    forall k: nat | k < n
      ensures PastAt(past[..n], past[n].carry, k)
    {
      assert PastAt(past, carry, k);
      assert LeftBy(past[..n], past[n].carry, k) == LeftBy(past, carry, k);
    }
  }

  lemma Splice(first: string, before: string, accepted: string, sent: string, inherited: string, texts: string,
               left: string)
    requires first + before == sent + inherited && inherited + accepted == texts + left
    ensures first + (before + accepted) == (sent + texts) + left
  {
    assert first + (before + accepted) == (first + before) + accepted;
    assert (sent + inherited) + accepted == sent + (inherited + accepted);
    assert sent + (texts + left) == (sent + texts) + left;
  }

  lemma {:induction false} Telescope(past: seq<Session>, carry: string)
    requires PastOk(past, carry)
    ensures FirstCarry(past, carry) + AllAccepted(past) == AllSent(past) + carry
  {
    hide Texts, PastOk;
    if past != [] {
      var n := |past| - 1;
      var last := past[n];
      PastPrefix(past, carry);
      Telescope(past[..n], last.carry);
      Splice(FirstCarry(past, carry), AllAccepted(past[..n]), last.accepted, AllSent(past[..n]), last.carry,
             Texts(last.sent), carry);
    } else {
      assert carry + "" == "" + carry;
    }
  }

  /** In every run, the text of all messages of all sessions in order, then the buffer, is all text ever accepted. */
  lemma {:induction false} NothingLost(actions: seq<Action>, threshold: int)
    ensures var s := Run(INITIAL, actions, threshold);
            AllAccepted(s.past) + s.accepted == AllSent(s.past) + (Texts(s.sent) + Concat(s.buffer))
  {
    hide Texts, PastOk, Run, AllAccepted, AllSent;
    var s := Run(INITIAL, actions, threshold);
    RunKeeps(actions, threshold);
    Telescope(s.past, s.carry);
    assert "" + AllAccepted(s.past) == AllAccepted(s.past);
    assert AllAccepted(s.past) + s.accepted == AllSent(s.past) + (s.carry + s.accepted);
  }

  // ---------------------------------------------------------------- the text that was pushed

  /** Some call to `set_node` has been made. */
  predicate HasNode(actions: seq<Action>) {
    exists k :: 0 <= k < |actions| && actions[k].SetNode?
  }

  predicate HasClosed(actions: seq<Action>) {
    exists k :: 0 <= k < |actions| && actions[k].Close?
  }

  /** The deltas of all pushes made after some `set_node` and before any `aclose`, in order. */
  function Pushed(actions: seq<Action>): string {
    if actions == [] then "" else
      var before, a := actions[..|actions| - 1], actions[|actions| - 1];
      Pushed(before) + if a.Push? && HasNode(before) && !HasClosed(before) then a.delta else ""
  }

  lemma HasSnoc(actions: seq<Action>)
    requires actions != []
    ensures var before, a := actions[..|actions| - 1], actions[|actions| - 1];
            && (HasNode(actions) <==> HasNode(before) || a.SetNode?)
            && (HasClosed(actions) <==> HasClosed(before) || a.Close?)
  {
    var n := |actions| - 1;
    assert forall k :: 0 <= k < n ==> actions[..n][k] == actions[k];
  }

  /** What one step adds to the accepted text, and what opens and closes the publisher. */
  lemma AcceptedStep(s: State, a: Action, threshold: int)
    requires s.node.None? ==> s.buffer == [] && s.switching == []
    ensures var t := Step(s, a, threshold);
            && AllAccepted(t.past) + t.accepted
               == AllAccepted(s.past) + s.accepted + (if a.Push? && s.node.Some? && !s.closed then a.delta else "")
            && (t.node.Some? <==> s.node.Some? || a.SetNode?) && (t.closed <==> s.closed || a.Close?)
            && (t.node.None? ==> t.buffer == [] && t.switching == [])
  {
    hide Concat, AllAccepted;
    var t := Step(s, a, threshold);
    SwitchStep(s, a, threshold);
    if Switches(s, a) {
      AcceptedSnoc(s.past, Session(s.carry, s.accepted, s.sent));
      assert t.accepted == "" && AllAccepted(t.past) + "" == AllAccepted(t.past);
      assert AllAccepted(s.past) + s.accepted + "" == AllAccepted(s.past) + s.accepted;
    } else if a.Push? && s.node.Some? && !s.closed {
      assert s.accepted + "" == s.accepted;
      assert t.accepted == s.accepted + a.delta;
      assert AllAccepted(s.past) + (s.accepted + a.delta) == AllAccepted(s.past) + s.accepted + a.delta;
    } else {
      assert t.accepted == s.accepted;
      assert AllAccepted(s.past) + s.accepted + "" == AllAccepted(s.past) + s.accepted;
    }
  }

  lemma AcceptedSnoc(past: seq<Session>, last: Session)
    ensures AllAccepted(past + [last]) == AllAccepted(past) + last.accepted
  {
    assert (past + [last])[..|past|] == past;
  }

  /** Over every run, what counts as accepted is exactly the text pushed while a node was set and nothing closed. */
  lemma {:induction false} AcceptedIsPushed(actions: seq<Action>, threshold: int)
    ensures var s := Run(INITIAL, actions, threshold);
            && AllAccepted(s.past) + s.accepted == Pushed(actions)
            && (s.node.Some? <==> HasNode(actions)) && (s.closed <==> HasClosed(actions))
            && (s.node.None? ==> s.buffer == [] && s.switching == [])
  {
    hide Step;
    if actions != [] {
      var n := |actions| - 1;
      AcceptedIsPushed(actions[..n], threshold);
      AcceptedStep(Run(INITIAL, actions[..n], threshold), actions[n], threshold);
      HasSnoc(actions);
    }
  }

  /**
   In every run, the text of all messages of all sessions in order, then the buffer, is exactly the text
   pushed after a `set_node` and before an `aclose`, in order.
   */
  lemma {:induction false} PushedIsPublished(actions: seq<Action>, threshold: int)
    ensures var s := Run(INITIAL, actions, threshold);
            AllSent(s.past) + (Texts(s.sent) + Concat(s.buffer)) == Pushed(actions)
  {
    hide Run, Texts, Concat, AllSent, AllAccepted, Pushed;
    NothingLost(actions, threshold);
    AcceptedIsPushed(actions, threshold);
  }

  /** A closed publisher takes no text and announces no end. */
  lemma ClosedIgnores(s: State, delta: string, threshold: int)
    requires s.closed
    ensures Step(s, Push(delta), threshold) == s && Step(s, MarkDone, threshold) == s && Step(s, Close, threshold) == s
  {
  }

  /** The state when a `mark_done` call has returned, with nothing in between. */
  function Finished(s: State, threshold: int): State {
    var t := Step(s, MarkDone, threshold);
    if s.buffer == [] then t else Step(t, ResumeMarkDone, threshold)
  }

  /** A `mark_done` on an open node publishes what is buffered, if anything, and then one empty message marked done. */
  lemma DoneClosesNode(s: State, threshold: int)
    requires Inv(s, threshold) && !s.closed && s.node.Some?
    ensures var t := Finished(s, threshold);
            && t.buffer == [] && Texts(t.sent) == t.carry + t.accepted && t.carry == s.carry && t.accepted == s.accepted
            && |t.sent| == |s.sent| + (if s.buffer == [] then 1 else 2) && s.sent == t.sent[..|s.sent|]
            && t.sent[|t.sent| - 1] == Message(s.node.value, |t.sent|, "", true)
  {
    hide PastOk, TimerOk, BufferOk, Concat, Texts;
    FlushKeeps(s);
    DoneKeeps(Flush(s));
    NothingBuffered(Finished(s, threshold));
  }

  lemma NothingBuffered(s: State)
    requires SessionOk(s) && s.buffer == []
    ensures Texts(s.sent) == s.carry + s.accepted
  {
    assert Texts(s.sent) + Concat([]) == Texts(s.sent);
  }

  /** The step ends a session: `set_node` with nothing to flush, or its resumption. */
  predicate Switches(s: State, a: Action) {
    || (a.SetNode? && !(s.node.Some? && s.buffer != []))
    || (a.ResumeSetNode? && a.call < |s.switching|)
  }

  ghost predicate NoSwitch(s: State, actions: seq<Action>, threshold: int) {
    forall k: nat {:trigger actions[..k]} :: k < |actions| ==> !Switches(Run(s, actions[..k], threshold), actions[k])
  }

  lemma SwitchStep(s: State, a: Action, threshold: int)
    ensures var t := Step(s, a, threshold);
            if Switches(s, a)
            then t.past == s.past + [Session(s.carry, s.accepted, s.sent)] && t.carry == Concat(s.buffer)
                 && t.accepted == "" && t.sent == [] && t.seqNo == 0 && t.buffer == s.buffer
                 && t.node == Some(if a.SetNode? then a.node else s.switching[a.call])
            else t.past == s.past && t.carry == s.carry && t.node == s.node
  {
    hide Concat;
  }

  lemma NoSwitchSnoc(s: State, actions: seq<Action>, threshold: int)
    requires actions != []
    ensures var n := |actions| - 1;
            NoSwitch(s, actions, threshold)
            <==> NoSwitch(s, actions[..n], threshold) && !Switches(Run(s, actions[..n], threshold), actions[n])
  {
    hide Run, Switches;
    var n := |actions| - 1;
    forall k: nat | k < n
      ensures actions[..n][..k] == actions[..k] && actions[..n][k] == actions[k]
    {
    }
  }

  lemma {:induction false} SessionLastsIff(s: State, actions: seq<Action>, threshold: int)
    ensures |Run(s, actions, threshold).past| >= |s.past|
    ensures |Run(s, actions, threshold).past| == |s.past| <==> NoSwitch(s, actions, threshold)
    ensures NoSwitch(s, actions, threshold)
      ==> Run(s, actions, threshold).past == s.past && Run(s, actions, threshold).node == s.node
  {
    hide Step, Switches;
    if actions != [] {
      hide NoSwitch;
      var n := |actions| - 1;
      SessionLastsIff(s, actions[..n], threshold);
      NoSwitchSnoc(s, actions, threshold);
      SwitchStep(Run(s, actions[..n], threshold), actions[n], threshold);
    }
  }

  lemma {:induction false} RunKeepsFrom(s: State, actions: seq<Action>, threshold: int)
    requires Inv(s, threshold)
    ensures Inv(Run(s, actions, threshold), threshold)
  {
    if actions != [] {
      RunKeepsFrom(s, actions[..|actions| - 1], threshold);
      StepKeeps(Run(s, actions[..|actions| - 1], threshold), actions[|actions| - 1], threshold);
    }
  }

  /** All text of the current session has been published. */
  ghost predicate Complete(s: State) {
    Texts(s.sent) == s.carry + s.accepted
  }

  lemma CompleteIff(s: State, threshold: int)
    requires Inv(s, threshold)
    ensures Complete(s) <==> s.buffer == []
  {
    hide Texts, PastOk, TimerOk;
    if s.buffer == [] {
      NothingBuffered(s);
    } else {
      assert s.buffer[|s.buffer| - 1] in s.buffer;
      SuffixEmpty(Texts(s.sent), Concat(s.buffer));
    }
  }

  /**
   `mark_done` waits for its flush while anything else happens (`meanwhile`); then its done message,
   numbered next, names the node current by then. It closes the session it was called on, with all of
   that session's text before it, exactly when no node change took effect in between and nothing is
   buffered at that moment.
   */
  lemma {:induction false} DoneClosesIff(s: State, meanwhile: seq<Action>, threshold: int)
    requires Inv(s, threshold) && !s.closed && s.node.Some? && s.buffer != []
    requires Run(Step(s, MarkDone, threshold), meanwhile, threshold).finishing > 0
    ensures var m := Run(Step(s, MarkDone, threshold), meanwhile, threshold);
            var t := Step(m, ResumeMarkDone, threshold);
            && m.node.Some? && t.sent == m.sent + [Message(m.node.value, |m.sent| + 1, "", true)]
            && (|t.past| == |s.past| && Complete(t)
                <==> NoSwitch(Step(s, MarkDone, threshold), meanwhile, threshold) && m.buffer == [])
            && (NoSwitch(Step(s, MarkDone, threshold), meanwhile, threshold) ==> m.node == s.node)
  {
    hide PastOk, BufferOk, Texts, Concat, Run, Complete, NoSwitch;
    var start := Step(s, MarkDone, threshold);
    var m := Run(start, meanwhile, threshold);
    StepKeeps(s, MarkDone, threshold);
    RunKeepsFrom(start, meanwhile, threshold);
    SessionLastsIff(start, meanwhile, threshold);
    StepKeeps(m, ResumeMarkDone, threshold);
    CompleteIff(Step(m, ResumeMarkDone, threshold), threshold);
  }

  // ---------------------------------------------------------------- text that lands in the next session

  /** A session starts clean exactly when nothing is buffered at the moment the node changes. */
  lemma CleanStartIff(s: State, node: string, threshold: int)
    requires Inv(s, threshold)
    ensures Switch(s, node).carry == "" <==> s.buffer == []
  {
    if s.buffer != [] {
      var n := |s.buffer| - 1;
      assert s.buffer[n] in s.buffer && s.buffer[n] != "";
    }
  }

  /** Every session publishes exactly the text pushed in it; the current one still has its buffer. */
  ghost predicate OwnText(s: State) {
    && s.accepted == Texts(s.sent) + Concat(s.buffer)
    && forall k :: 0 <= k < |s.past| ==> s.past[k].accepted == Texts(s.past[k].sent)
  }

  ghost predicate NothingInherited(past: seq<Session>, carry: string) {
    carry == "" && forall k :: 0 <= k < |past| ==> past[k].carry == ""
  }

  /** A resumption of `set_node` that finds text in the buffer. */
  predicate Leaks(s: State, a: Action) {
    a.ResumeSetNode? && a.call < |s.switching| && s.buffer != []
  }

  ghost predicate NoLeak(actions: seq<Action>, threshold: int) {
    forall k: nat {:trigger actions[..k]} :: k < |actions| ==> !Leaks(Run(INITIAL, actions[..k], threshold), actions[k])
  }

  lemma SuffixEmpty(a: string, b: string)
    ensures a == a + b ==> b == ""
  {
    assert |a + b| == |a| + |b|;
  }

  lemma {:induction false} PastOwnText(past: seq<Session>, carry: string)
    requires PastOk(past, carry) && FirstCarry(past, carry) == ""
    ensures (forall k :: 0 <= k < |past| ==> past[k].accepted == Texts(past[k].sent)) <==> NothingInherited(past, carry)
  {
    hide Texts, PastOk;
    if past != [] {
      var n := |past| - 1;
      var last := past[n];
      PastPrefix(past, carry);
      PastOwnText(past[..n], last.carry);
      assert past == past[..n] + [last];
      assert last.carry == "" ==> last.carry + last.accepted == last.accepted;
      assert carry == "" ==> Texts(last.sent) + carry == Texts(last.sent);
      SuffixEmpty(Texts(last.sent), carry);
    }
  }

  /** Sessions publish exactly their own text when, and only when, none inherited any. */
  lemma OwnTextIff(s: State, threshold: int)
    requires Inv(s, threshold)
    ensures OwnText(s) <==> NothingInherited(s.past, s.carry)
  {
    hide Texts, PastOk, Concat, BufferOk, TimerOk;
    PastOwnText(s.past, s.carry);
    assert s.carry == "" ==> s.carry + s.accepted == s.accepted;
  }

  lemma InheritedAtSwitch(past: seq<Session>, last: Session, carry: string)
    ensures NothingInherited(past + [last], carry) <==> NothingInherited(past, last.carry) && carry == ""
  {
    var more := past + [last];
    assert more[|past|] == last && forall k :: 0 <= k < |past| ==> more[k] == past[k];
  }

  /** One step: what was clean stays clean unless the step leaks, and what was not stays so. */
  lemma InheritanceStep(s: State, a: Action, threshold: int)
    requires Inv(s, threshold)
    ensures var t := Step(s, a, threshold);
            NothingInherited(t.past, t.carry) <==> NothingInherited(s.past, s.carry) && !Leaks(s, a)
  {
    hide TimerOk, PastOk, BufferOk, Texts, Concat, Step, NothingInherited;
    SwitchStep(s, a, threshold);
    if Switches(s, a) {
      CleanStartIff(s, "", threshold);
      InheritedAtSwitch(s.past, Session(s.carry, s.accepted, s.sent), Concat(s.buffer));
    }
  }

  /**
   Over every run: every session publishes exactly its own text if and only if no `set_node`, resuming
   after its flush, finds that more text has been buffered meanwhile.
   */
  lemma {:induction false} OwnTextRunIff(actions: seq<Action>, threshold: int)
    ensures OwnText(Run(INITIAL, actions, threshold)) <==> NoLeak(actions, threshold)
  {
    InheritedRunIff(actions, threshold);
    RunKeeps(actions, threshold);
    OwnTextIff(Run(INITIAL, actions, threshold), threshold);
  }

  lemma NoLeakSnoc(actions: seq<Action>, threshold: int)
    requires actions != []
    ensures var n := |actions| - 1;
            NoLeak(actions, threshold)
            <==> NoLeak(actions[..n], threshold) && !Leaks(Run(INITIAL, actions[..n], threshold), actions[n])
  {
    hide Run, Leaks;
    var n := |actions| - 1;
    forall k: nat | k < n
      ensures actions[..n][..k] == actions[..k] && actions[..n][k] == actions[k]
    {
    }
  }

  lemma {:induction false} InheritedRunIff(actions: seq<Action>, threshold: int)
    ensures var s := Run(INITIAL, actions, threshold); NothingInherited(s.past, s.carry) <==> NoLeak(actions, threshold)
  {
    hide Step, Leaks, Inv;
    if actions != [] {
      hide NoLeak, NothingInherited;
      var n := |actions| - 1;
      InheritedRunIff(actions[..n], threshold);
      RunKeeps(actions[..n], threshold);
      InheritanceStep(Run(INITIAL, actions[..n], threshold), actions[n], threshold);
      NoLeakSnoc(actions, threshold);
    }
  }

  /** No push is taken while a `set_node` waits for its flush. */
  ghost predicate Undisturbed(actions: seq<Action>, threshold: int) {
    forall k: nat {:trigger actions[k]} :: k < |actions| && actions[k].Push?
        ==> Run(INITIAL, actions[..k], threshold).switching == []
  }

  ghost predicate Clean(s: State) {
    NothingInherited(s.past, s.carry) && (s.switching != [] ==> s.buffer == [])
  }

  /** Only a push fills the buffer, and a `set_node` that waits has emptied it. */
  lemma WaitsEmpty(s: State, a: Action, threshold: int)
    requires (s.switching != [] ==> s.buffer == []) && (a.Push? ==> s.switching == [])
    requires s.node.None? ==> s.buffer == []
    ensures var t := Step(s, a, threshold); t.switching != [] ==> t.buffer == []
  {
    hide Concat;
  }

  lemma StepStaysClean(s: State, a: Action, threshold: int)
    requires Inv(s, threshold) && Clean(s) && (a.Push? ==> s.switching == [])
    ensures Clean(Step(s, a, threshold))
  {
    hide TimerOk, PastOk, BufferOk, Texts, Concat, Step, NothingInherited;
    WaitsEmpty(s, a, threshold);
    InheritanceStep(s, a, threshold);
  }

  /** In an undisturbed run every session's messages, then the buffer, are exactly the text pushed in it. */
  lemma {:induction false} UndisturbedIsClean(actions: seq<Action>, threshold: int)
    requires Undisturbed(actions, threshold)
    ensures var s := Run(INITIAL, actions, threshold);
            Clean(s) && s.accepted == Texts(s.sent) + Concat(s.buffer)
  {
    hide Texts;
    var s := Run(INITIAL, actions, threshold);
    RunKeeps(actions, threshold);
    if actions != [] {
      var n := |actions| - 1;
      forall k: nat | k < n && actions[..n][k].Push?
        ensures Run(INITIAL, actions[..n][..k], threshold).switching == []
      {
        assert actions[..n][..k] == actions[..k] && actions[k].Push?;
      }
      UndisturbedIsClean(actions[..n], threshold);
      RunKeeps(actions[..n], threshold);
      assert actions[n].Push? ==> Run(INITIAL, actions[..n], threshold).switching == [];
      StepStaysClean(Run(INITIAL, actions[..n], threshold), actions[n], threshold);
    }
    assert "" + s.accepted == s.accepted;
  }

  /** The first publish of a node, for one push waiting in the buffer. */
  lemma OnePending(s: State, node: string, delta: string)
    requires s.node == Some(node) && s.buffer == [delta] && s.sent == [] && s.seqNo == 0
    ensures Flush(s).sent == [Message(node, 1, delta, false)] && Flush(s).buffer == []
    ensures Flush(s).carry == s.carry && Flush(s).accepted == s.accepted && Flush(s).closed == s.closed
  {
    assert [delta][..0] == [];
    assert Concat([delta]) == "" + delta == delta;
  }

  /** A node change with one push waiting, and another taken before the flush is over. */
  lemma PushMeanwhile(s: State, node: string, delta: string, threshold: int)
    requires s.node.Some? && !s.closed && s.buffer != [] && s.switching == []
    requires 0 < |delta| < threshold
    ensures var t := Step(Step(Step(s, SetNode(node), threshold), Push(delta), threshold), ResumeSetNode(0), threshold);
            && t.node == Some(node) && t.buffer == [delta] && t.carry == delta && t.accepted == "" && t.sent == []
            && t.seqNo == 0 && !t.closed
  {
    var f := Step(s, SetNode(node), threshold);
    assert f.switching == [node] && f.buffer == [] && f.bufferedChars == 0;
    var g := Step(f, Push(delta), threshold);
    assert g.buffer == [delta] && g.switching == [node];
    assert [delta][..0] == [];
    assert Concat([delta]) == "" + delta == delta;
  }

  /** A push during `set_node`'s flush is published under the new node's name and numbering. */
  lemma DisturbedLeaks(s: State, node: string, delta: string, threshold: int)
    requires s.node.Some? && !s.closed && s.buffer != [] && s.switching == []
    requires 0 < |delta| < threshold
    ensures var u := Step(Step(s, SetNode(node), threshold), Push(delta), threshold);
            var t := Step(Step(u, ResumeSetNode(0), threshold), MarkDone, threshold);
            t.accepted == "" && t.carry == delta && t.sent == [Message(node, 1, delta, false)]
  {
    PushMeanwhile(s, node, delta, threshold);
    var t := Step(Step(Step(s, SetNode(node), threshold), Push(delta), threshold), ResumeSetNode(0), threshold);
    OnePending(t, node, delta);
  }

  // ---------------------------------------------------------------- the publisher

  /** The object itself. Each method is the run of its coroutine up to the next suspension. */
  class TokenPublisher {
    const threshold: int
    var node: Option<string>
    var seqNo: nat
    var buffer: seq<string>
    var bufferedChars: nat
    var flushHandle: Option<nat>
    var closed: bool
    var timers: set<nat>
    var nextTimer: nat
    var tasks: nat
    /** Every message handed to Redis for the current node, and what the suspended calls will do. */
    var sent: seq<Message>
    var switching: seq<string>
    var finishing: nat
    ghost var past: seq<Session>
    ghost var carry: string
    ghost var accepted: string

    ghost function Abstract(): State
      reads this
    {
      State(node, seqNo, buffer, bufferedChars, flushHandle, closed, timers, nextTimer, tasks, switching, finishing,
            past, carry, accepted, sent)
    }

    ghost predicate Valid()
      reads this
    {
      Inv(Abstract(), threshold)
    }

    constructor (threshold: int)
      ensures Valid() && Abstract() == INITIAL && this.threshold == threshold
    {
      this.threshold := threshold;
      node, seqNo, buffer, bufferedChars, flushHandle, closed := None, 0, [], 0, None, false;
      timers, nextTimer, tasks, sent, switching, finishing := {}, 0, 0, [], [], 0;
      past, carry, accepted := [], "", "";
    }

    method Cancel()
      modifies `flushHandle, `timers
      ensures Abstract() == CancelTimer(old(Abstract()))
    {
      if flushHandle.Some? {
        timers := timers - {flushHandle.value};
        flushHandle := None;
      }
    }

    method Publish(text: string, done: bool)
      requires node.Some?
      modifies `seqNo, `sent
      ensures Abstract() == Published(old(Abstract()), text, done)
    {
      seqNo := seqNo + 1;
      sent := sent + [Message(node.value, seqNo, text, done)];
    }

    method FlushNow() returns (published: bool)
      modifies `flushHandle, `timers, `buffer, `bufferedChars, `seqNo, `sent
      ensures Abstract() == Flush(old(Abstract())) && published == (old(buffer) != [] && node.Some?)
    {
      Cancel();
      if buffer == [] || node.None? { return false; }
      var text := Concat(buffer);
      buffer, bufferedChars := [], 0;
      Publish(text, false);
      published := true;
    }

    /** The tail of `set_node`. */
    method Enter(newNode: string)
      modifies `node, `seqNo, `sent, `past, `carry, `accepted
      ensures Abstract() == Switch(old(Abstract()), newNode)
    {
      hide Concat;
      past := past + [Session(carry, accepted, sent)];
      carry, accepted := Concat(buffer), "";
      node, seqNo, sent := Some(newNode), 0, [];
    }

    method SetNode(newNode: string)
      requires Valid()
      modifies this
      ensures Valid() && Abstract() == Step(old(Abstract()), Action.SetNode(newNode), threshold)
    {
      hide Inv;
      StepKeeps(Abstract(), Action.SetNode(newNode), threshold);
      if node.Some? && buffer != [] {
        var published := FlushNow();
        switching := switching + [newNode];
      } else {
        Enter(newNode);
      }
    }

    method ResumeSetNode(call: nat)
      requires Valid() && call < |switching|
      modifies this
      ensures Valid() && Abstract() == Step(old(Abstract()), Action.ResumeSetNode(call), threshold)
    {
      hide Inv;
      StepKeeps(Abstract(), Action.ResumeSetNode(call), threshold);
      Enter(switching[call]);
      switching := switching[..call] + switching[call + 1..];
    }

    method Push(delta: string)
      requires Valid()
      modifies this
      ensures Valid() && Abstract() == Step(old(Abstract()), Action.Push(delta), threshold)
    {
      hide Inv, Flush, Concat;
      StepKeeps(Abstract(), Action.Push(delta), threshold);
      if closed || delta == "" || node.None? { return; }
      buffer := buffer + [delta];
      bufferedChars := bufferedChars + |delta|;
      accepted := accepted + delta;
      if bufferedChars >= threshold {
        var published := FlushNow();
        return;
      }
      if flushHandle == None {
        timers := timers + {nextTimer};
        flushHandle := Some(nextTimer);
        nextTimer := nextTimer + 1;
      }
    }

    method MarkDone()
      requires Valid()
      modifies this
      ensures Valid() && Abstract() == Step(old(Abstract()), Action.MarkDone, threshold)
    {
      hide Inv;
      StepKeeps(Abstract(), Action.MarkDone, threshold);
      if closed || node.None? { return; }
      var published := FlushNow();
      if published {
        finishing := finishing + 1;
      } else {
        Publish("", true);
      }
    }

    method ResumeMarkDone()
      requires Valid() && finishing > 0
      modifies this
      ensures Valid() && Abstract() == Step(old(Abstract()), Action.ResumeMarkDone, threshold)
    {
      StepKeeps(Abstract(), Action.ResumeMarkDone, threshold);
      Publish("", true);
      finishing := finishing - 1;
    }

    /** `call_later` fires: its callback only queues a flush task. */
    method FireTimer(timer: nat)
      requires Valid() && timer in timers
      modifies this
      ensures Valid() && Abstract() == Step(old(Abstract()), Action.FireTimer(timer), threshold)
    {
      StepKeeps(Abstract(), Action.FireTimer(timer), threshold);
      timers := timers - {timer};
      tasks := tasks + 1;
    }

    method RunFlushTask()
      requires Valid() && tasks > 0
      modifies this
      ensures Valid() && Abstract() == Step(old(Abstract()), Action.RunFlushTask, threshold)
    {
      hide Inv;
      StepKeeps(Abstract(), Action.RunFlushTask, threshold);
      tasks := tasks - 1;
      var published := FlushNow();
    }

    method Close()
      requires Valid()
      modifies this
      ensures Valid() && Abstract() == Step(old(Abstract()), Action.Close, threshold)
    {
      hide Inv;
      StepKeeps(Abstract(), Action.Close, threshold);
      if closed { return; }
      closed := true;
      Cancel();
    }
  }
}
