/**
 A wait group used as a barrier: every party reports to it once, success or failure, while one goroutine
 waits. Delete-range on all shards is this, with one callback per shard; the shard managers of a
 notification subscription report their initialisation the same way. Reports, the waiter and the
 cancellation of its context interleave in any way; a step that would block is modelled as blocking.
 */
module Barrier {
  import opened Prelude
  import opened WaitGroup

  /** The report of one party: not made yet, stuck in `Fail`, or returned with what it said. */
  datatype Call = Pending | Blocked(cause: Error) | Returned(err: Option<Error>)

  /** One send on the channel, and the party that made it. */
  datatype Sent = Sent(party: nat, err: Option<Error>)

  /**
   `responses` is the channel, `events` what `Wait` has taken so far, `dropped` counts the `Done`s that
   found the channel full, and `sent` lists everything ever sent, in that order.
   */
  datatype State = State(
    calls: seq<Call>, responses: seq<Option<Error>>, dropped: nat,
    events: seq<Event>, cancelled: Option<Error>, sent: seq<Sent>
  ) {
    function Parties(): nat { |calls| }

    /** What the caller reads from the result channel. */
    function Outcome(): Option<Option<Error>> { WaitOn(Parties(), events) }
  }

  datatype Step =
    | CallOk(party: nat)
    | CallError(party: nat, err: Error)
    | Unblock(party: nat)
    | Receive
    | Cancel(cause: Error)
    | WaitCancelled

  ghost predicate Init(s: State, n: nat) {
    && |s.calls| == n && (forall i :: 0 <= i < n ==> s.calls[i] == Pending)
    && s.responses == [] && s.dropped == 0 && s.events == [] && s.cancelled == None && s.sent == []
  }

  predicate Full(s: State) {
    |s.responses| >= s.Parties()
  }

  predicate Enabled(s: State, step: Step) {
    match step
    case CallOk(i) => i < |s.calls| && s.calls[i].Pending?
    case CallError(i, err) => i < |s.calls| && s.calls[i].Pending?
    case Unblock(i) => i < |s.calls| && s.calls[i].Blocked? && !Full(s)
    case Receive => s.Outcome() == None && s.responses != []
    case Cancel(_) => s.cancelled.None?
    case WaitCancelled => s.Outcome() == None && s.cancelled.Some?
  }

  function Send(s: State, i: nat, err: Option<Error>): State
    requires i < |s.calls|
  {
    s.(calls := s.calls[i := Returned(err)], responses := s.responses + [err], sent := s.sent + [Sent(i, err)])
  }

  function Next(s: State, step: Step): State
    requires Enabled(s, step)
  {
    match step
    case CallOk(i) =>
      if Full(s) then s.(calls := s.calls[i := Returned(None)], dropped := s.dropped + 1) else Send(s, i, None)
    case CallError(i, err) =>
      if Full(s) then s.(calls := s.calls[i := Blocked(err)]) else Send(s, i, Some(err))
    case Unblock(i) => Send(s, i, Some(s.calls[i].cause))
    case Receive => s.(responses := s.responses[1..], events := s.events + [Response(s.responses[0])])
    case Cancel(cause) => s.(cancelled := Some(cause))
    case WaitCancelled => s.(events := s.events + [Cancelled(s.cancelled.value)])
  }

  /** A run: its states and the steps between them. */
  ghost predicate Run(n: nat, states: seq<State>, steps: seq<Step>) {
    && |states| == |steps| + 1 && Init(states[0], n)
    && forall k :: 0 <= k < |steps| ==> Enabled(states[k], steps[k]) && states[k + 1] == Next(states[k], steps[k])
  }

  // ---------- The invariant ----------

  function CountReturned(calls: seq<Call>): (c: nat)
    ensures c <= |calls|
  {
    if calls == [] then 0 else (if calls[0].Returned? then 1 else 0) + CountReturned(calls[1..])
  }

  lemma {:induction false} CountUpdate(calls: seq<Call>, i: nat, err: Option<Error>)
    requires i < |calls| && !calls[i].Returned?
    ensures CountReturned(calls[i := Returned(err)]) == CountReturned(calls) + 1
    ensures CountReturned(calls) < |calls|
  {
    var after := calls[i := Returned(err)];
    if i == 0 {
      assert after[1..] == calls[1..];
    } else {
      CountUpdate(calls[1..], i - 1, err);
      assert after[1..] == calls[1..][i - 1 := Returned(err)];
    }
  }

  lemma {:induction false} CountNone(calls: seq<Call>)
    requires forall i :: 0 <= i < |calls| ==> !calls[i].Returned?
    ensures CountReturned(calls) == 0
  {
    if calls != [] { CountNone(calls[1..]); }
  }

  lemma {:induction false} CountAll(calls: seq<Call>)
    ensures CountReturned(calls) == |calls| <==> forall i :: 0 <= i < |calls| ==> calls[i].Returned?
  {
    if calls != [] {
      CountAll(calls[1..]);
      assert calls == [calls[0]] + calls[1..];
    }
  }

  /** Every report that returned was sent, once, and nothing else was sent. */
  ghost predicate Callers(calls: seq<Call>, sent: seq<Sent>) {
    && |sent| == CountReturned(calls)
    && (forall i :: 0 <= i < |calls| ==> !calls[i].Blocked? && (calls[i].Returned? ==> Sent(i, calls[i].err) in sent))
    && (forall x :: x in sent ==> x.party < |calls| && calls[x.party] == Returned(x.err))
  }

  /** What was sent is what `Wait` has taken followed by what is in the channel. */
  ghost predicate Flow(sent: seq<Sent>, responses: seq<Option<Error>>, events: seq<Event>, cancelled: Option<Error>) {
    var taken := |sent| - |responses|;
    && 0 <= taken <= |events|
    && (forall k :: 0 <= k < |responses| ==> responses[k] == sent[taken + k].err)
    && (forall k :: 0 <= k < taken ==> events[k] == Response(sent[k].err))
    && (|events| > taken ==> |events| == taken + 1 && cancelled.Some? && events[taken] == Cancelled(cancelled.value))
  }

  ghost predicate Inv(s: State) {
    s.dropped == 0 && Callers(s.calls, s.sent) && Flow(s.sent, s.responses, s.events, s.cancelled)
  }

  lemma InitInv(s: State, n: nat)
    requires Init(s, n)
    ensures Inv(s)
  {
    CountNone(s.calls);
  }

  lemma SendKeepsCallers(calls: seq<Call>, sent: seq<Sent>, i: nat, err: Option<Error>)
    requires Callers(calls, sent) && i < |calls| && calls[i].Pending?
    ensures Callers(calls[i := Returned(err)], sent + [Sent(i, err)]) && |sent| < |calls|
  {
    hide CountReturned;
    CountUpdate(calls, i, err);
    assert (sent + [Sent(i, err)])[|sent|] == Sent(i, err);
    assert forall x :: x in sent ==> x in sent + [Sent(i, err)];
  }

  lemma SendKeepsFlow(sent: seq<Sent>, responses: seq<Option<Error>>, events: seq<Event>,
                      cancelled: Option<Error>, x: Sent)
    requires Flow(sent, responses, events, cancelled)
    ensures Flow(sent + [x], responses + [x.err], events, cancelled)
  {
  }

  /** A report always finds room: only reports that returned were sent. */
  lemma SendKeepsInv(s: State, i: nat, err: Option<Error>)
    requires Inv(s) && i < |s.calls| && s.calls[i].Pending?
    ensures !Full(s) && Inv(Send(s, i, err))
  {
    hide Callers;
    SendKeepsCallers(s.calls, s.sent, i, err);
    SendKeepsFlow(s.sent, s.responses, s.events, s.cancelled, Sent(i, err));
  }

  lemma ReceiveKeepsFlow(sent: seq<Sent>, responses: seq<Option<Error>>, events: seq<Event>, cancelled: Option<Error>)
    requires Flow(sent, responses, events, cancelled) && responses != [] && |events| == |sent| - |responses|
    ensures Flow(sent, responses[1..], events + [Response(responses[0])], cancelled)
  {
  }

  lemma NextKeepsInv(s: State, step: Step)
    requires Inv(s) && Enabled(s, step)
    ensures Inv(Next(s, step)) && |Next(s, step).calls| == |s.calls|
  {
    hide CountReturned, Flow, WaitOn;
    match step
    case CallOk(i) => SendKeepsInv(s, i, None);
    case CallError(i, err) => SendKeepsInv(s, i, Some(err));
    case Unblock(i) =>
    case Receive => StillWaiting(s); ReceiveKeepsFlow(s.sent, s.responses, s.events, s.cancelled);
    case Cancel(cause) => CancelKeepsFlow(s, cause);
    case WaitCancelled => WaitCancelledKeepsFlow(s);
  }

  lemma CancelKeepsFlow(s: State, cause: Error)
    requires Inv(s) && s.cancelled.None?
    ensures Flow(s.sent, s.responses, s.events, Some(cause))
  {
  }

  lemma WaitCancelledKeepsFlow(s: State)
    requires Inv(s) && s.cancelled.Some? && s.Outcome() == None
    ensures Flow(s.sent, s.responses, s.events + [Cancelled(s.cancelled.value)], s.cancelled)
  {
    hide Callers;
    StillWaiting(s);
  }

  /** While `Wait` has not returned it has seen no cancellation. */
  lemma StillWaiting(s: State)
    requires Inv(s) && s.Outcome() == None
    ensures |s.events| == |s.sent| - |s.responses|
  {
    hide Callers;
    WaitMeans(s.Parties(), s.events);
    assert forall k :: 0 <= k < |s.events| ==> Failure(s.events[k]).None?;
  }

  lemma {:induction false} RunKeepsInv(n: nat, states: seq<State>, steps: seq<Step>, k: nat)
    requires Run(n, states, steps) && k < |states|
    ensures Inv(states[k]) && |states[k].calls| == n
  {
    if k == 0 {
      InitInv(states[0], n);
    } else {
      RunKeepsInv(n, states, steps, k - 1);
      NextKeepsInv(states[k - 1], steps[k - 1]);
    }
  }

  // ---------- What the callers rely on ----------

  /** No report is ever stuck and no `Done` is ever dropped. */
  lemma NoReportBlocks(n: nat, states: seq<State>, steps: seq<Step>, k: nat)
    requires Run(n, states, steps) && k < |states|
    ensures states[k].dropped == 0
    ensures forall i :: 0 <= i < |states[k].calls| ==> !states[k].calls[i].Blocked?
    ensures (exists i :: 0 <= i < |states[k].calls| && states[k].calls[i].Pending?) ==> !Full(states[k])
  {
    RunKeepsInv(n, states, steps, k);
    if i :| 0 <= i < |states[k].calls| && states[k].calls[i].Pending? {
      SendKeepsInv(states[k], i, None);
    }
  }

  ghost predicate AllOk(s: State) {
    forall i :: 0 <= i < |s.calls| ==> s.calls[i] == Returned(None)
  }

  /** Nil is reported only if every party reported success; an error is one some party reported, or the cancellation. */
  lemma OutcomeIsTrue(n: nat, states: seq<State>, steps: seq<Step>, k: nat)
    requires Run(n, states, steps) && k < |states|
    ensures |states[k].calls| == n
    ensures states[k].Outcome() == Some(None) ==> AllOk(states[k])
    ensures forall e :: states[k].Outcome() == Some(Some(e)) ==>
              || Returned(Some(e)) in states[k].calls
              || states[k].cancelled == Some(e)
  {
    hide Inv, Run, AllOk;
    var s := states[k];
    RunKeepsInv(n, states, steps, k);
    if s.Outcome() == Some(None) {
      NilMeansAll(s);
    }
    forall e | s.Outcome() == Some(Some(e))
      ensures Returned(Some(e)) in s.calls || s.cancelled == Some(e)
    {
      ErrorIsReal(s, e);
    }
  }

  lemma ErrorIsReal(s: State, e: Error)
    requires Inv(s) && s.Outcome() == Some(Some(e))
    ensures Returned(Some(e)) in s.calls || s.cancelled == Some(e)
  {
    hide Inv, WaitOn, Quiet, Failure;
    WaitMeans(s.Parties(), s.events);
    var i :| 0 <= i < |s.events| && i < s.Parties() && Failure(s.events[i]) == Some(e) && Quiet(s.events[..i]);
    FailureIsReal(s, i, e);
  }

  lemma FailureIsReal(s: State, i: nat, e: Error)
    requires Inv(s) && i < |s.events| && Failure(s.events[i]) == Some(e)
    ensures Returned(Some(e)) in s.calls || s.cancelled == Some(e)
  {
  }

  lemma NilMeansAll(s: State)
    requires Inv(s) && s.Outcome() == Some(None)
    ensures AllOk(s)
  {
    hide CountReturned, WaitOn;
    var n := |s.calls|;
    WaitMeans(n, s.events);
    assert forall k :: 0 <= k < n ==> s.events[..n][k] == s.events[k];
    CountAll(s.calls);
    forall i | 0 <= i < n ensures s.calls[i] == Returned(None) {
      var k :| 0 <= k < |s.sent| && s.sent[k] == Sent(i, s.calls[i].err);
      assert s.events[k] == Response(s.calls[i].err);
    }
  }

  // ---------- Every run ends with an outcome ----------

  function CountPending(calls: seq<Call>): (c: nat)
    ensures c <= |calls|
  {
    |calls| - CountReturned(calls)
  }

  function Rank(s: State): nat {
    3 * CountPending(s.calls) + |s.responses|
    + (if s.cancelled.Some? then 0 else 1) + (if s.Outcome() == None then 1 else 0)
  }

  /** Every step of a reachable state uses up some of the work that is left, so no run goes on for ever. */
  lemma StepsRunOut(s: State, step: Step)
    requires Inv(s) && Enabled(s, step)
    ensures Rank(Next(s, step)) < Rank(s)
  {
    match step
    case CallOk(i) => SendKeepsInv(s, i, None); CountUpdate(s.calls, i, None);
    case CallError(i, err) => SendKeepsInv(s, i, Some(err)); CountUpdate(s.calls, i, Some(err));
    case Unblock(i) =>
    case Receive =>
    case Cancel(_) =>
    case WaitCancelled => CancelEnds(s);
  }

  lemma CancelEnds(s: State)
    requires s.Outcome() == None && s.cancelled.Some?
    ensures WaitOn(s.Parties(), s.events + [Cancelled(s.cancelled.value)]).Some?
  {
    WaitMeans(s.Parties(), s.events);
    var events := s.events + [Cancelled(s.cancelled.value)];
    WaitMeans(s.Parties(), events);
    assert Failure(events[|s.events|]).Some?;
  }

  /**
   Once every party has reported and there is nothing to receive, the caller has its outcome;
   without a cancellation it is nil if and only if every party reported success.
   */
  lemma EndsWithOutcome(n: nat, states: seq<State>, steps: seq<Step>, k: nat)
    requires Run(n, states, steps) && k < |states|
    requires Pending !in states[k].calls && !Enabled(states[k], Receive)
    ensures states[k].Outcome().Some?
    ensures states[k].cancelled.None? ==> (states[k].Outcome() == Some(None) <==> AllOk(states[k]))
  {
    hide AllOk, Inv;
    var s := states[k];
    RunKeepsInv(n, states, steps, k);
    NothingLeft(s);
    if s.Outcome() == Some(None) { NilMeansAll(s); }
    if s.cancelled.None? && AllOk(s) { AllMeansNil(s); }
  }

  lemma NothingLeft(s: State)
    requires Inv(s) && Pending !in s.calls && !Enabled(s, Receive)
    ensures s.Outcome().Some?
  {
    hide CountReturned, WaitOn;
    CountAll(s.calls);
    WaitMeans(s.Parties(), s.events);
    if s.Outcome() == None {
      StillWaiting(s);
      assert false;
    }
  }

  lemma AllMeansNil(s: State)
    requires Inv(s) && AllOk(s) && s.cancelled.None? && s.Outcome().Some?
    ensures s.Outcome() == Some(None)
  {
    hide CountReturned, WaitOn;
    WaitMeans(s.Parties(), s.events);
    assert Quiet(s.events) by {
      forall k | 0 <= k < |s.events| ensures Failure(s.events[k]).None? {
        assert s.sent[k] in s.sent;
      }
    }
  }
}
