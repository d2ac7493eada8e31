/**
 The error-carrying wait group: a channel of capacity `parties` that `Done` and `Fail` fill and that
 the loop of `Wait` drains.
 */
module WaitGroup {
  import opened Prelude

  type Error = string

  /** What one `select` of `Wait` yields: a response, nil or an error, or the cancellation of its context. */
  datatype Event = Response(err: Option<Error>) | Cancelled(cause: Error)

  /** The error an event makes `Wait` return, if any. */
  function Failure(e: Event): Option<Error> {
    match e
    case Response(err) => err
    case Cancelled(cause) => Some(cause)
  }

  /** What `Wait` has returned after these events: nothing yet, nil or an error. */
  function WaitOn(parties: nat, events: seq<Event>): Option<Option<Error>> {
    if parties == 0 then Some(None)
    else if events == [] then None
    else if Failure(events[0]).Some? then Some(Failure(events[0]))
    else WaitOn(parties - 1, events[1..])
  }

  /** Every event so far was a `Done`. */
  ghost predicate Quiet(events: seq<Event>) {
    forall i :: 0 <= i < |events| ==> Failure(events[i]).None?
  }

  /** `Wait` is still waiting, has returned nil, or has returned the first failure among its first `parties` events. */
  lemma {:induction false} WaitMeans(parties: nat, events: seq<Event>)
    ensures WaitOn(parties, events) == None <==> |events| < parties && Quiet(events)
    ensures WaitOn(parties, events) == Some(None) <==> |events| >= parties && Quiet(events[..parties])
    ensures forall e :: WaitOn(parties, events) == Some(Some(e)) <==>
              exists i :: 0 <= i < |events| && i < parties && Failure(events[i]) == Some(e) && Quiet(events[..i])
  {
    hide Failure;
    if parties == 0 {
    } else if events == [] {
    } else if Failure(events[0]).Some? {
      assert Quiet(events[..0]);
      forall i | 0 < i <= |events| ensures !Quiet(events[..i]) {
        assert events[..i][0] == events[0];
      }
    } else {
      WaitMeans(parties - 1, events[1..]);
      QuietTail(events);
      if |events| >= parties { QuietPrefix(events, parties); }
      forall e
        ensures WaitOn(parties, events) == Some(Some(e)) <==>
                exists i :: 0 <= i < |events| && i < parties && Failure(events[i]) == Some(e) && Quiet(events[..i])
      {
        FailureTail(parties, events, e);
      }
    }
  }

  lemma QuietTail(events: seq<Event>)
    requires events != [] && Failure(events[0]).None?
    ensures Quiet(events) <==> Quiet(events[1..])
  {
    assert forall i :: 0 < i < |events| ==> events[i] == events[1..][i - 1];
  }

  lemma QuietPrefix(events: seq<Event>, n: nat)
    requires 0 < n <= |events| && Failure(events[0]).None?
    ensures Quiet(events[..n]) <==> Quiet(events[1..][..n - 1])
  {
    assert events[..n][1..] == events[1..][..n - 1];
    QuietTail(events[..n]);
  }

  lemma FailureTail(parties: nat, events: seq<Event>, e: Error)
    requires parties > 0 && events != [] && Failure(events[0]).None?
    ensures (exists i :: 0 <= i < |events| && i < parties && Failure(events[i]) == Some(e) && Quiet(events[..i])) <==>
            exists i :: 0 <= i < |events[1..]| && i < parties - 1 && Failure(events[1..][i]) == Some(e) &&
                        Quiet(events[1..][..i])
  {
    hide Failure, Quiet;
    if i :| 0 <= i < |events| && i < parties && Failure(events[i]) == Some(e) && Quiet(events[..i]) {
      QuietPrefix(events, i);
      assert events[1..][i - 1] == events[i];
    }
    if i :| 0 <= i < |events[1..]| && i < parties - 1 && Failure(events[1..][i]) == Some(e) && Quiet(events[1..][..i]) {
      QuietPrefix(events, i + 1);
      assert events[i + 1] == events[1..][i];
    }
  }

  class WaitGroup {
    const parties: nat
    var responses: seq<Option<Error>>

    ghost predicate Valid()
      reads this
    {
      |responses| <= parties
    }

    constructor (parties: nat)
      ensures Valid() && this.parties == parties && responses == []
    {
      this.parties, responses := parties, [];
    }

    /** Never blocks, and drops the signal when the channel is full. */
    method Done() returns (sent: bool)
      requires Valid()
      modifies this
      ensures Valid() && sent == (old(|responses|) < parties)
      ensures responses == if sent then old(responses) + [None] else old(responses)
    {
      sent := |responses| < parties;
      if sent { responses := responses + [None]; }
    }

    /** Blocks while the channel is full: the call completes only from a state that has room. */
    method Fail(err: Error)
      requires Valid() && |responses| < parties
      modifies this
      ensures Valid() && responses == old(responses) + [Some(err)]
    {
      responses := responses + [Some(err)];
    }

    /** Others call `Done` (nil) and `Fail` (an error), as far as the channel has room. */
    method Arrive(signals: seq<Option<Error>>) returns (ghost sent: seq<Option<Error>>)
      requires Valid()
      modifies this
      ensures Valid() && responses == old(responses) + sent && |sent| <= |signals|
    {
      sent := [];
      for n := 0 to |signals|
        invariant Valid() && responses == old(responses) + sent && |sent| <= n
      {
        if |responses| < parties {
          sent := sent + [signals[n]];
          if signals[n].None? {
            var _ := Done();
          } else {
            Fail(signals[n].value);
          }
        }
      }
    }

    /**
     The loop of `Wait`. Before each `select` others may signal, and the context may be cancelled; the loop has
     not returned if a `select` finds nothing. `events` is what it took: the channel is drained from the front,
     and what was in it or sent is what `Wait` took followed by what is left.
     */
    method Wait(turns: seq<Turn>)
      returns (outcome: Option<Option<Error>>, ghost events: seq<Event>, ghost sent: seq<Option<Error>>)
      requires Valid()
      modifies this
      ensures Valid() && outcome == WaitOn(parties, events) && |events| <= parties
      ensures old(responses) + sent == Taken(events) + responses
      ensures outcome == None ==> |events| >= |turns| || responses == []
    {
      hide WaitOn, Taken, Quiet;
      events, sent := [], [];
      NothingTaken();
      for i := 0 to parties
        invariant Valid() && |events| == i && Quiet(events)
        invariant old(responses) + sent == Taken(events) + responses
      {
        WaitMeans(parties, events);
        if i >= |turns| { return None, events, sent; }
        ghost var before, had := responses, sent;
        ghost var arrived := Arrive(turns[i].signals);
        sent := sent + arrived;
        Arrived(old(responses), had, arrived, Taken(events), before);
        if turns[i].cancelled.Some? {
          TakeCancelled(parties, events, turns[i].cancelled.value);
          events := events + [Cancelled(turns[i].cancelled.value)];
          return Some(turns[i].cancelled), events, sent;
        }
        if |responses| == 0 { return None, events, sent; }
        var err := responses[0];
        TakeResponse(parties, events, err);
        assert Taken(events) + responses == Taken(events) + [err] + responses[1..];
        responses := responses[1..];
        events := events + [Response(err)];
        if err.Some? { return Some(err), events, sent; }
      }
      WaitMeans(parties, events);
      assert events[..parties] == events;
      outcome := Some(None);
    }
  }

  lemma NothingTaken()
    ensures Taken([]) == [] && Quiet([])
  {
  }

  lemma Arrived(start: seq<Option<Error>>, sent: seq<Option<Error>>, arrived: seq<Option<Error>>,
                taken: seq<Option<Error>>, left: seq<Option<Error>>)
    requires start + sent == taken + left
    ensures start + (sent + arrived) == taken + (left + arrived)
  {
    assert start + (sent + arrived) == (start + sent) + arrived;
  }

  /** What others do before one `select`, and whether that `select` takes the cancellation of the context. */
  datatype Turn = Turn(signals: seq<Option<Error>>, cancelled: Option<Error>)

  /** The responses among the events, in order. */
  function Taken(events: seq<Event>): seq<Option<Error>> {
    if events == [] then []
    else
      var last := events[|events| - 1];
      Taken(events[..|events| - 1]) + if last.Response? then [last.err] else []
  }

  lemma TakeResponse(parties: nat, events: seq<Event>, err: Option<Error>)
    requires |events| < parties && Quiet(events)
    ensures Taken(events + [Response(err)]) == Taken(events) + [err]
    ensures err.None? ==> Quiet(events + [Response(err)])
    ensures err.Some? ==> WaitOn(parties, events + [Response(err)]) == Some(err)
  {
    var after := events + [Response(err)];
    assert after[..|events|] == events;
    WaitMeans(parties, after);
    if err.Some? {
      assert Failure(after[|events|]) == err;
    }
  }

  lemma TakeCancelled(parties: nat, events: seq<Event>, cause: Error)
    requires |events| < parties && Quiet(events)
    ensures Taken(events + [Cancelled(cause)]) == Taken(events)
    ensures WaitOn(parties, events + [Cancelled(cause)]) == Some(Some(cause))
  {
    var after := events + [Cancelled(cause)];
    assert after[..|events|] == events;
    WaitMeans(parties, after);
    assert Failure(after[|events|]) == Some(cause);
  }
}
