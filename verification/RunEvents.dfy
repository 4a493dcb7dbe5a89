/**
 The event stream of a run: what a failing stream is turned into, and what may leave the gateway.
 A stream is the list of events it yields and the way it ends.
 */
module RunEvents {
  import opened Common

  datatype Event =
    | RunStarted
    | RunFinished
    | RunError(message: string, raw: Option<string>, sanitised: bool)
    | Other(kind: string)

  /** How a stream ends: by itself, by an exception, or by being cancelled (which nothing may catch). */
  datatype End = Normally | Raised(exc: string) | Cancelled

  datatype Stream = Stream(events: seq<Event>, end: End)

  const FOREIGN_RUN_ERROR_MESSAGE := "agent run failed: upstream error"

  predicate Terminal(e: Event) {
    e.RunError? || e.RunFinished?
  }

  predicate HasTerminal(events: seq<Event>) {
    exists i | 0 <= i < |events| :: Terminal(events[i])
  }

  /** The event this module builds from an exception: its class, never its text. */
  function SanitisedRunError(exc: string): Event {
    RunError("agent run failed: " + exc, None, true)
  }

  /** What the outbound guard makes of an event. */
  function Guarded(e: Event): Event {
    if e.RunError? && !e.sanitised then e.(message := FOREIGN_RUN_ERROR_MESSAGE, raw := None) else e
  }

  predicate Safe(e: Event) {
    e.RunError? ==> e.sanitised || (e.message == FOREIGN_RUN_ERROR_MESSAGE && e.raw.None?)
  }

  /** Convert a stream failure inside the runtime's own handler. */
  method HandleStreamEvents(upstream: Stream) returns (out: Stream)
    ensures upstream.end.Normally? || upstream.end.Cancelled? || HasTerminal(upstream.events) ==> out == upstream
    ensures upstream.end.Raised? && !HasTerminal(upstream.events) ==>
              && out.end.Normally?
              && out.events == upstream.events
                               + (if RunStarted in upstream.events then [] else [RunStarted])
                               + [SanitisedRunError(upstream.end.exc)]
  {
    var started, terminal := false, false;
    var yielded := [];
    for i := 0 to |upstream.events|
      invariant yielded == upstream.events[..i]
      invariant started <==> RunStarted in upstream.events[..i]
      invariant terminal <==> HasTerminal(upstream.events[..i])
    {
      var event := upstream.events[i];
      started := started || event.RunStarted?;
      terminal := terminal || Terminal(event);
      yielded := yielded + [event];
      assert upstream.events[..i + 1] == upstream.events[..i] + [event];
      TerminalAppend(upstream.events[..i], event);
    }
    assert upstream.events[..|upstream.events|] == upstream.events;
    match upstream.end {
      case Normally => return Stream(yielded, Normally);
      case Cancelled => return Stream(yielded, Cancelled);
      case Raised(exc) =>
        if terminal {
          return Stream(yielded, Raised(exc));
        }
        if !started {
          yielded := yielded + [RunStarted];
        }
        return Stream(yielded + [SanitisedRunError(exc)], Normally);
    }
  }

  lemma TerminalAppend(events: seq<Event>, e: Event)
    ensures HasTerminal(events + [e]) <==> HasTerminal(events) || Terminal(e)
  {
    if HasTerminal(events) {
      var i :| 0 <= i < |events| && Terminal(events[i]);
      assert Terminal((events + [e])[i]);
    }
    if Terminal(e) {
      assert Terminal((events + [e])[|events|]);
    }
  }

  function GuardedAll(events: seq<Event>): (r: seq<Event>)
    ensures |r| == |events|
    ensures forall i | 0 <= i < |r| :: r[i] == Guarded(events[i])
  {
    seq(|events|, i requires 0 <= i < |events| => Guarded(events[i]))
  }

  /** The run as the gateway emits it: every event through the guard, an escaping exception turned
      into a last event unless a terminal one has already been emitted. */
  method Run(upstream: Stream) returns (out: Stream)
    ensures out.events == GuardedAll(upstream.events)
                          + if upstream.end.Raised? && !HasTerminal(upstream.events)
                            then [SanitisedRunError(upstream.end.exc)] else []
    ensures out.end == if upstream.end.Raised? && !HasTerminal(upstream.events) then Normally else upstream.end
  {
    var terminal := false;
    var yielded := [];
    for i := 0 to |upstream.events|
      invariant yielded == GuardedAll(upstream.events[..i])
      invariant terminal <==> HasTerminal(upstream.events[..i])
    {
      var event := upstream.events[i];
      if event.RunError? && !event.sanitised {
        event := event.(message := FOREIGN_RUN_ERROR_MESSAGE, raw := None);
      }
      terminal := terminal || Terminal(event);
      yielded := yielded + [event];
      assert upstream.events[..i + 1] == upstream.events[..i] + [upstream.events[i]];
      TerminalAppend(upstream.events[..i], upstream.events[i]);
    }
    assert upstream.events[..|upstream.events|] == upstream.events;
    match upstream.end {
      case Normally => return Stream(yielded, Normally);
      case Cancelled => return Stream(yielded, Cancelled);
      case Raised(exc) =>
        if terminal {
          return Stream(yielded, Raised(exc));
        }
        return Stream(yielded + [SanitisedRunError(exc)], Normally);
    }
  }

  /** What a client sees of a run.  `extra` is whatever the runtime in between makes of an exception
      the handler lets through. */
  method Gateway(upstream: Stream, extra: Stream) returns (out: Stream)
    // nothing leaks, whatever the model, the handler's input or the runtime produced
    ensures forall e | e in out.events ::
              e.RunError? && !e.sanitised ==> e.message == "agent run failed: upstream error" && e.raw.None?
    // a failure before any terminal event ends in exactly one terminal event, after a start
    ensures upstream.end.Raised? && !HasTerminal(upstream.events) ==>
              && out.end.Normally?
              && |out.events| >= 2
              && out.events[|out.events| - 1] == RunError("agent run failed: " + upstream.end.exc, None, true)
              && !HasTerminal(out.events[..|out.events| - 1])
              && RunStarted in out.events[..|out.events| - 1]
              && GuardedAll(upstream.events) <= out.events
    // a failure after a terminal event adds nothing of this module's own
    ensures HasTerminal(upstream.events) && upstream.end.Raised? ==>
              out.events == GuardedAll(upstream.events + extra.events)
    // a stream that ends by itself or is cancelled passes through
    ensures !upstream.end.Raised? ==> out == Stream(GuardedAll(upstream.events), upstream.end)
  {
    var handled := HandleStreamEvents(upstream);
    var inner := if handled.end.Raised? then Stream(handled.events + extra.events, extra.end) else handled;
    out := Run(inner);
    hide HasTerminal, GuardedAll;
    AllSafe(inner.events);
    if upstream.end.Raised? {
      FailedStream(upstream.events, upstream.end.exc);
      TerminalPrefix(upstream.events, extra.events);
    }
    assert GuardedAll(inner.events) + [] == GuardedAll(inner.events);
  }

  lemma AllSafe(events: seq<Event>)
    ensures forall e | e in GuardedAll(events) :: Safe(e)
    ensures forall exc :: Safe(SanitisedRunError(exc))
  {
  }

  lemma TerminalPrefix(events: seq<Event>, more: seq<Event>)
    ensures HasTerminal(events) ==> HasTerminal(events + more)
  {
    if HasTerminal(events) {
      var i :| 0 <= i < |events| && Terminal(events[i]);
      assert Terminal((events + more)[i]);
    }
  }

  /** The stream the handler makes of a failure before any terminal event, as it leaves the guard. */
  lemma FailedStream(events: seq<Event>, exc: string)
    ensures var before := events + if RunStarted in events then [] else [RunStarted];
            var out := GuardedAll(before + [SanitisedRunError(exc)]);
            var n := |before|;
            && |out| == n + 1 >= 2
            && out[n] == SanitisedRunError(exc)
            && HasTerminal(before + [SanitisedRunError(exc)])
            && (!HasTerminal(events) ==> !HasTerminal(out[..n]))
            && RunStarted in out[..n]
            && GuardedAll(events) <= out
  {
    var before := events + if RunStarted in events then [] else [RunStarted];
    var full := before + [SanitisedRunError(exc)];
    var out, n := GuardedAll(full), |before|;
    assert Terminal(full[n]);
    assert RunStarted in before by {
      if RunStarted !in events { assert before[|events|] == RunStarted; }
    }
    var k :| 0 <= k < |before| && before[k] == RunStarted;
    assert out[..n][k] == RunStarted;
    if !HasTerminal(events) {
      forall j | 0 <= j < n
        ensures !Terminal(out[..n][j])
      {
        assert out[j] == Guarded(before[j]);
        assert j < |events| ==> before[j] == events[j];
      }
    }
    assert GuardedAll(events) == out[..|events|];
  }
}
