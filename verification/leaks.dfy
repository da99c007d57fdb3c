/** When a call to disconnect can end with the tunnel running behind a stage that says
    disconnected: exactly which states allow it, whatever is in flight. */
module TunnelLeaks {
  import opened Bytes
  import opened Tunnel

  // What may happen until everything has settled: no further call of the user's, and a change of
  // the network only if `network`.
  predicate Settling(e: Event, network: bool) {
    !e.Connect? && !e.Disconnect? && (e.NetworkChange? ==> network)
  }

  predicate AllSettling(events: seq<Event>, network: bool) {
    forall i :: 0 <= i < |events| ==> Settling(events[i], network)
  }

  ghost predicate Reach(s: State, t: State, network: bool) {
    exists events :: AllSettling(events, network) && Possible(s, events) && Run(s, events) == t
  }

  predicate Leaked(s: State) { Quiet(s) && s.stage == Disconnected && s.running.Some? }

  ghost predicate CanLeak(s: State, network: bool) {
    exists t :: Reach(Do(s, Disconnect), t, network) && Leaked(t)
  }

  /** A restart is in flight; or a timer, pending or still to be set, can begin one because the
      stage is connected or a connect in flight may make it so. */
  ghost predicate Leaky(s: State, network: bool) {
    || (exists r :: r in s.restarts)
    || (Usable(s) && (network || s.debounce) &&
        (s.stage == Connected || exists link :: Starting(link) in s.calls))
  }

  // ---- runs ----

  lemma Stay(s: State, network: bool)
    ensures Reach(s, s, network)
  {
    var none: seq<Event> := [];
    assert AllSettling(none, network) && Possible(s, none) && Run(s, none) == s;
  }

  lemma RunFirst(s: State, e: Event, rest: seq<Event>)
    ensures Possible(s, [e] + rest) <==> Enabled(s, e) && Possible(Do(s, e), rest)
    ensures Run(s, [e] + rest) == Run(Do(s, e), rest)
  {
    assert ([e] + rest)[1..] == rest;
  }

  lemma First(s: State, e: Event, t: State, network: bool)
    requires Enabled(s, e) && Settling(e, network) && Reach(Do(s, e), t, network)
    ensures Reach(s, t, network)
  {
    var rest :| AllSettling(rest, network) && Possible(Do(s, e), rest) && Run(Do(s, e), rest) == t;
    RunFirst(s, e, rest);
    assert AllSettling([e] + rest, network);
  }

  lemma {:induction false} Before(s: State, events: seq<Event>, t: State, network: bool)
    requires AllSettling(events, network) && Possible(s, events) && Reach(Run(s, events), t, network)
    ensures Reach(s, t, network)
    decreases |events|
  {
    if events != [] {
      Before(Do(s, events[0]), events[1..], t, network);
      First(s, events[0], t, network);
    }
  }

  lemma Then(s: State, t: State, u: State, network: bool)
    requires Reach(s, t, network) && Reach(t, u, network)
    ensures Reach(s, u, network)
  {
    var events :| AllSettling(events, network) && Possible(s, events) && Run(s, events) == t;
    Before(s, events, u, network);
  }

  lemma One(s: State, e: Event, network: bool)
    requires Enabled(s, e) && Settling(e, network)
    ensures Reach(s, Do(s, e), network)
  {
    Stay(Do(s, e), network);
    First(s, e, Do(s, e), network);
  }

  lemma Two(s: State, e: Event, f: Event, network: bool)
    requires Enabled(s, e) && Settling(e, network) && Enabled(Do(s, e), f) && Settling(f, network)
    ensures Reach(s, Do(Do(s, e), f), network)
  {
    One(s, e, network);
    One(Do(s, e), f, network);
    Then(s, Do(s, e), Do(Do(s, e), f), network);
  }

  // ---- from a leaky state ----

  /** Every connect in flight fails. */
  lemma {:induction false} EndStarts(s: State, network: bool) returns (t: State)
    requires Stopping in s.calls
    ensures Reach(s, t, network) && t == s.(stage := t.stage, calls := t.calls)
    ensures Stopping in t.calls && forall c :: c in t.calls ==> c == Stopping
    decreases |s.calls|
  {
    if c :| c in s.calls && c != Stopping {
      var s1 := Do(s, CallEnds(c, false));
      One(s, CallEnds(c, false), network);
      t := EndStarts(s1, network);
      Then(s, s1, t, network);
    } else {
      t := s;
      Stay(s, network);
    }
  }

  /** Then every disconnect ends. */
  lemma {:induction false} EndStops(s: State, network: bool) returns (t: State)
    requires Stopping in s.calls && forall c :: c in s.calls ==> c == Stopping
    ensures Reach(s, t, network)
    ensures t == s.(stage := Disconnected, running := None, calls := multiset{})
    decreases |s.calls|
  {
    var s1 := Do(s, CallEnds(Stopping, true));
    One(s, CallEnds(Stopping, true), network);
    if s1.calls == multiset{} {
      t := s1;
    } else {
      var c :| c in s1.calls;
      t := EndStops(s1, network);
      Then(s, s1, t, network);
    }
  }

  /** Last of all, the restart relaunches. */
  lemma Relaunches(s: State, r: Restart, network: bool) returns (t: State)
    requires s.restarting && s.restarts == multiset{r}
    ensures Reach(s, t, network)
    ensures t == s.(running := Some(r.link), restarting := false, restarts := multiset{})
  {
    Single(r);
    Single(Relaunching(r.link));
    t := s.(running := Some(r.link), restarting := false, restarts := multiset{});
    if r.Halting? {
      Two(s, RestartEnds(r, true), RestartEnds(Relaunching(r.link), true), network);
    } else {
      One(s, RestartEnds(r, true), network);
    }
  }

  lemma Alone<T(!new)>(m: multiset<T>, x: T)
    requires |m| == 1 && x in m
    ensures m == multiset{x} && m - multiset{x} == multiset{}
    ensures forall y :: y in m ==> y == x
  {
    assert m == (m - multiset{x}) + multiset{x};
  }

  /** A restart outlives every stop. */
  lemma RestartLeaks(s: State, r: Restart, network: bool) returns (t: State)
    requires OneRestart(s) && r in s.restarts && Stopping in s.calls
    ensures Reach(s, t, network) && Leaked(t)
  {
    assert s.restarts != multiset{};
    Alone(s.restarts, r);
    var t1 := EndStarts(s, network);
    var t2 := EndStops(t1, network);
    t := Relaunches(t2, r, network);
    Then(s, t1, t2, network);
    Then(s, t2, t, network);
  }

  /** A connect in flight succeeds, if that is what makes the stage connected. */
  lemma Connects(s: State, network: bool) returns (t: State)
    requires s.stage == Connected || exists link :: Starting(link) in s.calls
    requires Stopping in s.calls
    ensures Reach(s, t, network) && Stopping in t.calls
    ensures t == s.(stage := Connected, running := t.running, calls := t.calls)
  {
    if s.stage == Connected {
      t := s;
      Stay(s, network);
    } else {
      var link :| Starting(link) in s.calls;
      t := Do(s, CallEnds(Starting(link), true));
      One(s, CallEnds(Starting(link), true), network);
    }
  }

  /** A timer, already pending or set by a change of the network, starts a restart. */
  lemma Restarted(s: State, network: bool) returns (t: State)
    requires Restarts(s) && s.restarts == multiset{} && (network || s.debounce)
    ensures Reach(s, t, network)
    ensures t == s.(restarting := true, debounce := false, restarts := multiset{Halting(s.server.value)})
  {
    t := Do(s.(debounce := true), TimerFires);
    Single(Halting(s.server.value));
    if s.debounce {
      One(s, TimerFires, network);
    } else {
      Two(s, NetworkChange, TimerFires, network);
    }
  }

  lemma LeakyLeaks(s: State, network: bool)
    requires OneRestart(s) && Leaky(s, network)
    ensures CanLeak(s, network)
  {
    var d := Do(s, Disconnect);
    if r :| r in s.restarts {
      var t := RestartLeaks(d, r, network);
    } else {
      assert s.restarts == multiset{} && !s.restarting;
      if s.stage != Connected {
        var link :| Starting(link) in s.calls;
        assert Starting(link) in d.calls;
      }
      var t1 := Connects(d, network);
      var t2 := Restarted(t1, network);
      var t := RestartLeaks(t2, Halting(t2.server.value), network);
      Then(d, t1, t2, network);
      Then(d, t2, t, network);
    }
  }

  // ---- from any other state ----

  /** Nothing in flight or pending will start a restart, and a disconnected stage, unless a stop
      is still to come, has no tunnel behind it. */
  ghost predicate Ending(s: State, network: bool) {
    OneRestart(s) && !Leaky(s, network) &&
    (Stopping in s.calls || s.stage != Disconnected || s.running.None?)
  }

  lemma CallKeepsEnding(s: State, c: Call, ok: bool, network: bool)
    requires Ending(s, network) && c in s.calls
    ensures Ending(DoCallEnds(s, c, ok), network)
  {
    var t := DoCallEnds(s, c, ok);
    forall link | Starting(link) in t.calls ensures Starting(link) in s.calls {}
    assert t.restarts == s.restarts && (c.Starting? ==> t.calls[Stopping] == s.calls[Stopping]);
  }

  lemma StepKeepsEnding(s: State, e: Event, network: bool)
    requires Ending(s, network) && Enabled(s, e) && Settling(e, network)
    ensures Ending(Do(s, e), network)
  {
    match e
    case CallEnds(c, ok) => CallKeepsEnding(s, c, ok, network);
    case RestartEnds(r, _) =>
    case NetworkChange =>
    case TimerFires => assert !Restarts(s);
  }

  lemma {:induction false} RunKeepsEnding(s: State, events: seq<Event>, network: bool)
    requires Ending(s, network) && Possible(s, events) && AllSettling(events, network)
    ensures Ending(Run(s, events), network)
    decreases |events|
  {
    if events != [] {
      StepKeepsEnding(s, events[0], network);
      RunKeepsEnding(Do(s, events[0]), events[1..], network);
    }
  }

  lemma DisconnectEnds(s: State, network: bool)
    requires OneRestart(s) && !Leaky(s, network)
    ensures Ending(Do(s, Disconnect), network)
  {
    var d := Do(s, Disconnect);
    forall link | Starting(link) in d.calls ensures Starting(link) in s.calls {}
  }

  /** In every reachable state, whatever is in flight, a disconnection can end with the tunnel
      running if and only if a restart is in flight, or the server's link is usable, a timer is
      pending or the network may yet set one, and the stage is connected or a connect in flight can
      make it so: disconnect neither cancels the timer nor waits for the restart, and leaves the
      connected stage only when its own await is over. A connect in flight alone is harmless. */
  lemma DisconnectLeaksIff(s: State, network: bool)
    requires OneRestart(s)
    ensures CanLeak(s, network) <==> Leaky(s, network)
  {
    if Leaky(s, network) {
      LeakyLeaks(s, network);
    } else {
      DisconnectEnds(s, network);
      forall t | Reach(Do(s, Disconnect), t, network) ensures !Leaked(t) {
        var events :| AllSettling(events, network) && Possible(Do(s, Disconnect), events)
          && Run(Do(s, Disconnect), events) == t;
        RunKeepsEnding(Do(s, Disconnect), events, network);
      }
    }
  }

  /** So after any run, and in particular: from an idle connected state it can when the network
      may change during the stop, and otherwise exactly when a timer is pending; and while only a
      first connection is being made it cannot, unless a timer or the network interferes. */
  lemma RunLeaksIff(events: seq<Event>, network: bool)
    requires Possible(INIT, events)
    ensures var s := Run(INIT, events);
      && (CanLeak(s, network) <==> Leaky(s, network))
      && (Quiet(s) && s.stage == Connected && Usable(s) ==> (CanLeak(s, network) <==> network || s.debounce))
      && (s.restarts == multiset{} && !s.debounce ==> !CanLeak(s, false))
  {
    RestartsExclude(INIT, events);
    DisconnectLeaksIff(Run(INIT, events), network);
    DisconnectLeaksIff(Run(INIT, events), false);
  }
}
