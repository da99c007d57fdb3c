/** The controller as an object: each handler's stretch between two awaits is a method on its
    fields, and the event loop calls them in whatever order the events come. */
module VpnController {
  import opened Bytes
  import opened Tunnel

  class DesktopVpn {
    // isActive, with the link the active tunnel was started on.
    var running: Option<Link>

    constructor ()
      ensures running == None
    {
      running := None;
    }
  }

  class VpnController {
    var stage: Stage
    var server: Option<Link>
    var restarting: bool
    var debounce: bool
    const desktop: DesktopVpn
    // Where the calls in flight are suspended. The source keeps this in its futures; no handler
    // reads it.
    ghost var calls: multiset<Call>
    ghost var restarts: multiset<Restart>

    ghost function View(): State
      reads this, desktop
    {
      State(stage, server, restarting, debounce, desktop.running, calls, restarts)
    }

    /** A restart body is in flight exactly while the flag is up. */
    ghost predicate Valid()
      reads this, desktop
    {
      OneRestart(View())
    }

    constructor ()
      ensures Valid() && View() == INIT && fresh(desktop)
    {
      stage, server, restarting, debounce := Disconnected, None, false, false;
      calls, restarts := multiset{}, multiset{};
      desktop := new DesktopVpn();
    }

    method Connect(link: Link)
      modifies this
      ensures View() == Do(old(View()), Event.Connect(link))
      ensures server == Some(link) && stage == if link.parsed.NotALink? then Failed else Connecting
      ensures calls == old(calls) + if link.parsed.Parsed? then multiset{Starting(link)} else multiset{}
    {
      stage, server := Connecting, Some(link);
      if link.parsed.Throws? { return; }
      if link.parsed.NotALink? {
        stage := Failed;
        return;
      }
      calls := calls + multiset{Starting(link)};
    }

    /** DesktopVpn.connect ends, setting its flag only once the core is known to run, and connect
        runs to its end. */
    method ConnectEnds(link: Link, ok: bool)
      requires Starting(link) in calls
      modifies this`stage, this`calls, desktop
      ensures View() == DoCallEnds(old(View()), Starting(link), ok)
      ensures stage == (if ok then Connected else Failed)
      ensures desktop.running == if ok then Some(link) else old(desktop.running)
    {
      if ok {
        desktop.running := Some(link);
        stage := Connected;
      } else {
        stage := Failed;
      }
      calls := calls - multiset{Starting(link)};
    }

    method Disconnect()
      modifies this`calls
      ensures View() == Do(old(View()), Event.Disconnect)
    {
      calls := calls + multiset{Stopping};
    }

    /** DesktopVpn.disconnect ends, whether or not stopping worked, and disconnect runs to its end. */
    method DisconnectEnds(ok: bool)
      requires Stopping in calls
      modifies this`stage, this`calls, desktop
      ensures View() == DoCallEnds(old(View()), Stopping, ok)
    {
      desktop.running := None;
      stage := Disconnected;
      calls := calls - multiset{Stopping};
    }

    method OnNetworkChange()
      modifies this`debounce
      ensures View() == Do(old(View()), NetworkChange)
      ensures debounce <==> old(debounce) || (stage == Connected && !restarting)
    {
      if stage != Connected || restarting { return; }
      debounce := true;
    }

    /** _restartDesktopTunnel, up to its first await. */
    method RestartDesktopTunnel()
      requires debounce
      modifies this`debounce, this`restarting, this`restarts
      ensures View() == Do(old(View()), TimerFires)
      ensures !debounce
      ensures var starts := stage == Connected && !old(restarting) && server.Some? && server.value.parsed.Parsed?;
        && restarting == (old(restarting) || starts)
        && restarts == old(restarts) + if starts then multiset{Halting(server.value)} else multiset{}
    {
      debounce := false;
      if stage != Connected || restarting { return; }
      if server.None? || !server.value.parsed.Parsed? { return; }
      restarting := true;
      restarts := restarts + multiset{Halting(server.value)};
    }

    /** Its disconnect ends and its connect begins. */
    method HaltEnds(link: Link, ok: bool)
      requires Halting(link) in restarts
      modifies this`restarts, desktop
      ensures View() == DoRestartEnds(old(View()), Halting(link), ok)
    {
      desktop.running := None;
      restarts := restarts - multiset{Halting(link)} + multiset{Relaunching(link)};
    }

    /** Its connect ends: the catch clause, if need be, and the finally clause. */
    method RelaunchEnds(link: Link, ok: bool)
      requires Relaunching(link) in restarts
      modifies this`stage, this`restarting, this`restarts, desktop
      ensures View() == DoRestartEnds(old(View()), Relaunching(link), ok)
      ensures !restarting && stage == (if ok then old(stage) else Failed)
      ensures desktop.running == if ok then Some(link) else old(desktop.running)
    {
      if ok {
        desktop.running := Some(link);
      } else {
        stage := Failed;
      }
      restarting := false;
      restarts := restarts - multiset{Relaunching(link)};
    }

    /** One turn of the event loop, whatever the event: the state moves as the model says, one
        restart at most stays in flight, and a disciplined turn keeps flag, stage and server in
        step. */
    method Handle(e: Event)
      requires Valid() && Enabled(View(), e)
      modifies this, desktop
      ensures Valid() && View() == Do(old(View()), e)
      ensures old(Consistent(View())) && Disciplined(old(View()), e) ==> Consistent(View())
    {
      StepKeepsOneRestart(View(), e);
      if Consistent(View()) && Disciplined(View(), e) { StepKeepsConsistent(View(), e); }
      match e
      case Connect(link) => Connect(link);
      case Disconnect => Disconnect();
      case NetworkChange => OnNetworkChange();
      case TimerFires => RestartDesktopTunnel();
      case CallEnds(Starting(link), ok) => ConnectEnds(link, ok);
      case CallEnds(Stopping, ok) => DisconnectEnds(ok);
      case RestartEnds(Halting(link), ok) => HaltEnds(link, ok);
      case RestartEnds(Relaunching(link), ok) => RelaunchEnds(link, ok);
    }

    /** Any sequence of turns. */
    method Play(events: seq<Event>)
      requires Valid() && Possible(View(), events)
      modifies this, desktop
      ensures Valid() && View() == Run(old(View()), events)
    {
      for i := 0 to |events|
        invariant Valid() && Possible(View(), events[i..])
        invariant Run(View(), events[i..]) == Run(old(View()), events)
      {
        assert events[i..][0] == events[i] && events[i..][1..] == events[i + 1..];
        Handle(events[i]);
      }
    }

    /** A controller's whole life. At most one restart is ever in flight. If operations did not
        overlap, then with nothing in flight the fields agree: connected exactly when the tunnel
        is active, to the server shown, connecting exactly when the last call was a connection to a
        link that throws, disconnected exactly when it was none, and failed in all other cases. */
    static method Session(events: seq<Event>) returns (c: VpnController)
      requires Possible(INIT, events)
      ensures fresh(c) && c.View() == Run(INIT, events)
      ensures |c.restarts| == if c.restarting then 1 else 0
      ensures AllDisciplined(INIT, events) && c.calls == multiset{} && c.restarts == multiset{} ==>
        && (c.stage == Connected <==> c.desktop.running.Some?)
        && (c.stage == Connected ==> c.desktop.running == c.server)
        && (c.stage == Connecting <==> Stuck(false, events))
        && (c.stage == Disconnected <==> !Asked(false, events))
        && (c.stage == Failed <==> Asked(false, events) && c.desktop.running.None? && !Stuck(false, events))
    {
      c := new VpnController();
      c.Play(events);
      if AllDisciplined(INIT, events) {
        ConnectedIsActive(events);
        ConnectingIsStuck(events);
        FailureIsShown(events);
      }
    }
  }
}
