/** The desktop tunnel controller under the Dart event loop. One event is one whole turn: when an
    inner call ends, its caller is resumed and runs to its next await before any other user,
    timer, network or process event is taken. Turns come in any order. */
module Tunnel {
  import opened Bytes
  import L = ClientLinks

  datatype Stage = Disconnected | Connecting | Connected | Failed

  // A saved server's link, with what parseShareLink makes of it.
  datatype Link = Link(text: Text, parsed: L.Parsed)

  // Suspended connect() and disconnect() calls, and the suspended body of the restart.
  datatype Call = Starting(link: Link) | Stopping
  datatype Restart = Halting(link: Link) | Relaunching(link: Link)

  // `running` is the tunnel process the active flag stands for, with the link it was started on.
  datatype State = State(stage: Stage, server: Option<Link>, restarting: bool, debounce: bool,
                         running: Option<Link>, calls: multiset<Call>, restarts: multiset<Restart>)

  const INIT := State(Disconnected, None, false, false, None, multiset{}, multiset{})

  // `ok` is the outcome of the inner call that ends.
  datatype Event =
    | Connect(link: Link) | Disconnect | NetworkChange | TimerFires
    | CallEnds(call: Call, ok: bool) | RestartEnds(restart: Restart, ok: bool)

  predicate Enabled(s: State, e: Event) {
    match e
    case TimerFires => s.debounce
    case CallEnds(call, _) => call in s.calls
    case RestartEnds(restart, _) => restart in s.restarts
    case _ => true
  }

  /** _restartDesktopTunnel's guards: whether a firing timer starts a restart. */
  predicate Restarts(s: State) {
    s.stage == Connected && !s.restarting && Usable(s)
  }

  predicate Usable(s: State) { s.server.Some? && s.server.value.parsed.Parsed? }

  /** connect, up to its first await. The link is parsed outside the try, so a parse that throws
      ends the call with nothing changed but the stage and the server. */
  function DoConnect(s: State, link: Link): State {
    var began := s.(stage := Connecting, server := Some(link));
    match link.parsed
    case NotALink => began.(stage := Failed)
    case Throws => began
    case Parsed(_, _) => began.(calls := s.calls + multiset{Starting(link)})
  }

  function DoNetworkChange(s: State): State {
    if s.stage == Connected && !s.restarting then s.(debounce := true) else s
  }

  function DoTimer(s: State): State {
    var fired := s.(debounce := false);
    if Restarts(s)
    then fired.(restarting := true, restarts := s.restarts + multiset{Halting(s.server.value)}) else fired
  }

  /** DesktopVpn's own connect or disconnect ends, and the controller's call runs to its end. */
  function DoCallEnds(s: State, call: Call, ok: bool): State {
    var others := s.calls - multiset{call};
    match call
    case Starting(link) =>
      if ok then s.(running := Some(link), stage := Connected, calls := others)
      else s.(stage := Failed, calls := others)
    case Stopping => s.(running := None, stage := Disconnected, calls := others)
  }

  /** The restart's disconnect ends and its connect begins, or that one ends. */
  function DoRestartEnds(s: State, restart: Restart, ok: bool): State {
    var others := s.restarts - multiset{restart};
    match restart
    case Halting(link) => s.(running := None, restarts := others + multiset{Relaunching(link)})
    case Relaunching(link) =>
      if ok then s.(running := Some(link), restarting := false, restarts := others)
      else s.(stage := Failed, restarting := false, restarts := others)
  }

  function Do(s: State, e: Event): State {
    match e
    case Connect(link) => DoConnect(s, link)
    case Disconnect => s.(calls := s.calls + multiset{Stopping})
    case NetworkChange => DoNetworkChange(s)
    case TimerFires => DoTimer(s)
    case CallEnds(call, ok) => DoCallEnds(s, call, ok)
    case RestartEnds(restart, ok) => DoRestartEnds(s, restart, ok)
  }

  predicate Possible(s: State, events: seq<Event>)
    decreases |events|
  {
    events == [] || (Enabled(s, events[0]) && Possible(Do(s, events[0]), events[1..]))
  }

  function Run(s: State, events: seq<Event>): State
    decreases |events|
  {
    if events == [] then s else Run(Do(s, events[0]), events[1..])
  }

  // ---- at most one restart ----

  predicate OneRestart(s: State) { |s.restarts| == if s.restarting then 1 else 0 }

  lemma Sizes<T>(m: multiset<T>, x: T)
    ensures |m + multiset{x}| == |m| + 1
    ensures x in m ==> |m - multiset{x}| == |m| - 1
  {
  }

  lemma RestartStepKeepsOne(s: State, restart: Restart, ok: bool)
    requires OneRestart(s) && restart in s.restarts
    ensures OneRestart(DoRestartEnds(s, restart, ok))
  {
    Sizes(s.restarts, restart);
    Sizes(s.restarts - multiset{restart}, Relaunching(restart.link));
  }

  lemma TimerKeepsOne(s: State)
    requires OneRestart(s)
    ensures OneRestart(DoTimer(s))
  {
    if Restarts(s) { Sizes(s.restarts, Halting(s.server.value)); }
  }

  lemma StepKeepsOneRestart(s: State, e: Event)
    requires OneRestart(s) && Enabled(s, e)
    ensures OneRestart(Do(s, e))
  {
    match e
    case TimerFires => TimerKeepsOne(s);
    case RestartEnds(restart, ok) => RestartStepKeepsOne(s, restart, ok);
    case _ =>
  }

  /** In every interleaving at most one restart body is in flight, and `_restarting` is true
      exactly while one is. */
  lemma {:induction false} RestartsExclude(s: State, events: seq<Event>)
    requires OneRestart(s) && Possible(s, events)
    ensures OneRestart(Run(s, events))
    decreases |events|
  {
    if events != [] {
      StepKeepsOneRestart(s, events[0]);
      RestartsExclude(Do(s, events[0]), events[1..]);
    }
  }

  // ---- operations that do not overlap ----

  predicate Quiet(s: State) { s.calls == multiset{} && s.restarts == multiset{} }

  /** The caller's discipline: an operation starts only when none is suspended, and a connection
      only when none is shown. Everything else may happen at any time. */
  predicate Disciplined(s: State, e: Event) {
    match e
    case Connect(link) => Quiet(s) && s.stage != Connected
    case Disconnect => Quiet(s)
    case TimerFires => Restarts(s) ==> Quiet(s)
    case _ => true
  }

  predicate CallFits(s: State, c: Call) {
    match c
    case Starting(link) => s.stage == Connecting && s.server == Some(link) && s.running.None?
    case Stopping => s.stage == Connected ==> s.server.Some?
  }

  predicate RestartFits(s: State, r: Restart) {
    s.stage == Connected && s.server == Some(r.link) && s.running == if r.Halting? then s.server else None
  }

  predicate QuietFits(s: State) {
    && s.running == (if s.stage == Connected then s.server else None)
    && (s.stage == Connected ==> s.server.Some?)
    && (s.stage == Connecting ==> s.server.Some? && s.server.value.parsed.Throws?)
  }

  /** At most one operation is in flight, and the flag, the stage and the server are as they
      should be at that point of it. */
  ghost predicate Consistent(s: State) {
    if s.restarting then
      s.calls == multiset{} && exists r :: s.restarts == multiset{r} && RestartFits(s, r)
    else
      s.restarts == multiset{} &&
      ((s.calls == multiset{} && QuietFits(s)) || exists c :: s.calls == multiset{c} && CallFits(s, c))
  }

  lemma Single<T(!new)>(x: T)
    ensures multiset{x} - multiset{x} == multiset{}
    ensures forall y: T :: multiset{} + multiset{y} == multiset{y} && y in multiset{y}
    ensures multiset{x} != multiset{}
  {
    assert x in multiset{x};
  }

  lemma BusyRestart(s: State, r: Restart, e: Event)
    requires s.restarting && s.calls == multiset{} && s.restarts == multiset{r} && RestartFits(s, r)
    requires Enabled(s, e) && Disciplined(s, e)
    ensures Consistent(Do(s, e))
  {
    Single(r);
    match e
    case RestartEnds(restart, ok) =>
      if r.Halting? { assert RestartFits(Do(s, e), Relaunching(r.link)); }
    case NetworkChange => assert RestartFits(Do(s, e), r);
    case TimerFires => assert RestartFits(Do(s, e), r);
    case _ =>
  }

  lemma BusyCall(s: State, c: Call, e: Event)
    requires !s.restarting && s.restarts == multiset{} && s.calls == multiset{c} && CallFits(s, c)
    requires Enabled(s, e) && Disciplined(s, e)
    ensures Consistent(Do(s, e))
  {
    Single(c);
    match e
    case NetworkChange => assert CallFits(Do(s, e), c);
    case TimerFires => assert CallFits(Do(s, e), c);
    case _ =>
  }

  lemma FromQuiet(s: State, e: Event)
    requires !s.restarting && Quiet(s) && QuietFits(s) && Enabled(s, e) && Disciplined(s, e)
    ensures Consistent(Do(s, e))
  {
    var t := Do(s, e);
    match e
    case Connect(link) =>
      if link.parsed.Parsed? { Single(Starting(link)); assert CallFits(t, Starting(link)); }
    case Disconnect => Single(Stopping); assert CallFits(t, Stopping);
    case TimerFires =>
      if Restarts(s) {
        Single(Halting(s.server.value));
        assert RestartFits(t, Halting(s.server.value));
      }
    case _ =>
  }

  lemma StepKeepsConsistent(s: State, e: Event)
    requires Consistent(s) && Enabled(s, e) && Disciplined(s, e)
    ensures Consistent(Do(s, e))
  {
    if s.restarting {
      var r :| s.restarts == multiset{r} && RestartFits(s, r);
      BusyRestart(s, r, e);
    } else if s.calls == multiset{} {
      FromQuiet(s, e);
    } else {
      var c :| s.calls == multiset{c} && CallFits(s, c);
      BusyCall(s, c, e);
    }
  }

  predicate AllDisciplined(s: State, events: seq<Event>)
    decreases |events|
  {
    events == [] || (Disciplined(s, events[0]) && AllDisciplined(Do(s, events[0]), events[1..]))
  }

  lemma {:induction false} RunKeepsConsistent(s: State, events: seq<Event>)
    requires Consistent(s) && Possible(s, events) && AllDisciplined(s, events)
    ensures Consistent(Run(s, events))
    decreases |events|
  {
    if events != [] {
      StepKeepsConsistent(s, events[0]);
      RunKeepsConsistent(Do(s, events[0]), events[1..]);
    }
  }

  /** When operations do not overlap and connections start from idle, then whenever nothing is in
      flight the stage is connected exactly when the tunnel flag is active, and the tunnel that
      runs is the one to the server shown. */
  lemma ConnectedIsActive(events: seq<Event>)
    requires Possible(INIT, events) && AllDisciplined(INIT, events)
    ensures var s := Run(INIT, events); Quiet(s) ==>
      (s.stage == Connected <==> s.running.Some?) && (s.stage == Connected ==> s.running == s.server)
  {
    RunKeepsConsistent(INIT, events);
  }

  // ---- a link that throws ----

  function StuckBy(before: bool, e: Event): bool {
    match e case Connect(link) => link.parsed.Throws? case Disconnect => false case _ => before
  }

  /** Whether the last of the user's calls was a connection to a link that throws. */
  function Stuck(before: bool, events: seq<Event>): bool
    decreases |events|
  {
    if events == [] then before else Stuck(StuckBy(before, events[0]), events[1..])
  }

  ghost predicate StuckFits(s: State, stuck: bool) {
    if stuck then Quiet(s) && s.stage == Connecting else Quiet(s) ==> s.stage != Connecting
  }

  lemma ConnectStuck(s: State, link: Link)
    requires Quiet(s)
    ensures StuckFits(DoConnect(s, link), link.parsed.Throws?)
  {
    Single(Starting(link));
  }

  lemma RestartStuck(s: State, r: Restart, ok: bool)
    requires Consistent(s) && r in s.restarts
    ensures !Quiet(s) && StuckFits(DoRestartEnds(s, r, ok), false)
  {
    assert s.restarting;
    var q :| s.restarts == multiset{q} && RestartFits(s, q);
  }

  lemma StepKeepsStuck(s: State, e: Event, stuck: bool)
    requires Consistent(s) && Enabled(s, e) && Disciplined(s, e) && StuckFits(s, stuck)
    ensures StuckFits(Do(s, e), StuckBy(stuck, e))
  {
    match e
    case Connect(link) => ConnectStuck(s, link);
    case Disconnect => Single(Stopping);
    case RestartEnds(r, ok) => RestartStuck(s, r, ok);
    case CallEnds(c, ok) => assert s.calls != multiset{};
    case TimerFires =>
    case NetworkChange =>
  }

  lemma {:induction false} RunKeepsStuck(s: State, events: seq<Event>, stuck: bool)
    requires Consistent(s) && Possible(s, events) && AllDisciplined(s, events) && StuckFits(s, stuck)
    ensures StuckFits(Run(s, events), Stuck(stuck, events))
    decreases |events|
  {
    if events != [] {
      StepKeepsConsistent(s, events[0]);
      StepKeepsStuck(s, events[0], stuck);
      RunKeepsStuck(Do(s, events[0]), events[1..], StuckBy(stuck, events[0]));
    }
  }

  /** When operations do not overlap, a controller with nothing in flight says connecting exactly
      when the user's last call was a connection to a link whose parse throws. */
  lemma ConnectingIsStuck(events: seq<Event>)
    requires Possible(INIT, events) && AllDisciplined(INIT, events)
    ensures Quiet(Run(INIT, events)) ==> (Run(INIT, events).stage == Connecting <==> Stuck(false, events))
  {
    RunKeepsStuck(INIT, events, false);
  }

  // ---- what the user asked for ----

  function AskedBy(before: bool, e: Event): bool {
    match e case Connect(_) => true case Disconnect => false case _ => before
  }

  /** Whether the last of the user's calls was a connection. */
  function Asked(before: bool, events: seq<Event>): bool
    decreases |events|
  {
    if events == [] then before else Asked(AskedBy(before, events[0]), events[1..])
  }

  ghost predicate AskedFits(s: State, asked: bool) {
    if asked then s.stage != Disconnected && Stopping !in s.calls
    else s.calls == multiset{Stopping} || (Quiet(s) && s.stage == Disconnected)
  }

  lemma StepKeepsAsked(s: State, e: Event, asked: bool)
    requires Consistent(s) && Enabled(s, e) && Disciplined(s, e) && AskedFits(s, asked)
    ensures AskedFits(Do(s, e), AskedBy(asked, e))
  {
    match e
    case Connect(link) => ConnectAsked(s, link);
    case Disconnect => Single(Stopping);
    case RestartEnds(r, ok) => RestartAsked(s, r, ok, asked);
    case CallEnds(c, ok) => CallEndsAsked(s, c, ok, asked);
    case TimerFires => TimerAsked(s, asked);
    case NetworkChange =>
  }

  lemma ConnectAsked(s: State, link: Link)
    requires Quiet(s)
    ensures AskedFits(DoConnect(s, link), true)
  {
    Single(Starting(link));
    assert Stopping !in multiset{Starting(link)};
  }

  lemma RestartAsked(s: State, r: Restart, ok: bool, asked: bool)
    requires Consistent(s) && r in s.restarts && AskedFits(s, asked)
    ensures AskedFits(DoRestartEnds(s, r, ok), asked)
  {
    assert s.restarting;
    Single(Stopping);
    var only :| s.restarts == multiset{only} && RestartFits(s, only);
  }

  lemma TimerAsked(s: State, asked: bool)
    requires s.debounce && Disciplined(s, TimerFires) && AskedFits(s, asked)
    ensures AskedFits(DoTimer(s), asked)
  {
    Single(Stopping);
  }

  lemma CallEndsAsked(s: State, c: Call, ok: bool, asked: bool)
    requires Consistent(s) && c in s.calls && AskedFits(s, asked)
    ensures AskedFits(DoCallEnds(s, c, ok), asked)
  {
    assert s.calls != multiset{};
    assert !s.restarting;
    var only :| s.calls == multiset{only} && CallFits(s, only);
    Single(only);
    assert c == only;
  }

  lemma {:induction false} RunKeepsAsked(s: State, events: seq<Event>, asked: bool)
    requires Consistent(s) && Possible(s, events) && AllDisciplined(s, events) && AskedFits(s, asked)
    ensures AskedFits(Run(s, events), Asked(asked, events))
    decreases |events|
  {
    if events != [] {
      StepKeepsConsistent(s, events[0]);
      StepKeepsAsked(s, events[0], asked);
      RunKeepsAsked(Do(s, events[0]), events[1..], AskedBy(asked, events[0]));
    }
  }

  /** When operations do not overlap, a controller with nothing in flight says disconnected exactly
      when the user's last call was not a connection. So whenever a connection was asked for and the
      tunnel is not active, for whatever reason, it says failed, unless the link's parse threw. */
  lemma FailureIsShown(events: seq<Event>)
    requires Possible(INIT, events) && AllDisciplined(INIT, events)
    ensures var s := Run(INIT, events);
      Quiet(s) ==>
        && (s.stage == Disconnected <==> !Asked(false, events))
        && (s.stage == Failed <==> Asked(false, events) && s.running.None? && !Stuck(false, events))
  {
    RunKeepsAsked(INIT, events, false);
    ConnectedIsActive(events);
    ConnectingIsStuck(events);
    if Stuck(false, events) { StuckAsked(events, false, false); }
  }

  lemma {:induction false} StuckAsked(events: seq<Event>, stuck: bool, asked: bool)
    requires Stuck(stuck, events) && (stuck ==> asked)
    ensures Asked(asked, events)
    decreases |events|
  {
    if events != [] { StuckAsked(events[1..], StuckBy(stuck, events[0]), AskedBy(asked, events[0])); }
  }
}
