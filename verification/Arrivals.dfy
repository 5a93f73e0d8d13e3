/**
 * Everything that comes in during an execution of the loop arrives: the key events, the pushed commands and the
 * connections of a schedule, read off the schedule itself, are the ones the daemon has handled, in order. And a
 * stop signal ends the program.
 */
module Arrivals {
  import opened Sequences
  import opened Execution
  import opened Callbacks
  import W = Wire
  import K = Keys
  import D = Daemon
  import S = Subscribers
  import Y = System

  // ------------------------------------------------------------ what one item stands for

  /** The event an item is for the key machine, if it is one. */
  function EventOf(t: K.Table, w: Incoming): seq<K.Event> {
    match w
    case KeyPressed(key) => [K.Press(key)]
    case Command(DeckControl(DeckStop)) => [K.Inject(t.stop)]
    case Command(Play(PlayForward)) => [K.Inject(t.play)]
    case Command(Play(PlayStill)) => [K.Inject(t.pause)]
    case Command(Play(OtherPlayMode)) => [K.Inject(t.play)]
    case Command(UserControlPressed) => [K.ControlPressed]
    case Command(VendorRemoteButtonUp) => [K.ButtonUp]
    case MenuStateChanged => [K.Inject(t.contentsMenu)]
    case _ => []
  }

  /** The command an item pushes, given makeActive and the own logical address when it comes in. */
  function PushOf(makeActive: bool, own: int, w: Incoming): seq<D.Command> {
    match w
    case Command(Standby) => [D.Standby]
    case Command(RequestActiveSource) => if makeActive then [D.Active] else []
    case Alerted(ServiceDevice) => []
    case Alerted(OtherAlert) => []
    case Alerted(_) => [D.Restart]
    case SourceActivated(address, true) => if address == own then [D.Active] else []
    case SourceActivated(address, false) => if address == own then [D.Inactive] else []
    case Signal(true) => [D.Exit]
    case Signal(false) => [D.Restart]
    case _ => []
  }

  /** The own logical address after a batch. */
  function AddressAfter(own: int, incoming: seq<Incoming>): int {
    if incoming == [] then own
    else
      match incoming[|incoming| - 1]
      case ConfigurationChanged(address) => address
      case _ => AddressAfter(own, incoming[..|incoming| - 1])
  }

  function EventsOf(t: K.Table, incoming: seq<Incoming>): seq<K.Event> {
    if incoming == [] then []
    else EventsOf(t, incoming[..|incoming| - 1]) + EventOf(t, incoming[|incoming| - 1])
  }

  function PushesOf(makeActive: bool, own: int, incoming: seq<Incoming>): seq<D.Command> {
    if incoming == [] then []
    else
      var before := incoming[..|incoming| - 1];
      PushesOf(makeActive, own, before) + PushOf(makeActive, AddressAfter(own, before), incoming[|incoming| - 1])
  }

  /** The key events that came on a thread, in order. */
  function EventsBy(t: Y.Thread, history: seq<Y.Happening>): seq<K.Event> {
    if history == [] then []
    else
      var last := history[|history| - 1];
      EventsBy(t, history[..|history| - 1]) + (if last.thread == t then [last.event] else [])
  }

  lemma EventsBySnoc(t: Y.Thread, history: seq<Y.Happening>, h: Y.Happening)
    ensures EventsBy(t, history + [h]) == EventsBy(t, history) + (if h.thread == t then [h.event] else [])
  {
    assert (history + [h])[..|history|] == history;
  }

  // ------------------------------------------------------------ a batch

  /** The answers of accept() in a batch that are usable when they come: not negative and not an open descriptor. */
  function UsableIn(cfg: Y.Config, env: S.Env, s: Y.State, incoming: seq<Incoming>): nat {
    if incoming == [] then 0
    else
      var n := |incoming| - 1;
      var open := Absorb(cfg, env, s, incoming[..n]).hub.os.open;
      UsableIn(cfg, env, s, incoming[..n]) +
      match incoming[n]
      case Connect(answer) => if answer >= 0 && answer !in open then 1 else 0
      case _ => 0
  }

  /** From s to t exactly these events, pushes and connections have arrived on callbacks and the acceptor. */
  ghost predicate Arrive(s: Y.State, events: seq<K.Event>, pushes: seq<D.Command>, joined: nat, t: Y.State) {
    && EventsBy(CALLBACK, t.history) == EventsBy(CALLBACK, s.history) + events
    && t.daemon.accepted == s.daemon.accepted + pushes
    && |t.hub.born| == |s.hub.born| + joined
  }

  lemma ArriveOnward(s: Y.State, t: Y.State, u: Y.State, events: seq<K.Event>, pushes: seq<D.Command>, joined: nat,
                     events': seq<K.Event>, pushes': seq<D.Command>, joined': nat)
    requires Arrive(s, events, pushes, joined, t) && Arrive(t, events', pushes', joined', u)
    ensures Arrive(s, events + events', pushes + pushes', joined + joined', u)
  {
    Associate(EventsBy(CALLBACK, s.history), events, events');
    Associate(s.daemon.accepted, pushes, pushes');
  }

  lemma {:induction false} BroadcastAllBorn(env: S.Env, h: S.Hub, lines: seq<string>)
    ensures Y.BroadcastAll(env, h, lines).born == h.born
  {
    if lines != [] {
      BroadcastAllBorn(env, h, lines[..|lines| - 1]);
    }
  }

  lemma KeyArrives(cfg: Y.Config, env: S.Env, s: Y.State, e: K.Event)
    requires s.outbox == map[]
    ensures var t := Y.Run(cfg, env, s, KeyLabels(cfg, s, e));
            Arrive(s, [e], [], 0, t) && t.outbox == map[] && t.daemon == s.daemon
  {
    hide Y.Run, K.Step, KeyLabels, Y.BroadcastAll, W.Lines;
    var out := K.Step(cfg.table, s.keys, e).1;
    KeyEffect(cfg, env, s, e);
    EventsBySnoc(CALLBACK, s.history, Y.Happening(CALLBACK, e, out));
    BroadcastAllBorn(env, s.hub, W.Lines(out));
  }

  lemma PushArrives(cfg: Y.Config, env: S.Env, s: Y.State, callback: D.Callback, c: D.Command)
    requires s.daemon.pc != D.Draining && !callback.ConfigurationChanged?
    requires D.Intends(s.daemon, callback) == multiset{c} && s.outbox == map[]
    ensures var t := Y.Run(cfg, env, s, PushLabels(callback, c));
            && Arrive(s, [], if s.daemon.running then [c] else [], 0, t) && t.outbox == map[]
            && t.daemon.logicalAddress == s.daemon.logicalAddress
  {
    hide Y.Run, PushLabels, D.Intends;
    PushEffect(cfg, env, s, callback, c);
  }

  lemma BeginArrives(cfg: Y.Config, env: S.Env, s: Y.State, callback: D.Callback)
    requires s.outbox == map[]
    ensures var t := Y.Run(cfg, env, s, [Y.Queue(D.Begin(callback))]);
            && Arrive(s, [], [], 0, t) && t.outbox == map[]
            && t.daemon.logicalAddress ==
               if callback.ConfigurationChanged? then callback.address else s.daemon.logicalAddress
  {
    hide Y.Run;
    BeginEffect(cfg, env, s, callback);
  }

  /** One item arrives. */
  ghost predicate Arrives(cfg: Y.Config, s: Y.State, w: Incoming, t: Y.State) {
    var pushed := PushOf(s.daemon.makeActive, s.daemon.logicalAddress, w);
    && Arrive(s, EventOf(cfg.table, w), if s.daemon.running then pushed else [],
              if w.Connect? && w.answer >= 0 && w.answer !in s.hub.os.open then 1 else 0, t)
    && t.outbox == map[]
    && t.daemon.logicalAddress == if w.ConfigurationChanged? then w.address else s.daemon.logicalAddress
  }

  lemma CommandArrives(cfg: Y.Config, env: S.Env, s: Y.State, command: CecCommand)
    requires s.daemon.pc != D.Draining && s.outbox == map[]
    ensures Arrives(cfg, s, Command(command), Y.Run(cfg, env, s, LabelsOf(cfg, s, Command(command))))
  {
    hide Y.Run, KeyLabels, PushLabels, Arrive;
    assert Arrive(s, [], [], 0, s) by { NothingArrives(s); }
    match command
    case Standby => PushArrives(cfg, env, s, D.StandbyRequested, D.Standby);
    case RequestActiveSource =>
      if s.daemon.makeActive {
        PushArrives(cfg, env, s, D.ActiveSourceRequested, D.Active);
      } else {
        BeginArrives(cfg, env, s, D.ActiveSourceRequested);
      }
    case DeckControl(mode) => KeyArrives(cfg, env, s, K.Inject(cfg.table.stop)); NothingRun(cfg, env, s);
    case Play(mode) => KeyArrives(cfg, env, s, K.Inject(if mode == PlayStill then cfg.table.pause else cfg.table.play));
    case UserControlPressed => KeyArrives(cfg, env, s, K.ControlPressed);
    case VendorRemoteButtonUp => KeyArrives(cfg, env, s, K.ButtonUp);
    case _ => NothingRun(cfg, env, s);
  }

  lemma NothingArrives(s: Y.State)
    ensures Arrive(s, [], [], 0, s)
  {
  }

  lemma ItemArrives(cfg: Y.Config, env: S.Env, s: Y.State, w: Incoming)
    requires s.daemon.pc != D.Draining && s.outbox == map[]
    ensures Arrives(cfg, s, w, Y.Run(cfg, env, s, LabelsOf(cfg, s, w)))
  {
    hide Y.Run, KeyLabels, PushLabels;
    match w
    case KeyPressed(key) => KeyArrives(cfg, env, s, K.Press(key));
    case Command(command) => CommandArrives(cfg, env, s, command);
    case Alerted(alert) => PushArrives(cfg, env, s, D.ConnectionAlert, D.Restart); NothingRun(cfg, env, s);
    case ConfigurationChanged(address) => BeginArrives(cfg, env, s, D.ConfigurationChanged(address));
    case MenuStateChanged => KeyArrives(cfg, env, s, K.Inject(cfg.table.contentsMenu));
    case SourceActivated(address, on) =>
      if address == s.daemon.logicalAddress {
        PushArrives(cfg, env, s, D.SourceActivated(address, on), if on then D.Active else D.Inactive);
      } else {
        BeginArrives(cfg, env, s, D.SourceActivated(address, on));
      }
    case Signal(stop) =>
      PushArrives(cfg, env, s, D.SignalStop, D.Exit);
      PushArrives(cfg, env, s, D.SignalRestart, D.Restart);
    case Connect(answer) => AcceptEffect(cfg, env, s, answer); S.AcceptDecides(s.hub, answer);
  }

  /** A batch arrives, item by item. */
  lemma {:induction false} BatchArrives(cfg: Y.Config, env: S.Env, s: Y.State, incoming: seq<Incoming>)
    requires s.daemon.pc != D.Draining && s.outbox == map[]
    ensures var t := Absorb(cfg, env, s, incoming);
            && Arrive(s, EventsOf(cfg.table, incoming),
                      if s.daemon.running
                      then PushesOf(s.daemon.makeActive, s.daemon.logicalAddress, incoming) else [],
                      UsableIn(cfg, env, s, incoming), t)
            && t.outbox == map[] && t.daemon.logicalAddress == AddressAfter(s.daemon.logicalAddress, incoming)
  {
    hide Y.Run, LabelsOf, Arrive, EventOf, PushOf;
    if incoming == [] {
      NothingArrives(s);
    } else {
      var n := |incoming| - 1;
      var t, w := Absorb(cfg, env, s, incoming[..n]), incoming[n];
      BatchArrives(cfg, env, s, incoming[..n]);
      AbsorbKeepsLoop(cfg, env, s, incoming[..n]);
      ItemArrives(cfg, env, t, w);
      var own := t.daemon.logicalAddress;
      ArriveOnward(s, t, Absorb(cfg, env, s, incoming),
                   EventsOf(cfg.table, incoming[..n]),
                   if s.daemon.running
                   then PushesOf(s.daemon.makeActive, s.daemon.logicalAddress, incoming[..n]) else [],
                   UsableIn(cfg, env, s, incoming[..n]),
                   EventOf(cfg.table, w), if s.daemon.running then PushOf(s.daemon.makeActive, own, w) else [],
                   if w.Connect? && w.answer >= 0 && w.answer !in t.hub.os.open then 1 else 0);
    }
  }

  // ------------------------------------------------------------ the loop takes nothing in by itself

  lemma LoopStepArrives(cfg: Y.Config, env: S.Env, s: Y.State, d: D.Label)
    requires Idle(s) && d != D.Process && !d.Begin? && !d.Push?
    ensures var t := Y.Step(cfg, env, s, Y.Queue(d)); Arrive(s, [], [], 0, t) && t.outbox == s.outbox
  {
    LoopEffect(cfg, env, s, d);
    hide D.ProcessOne, D.BeginCallback, D.PushCommand, Y.Step;
  }

  lemma HandledArrives(cfg: Y.Config, env: S.Env, s: Y.State)
    requires Idle(s) && D.Enabled(s.daemon, D.Process)
    ensures var t := HandleCommand(cfg, env, s); Arrive(s, [], [], 0, t) && t.outbox == s.outbox
  {
    hide HandleCommand, K.Step, Y.BroadcastAll, W.Lines;
    HandledCommand(cfg, env, s);
    if Y.PressesPower(cfg, s.daemon, D.Process) {
      var e := K.Inject(cfg.table.power);
      var out := K.Step(cfg.table, s.keys, e).1;
      PowerEffect(cfg, env, s);
      EventsBySnoc(CALLBACK, s.history, Y.Happening(Y.LOOP, e, out));
      BroadcastAllBorn(env, s.hub, W.Lines(out));
    } else {
      QuietEffect(cfg, env, s);
    }
  }

  lemma StaysArrived(s: Y.State, events: seq<K.Event>, pushes: seq<D.Command>, joined: nat, t: Y.State, u: Y.State)
    requires Arrive(s, events, pushes, joined, t) && Arrive(t, [], [], 0, u)
    ensures Arrive(s, events, pushes, joined, u)
  {
  }

  lemma {:induction false} DrainArrives(cfg: Y.Config, env: S.Env, s: Y.State)
    ensures var t := DrainAll(cfg, env, s); Arrive(s, [], [], 0, t) && t.outbox == s.outbox
    decreases |s.daemon.commands|
  {
    hide HandleCommand, Arrive;
    if D.Enabled(s.daemon, D.Process) && Idle(s) {
      HandledCommand(cfg, env, s);
      HandledArrives(cfg, env, s);
      DrainArrives(cfg, env, HandleCommand(cfg, env, s));
      StaysArrived(s, [], [], 0, HandleCommand(cfg, env, s), DrainAll(cfg, env, s));
    } else {
      NothingArrives(s);
    }
  }

  lemma RoundArrives(cfg: Y.Config, env: S.Env, s: Y.State)
    requires Idle(s)
    ensures var t := RoundOf(cfg, env, s); Arrive(s, [], [], 0, t) && t.outbox == s.outbox
  {
    hide Y.Step, DrainAll, Arrive;
    var locked := Y.Step(cfg, env, s, Y.Queue(D.Lock));
    var drained := DrainAll(cfg, env, locked);
    LoopStepArrives(cfg, env, s, D.Lock);
    DrainArrives(cfg, env, locked);
    LoopStepArrives(cfg, env, drained, D.Wait);
    StaysArrived(s, [], [], 0, locked, drained);
    StaysArrived(s, [], [], 0, drained, RoundOf(cfg, env, s));
  }

  /** Where a turn begins: a point at which the loop thread is outside libcec_sync. */
  predicate AtTurn(s: Y.State) {
    && s.outbox == map[]
    && match s.daemon.pc
       case AtOpen => true
       case AtLirc => true
       case AtActivate => s.daemon.sessions != []
       case Waiting => s.daemon.sessions != []
       case Ended(_) => true
       case _ => false
  }

  /** What the loop does behind a batch. */
  lemma BehindBatch(cfg: Y.Config, env: S.Env, s: Y.State, turn: Turn)
    requires !s.daemon.pc.Ended? && s.outbox == map[]
    requires Absorb(cfg, env, s, turn.incoming).outbox == map[]
    ensures var t := TurnOf(cfg, env, s, turn);
            Arrive(Absorb(cfg, env, s, turn.incoming), [], [], 0, t) && t.outbox == map[]
  {
    hide Y.Step, Absorb, RoundOf, Arrive;
    var told := Absorb(cfg, env, s, turn.incoming);
    NothingArrives(told);
    match told.daemon.pc
    case AtOpen => LoopStepArrives(cfg, env, told, D.Open(turn.ok));
    case AtLirc => LoopStepArrives(cfg, env, told, D.OpenLirc(turn.ok));
    case AtActivate =>
      LoopStepArrives(cfg, env, told, D.Activate(turn.ok));
      ThenRoundArrives(cfg, env, told, Y.Step(cfg, env, told, Y.Queue(D.Activate(turn.ok))));
    case Waiting =>
      var woken := Y.Step(cfg, env, told, Y.Queue(D.Wake));
      LoopStepArrives(cfg, env, told, D.Wake);
      ThenRoundArrives(cfg, env, told, woken);
      LoopStepArrives(cfg, env, woken, D.Close);
      StaysArrived(told, [], [], 0, woken, Y.Step(cfg, env, woken, Y.Queue(D.Close)));
    case _ =>
  }

  lemma ThenRoundArrives(cfg: Y.Config, env: S.Env, s: Y.State, now: Y.State)
    requires Arrive(s, [], [], 0, now) && now.outbox == map[]
    ensures Arrive(s, [], [], 0, RoundOf(cfg, env, now)) && RoundOf(cfg, env, now).outbox == map[]
  {
    hide RoundOf, Arrive;
    RoundArrives(cfg, env, now);
    StaysArrived(s, [], [], 0, now, RoundOf(cfg, env, now));
  }

  lemma OpenStays(cfg: Y.Config, env: S.Env, s: Y.State, turn: Turn)
    requires s.daemon.pc == D.AtOpen && Idle(s)
    ensures TurnOf(cfg, env, s, turn).daemon.pc == (if turn.ok then D.AtLirc else D.Ended(D.OpenThrew))
  {
    hide Absorb, RoundOf, D.ProcessOne, D.BeginCallback, D.PushCommand;
    AbsorbKeepsLoop(cfg, env, s, turn.incoming);
    LoopEffect(cfg, env, Absorb(cfg, env, s, turn.incoming), D.Open(turn.ok));
  }

  lemma TurnStays(cfg: Y.Config, env: S.Env, s: Y.State, turn: Turn)
    requires AtTurn(s) && TurnOf(cfg, env, s, turn).outbox == map[]
    ensures AtTurn(TurnOf(cfg, env, s, turn))
  {
    hide TurnOf;
    match s.daemon.pc
    case AtOpen => OpenStays(cfg, env, s, turn);
    case AtLirc => LircTurn(cfg, env, s, turn);
    case AtActivate => ActivateTurn(cfg, env, s, turn);
    case Waiting => WaitTurn(cfg, env, s, turn);
    case Ended(_) => EndedTurn(cfg, env, s, turn);
  }

  /** What a turn brings: its items, unless the loop has ended. */
  function Brings(s: Y.State, turn: Turn): seq<Incoming> { if s.daemon.pc.Ended? then [] else turn.incoming }

  function PushesIn(s: Y.State, turn: Turn): seq<D.Command> {
    if s.daemon.running then PushesOf(s.daemon.makeActive, s.daemon.logicalAddress, Brings(s, turn)) else []
  }

  lemma TurnArrives(cfg: Y.Config, env: S.Env, s: Y.State, turn: Turn)
    requires AtTurn(s)
    ensures var t := TurnOf(cfg, env, s, turn);
            && Arrive(s, EventsOf(cfg.table, Brings(s, turn)), PushesIn(s, turn),
                      UsableIn(cfg, env, s, Brings(s, turn)), t)
            && AtTurn(t)
  {
    hide TurnOf, Absorb, EventsOf, PushesOf, UsableIn, Arrive, EventsBy;
    if s.daemon.pc.Ended? {
      EndedTurn(cfg, env, s, turn);
      NothingBrought(cfg, env, s);
    } else {
      BatchArrives(cfg, env, s, turn.incoming);
      BehindBatch(cfg, env, s, turn);
      StaysArrived(s, EventsOf(cfg.table, turn.incoming), PushesIn(s, turn), UsableIn(cfg, env, s, turn.incoming),
                   Absorb(cfg, env, s, turn.incoming), TurnOf(cfg, env, s, turn));
      TurnStays(cfg, env, s, turn);
    }
  }

  lemma NothingBrought(cfg: Y.Config, env: S.Env, s: Y.State)
    ensures EventsOf(cfg.table, []) == [] && UsableIn(cfg, env, s, []) == 0
    ensures PushesOf(s.daemon.makeActive, s.daemon.logicalAddress, []) == []
    ensures Arrive(s, [], [], 0, s)
  {
  }

  // ------------------------------------------------------------ a schedule

  /** The items of the turns taken, in order. */
  function Taken(cfg: Y.Config, env: S.Env, s: Y.State, schedule: seq<Turn>): seq<Incoming> {
    if schedule == [] then []
    else
      var n := |schedule| - 1;
      Taken(cfg, env, s, schedule[..n]) + Brings(Execute(cfg, env, s, schedule[..n]), schedule[n])
  }

  /** The commands pushed while running in the turns taken, in order. */
  function PushedIn(cfg: Y.Config, env: S.Env, s: Y.State, schedule: seq<Turn>): seq<D.Command> {
    if schedule == [] then []
    else
      var n := |schedule| - 1;
      PushedIn(cfg, env, s, schedule[..n]) + PushesIn(Execute(cfg, env, s, schedule[..n]), schedule[n])
  }

  function JoinedIn(cfg: Y.Config, env: S.Env, s: Y.State, schedule: seq<Turn>): nat {
    if schedule == [] then 0
    else
      var n := |schedule| - 1;
      var now := Execute(cfg, env, s, schedule[..n]);
      JoinedIn(cfg, env, s, schedule[..n]) + UsableIn(cfg, env, now, Brings(now, schedule[n]))
  }

  lemma {:induction false} EventsOfAppend(t: K.Table, a: seq<Incoming>, b: seq<Incoming>)
    ensures EventsOf(t, a + b) == EventsOf(t, a) + EventsOf(t, b)
  {
    hide EventOf;
    if b == [] {
      assert a + b == a;
    } else {
      var n := |b| - 1;
      EventsOfAppend(t, a, b[..n]);
      assert (a + b)[..|a + b| - 1] == a + b[..n];
      Associate(EventsOf(t, a), EventsOf(t, b[..n]), EventOf(t, b[n]));
    }
  }

  lemma {:induction false} ScheduleArrives(cfg: Y.Config, env: S.Env, s: Y.State, schedule: seq<Turn>)
    requires AtTurn(s)
    ensures var t := Execute(cfg, env, s, schedule);
            && Arrive(s, EventsOf(cfg.table, Taken(cfg, env, s, schedule)), PushedIn(cfg, env, s, schedule),
                      JoinedIn(cfg, env, s, schedule), t)
            && AtTurn(t)
  {
    hide TurnOf, EventsOf, PushesIn, Brings, UsableIn, Arrive, AtTurn;
    if schedule == [] {
      NothingBrought(cfg, env, s);
    } else {
      var n := |schedule| - 1;
      var now, turn := Execute(cfg, env, s, schedule[..n]), schedule[n];
      ScheduleArrives(cfg, env, s, schedule[..n]);
      TurnArrives(cfg, env, now, turn);
      EventsOfAppend(cfg.table, Taken(cfg, env, s, schedule[..n]), Brings(now, turn));
      ArriveOnward(s, now, Execute(cfg, env, s, schedule),
                   EventsOf(cfg.table, Taken(cfg, env, s, schedule[..n])), PushedIn(cfg, env, s, schedule[..n]),
                   JoinedIn(cfg, env, s, schedule[..n]),
                   EventsOf(cfg.table, Brings(now, turn)), PushesIn(now, turn),
                   UsableIn(cfg, env, now, Brings(now, turn)));
    }
  }

  /**
   * Nothing that comes in is lost, invented or reordered. After any schedule from start-up, the callback thread's
   * key events are those of the items of the turns taken, the commands accepted are those these items push while a
   * session runs, and there are as many connections as usable answers of accept().
   */
  lemma EverythingArrives(cfg: Y.Config, env: S.Env, makeActive: bool, garbage: K.Keypress, schedule: seq<Turn>)
    ensures var s := Y.Init(makeActive, false, garbage);
            var t := Execute(cfg, env, s, schedule);
            && EventsBy(CALLBACK, t.history) == EventsOf(cfg.table, Taken(cfg, env, s, schedule))
            && t.daemon.accepted == PushedIn(cfg, env, s, schedule)
            && |t.hub.born| == JoinedIn(cfg, env, s, schedule)
  {
    hide Execute, Taken, PushedIn, JoinedIn, EventsOf;
    var s := Y.Init(makeActive, false, garbage);
    ScheduleArrives(cfg, env, s, schedule);
    assert [] + EventsOf(cfg.table, Taken(cfg, env, s, schedule)) == EventsOf(cfg.table, Taken(cfg, env, s, schedule));
    assert [] + PushedIn(cfg, env, s, schedule) == PushedIn(cfg, env, s, schedule);
  }

  // ------------------------------------------------------------ a stop signal ends the program

  /** The first command of a queue that ends a session. */
  function FirstTerminator(queue: seq<D.Command>): Option<D.Command> {
    if queue == [] then None
    else if D.Terminator(queue[0]) then Some(queue[0])
    else FirstTerminator(queue[1..])
  }

  /** Draining a queue with a terminator ends the session there. */
  lemma {:induction false} DrainStops(cfg: Y.Config, env: S.Env, s: Y.State)
    requires s.daemon.pc == D.Draining && s.daemon.running && s.daemon.sessions != [] && Idle(s)
    requires FirstTerminator(s.daemon.commands).Some?
    ensures var t := DrainAll(cfg, env, s);
            && t.daemon.pc == D.Draining && !t.daemon.running && t.daemon.sessions != []
            && t.daemon.restart == (s.daemon.restart || FirstTerminator(s.daemon.commands) == Some(D.Restart))
    decreases |s.daemon.commands|
  {
    hide HandleCommand;
    HandledCommand(cfg, env, s);
    if D.Terminator(s.daemon.commands[0]) {
      NotRunning(cfg, env, HandleCommand(cfg, env, s));
    } else {
      DrainStops(cfg, env, HandleCommand(cfg, env, s));
    }
  }

  lemma NotRunning(cfg: Y.Config, env: S.Env, s: Y.State)
    requires !s.daemon.running
    ensures DrainAll(cfg, env, s) == s
  {
  }

  lemma RoundStops(cfg: Y.Config, env: S.Env, s: Y.State)
    requires s.daemon.pc == D.AtLock && s.daemon.running && s.daemon.sessions != [] && Idle(s)
    requires FirstTerminator(s.daemon.commands).Some?
    ensures var t := RoundOf(cfg, env, s);
            && t.daemon.pc == D.Waiting && !t.daemon.running && t.daemon.sessions != []
            && t.daemon.restart == (s.daemon.restart || FirstTerminator(s.daemon.commands) == Some(D.Restart))
  {
    hide DrainAll, FirstTerminator, D.ProcessOne, D.BeginCallback, D.PushCommand;
    LoopEffect(cfg, env, s, D.Lock);
    var locked := Y.Step(cfg, env, s, Y.Queue(D.Lock));
    DrainStops(cfg, env, locked);
    DrainAllEnds(cfg, env, locked);
    LoopEffect(cfg, env, DrainAll(cfg, env, locked), D.Wait);
  }

  /** The queue when a batch has come in. */
  function QueueAfter(s: Y.State, incoming: seq<Incoming>): seq<D.Command> {
    s.daemon.commands + PushesOf(s.daemon.makeActive, s.daemon.logicalAddress, incoming)
  }

  lemma {:induction false} BatchQueues(cfg: Y.Config, env: S.Env, s: Y.State, incoming: seq<Incoming>)
    requires s.daemon.pc != D.Draining && s.outbox == map[] && s.daemon.running
    ensures Absorb(cfg, env, s, incoming).daemon.commands == QueueAfter(s, incoming)
  {
    hide Y.Run, LabelsOf, PushOf;
    if incoming != [] {
      var n := |incoming| - 1;
      var t, w := Absorb(cfg, env, s, incoming[..n]), incoming[n];
      BatchQueues(cfg, env, s, incoming[..n]);
      BatchArrives(cfg, env, s, incoming[..n]);
      AbsorbKeepsLoop(cfg, env, s, incoming[..n]);
      ItemQueues(cfg, env, t, w);
      Associate(s.daemon.commands, PushesOf(s.daemon.makeActive, s.daemon.logicalAddress, incoming[..n]),
                PushOf(s.daemon.makeActive, t.daemon.logicalAddress, w));
    }
  }

  lemma ItemQueues(cfg: Y.Config, env: S.Env, s: Y.State, w: Incoming)
    requires s.daemon.pc != D.Draining && s.outbox == map[] && s.daemon.running
    ensures Y.Run(cfg, env, s, LabelsOf(cfg, s, w)).daemon.commands ==
            s.daemon.commands + PushOf(s.daemon.makeActive, s.daemon.logicalAddress, w)
  {
    hide Y.Run, LabelsOf, Presses;
    EverythingIsHandled(cfg, env, s, w);
  }

  /** One turn of a waiting loop in which a terminator is queued: the session is over, and remembers a RESTART. */
  lemma TurnStops(cfg: Y.Config, env: S.Env, s: Y.State, turn: Turn)
    requires AtTurn(s) && s.daemon.pc == D.Waiting && s.daemon.running
    requires FirstTerminator(QueueAfter(s, turn.incoming)).Some?
    ensures var t := TurnOf(cfg, env, s, turn);
            && t.daemon.pc == D.Waiting && !t.daemon.running && AtTurn(t)
            && t.daemon.restart ==
               (s.daemon.restart || FirstTerminator(QueueAfter(s, turn.incoming)) == Some(D.Restart))
  {
    TurnArrives(cfg, env, s, turn);
    hide Absorb, RoundOf, FirstTerminator, QueueAfter, Arrive, EventsOf, UsableIn, PushesIn, Brings;
    hide D.ProcessOne, D.BeginCallback, D.PushCommand;
    var told := Absorb(cfg, env, s, turn.incoming);
    BatchQueues(cfg, env, s, turn.incoming);
    AbsorbKeepsLoop(cfg, env, s, turn.incoming);
    LoopEffect(cfg, env, told, D.Wake);
    RoundStops(cfg, env, Y.Step(cfg, env, told, Y.Queue(D.Wake)));
  }

  /** The next turn closes the session. */
  lemma TurnCloses(cfg: Y.Config, env: S.Env, s: Y.State, turn: Turn)
    requires s.daemon.pc == D.Waiting && !s.daemon.running && Idle(s)
    ensures TurnOf(cfg, env, s, turn).daemon.pc == if s.daemon.restart then D.AtOpen else D.Ended(D.Bottom)
  {
    hide Absorb, RoundOf, D.ProcessOne, D.BeginCallback, D.PushCommand;
    AbsorbKeepsLoop(cfg, env, s, turn.incoming);
    var told := Absorb(cfg, env, s, turn.incoming);
    LoopEffect(cfg, env, told, D.Wake);
    LoopEffect(cfg, env, Y.Step(cfg, env, told, Y.Queue(D.Wake)), D.Close);
  }

  lemma ExecuteOne(cfg: Y.Config, env: S.Env, s: Y.State, turn: Turn)
    ensures Execute(cfg, env, s, [turn]) == TurnOf(cfg, env, s, turn)
  {
    hide TurnOf;
    assert [turn][..0] == [];
  }

  lemma ExecuteTwo(cfg: Y.Config, env: S.Env, s: Y.State, schedule: seq<Turn>, first: Turn, second: Turn)
    ensures Execute(cfg, env, s, schedule + [first, second]) ==
            TurnOf(cfg, env, TurnOf(cfg, env, Execute(cfg, env, s, schedule), first), second)
  {
    hide TurnOf;
    var longer := schedule + [first, second];
    assert longer[..|longer| - 1] == schedule + [first];
    assert (schedule + [first])[..|schedule|] == schedule;
  }

  /**
   * Two turns after a terminator has been queued to a waiting session, whatever else comes in before and behind it,
   * the loop has returned, or is about to open the next session exactly if a RESTART came first or was ever seen.
   */
  lemma WhenASessionIsStopped(cfg: Y.Config, env: S.Env, s: Y.State, schedule: seq<Turn>, first: Turn, second: Turn)
    requires AtTurn(s)
    requires var now := Execute(cfg, env, s, schedule);
             && now.daemon.pc == D.Waiting && now.daemon.running
             && FirstTerminator(QueueAfter(now, first.incoming)).Some?
    ensures var now := Execute(cfg, env, s, schedule);
            Execute(cfg, env, s, schedule + [first, second]).daemon.pc ==
            if now.daemon.restart || FirstTerminator(QueueAfter(now, first.incoming)) == Some(D.Restart)
            then D.AtOpen else D.Ended(D.Bottom)
  {
    hide Execute, TurnOf, FirstTerminator, QueueAfter, Arrive;
    var now := Execute(cfg, env, s, schedule);
    ScheduleArrives(cfg, env, s, schedule);
    TurnStops(cfg, env, now, first);
    TurnCloses(cfg, env, TurnOf(cfg, env, now, first), second);
    ExecuteTwo(cfg, env, s, schedule, first, second);
  }

  lemma {:induction false} ExitComesFirst(queue: seq<D.Command>)
    requires D.Exit in queue && D.Restart !in queue
    ensures FirstTerminator(queue) == Some(D.Exit)
  {
    if !D.Terminator(queue[0]) {
      ExitComesFirst(queue[1..]);
    }
  }

  lemma StopPushes(makeActive: bool, own: int)
    ensures PushesOf(makeActive, own, [Signal(true)]) == [D.Exit]
  {
    var incoming := [Signal(true)];
    assert incoming[..0] == [];
  }

  lemma {:induction false} SignalPushes(makeActive: bool, own: int, incoming: seq<Incoming>)
    requires Signal(true) in incoming
    ensures D.Exit in PushesOf(makeActive, own, incoming)
  {
    var n := |incoming| - 1;
    if incoming[n] != Signal(true) {
      SignalPushes(makeActive, own, incoming[..n]);
    }
  }

  /** The session invariants hold at every point where callbacks come in. */
  lemma ExecutionKeepsInvariants(cfg: Y.Config, env: S.Env, makeActive: bool, garbage: K.Keypress, schedule: seq<Turn>)
    ensures D.Inv(makeActive, Execute(cfg, env, Y.Init(makeActive, false, garbage), schedule).daemon)
    ensures !Execute(cfg, env, Y.Init(makeActive, false, garbage), schedule).daemon.clearing
  {
    hide Execute, D.Inv, D.Run, Y.Run;
    var labels := ExecutionIsRun(cfg, env, Y.Init(makeActive, false, garbage), schedule);
    var steps := Y.DaemonAlone(cfg, env, makeActive, false, garbage, labels);
    D.EveryRun(makeActive, false, steps);
    NeverClearing(D.Init(makeActive, false), steps);
  }

  lemma StepKeepsClearing(s: D.State, l: D.Label)
    ensures D.Next(s, l).clearing == s.clearing
  {
    hide D.BeginCallback, D.PushCommand;
  }

  lemma {:induction false} NeverClearing(init: D.State, labels: seq<D.Label>)
    ensures D.Run(init, labels).clearing == init.clearing
  {
    hide D.Next;
    if labels != [] {
      var n := |labels| - 1;
      NeverClearing(init, labels[..n]);
      StepKeepsClearing(D.Run(init, labels[..n]), labels[n]);
    }
  }

  /**
   * SIGINT or SIGTERM ends the program. From start-up: when a session is running and waiting, no RESTART has been
   * processed and none is queued or pushed with it, then a stop signal makes the loop return at its bottom, two
   * turns later, whatever else comes in.
   */
  lemma StopSignalEndsTheProgram(cfg: Y.Config, env: S.Env, makeActive: bool, garbage: K.Keypress, schedule: seq<Turn>,
                                 first: Turn, second: Turn)
    requires var now := Execute(cfg, env, Y.Init(makeActive, false, garbage), schedule);
             && now.daemon.pc == D.Waiting && now.daemon.running
             && D.Restart !in D.Processed(now.daemon) && D.Restart !in QueueAfter(now, first.incoming)
    requires Signal(true) in first.incoming
    ensures Execute(cfg, env, Y.Init(makeActive, false, garbage), schedule + [first, second]).daemon.pc ==
            D.Ended(D.Bottom)
  {
    var s := Y.Init(makeActive, false, garbage);
    var now := Execute(cfg, env, s, schedule);
    ExecutionKeepsInvariants(cfg, env, makeActive, garbage, schedule);
    SignalPushes(now.daemon.makeActive, now.daemon.logicalAddress, first.incoming);
    assert !now.daemon.restart by { RestartNotSeen(makeActive, now.daemon); }
    hide Execute, D.Inv, PushesOf;
    ExitComesFirst(QueueAfter(now, first.incoming));
    hide QueueAfter;
    WhenASessionIsStopped(cfg, env, s, schedule, first, second);
  }

  lemma RestartNotSeen(makeActive: bool, d: D.State)
    requires D.Inv(makeActive, d) && !d.clearing && D.Restart !in D.Processed(d)
    ensures !d.restart
  {
    hide D.Conserved, D.Shaped, D.Folded, D.Traced, D.EndsRight;
  }

  /** Three turns in which every call succeeds and nothing comes in. */
  const START: seq<Turn> := [Turn(true, []), Turn(true, []), Turn(true, [])]

  /** They lead to a running, waiting session with nothing queued. */
  lemma StartsUp(cfg: Y.Config, env: S.Env, makeActive: bool, garbage: K.Keypress)
    ensures var now := Execute(cfg, env, Y.Init(makeActive, false, garbage), START);
            && now.daemon.pc == D.Waiting && now.daemon.running && now.daemon.commands == []
            && now.daemon.sessions == [[]]
  {
    hide TurnOf;
    var s, turn := Y.Init(makeActive, false, garbage), Turn(true, []);
    var s1 := TurnOf(cfg, env, s, turn);
    var s2 := TurnOf(cfg, env, s1, turn);
    assert Execute(cfg, env, s, START) == TurnOf(cfg, env, s2, turn) by {
      ExecuteOne(cfg, env, s, turn);
      ExecuteTwo(cfg, env, s, [turn], turn, turn);
      assert [turn] + [turn, turn] == START;
    }
    OpensQuietly(cfg, env, s);
    OpensLircQuietly(cfg, env, s1);
    ActivatesQuietly(cfg, env, s2);
  }

  lemma OpensQuietly(cfg: Y.Config, env: S.Env, s: Y.State)
    requires s.daemon.pc == D.AtOpen && Idle(s)
    ensures var t := TurnOf(cfg, env, s, Turn(true, []));
            t == s.(daemon := t.daemon) && t.daemon.pc == D.AtLirc && t.daemon.commands == s.daemon.commands
            && t.daemon.sessions == s.daemon.sessions
  {
    hide RoundOf, D.ProcessOne, D.BeginCallback, D.PushCommand;
    LoopEffect(cfg, env, s, D.Open(true));
  }

  lemma OpensLircQuietly(cfg: Y.Config, env: S.Env, s: Y.State)
    requires s.daemon.pc == D.AtLirc && Idle(s)
    ensures var t := TurnOf(cfg, env, s, Turn(true, []));
            t == s.(daemon := t.daemon) && t.daemon.pc == D.AtActivate && t.daemon.running
            && t.daemon.commands == s.daemon.commands && t.daemon.sessions == s.daemon.sessions + [[]]
  {
    hide RoundOf, D.ProcessOne, D.BeginCallback, D.PushCommand;
    LoopEffect(cfg, env, s, D.OpenLirc(true));
  }

  lemma ActivatesQuietly(cfg: Y.Config, env: S.Env, s: Y.State)
    requires s.daemon.pc == D.AtActivate && s.daemon.running && s.daemon.commands == [] && Idle(s)
    ensures var t := TurnOf(cfg, env, s, Turn(true, []));
            && t.daemon.pc == D.Waiting && t.daemon.running && t.daemon.commands == []
            && t.daemon.sessions == s.daemon.sessions
  {
    hide D.ProcessOne, D.BeginCallback, D.PushCommand;
    LoopEffect(cfg, env, s, D.Activate(true));
    var active := Y.Step(cfg, env, s, Y.Queue(D.Activate(true)));
    LoopEffect(cfg, env, active, D.Lock);
    var locked := Y.Step(cfg, env, active, Y.Queue(D.Lock));
    assert DrainAll(cfg, env, locked) == locked;
    LoopEffect(cfg, env, locked, D.Wait);
  }

  lemma SingleEmptySession(sessions: seq<seq<D.Command>>)
    requires sessions == [[]]
    ensures Flatten(sessions) == []
  {
    assert sessions[..0] == [];
  }

  /** The shortest such run: start up, a stop signal, and the loop has returned. */
  lemma StartAndStop(cfg: Y.Config, env: S.Env, makeActive: bool, garbage: K.Keypress)
    ensures Execute(cfg, env, Y.Init(makeActive, false, garbage),
                    START + [Turn(true, [Signal(true)]), Turn(true, [])]).daemon.pc == D.Ended(D.Bottom)
  {
    hide Execute, PushesOf, Flatten;
    var now := Execute(cfg, env, Y.Init(makeActive, false, garbage), START);
    StartsUp(cfg, env, makeActive, garbage);
    assert D.Processed(now.daemon) == [] by {
      SingleEmptySession(now.daemon.sessions);
    }
    StopPushes(now.daemon.makeActive, now.daemon.logicalAddress);
    assert QueueAfter(now, [Signal(true)]) == [] + [D.Exit] == [D.Exit];
    hide Execute, QueueAfter, D.Processed, PushesOf;
    StopSignalEndsTheProgram(cfg, env, makeActive, garbage, START, Turn(true, [Signal(true)]), Turn(true, []));
  }
}
