/**
 * What Main::loop does on a schedule of callbacks and call results (src/main.cpp:103-219, 412-536), as a function
 * on states of the whole daemon, and the proof that each such execution is one of its interleavings.
 */
module Execution {
  import opened Sequences
  import W = Wire
  import K = Keys
  import D = Daemon
  import S = Subscribers
  import Y = System

  // ------------------------------------------------------------ what comes in

  datatype DeckMode = DeckStop | OtherDeckMode
  datatype PlayMode = PlayForward | PlayStill | OtherPlayMode

  /** A received CEC command, by opcode, with the parameter that is looked at. */
  datatype CecCommand =
    | Standby | RequestActiveSource | SetMenuLanguage | DeckControl(deck: DeckMode) | Play(play: PlayMode)
    | UserControlPressed | VendorRemoteButtonUp | OtherOpcode

  datatype Alert =
    | ServiceDevice | ConnectionLost | PermissionError | PortBusy | PhysicalAddressError | TvPollFailed | OtherAlert

  /** Everything that can reach the daemon from outside its loop thread. */
  datatype Incoming =
    | KeyPressed(key: K.Keypress) | Command(command: CecCommand) | Alerted(alert: Alert)
    | ConfigurationChanged(address: int) | MenuStateChanged | SourceActivated(address: int, on: bool)
    | Signal(stop: bool) | Connect(answer: int)

  const CALLBACK: Y.Thread := 1

  /** How many lines a key event asks for. */
  function LinesOf(cfg: Y.Config, s: Y.State, e: K.Event): nat { |K.Step(cfg.table, s.keys, e).1| }

  /** A key event and all its lines, with no other step in between. */
  function KeyLabels(cfg: Y.Config, s: Y.State, e: K.Event): seq<Y.Label> {
    [Y.Key(CALLBACK, e)] + Y.Writes(CALLBACK, LinesOf(cfg, s, e))
  }

  function PushLabels(callback: D.Callback, c: D.Command): seq<Y.Label> {
    [Y.Queue(D.Begin(callback)), Y.Queue(D.Push(c))]
  }

  /** A callback that runs undisturbed, as steps of the whole daemon; key callbacks come on one thread. */
  function LabelsOf(cfg: Y.Config, s: Y.State, w: Incoming): seq<Y.Label> {
    match w
    case KeyPressed(key) => KeyLabels(cfg, s, K.Press(key))
    case Command(Standby) => PushLabels(D.StandbyRequested, D.Standby)
    case Command(RequestActiveSource) =>
      if s.daemon.makeActive then PushLabels(D.ActiveSourceRequested, D.Active)
      else [Y.Queue(D.Begin(D.ActiveSourceRequested))]
    case Command(SetMenuLanguage) => []
    case Command(DeckControl(mode)) => if mode == DeckStop then KeyLabels(cfg, s, K.Inject(cfg.table.stop)) else []
    case Command(Play(mode)) =>
      KeyLabels(cfg, s, K.Inject(if mode == PlayStill then cfg.table.pause else cfg.table.play))
    case Command(UserControlPressed) => KeyLabels(cfg, s, K.ControlPressed)
    case Command(VendorRemoteButtonUp) => KeyLabels(cfg, s, K.ButtonUp)
    case Command(OtherOpcode) => []
    case Alerted(alert) =>
      if alert == ServiceDevice || alert == OtherAlert then [] else PushLabels(D.ConnectionAlert, D.Restart)
    case ConfigurationChanged(address) => [Y.Queue(D.Begin(D.ConfigurationChanged(address)))]
    case MenuStateChanged => KeyLabels(cfg, s, K.Inject(cfg.table.contentsMenu))
    case SourceActivated(address, on) =>
      if address == s.daemon.logicalAddress
      then PushLabels(D.SourceActivated(address, on), if on then D.Active else D.Inactive)
      else [Y.Queue(D.Begin(D.SourceActivated(address, on)))]
    case Signal(stop) => if stop then PushLabels(D.SignalStop, D.Exit) else PushLabels(D.SignalRestart, D.Restart)
    case Connect(answer) => [Y.Accept(answer)]
  }

  lemma NothingRun(cfg: Y.Config, env: S.Env, s: Y.State)
    ensures Y.Run(cfg, env, s, []) == s
  {
  }

  lemma OneLabel(cfg: Y.Config, env: S.Env, s: Y.State, l: Y.Label)
    ensures Y.Run(cfg, env, s, [l]) == Y.Step(cfg, env, s, l)
  {
    hide Y.Step;
    assert [l][..0] == [];
  }

  lemma TwoLabels(cfg: Y.Config, env: S.Env, s: Y.State, l: Y.Label, m: Y.Label)
    ensures Y.Run(cfg, env, s, [l, m]) == Y.Step(cfg, env, Y.Step(cfg, env, s, l), m)
  {
    hide Y.Step;
    OneLabel(cfg, env, s, l);
    assert [l, m][..1] == [l];
  }

  lemma CallbackStep(cfg: Y.Config, env: S.Env, s: Y.State, d: D.Label)
    requires d.Begin? || d.Push?
    ensures Y.Step(cfg, env, s, Y.Queue(d)) == s.(daemon := D.Next(s.daemon, d))
  {
    hide D.Next;
  }

  lemma BeginEffect(cfg: Y.Config, env: S.Env, s: Y.State, callback: D.Callback)
    ensures var t := Y.Run(cfg, env, s, [Y.Queue(D.Begin(callback))]);
            && t == s.(daemon := t.daemon)
            && t.daemon == s.daemon.(pending := t.daemon.pending,
                 logicalAddress := if callback.ConfigurationChanged? then callback.address else s.daemon.logicalAddress)
  {
    OneLabel(cfg, env, s, Y.Queue(D.Begin(callback)));
    CallbackStep(cfg, env, s, D.Begin(callback));
    hide Y.Run, Y.Step, D.Intends;
  }

  /** A callback whose push follows at once leaves nothing pending. */
  lemma PushEffect(cfg: Y.Config, env: S.Env, s: Y.State, callback: D.Callback, c: D.Command)
    requires s.daemon.pc != D.Draining && !callback.ConfigurationChanged?
    requires D.Intends(s.daemon, callback) == multiset{c}
    ensures var t := Y.Run(cfg, env, s, PushLabels(callback, c));
            && t == s.(daemon := s.daemon.(commands := t.daemon.commands, accepted := t.daemon.accepted))
            && t.daemon.commands == (if s.daemon.running then s.daemon.commands + [c] else s.daemon.commands)
            && t.daemon.accepted == (if s.daemon.running then s.daemon.accepted + [c] else s.daemon.accepted)
  {
    TwoLabels(cfg, env, s, Y.Queue(D.Begin(callback)), Y.Queue(D.Push(c)));
    CallbackStep(cfg, env, s, D.Begin(callback));
    var begun := D.BeginCallback(s.daemon, callback);
    CallbackStep(cfg, env, s.(daemon := begun), D.Push(c));
    hide Y.Run, Y.Step, D.Next, D.BeginCallback, D.PushCommand, D.Intends;
    PushBegun(s.daemon, callback, c);
    CallbackIsEnabled(s.daemon, D.Begin(callback));
    CallbackIsEnabled(begun, D.Push(c));
  }

  lemma PushBegun(d: D.State, callback: D.Callback, c: D.Command)
    requires !callback.ConfigurationChanged? && D.Intends(d, callback) == multiset{c}
    ensures c in D.BeginCallback(d, callback).pending && D.BeginCallback(d, callback).pc == d.pc
    ensures var t := D.PushCommand(D.BeginCallback(d, callback), c);
            && t == d.(commands := t.commands, accepted := t.accepted)
            && t.commands == (if d.running then d.commands + [c] else d.commands)
            && t.accepted == (if d.running then d.accepted + [c] else d.accepted)
  {
    hide D.Intends;
    assert D.BeginCallback(d, callback).pending - multiset{c} == d.pending;
  }

  lemma CallbackIsEnabled(d: D.State, l: D.Label)
    requires l.Begin? || (l.Push? && l.command in d.pending && d.pc != D.Draining)
    ensures D.Next(d, l) == if l.Begin? then D.BeginCallback(d, l.callback) else D.PushCommand(d, l.command)
  {
    hide D.BeginCallback, D.PushCommand, D.ProcessOne;
  }

  /** What an event does whose lines are written at once. */
  lemma PressEffect(cfg: Y.Config, env: S.Env, s: Y.State, t: Y.Thread, e: K.Event)
    requires t !in s.outbox
    ensures var s' := Y.Run(cfg, env, Y.Press(cfg, s, t, e), Y.Writes(t, LinesOf(cfg, s, e)));
            && s'.daemon == s.daemon && s'.outbox == s.outbox && s'.keys == K.Step(cfg.table, s.keys, e).0
            && s'.hub == Y.BroadcastAll(env, s.hub, W.Lines(K.Step(cfg.table, s.keys, e).1))
            && s'.history == s.history + [Y.Happening(t, e, K.Step(cfg.table, s.keys, e).1)]
  {
    hide Y.Run, K.Step, Y.BroadcastAll, W.Line;
    var pressed, out := Y.Press(cfg, s, t, e), K.Step(cfg.table, s.keys, e).1;
    assert Y.Outbox(pressed, t) == out;
    Y.WritesRun(cfg, env, pressed, t, |out|);
    assert W.Lines(out)[..|out|] == W.Lines(out);
    assert s.outbox - {t} == s.outbox && s.outbox[t := out] - {t} == s.outbox;
  }

  /** A key event of a callback, when no lines are waiting. */
  lemma KeyEffect(cfg: Y.Config, env: S.Env, s: Y.State, e: K.Event)
    requires s.outbox == map[]
    ensures var t := Y.Run(cfg, env, s, KeyLabels(cfg, s, e));
            && t.daemon == s.daemon && t.outbox == map[] && t.keys == K.Step(cfg.table, s.keys, e).0
            && t.hub == Y.BroadcastAll(env, s.hub, W.Lines(K.Step(cfg.table, s.keys, e).1))
            && t.history == s.history + [Y.Happening(CALLBACK, e, K.Step(cfg.table, s.keys, e).1)]
  {
    hide Y.Run, K.Step, Y.BroadcastAll, W.Lines, Y.Press, LinesOf;
    OneLabel(cfg, env, s, Y.Key(CALLBACK, e));
    Y.RunAppend(cfg, env, s, [Y.Key(CALLBACK, e)], Y.Writes(CALLBACK, LinesOf(cfg, s, e)));
    PressEffect(cfg, env, s, CALLBACK, e);
  }

  lemma NoLines(env: S.Env, h: S.Hub)
    ensures Y.BroadcastAll(env, h, W.Lines([])) == h
  {
  }

  lemma AcceptEffect(cfg: Y.Config, env: S.Env, s: Y.State, answer: int)
    ensures var t := Y.Run(cfg, env, s, [Y.Accept(answer)]);
            t == s.(hub := S.AcceptClient(s.hub, answer)) && (!S.Accepted(s.hub, answer) ==> t == s)
  {
    OneLabel(cfg, env, s, Y.Accept(answer));
  }

  // ------------------------------------------------------------ callbacks do not move the loop

  /** The loop thread has no lines to write. */
  predicate Idle(s: Y.State) { Y.LOOP !in s.outbox }

  /** Callbacks do not move the loop thread. */
  predicate SameLoop(s: Y.State, t: Y.State) {
    && s.daemon.pc == t.daemon.pc && s.daemon.running == t.daemon.running
    && s.daemon.makeActive == t.daemon.makeActive && s.daemon.restart == t.daemon.restart
    && s.daemon.sessions == t.daemon.sessions && s.daemon.trace == t.daemon.trace
    && s.daemon.clearing == t.daemon.clearing && Idle(s) == Idle(t)
  }

  lemma LoopIsWhere(s: Y.State, t: Y.State)
    requires SameLoop(s, t)
    ensures s.daemon.pc == t.daemon.pc
  {
  }

  predicate FromOutside(l: Y.Label) {
    match l
    case Queue(d) => d.Begin? || d.Push?
    case Write(t) => t != Y.LOOP
    case _ => true
  }

  lemma LabelsFromOutside(cfg: Y.Config, s: Y.State, w: Incoming)
    ensures forall l | l in LabelsOf(cfg, s, w) :: FromOutside(l)
  {
    hide LinesOf;
  }

  lemma StepKeepsLoop(cfg: Y.Config, env: S.Env, s: Y.State, l: Y.Label)
    requires FromOutside(l)
    ensures SameLoop(Y.Step(cfg, env, s, l), s)
  {
    hide K.Step, S.Broadcast, W.Line, S.AcceptClient;
    match l
    case Queue(d) =>
      hide D.BeginCallback, D.PushCommand, D.ProcessOne;
      assert Y.Step(cfg, env, s, l) == s.(daemon := D.Next(s.daemon, d));
    case _ =>
      hide D.Next;
  }

  lemma {:induction false} RunKeepsLoop(cfg: Y.Config, env: S.Env, s: Y.State, labels: seq<Y.Label>)
    requires forall l | l in labels :: FromOutside(l)
    ensures SameLoop(Y.Run(cfg, env, s, labels), s)
  {
    hide Y.Step, FromOutside;
    if labels != [] {
      var n := |labels| - 1;
      RunKeepsLoop(cfg, env, s, labels[..n]);
      StepKeepsLoop(cfg, env, Y.Run(cfg, env, s, labels[..n]), labels[n]);
    }
  }

  // ------------------------------------------------------------ one command

  /** The loop handles one command; STANDBY may press the power key, whose lines it then writes. */
  function ProcessLabels(cfg: Y.Config, s: Y.State): seq<Y.Label> {
    var lines := if Y.PressesPower(cfg, s.daemon, D.Process) then LinesOf(cfg, s, K.Inject(cfg.table.power)) else 0;
    [Y.Queue(D.Process)] + Y.Writes(Y.LOOP, lines)
  }

  function HandleCommand(cfg: Y.Config, env: S.Env, s: Y.State): Y.State {
    Y.Run(cfg, env, s, ProcessLabels(cfg, s))
  }

  lemma PowerEffect(cfg: Y.Config, env: S.Env, s: Y.State)
    requires Idle(s) && Y.PressesPower(cfg, s.daemon, D.Process)
    ensures var (keys, out) := K.Step(cfg.table, s.keys, K.Inject(cfg.table.power));
            var t := HandleCommand(cfg, env, s);
            && t.daemon == D.Next(s.daemon, D.Process) && t.outbox == s.outbox && t.keys == keys
            && t.hub == Y.BroadcastAll(env, s.hub, W.Lines(out))
            && t.history == s.history + [Y.Happening(Y.LOOP, K.Inject(cfg.table.power), out)]
  {
    hide Y.Run, K.Step, Y.BroadcastAll, W.Lines, D.Next, LinesOf;
    var power := K.Inject(cfg.table.power);
    var writes := Y.Writes(Y.LOOP, LinesOf(cfg, s, power));
    OneLabel(cfg, env, s, Y.Queue(D.Process));
    Y.RunAppend(cfg, env, s, [Y.Queue(D.Process)], writes);
    PressEffect(cfg, env, s, Y.LOOP, power);
    WritesLeaveDaemon(cfg, env, Y.Press(cfg, s, Y.LOOP, power), D.Next(s.daemon, D.Process), Y.LOOP, |writes|);
  }

  /** Writing lines takes no notice of the session loop. */
  lemma {:induction false} WritesLeaveDaemon(cfg: Y.Config, env: S.Env, s: Y.State, d: D.State, t: Y.Thread, k: nat)
    ensures Y.Run(cfg, env, s.(daemon := d), Y.Writes(t, k)) ==
            Y.Run(cfg, env, s, Y.Writes(t, k)).(daemon := d)
  {
    hide S.Broadcast, W.Line;
    if k == 0 {
      NothingRun(cfg, env, s);
      NothingRun(cfg, env, s.(daemon := d));
      assert Y.Writes(t, 0) == [];
    } else {
      WritesLeaveDaemon(cfg, env, s, d, t, k - 1);
      assert Y.Writes(t, k - 1) + [Y.Write(t)] == Y.Writes(t, k);
      Y.RunSnoc(cfg, env, s, Y.Writes(t, k - 1), Y.Write(t));
      Y.RunSnoc(cfg, env, s.(daemon := d), Y.Writes(t, k - 1), Y.Write(t));
      hide Y.Run;
    }
  }

  lemma QuietEffect(cfg: Y.Config, env: S.Env, s: Y.State)
    requires Idle(s) && !Y.PressesPower(cfg, s.daemon, D.Process)
    ensures HandleCommand(cfg, env, s) == s.(daemon := D.Next(s.daemon, D.Process))
  {
    hide D.Next;
    assert ProcessLabels(cfg, s) == [Y.Queue(D.Process)];
    OneLabel(cfg, env, s, Y.Queue(D.Process));
  }

  lemma HandledCommand(cfg: Y.Config, env: S.Env, s: Y.State)
    requires Idle(s) && D.Enabled(s.daemon, D.Process)
    ensures var t := HandleCommand(cfg, env, s);
            && t.daemon == D.ProcessOne(s.daemon) && Idle(t)
            && t.daemon.pc == D.Draining && t.daemon.sessions != [] && t.daemon.commands == s.daemon.commands[1..]
  {
    hide HandleCommand, K.Step, Y.BroadcastAll, W.Lines;
    if Y.PressesPower(cfg, s.daemon, D.Process) {
      PowerEffect(cfg, env, s);
    } else {
      QuietEffect(cfg, env, s);
    }
  }

  // ------------------------------------------------------------ the loop on a schedule, as a function

  /** One turn of the environment: what comes in, and whether the call the loop makes next succeeds. */
  datatype Turn = Turn(ok: bool, incoming: seq<Incoming>)

  datatype Outcome = StillRunning | Returned(how: D.Ending)

  /** The state after a batch of callbacks. */
  function Absorb(cfg: Y.Config, env: S.Env, s: Y.State, incoming: seq<Incoming>): Y.State {
    if incoming == [] then s
    else
      var before := Absorb(cfg, env, s, incoming[..|incoming| - 1]);
      Y.Run(cfg, env, before, LabelsOf(cfg, before, incoming[|incoming| - 1]))
  }

  lemma {:induction false} AbsorbKeepsLoop(cfg: Y.Config, env: S.Env, s: Y.State, incoming: seq<Incoming>)
    ensures SameLoop(Absorb(cfg, env, s, incoming), s)
  {
    hide Y.Run, LabelsOf, FromOutside;
    if incoming != [] {
      var n := |incoming| - 1;
      AbsorbKeepsLoop(cfg, env, s, incoming[..n]);
      var before := Absorb(cfg, env, s, incoming[..n]);
      LabelsFromOutside(cfg, before, incoming[n]);
      RunKeepsLoop(cfg, env, before, LabelsOf(cfg, before, incoming[n]));
    }
  }

  /** Process the queue until it is empty or the session is over. */
  function DrainAll(cfg: Y.Config, env: S.Env, s: Y.State): Y.State
    decreases |s.daemon.commands|
  {
    if D.Enabled(s.daemon, D.Process) && Idle(s) then
      HandledCommand(cfg, env, s);
      DrainAll(cfg, env, HandleCommand(cfg, env, s))
    else s
  }

  function RoundOf(cfg: Y.Config, env: S.Env, s: Y.State): Y.State {
    Y.Step(cfg, env, DrainAll(cfg, env, Y.Step(cfg, env, s, Y.Queue(D.Lock))), Y.Queue(D.Wait))
  }

  /** One turn: callbacks come in, then the loop thread goes on to the next point where callbacks can come in. */
  function TurnOf(cfg: Y.Config, env: S.Env, s: Y.State, turn: Turn): Y.State {
    if s.daemon.pc.Ended? then s
    else
      var told := Absorb(cfg, env, s, turn.incoming);
      match told.daemon.pc
      case AtOpen => Y.Step(cfg, env, told, Y.Queue(D.Open(turn.ok)))
      case AtLirc => Y.Step(cfg, env, told, Y.Queue(D.OpenLirc(turn.ok)))
      case AtActivate =>
        var now := Y.Step(cfg, env, told, Y.Queue(D.Activate(turn.ok)));
        if now.daemon.pc == D.AtLock then RoundOf(cfg, env, now) else now
      case Waiting =>
        var now := Y.Step(cfg, env, told, Y.Queue(D.Wake));
        if now.daemon.pc == D.AtLock then RoundOf(cfg, env, now) else Y.Step(cfg, env, now, Y.Queue(D.Close))
      case _ => told
  }

  function Execute(cfg: Y.Config, env: S.Env, s: Y.State, schedule: seq<Turn>): Y.State {
    if schedule == [] then s
    else TurnOf(cfg, env, Execute(cfg, env, s, schedule[..|schedule| - 1]), schedule[|schedule| - 1])
  }

  lemma ExecuteFrom(cfg: Y.Config, env: S.Env, s: Y.State, schedule: seq<Turn>, k: nat)
    requires k <= |schedule|
    ensures Execute(cfg, env, s, schedule[..0]) == s
    ensures k < |schedule| ==>
              Execute(cfg, env, s, schedule[..k + 1]) ==
              TurnOf(cfg, env, Execute(cfg, env, s, schedule[..k]), schedule[k])
  {
    hide TurnOf;
    if k < |schedule| {
      assert schedule[..k + 1][..k] == schedule[..k];
    }
  }

  lemma EndedTurn(cfg: Y.Config, env: S.Env, s: Y.State, turn: Turn)
    requires s.daemon.pc.Ended?
    ensures TurnOf(cfg, env, s, turn) == s
  {
  }

  lemma {:induction false} EndedStays(cfg: Y.Config, env: S.Env, s: Y.State, schedule: seq<Turn>, k: nat)
    requires k <= |schedule| && Execute(cfg, env, s, schedule[..k]).daemon.pc.Ended?
    ensures Execute(cfg, env, s, schedule) == Execute(cfg, env, s, schedule[..k])
  {
    hide TurnOf;
    if k == |schedule| {
      assert schedule[..k] == schedule;
    } else {
      var n := |schedule| - 1;
      assert schedule[..n][..k] == schedule[..k];
      EndedStays(cfg, env, s, schedule[..n], k);
      EndedTurn(cfg, env, Execute(cfg, env, s, schedule[..n]), schedule[n]);
    }
  }

  lemma LoopEffect(cfg: Y.Config, env: S.Env, s: Y.State, d: D.Label)
    requires d != D.Process && Idle(s)
    ensures Y.Step(cfg, env, s, Y.Queue(d)) == s.(daemon := D.Next(s.daemon, d))
  {
    hide D.Next;
  }

  lemma {:induction false} DrainAllEnds(cfg: Y.Config, env: S.Env, s: Y.State)
    requires s.daemon.pc == D.Draining && s.daemon.sessions != [] && Idle(s)
    ensures var t := DrainAll(cfg, env, s);
            && t.daemon.pc == D.Draining && t.daemon.sessions != [] && Idle(t)
            && !(t.daemon.running && t.daemon.commands != [])
    decreases |s.daemon.commands|
  {
    hide HandleCommand;
    if D.Enabled(s.daemon, D.Process) {
      HandledCommand(cfg, env, s);
      DrainAllEnds(cfg, env, HandleCommand(cfg, env, s));
    }
  }

  lemma RoundWaits(cfg: Y.Config, env: S.Env, s: Y.State)
    requires s.daemon.pc == D.AtLock && s.daemon.sessions != [] && Idle(s)
    ensures var t := RoundOf(cfg, env, s); t.daemon.pc == D.Waiting && t.daemon.sessions != [] && Idle(t)
  {
    hide D.ProcessOne, D.BeginCallback, D.PushCommand, DrainAll;
    LoopEffect(cfg, env, s, D.Lock);
    var locked := Y.Step(cfg, env, s, Y.Queue(D.Lock));
    DrainAllEnds(cfg, env, locked);
    LoopEffect(cfg, env, DrainAll(cfg, env, locked), D.Wait);
  }

  lemma OpenTurn(cfg: Y.Config, env: S.Env, s: Y.State, turn: Turn)
    requires s.daemon.pc == D.AtOpen && !s.daemon.clearing && Idle(s)
    ensures Idle(TurnOf(cfg, env, s, turn))
    ensures var d := TurnOf(cfg, env, s, turn).daemon;
            d.pc == (if turn.ok then D.AtLirc else D.Ended(D.OpenThrew)) && d.restart == s.daemon.restart && !d.clearing
  {
    hide Absorb, RoundOf, D.ProcessOne, D.BeginCallback, D.PushCommand;
    AbsorbKeepsLoop(cfg, env, s, turn.incoming);
    LoopEffect(cfg, env, Absorb(cfg, env, s, turn.incoming), D.Open(turn.ok));
  }

  lemma LircTurn(cfg: Y.Config, env: S.Env, s: Y.State, turn: Turn)
    requires s.daemon.pc == D.AtLirc && Idle(s)
    ensures Idle(TurnOf(cfg, env, s, turn))
    ensures var d := TurnOf(cfg, env, s, turn).daemon;
            && d.pc == (if turn.ok then D.AtActivate else D.Ended(D.LircFailed)) && d.restart == s.daemon.restart
            && (turn.ok ==> d.sessions != [])
  {
    hide Absorb, RoundOf, D.ProcessOne, D.BeginCallback, D.PushCommand;
    AbsorbKeepsLoop(cfg, env, s, turn.incoming);
    LoopEffect(cfg, env, Absorb(cfg, env, s, turn.incoming), D.OpenLirc(turn.ok));
  }

  lemma ActivateTurn(cfg: Y.Config, env: S.Env, s: Y.State, turn: Turn)
    requires s.daemon.pc == D.AtActivate && s.daemon.sessions != [] && Idle(s)
    ensures Idle(TurnOf(cfg, env, s, turn))
    ensures var d := TurnOf(cfg, env, s, turn).daemon;
            d.pc == D.Ended(D.ActivateThrew) || (d.pc == D.Waiting && d.sessions != [])
  {
    hide Absorb, RoundOf, D.ProcessOne, D.BeginCallback, D.PushCommand;
    AbsorbKeepsLoop(cfg, env, s, turn.incoming);
    var told := Absorb(cfg, env, s, turn.incoming);
    LoopEffect(cfg, env, told, D.Activate(turn.ok));
    var now := Y.Step(cfg, env, told, Y.Queue(D.Activate(turn.ok)));
    if now.daemon.pc == D.AtLock {
      RoundWaits(cfg, env, now);
    }
  }

  lemma WaitTurn(cfg: Y.Config, env: S.Env, s: Y.State, turn: Turn)
    requires s.daemon.pc == D.Waiting && s.daemon.sessions != [] && Idle(s)
    ensures Idle(TurnOf(cfg, env, s, turn))
    ensures var d := TurnOf(cfg, env, s, turn).daemon;
            && d.sessions != []
            && (d.pc == D.Waiting || d.pc == if d.restart then D.AtOpen else D.Ended(D.Bottom))
  {
    hide Absorb, RoundOf, D.ProcessOne, D.BeginCallback, D.PushCommand;
    AbsorbKeepsLoop(cfg, env, s, turn.incoming);
    var told := Absorb(cfg, env, s, turn.incoming);
    LoopEffect(cfg, env, told, D.Wake);
    var now := Y.Step(cfg, env, told, Y.Queue(D.Wake));
    if now.daemon.pc == D.AtLock {
      RoundWaits(cfg, env, now);
    } else {
      LoopEffect(cfg, env, now, D.Close);
    }
  }

  // ------------------------------------------------------------ executions are runs

  lemma {:induction false} AbsorbIsRun(cfg: Y.Config, env: S.Env, s: Y.State, incoming: seq<Incoming>)
    returns (labels: seq<Y.Label>)
    ensures Absorb(cfg, env, s, incoming) == Y.Run(cfg, env, s, labels)
  {
    hide Y.Run, LabelsOf;
    if incoming == [] {
      labels := [];
      NothingRun(cfg, env, s);
    } else {
      var n := |incoming| - 1;
      var before := AbsorbIsRun(cfg, env, s, incoming[..n]);
      var more := LabelsOf(cfg, Absorb(cfg, env, s, incoming[..n]), incoming[n]);
      Y.RunAppend(cfg, env, s, before, more);
      labels := before + more;
    }
  }

  lemma {:induction false} DrainIsRun(cfg: Y.Config, env: S.Env, s: Y.State) returns (labels: seq<Y.Label>)
    ensures DrainAll(cfg, env, s) == Y.Run(cfg, env, s, labels)
    decreases |s.daemon.commands|
  {
    hide Y.Run, ProcessLabels;
    if D.Enabled(s.daemon, D.Process) && Idle(s) {
      HandledCommand(cfg, env, s);
      var rest := DrainIsRun(cfg, env, HandleCommand(cfg, env, s));
      Y.RunAppend(cfg, env, s, ProcessLabels(cfg, s), rest);
      labels := ProcessLabels(cfg, s) + rest;
    } else {
      labels := [];
      NothingRun(cfg, env, s);
    }
  }

  lemma RoundIsRun(cfg: Y.Config, env: S.Env, s: Y.State) returns (labels: seq<Y.Label>)
    ensures RoundOf(cfg, env, s) == Y.Run(cfg, env, s, labels)
  {
    hide Y.Run, Y.Step, DrainAll;
    var locked := Y.Step(cfg, env, s, Y.Queue(D.Lock));
    var drained := DrainIsRun(cfg, env, locked);
    OneLabel(cfg, env, s, Y.Queue(D.Lock));
    Y.RunAppend(cfg, env, s, [Y.Queue(D.Lock)], drained);
    Y.RunSnoc(cfg, env, s, [Y.Queue(D.Lock)] + drained, Y.Queue(D.Wait));
    labels := [Y.Queue(D.Lock)] + drained + [Y.Queue(D.Wait)];
  }

  lemma Then(cfg: Y.Config, env: S.Env, s: Y.State, labels: seq<Y.Label>, d: D.Label) returns (longer: seq<Y.Label>)
    ensures Y.Run(cfg, env, s, longer) == Y.Step(cfg, env, Y.Run(cfg, env, s, labels), Y.Queue(d))
  {
    hide Y.Step;
    Y.RunSnoc(cfg, env, s, labels, Y.Queue(d));
    longer := labels + [Y.Queue(d)];
  }

  lemma ThenRound(cfg: Y.Config, env: S.Env, s: Y.State, labels: seq<Y.Label>) returns (longer: seq<Y.Label>)
    ensures var now := Y.Run(cfg, env, s, labels);
            Y.Run(cfg, env, s, longer) == if now.daemon.pc == D.AtLock then RoundOf(cfg, env, now) else now
  {
    hide Y.Run, RoundOf;
    var now := Y.Run(cfg, env, s, labels);
    longer := labels;
    if now.daemon.pc == D.AtLock {
      var more := RoundIsRun(cfg, env, now);
      Y.RunAppend(cfg, env, s, labels, more);
      longer := labels + more;
    }
  }

  lemma TurnIsRun(cfg: Y.Config, env: S.Env, s: Y.State, turn: Turn) returns (labels: seq<Y.Label>)
    ensures TurnOf(cfg, env, s, turn) == Y.Run(cfg, env, s, labels)
  {
    hide Y.Run, Y.Step, Absorb, RoundOf;
    labels := [];
    NothingRun(cfg, env, s);
    if !s.daemon.pc.Ended? {
      labels := AbsorbIsRun(cfg, env, s, turn.incoming);
      var told := Absorb(cfg, env, s, turn.incoming);
      match told.daemon.pc
      case AtOpen => labels := Then(cfg, env, s, labels, D.Open(turn.ok));
      case AtLirc => labels := Then(cfg, env, s, labels, D.OpenLirc(turn.ok));
      case AtActivate =>
        labels := Then(cfg, env, s, labels, D.Activate(turn.ok));
        labels := ThenRound(cfg, env, s, labels);
      case Waiting =>
        labels := Then(cfg, env, s, labels, D.Wake);
        if Y.Run(cfg, env, s, labels).daemon.pc == D.AtLock {
          labels := ThenRound(cfg, env, s, labels);
        } else {
          labels := Then(cfg, env, s, labels, D.Close);
        }
      case _ =>
    }
  }

  /** Every execution of Main::loop is one of the interleavings the other modules quantify over. */
  lemma {:induction false} ExecutionIsRun(cfg: Y.Config, env: S.Env, s: Y.State, schedule: seq<Turn>)
    returns (labels: seq<Y.Label>)
    ensures Execute(cfg, env, s, schedule) == Y.Run(cfg, env, s, labels)
  {
    hide Y.Run, TurnOf;
    if schedule == [] {
      labels := [];
      NothingRun(cfg, env, s);
    } else {
      var n := |schedule| - 1;
      var before := ExecutionIsRun(cfg, env, s, schedule[..n]);
      var more := TurnIsRun(cfg, env, Execute(cfg, env, s, schedule[..n]), schedule[n]);
      Y.RunAppend(cfg, env, s, before, more);
      labels := before + more;
    }
  }

  /** So in every state Main::loop reaches from its start, the session invariants hold and the bytes of every
      subscribed client decode to the records emitted since it connected. */
  lemma LoopIsSound(cfg: Y.Config, env: S.Env, makeActive: bool, garbage: K.Keypress, schedule: seq<Turn>)
    requires cfg.table.Valid()
    ensures var s := Execute(cfg, env, Y.Init(makeActive, false, garbage), schedule);
            D.Inv(makeActive, s.daemon) && Y.AllServed(s)
  {
    hide Execute, D.Inv, D.Run, Y.Run, Y.AllServed, Y.Composed;
    var init := Y.Init(makeActive, false, garbage);
    var labels := ExecutionIsRun(cfg, env, init, schedule);
    Y.EveryRunIsComposed(cfg, env, makeActive, false, garbage, labels);
    var steps := Y.DaemonAlone(cfg, env, makeActive, false, garbage, labels);
    D.EveryRun(makeActive, false, steps);
    Y.ComposedServes(cfg, env, garbage, Execute(cfg, env, init, schedule));
  }
}
