/**
 * The class Main (src/main.h:50-121, src/main.cpp:87-88, 103-240, 366-536): its fields are updated in place by
 * the callbacks and by the loop. Methods are proved against the step functions of Keys, Daemon and System, and the
 * loop against the executions of Execution.
 */
module MainClass {
  import opened Execution
  import W = Wire
  import K = Keys
  import D = Daemon
  import S = Subscribers
  import L = LircList
  import Y = System

  class Main {
    const cfg: Y.Config
    const mylirc: L.Lirc
    var makeActive: bool
    var running: bool
    var lastKey: K.Keypress
    var repeatCount: int
    var commands: seq<D.Command>
    var logicalAddress: int
    var calls: seq<D.Call>  // what the cec and lirc objects have been asked to do

    constructor (cfg: Y.Config, env: S.Env, makeActive: bool, garbage: K.Keypress)
      ensures Valid() && fresh(mylirc) && this.cfg == cfg && mylirc.env == env
      ensures Matches(Y.Init(makeActive, false, garbage))
    {
      this.cfg := cfg;
      mylirc := new L.Lirc(env);
      this.makeActive, running, lastKey, repeatCount, commands, logicalAddress, calls :=
        makeActive, false, garbage, 0, [], -1, [];
    }

    ghost predicate Valid()
      reads mylirc, mylirc.nodes
    {
      mylirc.Valid()
    }

    ghost function KeyState(): K.State
      reads this
    {
      K.State(lastKey, repeatCount)
    }

    /** The fields are those of a state of the whole daemon. */
    ghost predicate Matches(s: Y.State)
      reads this, mylirc
    {
      && s.daemon.running == running && s.daemon.makeActive == makeActive && s.daemon.commands == commands
      && s.daemon.logicalAddress == logicalAddress && s.daemon.trace == calls && !s.daemon.clearing
      && s.keys == KeyState() && s.hub == mylirc.hub && s.outbox == map[]
    }

    lemma AsCoded(s: Y.State)
      requires Matches(s)
      ensures !s.daemon.clearing && Idle(s)
    {
    }

    // ---------------------------------------------------------- keys

    /** One line to every client. */
    method WriteLirc(key: K.Keypress, keyString: string, repeat: bool)
      requires Valid() && key.keycode >= 0
      modifies mylirc, mylirc.nodes
      ensures Valid()
      ensures mylirc.hub ==
              S.Broadcast(mylirc.env, old(mylirc.hub), W.Line(W.Record(key.keycode, repeat, keyString)))
      ensures L.Within(mylirc.nodes, old(mylirc.nodes))
    {
      mylirc.ProcessEvent(W.Line(W.Record(key.keycode, repeat, keyString)));
    }

    /** An accepted key is remembered and written, one line per name. */
    method OnCecKeyPress(key: K.Keypress)
      requires Valid()
      modifies this`lastKey, mylirc, mylirc.nodes
      ensures Valid() && KeyState() == K.PressKey(cfg.table, old(KeyState()), key).0
      ensures mylirc.hub ==
              Y.BroadcastAll(mylirc.env, old(mylirc.hub), W.Lines(K.PressKey(cfg.table, old(KeyState()), key).1))
      ensures L.Within(mylirc.nodes, old(mylirc.nodes))
      ensures key.duration != 0 && key.keycode != cfg.table.anReturn && key.keycode != cfg.table.anChannelsList ==>
                lastKey == old(lastKey) && mylirc.hub == old(mylirc.hub)
    {
      hide S.Broadcast, W.Line;
      if 0 <= key.keycode < |cfg.table.names| {
        var uinputKeys := cfg.table.names[key.keycode];
        if uinputKeys != [] {
          if key.duration == 0 || key.keycode == cfg.table.anChannelsList || key.keycode == cfg.table.anReturn {
            lastKey := key;
            ghost var out := K.Records(cfg.table, key.keycode, repeatCount > 2);
            var i := 0;
            while i < |uinputKeys|
              invariant i <= |uinputKeys| && Valid() && lastKey == key && repeatCount == old(repeatCount)
              invariant mylirc.hub == Y.BroadcastAll(mylirc.env, old(mylirc.hub), W.Lines(out)[..i])
              invariant L.Within(mylirc.nodes, old(mylirc.nodes))
            {
              WriteLirc(key, uinputKeys[i], repeatCount > 2);
              assert W.Lines(out)[..i + 1][i] == W.Line(W.Record(key.keycode, repeatCount > 2, uinputKeys[i]));
              assert W.Lines(out)[..i + 1][..i] == W.Lines(out)[..i];
              i := i + 1;
            }
            assert W.Lines(out)[..i] == W.Lines(out);
          }
        }
      }
    }

    method OnCecKeyCode(keycode: int)
      requires Valid()
      modifies this`lastKey, mylirc, mylirc.nodes
      ensures Valid() && KeyState() == K.PressKey(cfg.table, old(KeyState()), K.Keypress(keycode, 0)).0
      ensures mylirc.hub == Y.BroadcastAll(mylirc.env, old(mylirc.hub),
                W.Lines(K.PressKey(cfg.table, old(KeyState()), K.Keypress(keycode, 0)).1))
      ensures L.Within(mylirc.nodes, old(mylirc.nodes))
    {
      OnCecKeyPress(K.Keypress(keycode, 0));
    }

    // ---------------------------------------------------------- the queue

    /** The command has been queued if a session is running, and dropped otherwise. */
    twostate predicate Pushed(c: D.Command)
      reads this
    {
      commands == if old(running) then old(commands) + [c] else old(commands)
    }

    method Push(cmd: D.Command)
      modifies this`commands
      ensures commands == if running then old(commands) + [cmd] else old(commands)
    {
      if running {
        commands := commands + [cmd];
      }
    }

    method Stop()
      modifies this`commands
      ensures commands == if running then old(commands) + [D.Exit] else old(commands)
    {
      Push(D.Exit);
    }

    method Restart()
      modifies this`commands
      ensures commands == if running then old(commands) + [D.Restart] else old(commands)
    {
      Push(D.Restart);
    }

    // ---------------------------------------------------------- callbacks

    method OnCecCommand(command: CecCommand, ghost s: Y.State)
      requires Valid() && Matches(s) && s.daemon.pc != D.Draining
      modifies this`lastKey, this`repeatCount, this`commands, mylirc, mylirc.nodes
      ensures Valid() && Matches(Y.Run(cfg, mylirc.env, s, LabelsOf(cfg, s, Command(command))))
      ensures L.Within(mylirc.nodes, old(mylirc.nodes))
      ensures command.Standby? ==> Pushed(D.Standby)
      ensures command.RequestActiveSource? && makeActive ==> Pushed(D.Active)
      ensures !command.Standby? && !(command.RequestActiveSource? && makeActive) ==> commands == old(commands)
      ensures command.Standby? || command.RequestActiveSource? || command.SetMenuLanguage? || command.OtherOpcode? ==>
                KeyState() == old(KeyState()) && mylirc.hub == old(mylirc.hub)
    {
      hide Y.Run, Y.Step, PushLabels;
      match command {
        case Standby =>
          PushEffect(cfg, mylirc.env, s, D.StandbyRequested, D.Standby);
          Push(D.Standby);
        case RequestActiveSource =>
          if makeActive {
            PushEffect(cfg, mylirc.env, s, D.ActiveSourceRequested, D.Active);
            Push(D.Active);
          } else {
            BeginEffect(cfg, mylirc.env, s, D.ActiveSourceRequested);
          }
          // falls through to the next opcode, which does nothing
        case SetMenuLanguage =>
          NothingRun(cfg, mylirc.env, s);
        case OtherOpcode =>
          NothingRun(cfg, mylirc.env, s);
        case _ =>
          OnKeyCommand(command, s);
      }
    }

    /** The opcodes of onCecCommand that concern keys. */
    method OnKeyCommand(command: CecCommand, ghost s: Y.State)
      requires Valid() && Matches(s)
      requires command.DeckControl? || command.Play? || command.UserControlPressed? || command.VendorRemoteButtonUp?
      modifies this`lastKey, this`repeatCount, mylirc, mylirc.nodes
      ensures Valid() && Matches(Y.Run(cfg, mylirc.env, s, LabelsOf(cfg, s, Command(command))))
      ensures L.Within(mylirc.nodes, old(mylirc.nodes))
      ensures command.UserControlPressed? ==>
                && repeatCount == 0 && lastKey == old(lastKey).(keycode := cfg.table.unknown)
                && mylirc.hub == old(mylirc.hub)
      ensures command.VendorRemoteButtonUp? ==> repeatCount == old(repeatCount) + 1
      ensures command.VendorRemoteButtonUp? && !(old(repeatCount) >= 2 && old(lastKey).keycode != cfg.table.unknown) ==>
                lastKey == old(lastKey) && mylirc.hub == old(mylirc.hub)
      ensures command.DeckControl? || command.Play? ==> repeatCount == old(repeatCount)
    {
      hide Y.Run, Y.Step, Y.BroadcastAll, W.Lines, PushLabels, KeyLabels, K.PressKey;
      hide S.WellFormed, L.Linked, L.Distinct, L.Accounted;
      var t := cfg.table;
      match command {
        case DeckControl(mode) =>
          if mode == DeckStop {
            KeyEffect(cfg, mylirc.env, s, K.Inject(t.stop));
            OnCecKeyCode(t.stop);
          } else {
            NothingRun(cfg, mylirc.env, s);
          }
        case Play(mode) =>
          KeyEffect(cfg, mylirc.env, s, K.Inject(if mode == PlayStill then t.pause else t.play));
          if mode == PlayForward {
            OnCecKeyCode(t.play);
          } else if mode == PlayStill {
            OnCecKeyCode(t.pause);
          } else {
            OnCecKeyCode(t.play);
          }
        case UserControlPressed =>
          KeyEffect(cfg, mylirc.env, s, K.ControlPressed);
          NoLines(mylirc.env, mylirc.hub);
          repeatCount := 0;
          lastKey := lastKey.(keycode := t.unknown);
        case VendorRemoteButtonUp =>
          KeyEffect(cfg, mylirc.env, s, K.ButtonUp);
          NoLines(mylirc.env, mylirc.hub);
          repeatCount := repeatCount + 1;
          if repeatCount > 2 && lastKey.keycode != t.unknown {
            OnCecKeyCode(lastKey.keycode);
          }
      }
    }

    method OnCecAlert(alert: Alert, ghost s: Y.State)
      requires Matches(s) && s.daemon.pc != D.Draining
      modifies this`commands
      ensures Matches(Y.Run(cfg, mylirc.env, s, LabelsOf(cfg, s, Alerted(alert))))
      ensures alert.ServiceDevice? || alert.OtherAlert? ==> commands == old(commands)
      ensures !alert.ServiceDevice? && !alert.OtherAlert? ==> Pushed(D.Restart)
    {
      hide Y.Run, Y.Step, PushLabels;
      if alert == ServiceDevice || alert == OtherAlert { NothingRun(cfg, mylirc.env, s); }
      match alert {
        case ServiceDevice =>
        case OtherAlert =>
        case _ =>
          PushEffect(cfg, mylirc.env, s, D.ConnectionAlert, D.Restart);
          Restart();
      }
    }

    method OnCecConfigurationChanged(address: int, ghost s: Y.State)
      requires Matches(s)
      modifies this`logicalAddress
      ensures Matches(Y.Run(cfg, mylirc.env, s, LabelsOf(cfg, s, ConfigurationChanged(address))))
      ensures logicalAddress == address
    {
      hide Y.Run, Y.Step;
      BeginEffect(cfg, mylirc.env, s, D.ConfigurationChanged(address));
      logicalAddress := address;
    }

    method OnCecMenuStateChanged(ghost s: Y.State)
      requires Valid() && Matches(s)
      modifies this`lastKey, mylirc, mylirc.nodes
      ensures Valid() && Matches(Y.Run(cfg, mylirc.env, s, LabelsOf(cfg, s, MenuStateChanged)))
      ensures L.Within(mylirc.nodes, old(mylirc.nodes))
    {
      hide Y.Run, Y.Step, Y.BroadcastAll, W.Lines, K.PressKey, KeyLabels;
      KeyEffect(cfg, mylirc.env, s, K.Inject(cfg.table.contentsMenu));
      OnCecKeyCode(cfg.table.contentsMenu);
    }

    method OnCecSourceActivated(address: int, activated: bool, ghost s: Y.State)
      requires Matches(s) && s.daemon.pc != D.Draining
      modifies this`commands
      ensures Matches(Y.Run(cfg, mylirc.env, s, LabelsOf(cfg, s, SourceActivated(address, activated))))
      ensures address != logicalAddress ==> commands == old(commands)
      ensures address == logicalAddress && activated ==> Pushed(D.Active)
      ensures address == logicalAddress && !activated ==> Pushed(D.Inactive)
    {
      hide Y.Run, Y.Step, PushLabels;
      if logicalAddress == address {
        var cmd := if activated then D.Active else D.Inactive;
        PushEffect(cfg, mylirc.env, s, D.SourceActivated(address, activated), cmd);
        if activated {
          Push(D.Active);
        } else {
          Push(D.Inactive);
        }
      } else {
        BeginEffect(cfg, mylirc.env, s, D.SourceActivated(address, activated));
      }
    }

    method SignalHandler(stop: bool, ghost s: Y.State)
      requires Matches(s) && s.daemon.pc != D.Draining
      modifies this`commands
      ensures Matches(Y.Run(cfg, mylirc.env, s, LabelsOf(cfg, s, Signal(stop))))
      ensures stop ==> Pushed(D.Exit)
      ensures !stop ==> Pushed(D.Restart)
    {
      hide Y.Run, Y.Step, PushLabels;
      if stop {
        PushEffect(cfg, mylirc.env, s, D.SignalStop, D.Exit);
        Stop();
      } else {
        PushEffect(cfg, mylirc.env, s, D.SignalRestart, D.Restart);
        Restart();
      }
    }

    /** Whatever comes in while the loop thread does not hold libcec_sync. */
    method Handle(w: Incoming, ghost s: Y.State)
      requires Valid() && Matches(s) && s.daemon.pc != D.Draining
      modifies this, mylirc, mylirc.nodes
      ensures Valid() && Matches(Y.Run(cfg, mylirc.env, s, LabelsOf(cfg, s, w)))
      ensures L.OldOrNew(mylirc.nodes, old(mylirc.nodes))
    {
      hide Y.Run, Y.Step, Y.BroadcastAll, W.Lines, K.PressKey, KeyLabels;
      hide S.WellFormed, L.Linked, L.Distinct, L.Accounted, S.AcceptClient;
      match w {
        case KeyPressed(key) =>
          KeyEffect(cfg, mylirc.env, s, K.Press(key));
          OnCecKeyPress(key);
        case Command(command) => OnCecCommand(command, s);
        case Alerted(alert) => OnCecAlert(alert, s);
        case ConfigurationChanged(address) => OnCecConfigurationChanged(address, s);
        case MenuStateChanged => OnCecMenuStateChanged(s);
        case SourceActivated(address, on) => OnCecSourceActivated(address, on, s);
        case Signal(stop) => SignalHandler(stop, s);
        case Connect(answer) =>
          AcceptEffect(cfg, mylirc.env, s, answer);
          if answer < 0 || answer !in mylirc.os.open {
            ghost var newest := mylirc.ProcessNewClient(answer);
          }
      }
    }

    /** A batch of callbacks, one after the other. */
    method HandleAll(incoming: seq<Incoming>, ghost s: Y.State)
      requires Valid() && Matches(s) && s.daemon.pc != D.Draining
      modifies this, mylirc, mylirc.nodes
      ensures Valid() && Matches(Absorb(cfg, mylirc.env, s, incoming))
      ensures L.OldOrNew(mylirc.nodes, old(mylirc.nodes))
    {
      hide Y.Run, Y.Step, LabelsOf, Valid, Matches, SameLoop;
      for i := 0 to |incoming|
        invariant Valid() && Matches(Absorb(cfg, mylirc.env, s, incoming[..i]))
        invariant L.OldOrNew(mylirc.nodes, old(mylirc.nodes))
      {
        ghost var now := Absorb(cfg, mylirc.env, s, incoming[..i]);
        AbsorbKeepsLoop(cfg, mylirc.env, s, incoming[..i]);
        LoopIsWhere(now, s);
        Handle(incoming[i], now);
        assert incoming[..i + 1][..i] == incoming[..i];
      }
      assert incoming[..|incoming|] == incoming;
    }

    // ---------------------------------------------------------- the loop

    /** The front of the queue is handled, then popped. */
    method ProcessFront(restart: bool, ghost s: Y.State) returns (restart': bool)
      requires Valid() && Matches(s) && D.Enabled(s.daemon, D.Process) && s.daemon.restart == restart
      modifies this, mylirc, mylirc.nodes
      ensures Valid() && Matches(HandleCommand(cfg, mylirc.env, s))
      ensures HandleCommand(cfg, mylirc.env, s).daemon.restart == restart'
      ensures L.Within(mylirc.nodes, old(mylirc.nodes))
    {
      hide Y.BroadcastAll, W.Lines, K.PressKey, S.WellFormed, L.Linked, L.Distinct, L.Accounted, HandleCommand;
      if Y.PressesPower(cfg, s.daemon, D.Process) {
        PowerEffect(cfg, mylirc.env, s);
      } else {
        QuietEffect(cfg, mylirc.env, s);
      }
      restart' := restart;
      var cmd := commands[0];
      match cmd {
        case Standby =>
          if !cfg.hasStandbyCommand {
            OnCecKeyCode(cfg.table.power);
          }
        case Active => makeActive := true;
        case Inactive => makeActive := false;
        case Restart => running := false; restart' := true;
        case Exit => running := false;
      }
      commands := commands[1..];
    }

    /** The drain loop, in one critical section of libcec_sync. */
    method Drain(restart: bool, ghost s: Y.State) returns (restart': bool)
      requires Valid() && Matches(s) && s.daemon.pc == D.Draining && s.daemon.sessions != []
      requires s.daemon.restart == restart
      modifies this, mylirc, mylirc.nodes
      ensures Valid() && Matches(DrainAll(cfg, mylirc.env, s))
      ensures DrainAll(cfg, mylirc.env, s).daemon.restart == restart'
      ensures L.Within(mylirc.nodes, old(mylirc.nodes))
    {
      hide HandleCommand, Valid;
      ghost var now := s;
      restart' := restart;
      while running && commands != []
        invariant Valid() && Matches(now) && DrainAll(cfg, mylirc.env, now) == DrainAll(cfg, mylirc.env, s)
        invariant now.daemon.pc == D.Draining && now.daemon.restart == restart' && now.daemon.sessions != []
        invariant L.Within(mylirc.nodes, old(mylirc.nodes))
        decreases |commands|
      {
        HandledCommand(cfg, mylirc.env, now);
        restart' := ProcessFront(restart', now);
        now := HandleCommand(cfg, mylirc.env, now);
      }
    }

    /** From the top of the inner loop to its wait. */
    method Round(restart: bool, ghost s: Y.State) returns (restart': bool)
      requires Valid() && Matches(s) && s.daemon.pc == D.AtLock && s.daemon.sessions != []
      requires s.daemon.restart == restart
      modifies this, mylirc, mylirc.nodes
      ensures Valid() && Matches(RoundOf(cfg, mylirc.env, s))
      ensures RoundOf(cfg, mylirc.env, s).daemon.restart == restart'
      ensures L.Within(mylirc.nodes, old(mylirc.nodes))
    {
      hide DrainAll, Valid, D.ProcessOne, D.BeginCallback, D.PushCommand;
      LoopEffect(cfg, mylirc.env, s, D.Lock);
      ghost var locked := Y.Step(cfg, mylirc.env, s, Y.Queue(D.Lock));
      restart' := Drain(restart, locked);
      DrainAllEnds(cfg, mylirc.env, locked);
      LoopEffect(cfg, mylirc.env, DrainAll(cfg, mylirc.env, locked), D.Wait);
    }

    /** `cec.open(device)`, which may throw. */
    method OpenCec(turn: Turn, ghost s: Y.State)
      requires Valid() && Matches(s) && s.daemon.pc == D.AtOpen
      modifies this, mylirc, mylirc.nodes
      ensures Valid() && Matches(TurnOf(cfg, mylirc.env, s, turn))
      ensures L.OldOrNew(mylirc.nodes, old(mylirc.nodes))
    {
      hide Absorb, Valid, D.ProcessOne, D.BeginCallback, D.PushCommand, RoundOf;
      HandleAll(turn.incoming, s);
      AbsorbKeepsLoop(cfg, mylirc.env, s, turn.incoming);
      LoopEffect(cfg, mylirc.env, Absorb(cfg, mylirc.env, s, turn.incoming), D.Open(turn.ok));
      if turn.ok {
        calls := calls + [D.CecOpen];
      }
    }

    /** `mylirc.Open()`; when it fails only the cec connection is closed again. */
    method OpenLirc(turn: Turn, restart: bool, ghost s: Y.State)
      requires Valid() && Matches(s) && s.daemon.pc == D.AtLirc && s.daemon.restart == restart
      modifies this, mylirc, mylirc.nodes
      ensures Valid() && Matches(TurnOf(cfg, mylirc.env, s, turn))
      ensures L.OldOrNew(mylirc.nodes, old(mylirc.nodes))
    {
      hide Absorb, Valid, D.ProcessOne, D.BeginCallback, D.PushCommand, RoundOf;
      HandleAll(turn.incoming, s);
      AbsorbKeepsLoop(cfg, mylirc.env, s, turn.incoming);
      LoopEffect(cfg, mylirc.env, Absorb(cfg, mylirc.env, s, turn.incoming), D.OpenLirc(turn.ok));
      if turn.ok {
        calls, running := calls + [D.LircOpen], true;
      } else {
        calls := calls + [D.CecClose(!restart)];
      }
    }

    /** `if (makeActive) cec.makeActive();`, which may throw, and the first round of the inner loop. */
    method Activate(turn: Turn, restart: bool, ghost s: Y.State) returns (threw: bool, restart': bool)
      requires Valid() && Matches(s) && s.daemon.pc == D.AtActivate && s.daemon.sessions != []
      requires s.daemon.restart == restart
      modifies this, mylirc, mylirc.nodes
      ensures Valid() && Matches(TurnOf(cfg, mylirc.env, s, turn))
      ensures TurnOf(cfg, mylirc.env, s, turn).daemon.restart == restart'
      ensures threw <==> TurnOf(cfg, mylirc.env, s, turn).daemon.pc == D.Ended(D.ActivateThrew)
      ensures L.OldOrNew(mylirc.nodes, old(mylirc.nodes))
    {
      hide Absorb, Valid, D.ProcessOne, D.BeginCallback, D.PushCommand, RoundOf;
      HandleAll(turn.incoming, s);
      AbsorbKeepsLoop(cfg, mylirc.env, s, turn.incoming);
      ghost var told := Absorb(cfg, mylirc.env, s, turn.incoming);
      LoopEffect(cfg, mylirc.env, told, D.Activate(turn.ok));
      ghost var now := Y.Step(cfg, mylirc.env, told, Y.Queue(D.Activate(turn.ok)));
      threw, restart' := makeActive && !turn.ok, restart;
      if makeActive {
        calls := calls + [D.MakeActive];
      }
      if !threw {
        RoundWaits(cfg, mylirc.env, now);
        restart' := Round(restart, now);
      }
    }

    /** The wait, its end, and either another round or the end of the session. */
    method AwaitTurn(turn: Turn, restart: bool, ghost s: Y.State) returns (finished: bool, restart': bool)
      requires Valid() && Matches(s) && s.daemon.pc == D.Waiting && s.daemon.sessions != []
      requires s.daemon.restart == restart
      modifies this, mylirc, mylirc.nodes
      ensures Valid() && Matches(TurnOf(cfg, mylirc.env, s, turn))
      ensures TurnOf(cfg, mylirc.env, s, turn).daemon.restart == restart'
      ensures finished <==> TurnOf(cfg, mylirc.env, s, turn).daemon.pc != D.Waiting
      ensures L.OldOrNew(mylirc.nodes, old(mylirc.nodes))
    {
      hide Absorb, Valid, D.ProcessOne, D.BeginCallback, D.PushCommand, RoundOf;
      HandleAll(turn.incoming, s);
      AbsorbKeepsLoop(cfg, mylirc.env, s, turn.incoming);
      ghost var told := Absorb(cfg, mylirc.env, s, turn.incoming);
      LoopEffect(cfg, mylirc.env, told, D.Wake);
      ghost var now := Y.Step(cfg, mylirc.env, told, Y.Queue(D.Wake));
      finished, restart' := !running, restart;
      if running {
        RoundWaits(cfg, mylirc.env, now);
        restart' := Round(restart, now);
      } else {
        LoopEffect(cfg, mylirc.env, now, D.Close);
        calls := calls + [D.CecClose(!restart), D.LircClose];
      }
    }

    /**
     * Main::loop. Each turn of the schedule is what happens at the next point where the loop thread is outside
     * libcec_sync, and whether the call made there succeeds. When the schedule is used up the loop is still
     * running; otherwise the outcome says how it was left.
     */
    method Loop(schedule: seq<Turn>, ghost s0: Y.State) returns (outcome: Outcome)
      requires Valid() && Matches(s0) && s0.daemon.pc == D.AtOpen && !s0.daemon.restart
      modifies this, mylirc, mylirc.nodes
      ensures Valid() && Matches(Execute(cfg, mylirc.env, s0, schedule))
      ensures outcome == match Execute(cfg, mylirc.env, s0, schedule).daemon.pc
                         case Ended(how) => Returned(how)
                         case _ => StillRunning
    {
      hide Valid, Matches, TurnOf, Execute;
      var k, restart := 0, false;
      ExecuteFrom(cfg, mylirc.env, s0, schedule, 0);
      ghost var s := s0;
      assert schedule[..|schedule|] == schedule;
      while true
        invariant k <= |schedule| && s == Execute(cfg, mylirc.env, s0, schedule[..k]) && Valid() && Matches(s)
        invariant s.daemon.pc == D.AtOpen && s.daemon.restart == restart
        invariant L.OldOrNew(mylirc.nodes, old(mylirc.nodes))
        decreases |schedule| - k
      {
        if k == |schedule| { return StillRunning; }
        ExecuteFrom(cfg, mylirc.env, s0, schedule, k);
        AsCoded(s);
        OpenTurn(cfg, mylirc.env, s, schedule[k]);
        OpenCec(schedule[k], s);
        s, k := TurnOf(cfg, mylirc.env, s, schedule[k]), k + 1;
        if !schedule[k - 1].ok {
          EndedStays(cfg, mylirc.env, s0, schedule, k);
          return Returned(D.OpenThrew);
        }

        if k == |schedule| { return StillRunning; }
        ExecuteFrom(cfg, mylirc.env, s0, schedule, k);
        AsCoded(s);
        LircTurn(cfg, mylirc.env, s, schedule[k]);
        OpenLirc(schedule[k], restart, s);
        s, k := TurnOf(cfg, mylirc.env, s, schedule[k]), k + 1;
        if !schedule[k - 1].ok {
          EndedStays(cfg, mylirc.env, s0, schedule, k);
          return Returned(D.LircFailed);
        }

        if k == |schedule| { return StillRunning; }
        ExecuteFrom(cfg, mylirc.env, s0, schedule, k);
        AsCoded(s);
        ActivateTurn(cfg, mylirc.env, s, schedule[k]);
        var threw;
        threw, restart := Activate(schedule[k], restart, s);
        s, k := TurnOf(cfg, mylirc.env, s, schedule[k]), k + 1;
        if threw {
          EndedStays(cfg, mylirc.env, s0, schedule, k);
          return Returned(D.ActivateThrew);
        }

        var finished := false;
        while !finished
          invariant k <= |schedule| && s == Execute(cfg, mylirc.env, s0, schedule[..k]) && Valid() && Matches(s)
          invariant s.daemon.restart == restart && s.daemon.sessions != []
          invariant if !finished then s.daemon.pc == D.Waiting
                    else s.daemon.pc == (if restart then D.AtOpen else D.Ended(D.Bottom))
          invariant L.OldOrNew(mylirc.nodes, old(mylirc.nodes))
          decreases |schedule| - k, !finished
        {
          if k == |schedule| { return StillRunning; }
          ExecuteFrom(cfg, mylirc.env, s0, schedule, k);
          AsCoded(s);
          WaitTurn(cfg, mylirc.env, s, schedule[k]);
          finished, restart := AwaitTurn(schedule[k], restart, s);
          s, k := TurnOf(cfg, mylirc.env, s, schedule[k]), k + 1;
        }
        if !restart {
          EndedStays(cfg, mylirc.env, s0, schedule, k);
          return Returned(D.Bottom);
        }
      }
    }
  }
}
