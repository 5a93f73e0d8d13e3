/**
 * What each callback, signal, connection and queued command does (src/main.cpp:150-197, 221-259, 375-536), in terms
 * of the fields alone, and the proof that the steps of Execution do exactly that.
 */
module Callbacks {
  import opened Sequences
  import opened Execution
  import W = Wire
  import K = Keys
  import D = Daemon
  import S = Subscribers
  import Y = System

  // ------------------------------------------------------------ in terms of the fields

  /** The broadcaster when the names have been sent to every client, one line each, in order. */
  function Sent(env: S.Env, h: S.Hub, code: nat, repeat: bool, names: seq<string>): S.Hub {
    if names == [] then h
    else
      var n := |names| - 1;
      S.Broadcast(env, Sent(env, h, code, repeat, names[..n]), W.Line(W.Record(code, repeat, names[n])))
  }

  /** A key is stored and written, with flag 1 from the third BUTTON_UP of the press on; without names, nothing. */
  ghost predicate Presses(cfg: Y.Config, env: S.Env, s: Y.State, key: K.Keypress, t: Y.State) {
    if K.HasNames(cfg.table, key.keycode) then
      && t.keys == K.State(key, s.keys.repeatCount)
      && t.hub == Sent(env, s.hub, key.keycode, s.keys.repeatCount > 2, cfg.table.names[key.keycode])
    else t.keys == s.keys && t.hub == s.hub
  }

  /** The session loop and its queue are as before. */
  predicate SameDaemon(s: Y.State, t: Y.State) {
    && t.daemon.commands == s.daemon.commands && t.daemon.accepted == s.daemon.accepted
    && t.daemon.running == s.daemon.running && t.daemon.makeActive == s.daemon.makeActive
    && t.daemon.restart == s.daemon.restart && t.daemon.logicalAddress == s.daemon.logicalAddress
  }

  predicate SameKeys(s: Y.State, t: Y.State) { t.keys == s.keys && t.hub == s.hub }

  /** The command is queued while a session runs, and dropped otherwise; nothing else happens. */
  predicate Queues(s: Y.State, c: D.Command, t: Y.State) {
    && t.daemon.commands == (if s.daemon.running then s.daemon.commands + [c] else s.daemon.commands)
    && t.daemon.accepted == (if s.daemon.running then s.daemon.accepted + [c] else s.daemon.accepted)
    && t.daemon.running == s.daemon.running && t.daemon.makeActive == s.daemon.makeActive
    && t.daemon.restart == s.daemon.restart && t.daemon.logicalAddress == s.daemon.logicalAddress
    && SameKeys(s, t)
  }

  predicate Untouched(s: Y.State, t: Y.State) { SameDaemon(s, t) && SameKeys(s, t) }

  /** A usable answer of accept() puts a new connection at the front of the list; any other changes nothing. */
  predicate Joins(h: S.Hub, answer: int, h': S.Hub) {
    if answer >= 0 && answer !in h.os.open then
      && h'.clients == [S.Entry(answer, |h.os.streams|)] + h.clients && h'.os.streams == h.os.streams + [""]
      && h'.born == h.born + [|h.log|] && h'.log == h.log
    else h' == h
  }

  /** What comes in takes the daemon from s to t. */
  ghost predicate Handles(cfg: Y.Config, env: S.Env, s: Y.State, w: Incoming, t: Y.State) {
    match w
    case KeyPressed(key) =>
      SameDaemon(s, t) &&
      if key.duration == 0 || key.keycode == cfg.table.anReturn || key.keycode == cfg.table.anChannelsList
      then Presses(cfg, env, s, key, t) else SameKeys(s, t)
    case Command(command) => HandlesCommand(cfg, env, s, command, t)
    case Alerted(alert) =>
      (match alert
       case ServiceDevice => Untouched(s, t)
       case ConnectionLost => Queues(s, D.Restart, t)
       case PermissionError => Queues(s, D.Restart, t)
       case PortBusy => Queues(s, D.Restart, t)
       case PhysicalAddressError => Queues(s, D.Restart, t)
       case TvPollFailed => Queues(s, D.Restart, t)
       case OtherAlert => Untouched(s, t))
    case ConfigurationChanged(address) =>
      && t.daemon.logicalAddress == address && t.daemon.commands == s.daemon.commands
      && t.daemon.accepted == s.daemon.accepted && SameKeys(s, t)
    case MenuStateChanged => SameDaemon(s, t) && Presses(cfg, env, s, K.Keypress(cfg.table.contentsMenu, 0), t)
    case SourceActivated(address, on) =>
      if address != s.daemon.logicalAddress then Untouched(s, t)
      else if on then Queues(s, D.Active, t)
      else Queues(s, D.Inactive, t)
    case Signal(stop) => if stop then Queues(s, D.Exit, t) else Queues(s, D.Restart, t)
    case Connect(answer) => t.daemon == s.daemon && t.keys == s.keys && Joins(s.hub, answer, t.hub)
  }

  ghost predicate HandlesCommand(cfg: Y.Config, env: S.Env, s: Y.State, command: CecCommand, t: Y.State) {
    match command
    case Standby => Queues(s, D.Standby, t)
    case RequestActiveSource => if s.daemon.makeActive then Queues(s, D.Active, t) else Untouched(s, t)
    case SetMenuLanguage => Untouched(s, t)
    case DeckControl(mode) =>
      if mode == DeckStop then SameDaemon(s, t) && Presses(cfg, env, s, K.Keypress(cfg.table.stop, 0), t)
      else Untouched(s, t)
    case Play(mode) =>
      && SameDaemon(s, t)
      && Presses(cfg, env, s, K.Keypress(if mode == PlayStill then cfg.table.pause else cfg.table.play, 0), t)
    case UserControlPressed =>
      && SameDaemon(s, t) && t.hub == s.hub
      && t.keys == K.State(s.keys.lastKey.(keycode := cfg.table.unknown), 0)
    case VendorRemoteButtonUp =>
      var counted := s.keys.(repeatCount := s.keys.repeatCount + 1);
      && SameDaemon(s, t)
      && if counted.repeatCount > 2 && s.keys.lastKey.keycode != cfg.table.unknown
         then Presses(cfg, env, s.(keys := counted), K.Keypress(s.keys.lastKey.keycode, 0), t)
         else t.keys == counted && t.hub == s.hub
    case OtherOpcode => Untouched(s, t)
  }

  // ------------------------------------------------------------ key callbacks

  lemma {:induction false} SentIsBroadcast(env: S.Env, h: S.Hub, code: nat, repeat: bool, names: seq<string>,
                                           out: seq<W.Record>)
    requires |out| == |names| && forall i :: 0 <= i < |out| ==> out[i] == W.Record(code, repeat, names[i])
    ensures Y.BroadcastAll(env, h, W.Lines(out)) == Sent(env, h, code, repeat, names)
  {
    hide S.Broadcast, W.Line;
    if names != [] {
      var n := |names| - 1;
      SentIsBroadcast(env, h, code, repeat, names[..n], out[..n]);
      assert W.Lines(out)[..n] == W.Lines(out[..n]);
    }
  }

  /** A press or an injected key, whose lines are all written. */
  lemma PressedKey(cfg: Y.Config, env: S.Env, s: Y.State, key: K.Keypress, out: seq<W.Record>, t: Y.State)
    requires if K.HasNames(cfg.table, key.keycode)
             then t.keys == K.State(key, s.keys.repeatCount)
                  && K.LinesFor(cfg.table, key.keycode, s.keys.repeatCount > 2, out)
             else t.keys == s.keys && out == []
    requires t.hub == Y.BroadcastAll(env, s.hub, W.Lines(out))
    ensures Presses(cfg, env, s, key, t)
  {
    if K.HasNames(cfg.table, key.keycode) {
      SentIsBroadcast(env, s.hub, key.keycode, s.keys.repeatCount > 2, cfg.table.names[key.keycode], out);
    } else {
      NoLines(env, s.hub);
    }
  }

  lemma InjectHandled(cfg: Y.Config, env: S.Env, s: Y.State, code: int)
    requires s.outbox == map[]
    ensures var t := Y.Run(cfg, env, s, KeyLabels(cfg, s, K.Inject(code)));
            SameDaemon(s, t) && Presses(cfg, env, s, K.Keypress(code, 0), t)
  {
    hide Y.Run, K.Step, KeyLabels, Presses, Y.BroadcastAll, W.Lines;
    KeyEffect(cfg, env, s, K.Inject(code));
    K.WhenAnInjectedKeyWrites(cfg.table, s.keys, code);
    PressedKey(cfg, env, s, K.Keypress(code, 0), K.Step(cfg.table, s.keys, K.Inject(code)).1,
               Y.Run(cfg, env, s, KeyLabels(cfg, s, K.Inject(code))));
  }

  lemma PressHandled(cfg: Y.Config, env: S.Env, s: Y.State, key: K.Keypress)
    requires s.outbox == map[]
    ensures Handles(cfg, env, s, KeyPressed(key), Y.Run(cfg, env, s, KeyLabels(cfg, s, K.Press(key))))
  {
    hide Y.Run, K.Step, KeyLabels, Presses, Y.BroadcastAll, W.Lines;
    KeyEffect(cfg, env, s, K.Press(key));
    K.WhenAPressWrites(cfg.table, s.keys, key);
    NoLines(env, s.hub);
    var t, out := Y.Run(cfg, env, s, KeyLabels(cfg, s, K.Press(key))), K.Step(cfg.table, s.keys, K.Press(key)).1;
    if key.duration == 0 || key.keycode == cfg.table.anReturn || key.keycode == cfg.table.anChannelsList {
      PressedKey(cfg, env, s, key, out, t);
    }
  }

  lemma ControlPressedHandled(cfg: Y.Config, env: S.Env, s: Y.State)
    requires s.outbox == map[]
    ensures HandlesCommand(cfg, env, s, UserControlPressed, Y.Run(cfg, env, s, KeyLabels(cfg, s, K.ControlPressed)))
  {
    hide Y.Run, K.Step, KeyLabels, Y.BroadcastAll, W.Lines;
    KeyEffect(cfg, env, s, K.ControlPressed);
    K.ControlPressedResets(cfg.table, s.keys);
    NoLines(env, s.hub);
  }

  lemma ButtonUpHandled(cfg: Y.Config, env: S.Env, s: Y.State)
    requires s.outbox == map[]
    ensures HandlesCommand(cfg, env, s, VendorRemoteButtonUp, Y.Run(cfg, env, s, KeyLabels(cfg, s, K.ButtonUp)))
  {
    hide Y.Run, K.Step, KeyLabels, Presses, Y.BroadcastAll, W.Lines;
    KeyEffect(cfg, env, s, K.ButtonUp);
    K.WhenAButtonUpWrites(cfg.table, s.keys);
    NoLines(env, s.hub);
    var counted := s.keys.(repeatCount := s.keys.repeatCount + 1);
    var t, out := Y.Run(cfg, env, s, KeyLabels(cfg, s, K.ButtonUp)), K.Step(cfg.table, s.keys, K.ButtonUp).1;
    if counted.repeatCount > 2 && s.keys.lastKey.keycode != cfg.table.unknown {
      PressedKey(cfg, env, s.(keys := counted), K.Keypress(s.keys.lastKey.keycode, 0), out, t);
    }
  }

  // ------------------------------------------------------------ the other callbacks

  lemma PushHandled(cfg: Y.Config, env: S.Env, s: Y.State, callback: D.Callback, c: D.Command)
    requires s.daemon.pc != D.Draining && !callback.ConfigurationChanged?
    requires D.Intends(s.daemon, callback) == multiset{c}
    ensures Queues(s, c, Y.Run(cfg, env, s, PushLabels(callback, c)))
  {
    hide Y.Run, PushLabels, D.Intends;
    PushEffect(cfg, env, s, callback, c);
  }

  lemma BeginHandled(cfg: Y.Config, env: S.Env, s: Y.State, callback: D.Callback)
    ensures var t := Y.Run(cfg, env, s, [Y.Queue(D.Begin(callback))]);
            if callback.ConfigurationChanged?
            then Handles(cfg, env, s, ConfigurationChanged(callback.address), t) else Untouched(s, t)
  {
    hide Y.Run;
    BeginEffect(cfg, env, s, callback);
  }

  lemma CommandIsHandled(cfg: Y.Config, env: S.Env, s: Y.State, command: CecCommand)
    requires s.daemon.pc != D.Draining && s.outbox == map[]
    ensures HandlesCommand(cfg, env, s, command, Y.Run(cfg, env, s, LabelsOf(cfg, s, Command(command))))
  {
    hide Y.Run, KeyLabels, PushLabels, Presses;
    match command
    case Standby => PushHandled(cfg, env, s, D.StandbyRequested, D.Standby);
    case RequestActiveSource =>
      if s.daemon.makeActive {
        PushHandled(cfg, env, s, D.ActiveSourceRequested, D.Active);
      } else {
        BeginHandled(cfg, env, s, D.ActiveSourceRequested);
      }
    case DeckControl(mode) => InjectHandled(cfg, env, s, cfg.table.stop); NothingRun(cfg, env, s);
    case Play(mode) => InjectHandled(cfg, env, s, if mode == PlayStill then cfg.table.pause else cfg.table.play);
    case UserControlPressed => ControlPressedHandled(cfg, env, s);
    case VendorRemoteButtonUp => ButtonUpHandled(cfg, env, s);
    case _ => NothingRun(cfg, env, s);
  }

  /** Whatever comes in while the loop thread does not hold libcec_sync does what the source says, opcode by opcode,
      alert by alert and signal by signal, and nothing else. */
  lemma EverythingIsHandled(cfg: Y.Config, env: S.Env, s: Y.State, w: Incoming)
    requires s.daemon.pc != D.Draining && s.outbox == map[]
    ensures Handles(cfg, env, s, w, Y.Run(cfg, env, s, LabelsOf(cfg, s, w)))
  {
    hide Y.Run, KeyLabels, PushLabels, Presses, HandlesCommand;
    match w
    case KeyPressed(key) => PressHandled(cfg, env, s, key);
    case Command(command) => CommandIsHandled(cfg, env, s, command);
    case Alerted(alert) => PushHandled(cfg, env, s, D.ConnectionAlert, D.Restart); NothingRun(cfg, env, s);
    case ConfigurationChanged(address) => BeginHandled(cfg, env, s, D.ConfigurationChanged(address));
    case MenuStateChanged => InjectHandled(cfg, env, s, cfg.table.contentsMenu);
    case SourceActivated(address, on) =>
      if address == s.daemon.logicalAddress {
        PushHandled(cfg, env, s, D.SourceActivated(address, on), if on then D.Active else D.Inactive);
      } else {
        BeginHandled(cfg, env, s, D.SourceActivated(address, on));
      }
    case Signal(stop) =>
      PushHandled(cfg, env, s, D.SignalStop, D.Exit);
      PushHandled(cfg, env, s, D.SignalRestart, D.Restart);
    case Connect(answer) => AcceptEffect(cfg, env, s, answer); S.AcceptDecides(s.hub, answer);
  }

  // ------------------------------------------------------------ the commands of the queue

  /** Processing the front of the queue: STANDBY presses the power key exactly if no standby command is configured,
      ACTIVE and INACTIVE set makeActive, RESTART and EXIT end the session, and RESTART is remembered. */
  ghost predicate Executes(cfg: Y.Config, env: S.Env, s: Y.State, c: D.Command, t: Y.State) {
    && t.daemon.makeActive == (c == D.Active || (c != D.Inactive && s.daemon.makeActive))
    && t.daemon.running == (c != D.Restart && c != D.Exit)
    && t.daemon.restart == (s.daemon.restart || c == D.Restart)
    && t.daemon.accepted == s.daemon.accepted && t.daemon.logicalAddress == s.daemon.logicalAddress
    && if c == D.Standby && !cfg.hasStandbyCommand
       then Presses(cfg, env, s, K.Keypress(cfg.table.power, 0), t) else SameKeys(s, t)
  }

  lemma FrontIsExecuted(cfg: Y.Config, env: S.Env, s: Y.State)
    requires Idle(s) && D.Enabled(s.daemon, D.Process)
    ensures var t := HandleCommand(cfg, env, s);
            && Executes(cfg, env, s, s.daemon.commands[0], t)
            && t.daemon.commands == s.daemon.commands[1..]
  {
    hide HandleCommand, K.Step, Presses, Y.BroadcastAll, W.Lines;
    HandledCommand(cfg, env, s);
    if s.daemon.commands[0] == D.Standby && !cfg.hasStandbyCommand {
      var power := cfg.table.power;
      PowerEffect(cfg, env, s);
      K.WhenAnInjectedKeyWrites(cfg.table, s.keys, power);
      PressedKey(cfg, env, s, K.Keypress(power, 0), K.Step(cfg.table, s.keys, K.Inject(power)).1,
                 HandleCommand(cfg, env, s));
    } else {
      QuietEffect(cfg, env, s);
    }
  }
}
