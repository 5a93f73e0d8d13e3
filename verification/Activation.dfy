/**
 * Becoming the active source (src/main.cpp:140-143, 167-178, 424-432, 523-536): who can set makeActive, and when
 * the unlocked read of it in onCecCommand lets a device that was reported inactive come back.
 */
module Activation {
  import opened Sequences
  import opened Daemon
  import opened DaemonRuns

  /** Somebody has reported this device, under the logical address known at that moment, as activated. */
  ghost predicate OwnActivation(init: State, labels: seq<Label>) {
    exists k :: 0 <= k < |labels| && labels[k] == Begin(SourceActivated(Run(init, labels[..k]).logicalAddress, true))
  }

  lemma OwnActivationSnoc(init: State, labels: seq<Label>)
    requires labels != [] && !OwnActivation(init, labels)
    ensures var n := |labels| - 1;
            && !OwnActivation(init, labels[..n])
            && labels[n] != Begin(SourceActivated(Run(init, labels[..n]).logicalAddress, true))
  {
    hide Run;
    var n := |labels| - 1;
    assert forall k :: 0 <= k < n ==> labels[..n][k] == labels[k] && labels[..n][..k] == labels[..k];
  }

  // ------------------------------------------------------------ no activation out of nothing

  /** Nothing in the state asks for activation. */
  predicate Passive(s: State) {
    !s.makeActive && Active !in s.commands && Active !in s.pending
  }

  lemma IntendsNoActive(s: State, callback: Callback)
    requires !s.makeActive && callback != SourceActivated(s.logicalAddress, true)
    ensures Active !in Intends(s, callback)
  {
  }

  lemma StaysPassive(s: State, l: Label)
    requires Passive(s) && l != Begin(SourceActivated(s.logicalAddress, true))
    ensures Passive(Next(s, l)) && (MakeActive in Next(s, l).trace ==> MakeActive in s.trace)
  {
    hide ProcessOne, BeginCallback, PushCommand;
    match l
    case Process => if Enabled(s, l) { ProcessStaysPassive(s); }
    case Begin(callback) => BeginStaysPassive(s, callback);
    case Push(c) => if Enabled(s, l) { PushStaysPassive(s, c); }
    case _ =>
  }

  lemma BeginStaysPassive(s: State, callback: Callback)
    requires Passive(s) && callback != SourceActivated(s.logicalAddress, true)
    ensures Passive(BeginCallback(s, callback))
  {
    hide Intends;
    IntendsNoActive(s, callback);
  }

  lemma PushStaysPassive(s: State, c: Command)
    requires Passive(s) && c in s.pending
    ensures Passive(PushCommand(s, c))
  {
  }

  lemma ProcessStaysPassive(s: State)
    requires Passive(s) && Enabled(s, Process)
    ensures Passive(ProcessOne(s)) && ProcessOne(s).trace == s.trace
  {
    assert s.commands[0] in s.commands;
  }

  /** From any state that asks for no activation, every continuation without a report of one stays that way, and
      cec.makeActive() is not called. */
  lemma {:induction false} PassiveForGood(s: State, labels: seq<Label>)
    requires Passive(s) && !OwnActivation(s, labels)
    ensures Passive(Run(s, labels)) && (MakeActive in Run(s, labels).trace ==> MakeActive in s.trace)
  {
    hide Next, Passive, OwnActivation;
    if labels != [] {
      var n := |labels| - 1;
      OwnActivationSnoc(s, labels);
      PassiveForGood(s, labels[..n]);
      StaysPassive(Run(s, labels[..n]), labels[n]);
    }
  }

  /** Started with -a and never reported active, the daemon never activates itself, under any interleaving. */
  lemma NoSpontaneousActivation(clearing: bool, labels: seq<Label>)
    requires !OwnActivation(Init(false, clearing), labels)
    ensures var s := Run(Init(false, clearing), labels); Passive(s) && MakeActive !in s.trace
  {
    hide Run, OwnActivation;
    PassiveForGood(Init(false, clearing), labels);
  }

  // ------------------------------------------------------------ when an inactive device can come back

  /** The loop is still going when it has processed the queue: each EXIT in it finds a RESTART before it, in the
      queue or already processed. With restart cleared per session every EXIT ends the loop. */
  predicate Outlives(clearing: bool, restart: bool, queue: seq<Command>)
    decreases |queue|
  {
    if queue == [] then true
    else if queue[0] == Exit then !clearing && restart && Outlives(clearing, restart, queue[1..])
    else Outlives(clearing, restart || queue[0] == Restart, queue[1..])
  }

  /** Some ACTIVE in the queue is processed before the loop ends. */
  predicate ComesToActive(clearing: bool, restart: bool, queue: seq<Command>) {
    exists k | 0 <= k < |queue| :: queue[k] == Active && Outlives(clearing, restart, queue[..k])
  }

  /** The loop has not ended, and is not about to end with the session that is just over. */
  predicate GoingOn(s: State) {
    !s.pc.Ended? && (s.running || s.restart || s.pc == AtOpen || s.pc == AtLirc)
  }

  /** An ACTIVE that the loop will come to is queued, or one is under way and the loop outlives the queue. */
  predicate CanComeBack(s: State) {
    && GoingOn(s)
    && (ComesToActive(s.clearing, s.restart, s.commands)
        || (Active in s.pending && Outlives(s.clearing, s.restart, s.commands)))
  }

  lemma {:induction false} OutlivesClearing(restart: bool, restart': bool, queue: seq<Command>)
    ensures Outlives(true, restart, queue) == Outlives(true, restart', queue)
    decreases |queue|
  {
    if queue != [] && queue[0] != Exit {
      OutlivesClearing(restart || queue[0] == Restart, restart' || queue[0] == Restart, queue[1..]);
    }
  }

  lemma ComesClearing(restart: bool, restart': bool, queue: seq<Command>)
    ensures ComesToActive(true, restart, queue) == ComesToActive(true, restart', queue)
  {
    hide Outlives;
    forall k | 0 <= k < |queue| ensures Outlives(true, restart, queue[..k]) == Outlives(true, restart', queue[..k]) {
      OutlivesClearing(restart, restart', queue[..k]);
    }
  }

  /** Taking the front of the queue off, unless it is an EXIT that ends the loop. */
  lemma ComesOff(clearing: bool, restart: bool, queue: seq<Command>)
    requires queue != [] && queue[0] != Active
    ensures ComesToActive(clearing, restart, queue) <==>
            && (queue[0] == Exit ==> !clearing && restart)
            && ComesToActive(clearing, restart || queue[0] == Restart, queue[1..])
  {
    var restart' := restart || queue[0] == Restart;
    forall k | 0 < k < |queue|
      ensures Outlives(clearing, restart, queue[..k]) <==>
              (queue[0] == Exit ==> !clearing && restart) && Outlives(clearing, restart', queue[1..][..k - 1])
    {
      assert queue[..k][1..] == queue[1..][..k - 1];
    }
    if ComesToActive(clearing, restart, queue) {
      var k :| 0 <= k < |queue| && queue[k] == Active && Outlives(clearing, restart, queue[..k]);
      assert queue[1..][k - 1] == Active;
    }
    if (queue[0] == Exit ==> !clearing && restart) && ComesToActive(clearing, restart', queue[1..]) {
      var k :| 0 <= k < |queue| - 1 && queue[1..][k] == Active && Outlives(clearing, restart', queue[1..][..k]);
      assert queue[k + 1] == Active;
    }
  }

  lemma {:induction false} OutlivesFront(clearing: bool, restart: bool, queue: seq<Command>, k: nat)
    requires k <= |queue| && Outlives(clearing, restart, queue)
    ensures Outlives(clearing, restart, queue[..k])
    decreases |queue|
  {
    if k > 0 {
      OutlivesFront(clearing, restart || queue[0] == Restart, queue[1..], k - 1);
      assert queue[..k][1..] == queue[1..][..k - 1];
    }
  }

  /** Putting a command at the end of the queue. */
  lemma ComesOn(clearing: bool, restart: bool, queue: seq<Command>, c: Command)
    ensures ComesToActive(clearing, restart, queue + [c]) <==>
            ComesToActive(clearing, restart, queue) || (c == Active && Outlives(clearing, restart, queue))
    ensures Outlives(clearing, restart, queue + [c]) ==> Outlives(clearing, restart, queue)
  {
    var longer := queue + [c];
    assert longer[..|queue|] == queue;
    if Outlives(clearing, restart, longer) {
      OutlivesFront(clearing, restart, longer, |queue|);
    }
    hide Outlives;
    assert forall k :: 0 <= k < |queue| ==> longer[..k] == queue[..k] && longer[k] == queue[k];
  }

  /** While a session runs with restart cleared per session, restart is false. */
  lemma NoRestartYet(s: State)
    requires Shaped(s) && RestartIs(s) && s.running && s.clearing
    ensures !s.restart
  {
  }

  /** What processing a command other than ACTIVE does to the prospects. */
  lemma ProcessedProspects(s: State)
    requires Shaped(s) && RestartIs(s) && Enabled(s, Process) && s.commands[0] != Active
    ensures CanComeBack(ProcessOne(s)) <==> CanComeBack(s)
  {
    ComesOff(s.clearing, s.restart, s.commands);
    if s.clearing {
      NoRestartYet(s);
    }
    hide Shaped, RestartIs, ComesToActive;
  }

  /** No other step but the report of an activation improves the prospects. */
  lemma NoBetter(s: State, l: Label)
    requires Shaped(s) && RestartIs(s) && !s.makeActive && !CanComeBack(s)
    requires l != Begin(SourceActivated(s.logicalAddress, true))
    ensures !Next(s, l).makeActive && !CanComeBack(Next(s, l))
  {
    hide Shaped, RestartIs, ComesToActive, Outlives, ProcessOne, PushCommand, BeginCallback, GoingOn;
    if Enabled(s, l) {
      match l
      case Process => ProcessNoBetter(s);
      case Push(c) => PushNoBetter(s, c);
      case Begin(callback) => BeginNoBetter(s, callback);
      case _ => LoopNoBetter(s, l);
    }
  }

  lemma ActiveComesFirst(s: State)
    requires Enabled(s, Process) && s.commands[0] == Active
    ensures CanComeBack(s)
  {
    assert Outlives(s.clearing, s.restart, s.commands[..0]);
  }

  lemma ProcessNoBetter(s: State)
    requires Shaped(s) && RestartIs(s) && !s.makeActive && !CanComeBack(s) && Enabled(s, Process)
    ensures !ProcessOne(s).makeActive && !CanComeBack(ProcessOne(s))
  {
    if s.commands[0] == Active {
      ActiveComesFirst(s);
      assert false;
    }
    ProcessedProspects(s);
    hide CanComeBack;
  }

  lemma PushNoBetter(s: State, c: Command)
    requires !s.makeActive && !CanComeBack(s) && Enabled(s, Push(c))
    ensures !PushCommand(s, c).makeActive && !CanComeBack(PushCommand(s, c))
  {
    hide ComesToActive, Outlives;
    if s.running {
      ComesOn(s.clearing, s.restart, s.commands, c);
    }
  }

  lemma BeginNoBetter(s: State, callback: Callback)
    requires !s.makeActive && !CanComeBack(s) && callback != SourceActivated(s.logicalAddress, true)
    ensures !BeginCallback(s, callback).makeActive && !CanComeBack(BeginCallback(s, callback))
  {
    hide ComesToActive, Outlives, Intends;
    IntendsNoActive(s, callback);
  }

  lemma LoopNoBetter(s: State, l: Label)
    requires Shaped(s) && !s.makeActive && !CanComeBack(s) && Enabled(s, l) && l != Process && !l.Push? && !l.Begin?
    ensures !Next(s, l).makeActive && !CanComeBack(Next(s, l))
  {
    hide ComesToActive, Outlives, ProcessOne, PushCommand, BeginCallback, Going, Finished;
    if l.Open? && s.clearing {
      OutlivesClearing(s.restart, false, s.commands);
      ComesClearing(s.restart, false, s.commands);
    }
  }

  lemma {:induction false} NeverBetter(s: State, labels: seq<Label>)
    requires Shaped(s) && RestartIs(s) && !s.makeActive && !CanComeBack(s) && !OwnActivation(s, labels)
    ensures var t := Run(s, labels); Shaped(t) && RestartIs(t) && !t.makeActive && !CanComeBack(t)
  {
    hide Next, Shaped, RestartIs, CanComeBack, OwnActivation;
    if labels != [] {
      var n := |labels| - 1;
      OwnActivationSnoc(s, labels);
      NeverBetter(s, labels[..n]);
      var t := Run(s, labels[..n]);
      KeepsShaped(t, labels[n]);
      KeepsRestart(t, labels[n]);
      NoBetter(t, labels[n]);
    }
  }

  // ------------------------------------------------------------ a schedule that brings it back

  /** The step that leads on: push the ACTIVE as soon as it can be queued, and otherwise let the loop run. */
  function Onward(s: State): Label {
    if s.running && s.pc != Draining && Active in s.pending then Push(Active)
    else
      match s.pc
      case AtOpen => Open(true)
      case AtLirc => OpenLirc(true)
      case AtActivate => Activate(true)
      case AtLock => Lock
      case Draining => if s.running && s.commands != [] then Process else Wait
      case Waiting => Wake
      case _ => Close
  }

  /** How far the loop is from its next command. */
  function Distance(s: State): nat {
    match s.pc
    case AtLirc => 6
    case AtOpen => 7
    case AtActivate => 4
    case AtLock => 2
    case Waiting => if s.running then 3 else 9
    case Draining => if s.running then (if s.commands == [] then 5 else 1) else 10
    case _ => 8
  }

  lemma OnwardProcesses(s: State)
    requires Shaped(s) && RestartIs(s) && CanComeBack(s) && Onward(s) == Process
    ensures Enabled(s, Process) && |ProcessOne(s).commands| < |s.commands| && ProcessOne(s).pending == s.pending
    ensures ProcessOne(s).makeActive || CanComeBack(ProcessOne(s))
  {
    assert Enabled(s, Process) by {
      hide RestartIs, CanComeBack;
    }
    if s.commands[0] != Active {
      ProcessedProspects(s);
    }
    hide CanComeBack, Shaped, RestartIs;
  }

  lemma OnwardPushes(s: State)
    requires CanComeBack(s) && Onward(s) == Push(Active)
    ensures PushCommand(s, Active).pending[Active] < s.pending[Active] && CanComeBack(PushCommand(s, Active))
  {
    hide ComesToActive, Outlives;
    ComesOn(s.clearing, s.restart, s.commands, Active);
  }

  lemma OnwardLoops(s: State)
    requires Shaped(s) && !s.makeActive && CanComeBack(s) && Onward(s) != Process && !Onward(s).Push?
    ensures var t := Next(s, Onward(s));
            && CanComeBack(t) && t.pending == s.pending && t.commands == s.commands && Distance(t) < Distance(s)
  {
    assert ComesToActive(s.clearing, s.restart, s.commands) ==> s.commands != [];
    hide ComesToActive, Outlives, ProcessOne, PushCommand, BeginCallback, Going, Finished;
    if s.pc == AtOpen && s.clearing {
      OutlivesClearing(s.restart, false, s.commands);
      ComesClearing(s.restart, false, s.commands);
    }
  }

  lemma {:induction false} ComesBack(s: State) returns (labels: seq<Label>)
    requires Shaped(s) && RestartIs(s) && (s.makeActive || CanComeBack(s))
    ensures Run(s, labels).makeActive && forall l | l in labels :: !l.Begin?
    decreases s.pending[Active], |s.commands|, Distance(s)
  {
    hide Shaped, RestartIs, CanComeBack, Distance, Next, Run;
    if s.makeActive {
      labels := [];
      EmptyRun(s, labels);
    } else {
      var l := Onward(s);
      var t := Next(s, l);
      OnwardLeads(s);
      KeepsShaped(s, l);
      KeepsRestart(s, l);
      var rest := ComesBack(t);
      SingleRun(s, l);
      RunAppend(s, [l], rest);
      labels := [l] + rest;
    }
  }

  lemma OnwardLeads(s: State)
    requires Shaped(s) && RestartIs(s) && !s.makeActive && CanComeBack(s)
    ensures var t := Next(s, Onward(s));
            && !Onward(s).Begin? && (t.makeActive || CanComeBack(t))
            && (t.pending[Active] < s.pending[Active]
                || (t.pending == s.pending
                    && (|t.commands| < |s.commands| || (t.commands == s.commands && Distance(t) < Distance(s)))))
  {
    hide Shaped, RestartIs, CanComeBack, Distance, ProcessOne, PushCommand, BeginCallback;
    if Onward(s) == Process {
      OnwardProcesses(s);
    } else if Onward(s).Push? {
      OnwardPushes(s);
    } else {
      OnwardLoops(s);
    }
  }

  lemma SingleRun(s: State, l: Label)
    ensures Run(s, [l]) == Next(s, l)
  {
    hide Next;
    assert [l][..0] == [];
  }

  /**
   * Main result: in any reachable state in which the device is inactive, some schedule activates it again with no
   * activation of it being reported from then on, if and only if an ACTIVE the loop will come to is queued, or one
   * is under way and the loop outlives the queue.
   */
  lemma WhenItCanComeBack(makeActive: bool, clearing: bool, before: seq<Label>)
    requires !Run(Init(makeActive, clearing), before).makeActive
    ensures var s := Run(Init(makeActive, clearing), before);
            (exists labels :: !OwnActivation(s, labels) && Run(s, labels).makeActive) <==> CanComeBack(s)
  {
    hide Run, CanComeBack, OwnActivation, Conserved, Folded, Traced, EndsRight, Shaped, RestartIs;
    var s := Run(Init(makeActive, clearing), before);
    EveryRun(makeActive, clearing, before);
    if CanComeBack(s) {
      var labels := ComesBack(s);
      NoReport(s, labels);
    } else {
      forall labels | !OwnActivation(s, labels) ensures !Run(s, labels).makeActive {
        NeverBetter(s, labels);
      }
    }
  }

  lemma NoReport(s: State, labels: seq<Label>)
    requires forall l | l in labels :: !l.Begin?
    ensures !OwnActivation(s, labels)
  {
    hide Run;
  }

  lemma {:induction false} OutlivesOrdinary(clearing: bool, restart: bool, queue: seq<Command>)
    requires Exit !in queue
    ensures Outlives(clearing, restart, queue)
    decreases |queue|
  {
    if queue != [] {
      OutlivesOrdinary(clearing, restart || queue[0] == Restart, queue[1..]);
    }
  }

  /** In a running session with no EXIT queued that is: an ACTIVE is queued, or on its way from a reminder. */
  lemma InARunningSession(s: State)
    requires s.running && !s.pc.Ended? && Exit !in s.commands
    ensures CanComeBack(s) <==> Active in s.commands || Active in s.pending
  {
    hide Outlives;
    OutlivesOrdinary(s.clearing, s.restart, s.commands);
    if Active in s.commands {
      var k :| 0 <= k < |s.commands| && s.commands[k] == Active;
      OutlivesOrdinary(s.clearing, s.restart, s.commands[..k]);
    }
  }

  // ------------------------------------------------------------ the race

  /** The device, at address 4, is reported inactive while a reminder is on its way. */
  const RACE: seq<Label> := [
    Open(true), OpenLirc(true), Activate(true),
    Begin(ConfigurationChanged(4)), Begin(ActiveSourceRequested), Begin(SourceActivated(4, false)),
    Push(Inactive), Lock, Process,
    Wait, Wake, Push(Active), Lock, Process]

  function Report(s: State): State {
    Next(Next(Next(s, RACE[3]), RACE[4]), RACE[5])
  }

  lemma Reported(s: State)
    requires s.makeActive && s.pending == multiset{}
    ensures var t := Report(s);
            && t.pending == multiset{Active, Inactive} && t.pc == s.pc && t.running == s.running
            && t.commands == s.commands && t.sessions == s.sessions
  {
  }

  lemma RaceRuns(s: State)
    ensures Run(s, RACE[..9]) == Handle(Report(Start(s)), Inactive)
    ensures Run(s, RACE) == Handle(Next(Next(Run(s, RACE[..9]), Wait), Wake), Active)
  {
    hide Next, Run;
    var front := RACE[..9];
    RunIsRunFrom(s, front, 0);
    EmptyRun(s, front[..0]);
    UnrollThree(s, front, 0);
    UnrollThree(Start(s), front, 3);
    UnrollThree(Report(Start(s)), front, 6);
    RunIsRunFrom(s, RACE, 9);
    var half := Run(s, front);
    Unroll(half, RACE, 9);
    Unroll(Next(half, Wait), RACE, 10);
    UnrollThree(Next(Next(half, Wait), Wake), RACE, 11);
  }

  /** The race in full: deactivated by the processed INACTIVE, and activated again with no activation reported. */
  lemma ReminderUndoesDeactivation(clearing: bool)
    ensures var init := Init(true, clearing);
            && !OwnActivation(init, RACE)
            && !Run(init, RACE[..9]).makeActive && Run(init, RACE).makeActive
            && Processed(Run(init, RACE)) == [Inactive, Active]
  {
    var init := Init(true, clearing);
    hide Run, Start, Report, Handle, Next;
    RaceRuns(init);
    Started(init);
    Reported(Start(init));
    Handled(Report(Start(init)), Inactive);
    var half := Handle(Report(Start(init)), Inactive);
    var woken := Next(Next(half, Wait), Wake);
    Woken(half);
    assert woken.pending == multiset{Active};
    Handled(woken, Active);
    assert Processed(Handle(woken, Active)) == Processed(init) + [Inactive] + [Active] == [Inactive, Active];
    NobodyActivates(init);
  }

  lemma Woken(s: State)
    requires s.pc == Draining && s.running && s.commands == []
    ensures var t := Next(Next(s, Wait), Wake); t == s.(pc := AtLock)
  {
  }

  lemma NobodyActivates(init: State)
    ensures !OwnActivation(init, RACE)
  {
    hide Run;
  }
}
