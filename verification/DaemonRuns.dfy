/** What the invariants of the session loop mean for whole runs, and where the code falls short of its intent. */
module DaemonRuns {
  import opened Sequences
  import opened Daemon

  /** The code as it is, started by main() with or without the -a option. */
  function AsCoded(makeActive: bool): State { Init(makeActive, false) }

  lemma {:induction false} RunAppend(init: State, a: seq<Label>, b: seq<Label>)
    ensures Run(init, a + b) == Run(Run(init, a), b)
  {
    hide Next;
    if b == [] {
      assert a + b == a;
    } else {
      var n := |b| - 1;
      RunAppend(init, a, b[..n]);
      assert a + b == (a + b[..n]) + [b[n]];
      RunSnoc(init, a + b[..n], b[n]);
    }
  }

  // ------------------------------------------------------------ the queue

  lemma OnlyGrows(s: State, l: Label)
    ensures Processed(s) <= Processed(Next(s, l)) && s.accepted <= Next(s, l).accepted
  {
    hide BeginCallback, Flatten;
    if Enabled(s, l) && l.OpenLirc? {
      EmptySession(s.sessions);
    } else if Enabled(s, l) && l == Process {
      ExtendLast(s.sessions, s.commands[0]);
    }
  }

  lemma {:induction false} GrowsAlong(init: State, labels: seq<Label>, more: seq<Label>)
    ensures Processed(Run(init, labels)) <= Processed(Run(init, labels + more))
    ensures Run(init, labels).accepted <= Run(init, labels + more).accepted
  {
    hide Next, Processed;
    if more == [] {
      assert labels + more == labels;
    } else {
      var n := |more| - 1;
      GrowsAlong(init, labels, more[..n]);
      assert labels + more == (labels + more[..n]) + [more[n]];
      RunSnoc(init, labels + more[..n], more[n]);
      OnlyGrows(Run(init, labels + more[..n]), more[n]);
    }
  }

  /**
   * Conservation over any number of sessions: what was accepted is what was processed and then what is queued,
   * and what is queued now (behind a RESTART, say) is what will be processed next, in the same order.
   */
  lemma QueueIsConserved(makeActive: bool, clearing: bool, labels: seq<Label>, more: seq<Label>)
    ensures var s, later := Run(Init(makeActive, clearing), labels), Run(Init(makeActive, clearing), labels + more);
            && s.accepted == Processed(s) + s.commands
            && Processed(s) <= Processed(later)
            && Processed(s) + s.commands <= Processed(later) + later.commands
  {
    hide Next, Shaped, RestartIs, EndsRight, Folded, Traced, Processed;
    var init := Init(makeActive, clearing);
    EveryRun(makeActive, clearing, labels);
    EveryRun(makeActive, clearing, labels + more);
    GrowsAlong(init, labels, more);
  }

  // ------------------------------------------------------------ leaving the loop

  lemma LastTerminator(session: seq<Command>)
    requires Finished(session)
    ensures session[|session| - 1] == Restart <==> Restart in session
    ensures session[|session| - 1] == Exit <==> Restart !in session
  {
    var n := |session| - 1;
    assert session[..n] + [session[n]] == session;
    assert !(Restart in session[..n]);
  }

  lemma InLastOrBefore(sessions: seq<seq<Command>>)
    requires sessions != []
    ensures Restart in sessions[|sessions| - 1] ==> Restart in Flatten(sessions)
  {
  }

  /**
   * When a session is over, the loop returns exactly if: as coded, no RESTART has been processed since the
   * program started; with restart cleared at each session start, the session ended with EXIT.
   */
  lemma WhenTheLoopReturns(makeActive: bool, clearing: bool, labels: seq<Label>)
    requires Run(Init(makeActive, clearing), labels).pc == AtClose
    ensures var s := Run(Init(makeActive, clearing), labels);
            && s.sessions != [] && Finished(Session(s))
            && (Next(s, Close).pc == Ended(Bottom) <==>
                if clearing then Session(s)[|Session(s)| - 1] == Exit else Restart !in Processed(s))
            && (Next(s, Close).pc == AtOpen || Next(s, Close).pc == Ended(Bottom))
  {
    hide Conserved, Folded, Traced;
    EveryRun(makeActive, clearing, labels);
    var s := Run(Init(makeActive, clearing), labels);
    LastTerminator(Session(s));
  }

  /** A loop that has returned at its bottom was ended by EXIT, and as coded had never seen a RESTART. */
  lemma HowTheLoopReturned(makeActive: bool, clearing: bool, labels: seq<Label>)
    requires Run(Init(makeActive, clearing), labels).pc == Ended(Bottom)
    ensures var s := Run(Init(makeActive, clearing), labels);
            && s.sessions != [] && Session(s) != [] && Session(s)[|Session(s)| - 1] == Exit
            && (clearing || Restart !in Processed(s))
  {
    hide Conserved, Folded, Traced;
    EveryRun(makeActive, clearing, labels);
    var s := Run(Init(makeActive, clearing), labels);
    LastTerminator(Session(s));
    InLastOrBefore(s.sessions);
  }

  /** The loop is on its way out: its session is over, and it will not go round again. */
  predicate Leaving(s: State) {
    !s.running && !s.restart && (s.pc == Draining || s.pc == Waiting || s.pc == AtClose || s.pc == Ended(Bottom))
  }

  /** How many steps of the loop thread lie between a loop on its way out and its return. */
  function StepsToReturn(s: State): nat {
    match s.pc
    case Draining => 3
    case Waiting => 2
    case AtClose => 1
    case _ => 0
  }

  /** The step the loop thread takes next on its way out. */
  function WayOut(s: State): Label {
    match s.pc
    case Draining => Wait
    case Waiting => Wake
    case _ => Close
  }

  /** No step leaves the way out; the loop thread can take its next step on it, and comes closer by that one alone. */
  lemma KeepsLeaving(s: State, l: Label)
    requires Leaving(s)
    ensures Leaving(Next(s, l)) && (s.pc != Ended(Bottom) ==> Enabled(s, WayOut(s)))
    ensures StepsToReturn(Next(s, l)) ==
            if s.pc != Ended(Bottom) && l == WayOut(s) then StepsToReturn(s) - 1 else StepsToReturn(s)
  {
    hide BeginCallback, PushCommand, ProcessOne;
  }

  lemma {:induction false} LeavesAlong(s: State, labels: seq<Label>)
    requires Leaving(s)
    ensures Leaving(Run(s, labels)) && StepsToReturn(Run(s, labels)) <= StepsToReturn(s)
  {
    hide Next, Leaving, StepsToReturn;
    if labels != [] {
      var n := |labels| - 1;
      LeavesAlong(s, labels[..n]);
      KeepsLeaving(Run(s, labels[..n]), labels[n]);
    }
  }

  /** Some steps, a step of the loop thread, and more steps. */
  lemma LeavesPast(s: State, labels: seq<Label>, l: Label)
    requires Leaving(s)
    ensures var t := Run(s, labels + [l]);
            && Leaving(t) && StepsToReturn(t) <= StepsToReturn(s)
            && (l == Wait ==> StepsToReturn(t) <= 2)
            && (l == Wake && StepsToReturn(s) <= 2 ==> StepsToReturn(t) <= 1)
            && (l == Close && StepsToReturn(s) <= 1 ==> t.pc == Ended(Bottom))
  {
    hide Run, Next;
    LeavesAlong(s, labels);
    RunSnoc(s, labels, l);
    KeepsLeaving(Run(s, labels), l);
  }

  /**
   * Once the loop is on its way out it returns: in every continuation in which the loop thread gets to wait, wake
   * and close, whatever comes before, between and behind.
   */
  lemma GetsOut(s: State, before: seq<Label>, between: seq<Label>, next: seq<Label>, behind: seq<Label>)
    requires Leaving(s)
    ensures Run(s, before + [Wait] + (between + [Wake]) + (next + [Close]) + behind).pc == Ended(Bottom)
  {
    hide Run, Next;
    var first, second, third := before + [Wait], between + [Wake], next + [Close];
    LeavesPast(s, before, Wait);
    RunAppend(s, first, second);
    LeavesPast(Run(s, first), between, Wake);
    RunAppend(s, first + second, third);
    LeavesPast(Run(s, first + second), next, Close);
    RunAppend(s, first + second + third, behind);
    LeavesAlong(Run(s, first + second + third), behind);
  }

  /** Once EXIT has been processed the loop is on its way out and opens no further session: always when restart is
      cleared per session, and as coded as long as no RESTART has ever been processed. */
  lemma AfterExit(makeActive: bool, clearing: bool, labels: seq<Label>)
    requires var s := Run(Init(makeActive, clearing), labels);
             s.sessions != [] && Session(s) != [] && Session(s)[|Session(s)| - 1] == Exit
             && (clearing || Restart !in Processed(s))
    ensures var s := Run(Init(makeActive, clearing), labels);
            Leaving(s)
  {
    hide Conserved, Folded, Traced;
    EveryRun(makeActive, clearing, labels);
    var s := Run(Init(makeActive, clearing), labels);
    assert Exit in Session(s);
    if Finished(Session(s)) {
      LastTerminator(Session(s));
    }
  }

  /** Every push in the schedule is one that a callback has begun. */
  ghost predicate Effective(s: State, labels: seq<Label>) {
    forall k :: 0 <= k < |labels| && labels[k].Push? ==> labels[k].command in Run(s, labels[..k]).pending
  }

  /** The state with one more push under way. */
  function WithPending(s: State, c: Command): State { s.(pending := s.pending + multiset{c}) }

  lemma CallbackWithPending(s: State, c: Command, callback: Callback)
    ensures BeginCallback(WithPending(s, c), callback) == WithPending(BeginCallback(s, callback), c)
  {
    assert Intends(WithPending(s, c), callback) == Intends(s, callback);
    assert s.pending + multiset{c} + Intends(s, callback) == s.pending + Intends(s, callback) + multiset{c};
  }

  lemma PushWithPending(s: State, c: Command, d: Command)
    requires d in s.pending
    ensures PushCommand(WithPending(s, c), d) == WithPending(PushCommand(s, d), c)
  {
    assert s.pending + multiset{c} - multiset{d} == s.pending - multiset{d} + multiset{c};
  }

  lemma ProcessWithPending(s: State, c: Command)
    requires Enabled(s, Process)
    ensures ProcessOne(WithPending(s, c)) == WithPending(ProcessOne(s), c)
  {
  }

  lemma LoopWithPending(s: State, c: Command, l: Label)
    requires !l.Begin? && !l.Push?
    ensures Next(WithPending(s, c), l) == WithPending(Next(s, l), c)
  {
    hide BeginCallback, PushCommand, ProcessOne;
    if Enabled(s, l) {
      match l
      case Process => ProcessWithPending(s, c);
      case _ =>
    }
  }

  lemma NextWithPending(s: State, c: Command, l: Label)
    requires l.Push? ==> l.command in s.pending
    ensures Next(WithPending(s, c), l) == WithPending(Next(s, l), c)
  {
    hide BeginCallback, PushCommand, ProcessOne;
    match l
    case Begin(callback) => CallbackWithPending(s, c, callback);
    case Push(d) => PushWithPending(s, c, d);
    case _ => LoopWithPending(s, c, l);
  }

  lemma {:induction false} RunWithPending(s: State, c: Command, labels: seq<Label>)
    requires Effective(s, labels)
    ensures Run(WithPending(s, c), labels) == WithPending(Run(s, labels), c)
  {
    hide Next, WithPending;
    if labels != [] {
      var n := |labels| - 1;
      assert forall k :: 0 <= k < n ==> labels[..n][k] == labels[k] && labels[..n][..k] == labels[..k];
      RunWithPending(s, c, labels[..n]);
      NextWithPending(Run(s, labels[..n]), c, labels[n]);
    }
  }

  /**
   * A push made while no session is running leaves no trace: whatever the schedule behind it, as long as each of
   * its pushes has been begun, removing the push changes nothing but that it is still under way.
   */
  lemma DroppedPush(init: State, before: seq<Label>, c: Command, more: seq<Label>)
    requires Enabled(Run(init, before), Push(c)) && !Run(init, before).running
    requires Effective(Run(init, before + [Push(c)]), more)
    ensures Run(init, before + more) == WithPending(Run(init, before + [Push(c)] + more), c)
  {
    var s := Run(init, before);
    var dropped := Next(s, Push(c));
    assert s.pending == s.pending - multiset{c} + multiset{c};
    assert WithPending(dropped, c) == s;
    RunSnoc(init, before, Push(c));
    RunAppend(init, before, more);
    RunAppend(init, before + [Push(c)], more);
    RunWithPending(dropped, c, more);
  }

  /** As coded: once a RESTART has been processed, no schedule whatsoever reaches the bottom return. */
  lemma RestartIsSticky(makeActive: bool, labels: seq<Label>, more: seq<Label>)
    requires Restart in Processed(Run(AsCoded(makeActive), labels))
    ensures Run(AsCoded(makeActive), labels + more).pc != Ended(Bottom)
  {
    hide Processed;
    var init := AsCoded(makeActive);
    GrowsAlong(init, labels, more);
    var before, after := Processed(Run(init, labels)), Processed(Run(init, labels + more));
    var k :| 0 <= k < |before| && before[k] == Restart;
    assert after[k] == Restart;
    if Run(init, labels + more).pc == Ended(Bottom) {
      HowTheLoopReturned(makeActive, false, labels + more);
    }
  }

  /** The rest of a schedule, from label i on. */
  function RunFrom(s: State, labels: seq<Label>, i: nat): State
    decreases |labels| - i
  {
    if i >= |labels| then s else RunFrom(Next(s, labels[i]), labels, i + 1)
  }

  lemma {:induction false} RunIsRunFrom(init: State, labels: seq<Label>, i: nat)
    requires i <= |labels|
    ensures Run(init, labels) == RunFrom(Run(init, labels[..i]), labels, i)
    decreases |labels| - i
  {
    hide Next;
    if i == |labels| {
      assert labels[..i] == labels;
    } else {
      RunSnoc(init, labels[..i], labels[i]);
      assert labels[..i] + [labels[i]] == labels[..i + 1];
      RunIsRunFrom(init, labels, i + 1);
    }
  }

  /** A session that meets nothing but one alert or signal. */
  function QuietSession(stop: bool): seq<Label> {
    [Open(true), OpenLirc(true), Activate(true), Begin(if stop then SignalStop else ConnectionAlert),
     Push(if stop then Exit else Restart), Lock, Process, Wait, Wake, Close]
  }

  lemma Unroll(s: State, labels: seq<Label>, i: nat)
    requires i < |labels|
    ensures RunFrom(s, labels, i) == RunFrom(Next(s, labels[i]), labels, i + 1)
  {
  }

  lemma UnrollThree(s: State, labels: seq<Label>, i: nat)
    requires i + 3 <= |labels|
    ensures RunFrom(s, labels, i) ==
            RunFrom(Next(Next(Next(s, labels[i]), labels[i + 1]), labels[i + 2]), labels, i + 3)
  {
    hide Next;
    Unroll(s, labels, i);
    Unroll(Next(s, labels[i]), labels, i + 1);
    Unroll(Next(Next(s, labels[i]), labels[i + 1]), labels, i + 2);
  }

  function Start(s: State): State {
    Next(Next(Next(s, Open(true)), OpenLirc(true)), Activate(true))
  }

  lemma Started(s: State)
    requires s.pc == AtOpen
    ensures var t := Start(s);
            && t.pc == AtLock && t.running && t.restart == (s.restart && !s.clearing)
            && t.sessions != [] && Processed(t) == Processed(s)
            && t.commands == s.commands && t.pending == s.pending && t.makeActive == s.makeActive
            && t.logicalAddress == s.logicalAddress && t.clearing == s.clearing
  {
    EmptySession(s.sessions);
  }

  /** One command is queued from outside and then processed. */
  function Handle(s: State, c: Command): State {
    Next(Next(Next(s, Push(c)), Lock), Process)
  }

  lemma Handled(s: State, c: Command)
    requires s.pc == AtLock && s.running && s.commands == [] && c in s.pending && s.sessions != []
    ensures var t := Handle(s, c);
            && t.pc == Draining && t.commands == [] && t.pending == s.pending - multiset{c}
            && t.sessions != [] && Processed(t) == Processed(s) + [c]
            && t.running == (c != Restart && c != Exit) && t.restart == (s.restart || c == Restart)
            && t.makeActive == (if c == Active then true else if c == Inactive then false else s.makeActive)
            && t.clearing == s.clearing
  {
    ExtendLast(s.sessions, c);
    var s1 := Next(s, Push(c));
    assert s1.commands == [c] && s1.running;
    var s2 := Next(s1, Lock);
    assert Enabled(s2, Process);
    assert s2.commands[1..] == [];
  }

  function Finish(s: State): State {
    Next(Next(Next(s, Wait), Wake), Close)
  }

  lemma QuietSessionEnds(s: State, stop: bool)
    requires s.pc == AtOpen && s.commands == []
    ensures var s' := Run(s, QuietSession(stop));
            && s'.commands == [] && s'.clearing == s.clearing
            && s'.restart == ((s.restart && !s.clearing) || !stop)
            && s'.pc == if s'.restart then AtOpen else Ended(Bottom)
  {
    hide Start, Handle, Finish, Run;
    var c := if stop then Exit else Restart;
    var told := Next(Start(s), Begin(if stop then SignalStop else ConnectionAlert));
    Started(s);
    Handled(told, c);
    HowFinished(Handle(told, c));
    QuietSessionRuns(s, stop);
  }

  lemma HowFinished(s: State)
    requires s.pc == Draining && !s.running
    ensures var t := Finish(s);
            && t.commands == s.commands && t.clearing == s.clearing && t.restart == s.restart
            && t.pc == if s.restart then AtOpen else Ended(Bottom)
  {
  }

  lemma QuietSessionRuns(s: State, stop: bool)
    ensures Run(s, QuietSession(stop)) ==
            Finish(Handle(Next(Start(s), Begin(if stop then SignalStop else ConnectionAlert)),
                          if stop then Exit else Restart))
  {
    hide Next, Run;
    var l := QuietSession(stop);
    RunIsRunFrom(s, l, 0);
    EmptyRun(s, l[..0]);
    UnrollThree(s, l, 0);
    Unroll(Start(s), l, 3);
    var s4 := Next(Start(s), l[3]);
    UnrollThree(s4, l, 4);
    UnrollThree(Handle(s4, if stop then Exit else Restart), l, 7);
  }

  lemma EmptyRun(s: State, labels: seq<Label>)
    requires labels == []
    ensures Run(s, labels) == s
  {
  }

  /**
   * "A processed EXIT ends the loop" fails as coded: after a session ended by RESTART and one ended by EXIT the
   * loop is about to open a third one. On the same schedule it returns when restart is cleared per session.
   */
  lemma ExitAfterRestartIsIgnored(makeActive: bool)
    ensures Run(Init(makeActive, false), QuietSession(false) + QuietSession(true)).pc == AtOpen
    ensures Run(Init(makeActive, true), QuietSession(false) + QuietSession(true)).pc == Ended(Bottom)
  {
    hide Run, QuietSession;
    forall clearing: bool
      ensures Run(Init(makeActive, clearing), QuietSession(false) + QuietSession(true)).pc ==
              if clearing then Ended(Bottom) else AtOpen
    {
      var init := Init(makeActive, clearing);
      RunAppend(init, QuietSession(false), QuietSession(true));
      QuietSessionEnds(init, false);
      QuietSessionEnds(Run(init, QuietSession(false)), true);
    }
  }

  // ------------------------------------------------------------ bracketing

  /** Which of the two connections is open. */
  datatype Connections = Connections(cec: bool, lirc: bool) | Misused

  /** Opening what is open, closing what is closed and activating without cec are misuse. */
  function Use(c: Connections, call: Call): Connections {
    if c == Misused then Misused
    else
      match call
      case CecOpen => if c.cec then Misused else c.(cec := true)
      case LircOpen => if !c.cec || c.lirc then Misused else c.(lirc := true)
      case MakeActive => if c.cec && c.lirc then c else Misused
      case CecClose(_) => if c.cec then c.(cec := false) else Misused
      case LircClose => if c.lirc then c.(lirc := false) else Misused
  }

  function Scan(trace: seq<Call>): Connections {
    if trace == [] then Connections(false, false) else Use(Scan(trace[..|trace| - 1]), trace[|trace| - 1])
  }

  lemma ScanSnoc(trace: seq<Call>, call: Call)
    ensures Scan(trace + [call]) == Use(Scan(trace), call)
  {
    assert (trace + [call])[..|trace|] == trace;
  }

  /** cec is open from AtLirc on, lirc during a session; a failed lirc Open closes cec alone. */
  predicate AreOpen(pc: Pc, c: Connections) {
    c == Connections(pc == AtLirc || InSession(pc), InSession(pc))
  }

  lemma KeepsBracketing(s: State, l: Label)
    requires AreOpen(s.pc, Scan(s.trace))
    ensures AreOpen(Next(s, l).pc, Scan(Next(s, l).trace))
  {
    hide BeginCallback, PushCommand, Scan;
    match l
    case Open(_) => ScanSnoc(s.trace, CecOpen);
    case OpenLirc(_) => ScanSnoc(s.trace, LircOpen); ScanSnoc(s.trace, CecClose(!s.restart));
    case Activate(_) => ScanSnoc(s.trace, MakeActive);
    case Close =>
      ScanSnoc(s.trace, CecClose(!s.restart));
      ScanSnoc(s.trace + [CecClose(!s.restart)], LircClose);
      Associate(s.trace, [CecClose(!s.restart)], [LircClose]);
      assert [CecClose(!s.restart)] + [LircClose] == [CecClose(!s.restart), LircClose];
    case _ =>
  }

  /** In every state of every schedule the calls are well bracketed, and both connections are closed whenever
      the loop is between sessions or has returned (at its bottom or because lirc could not be opened). */
  lemma {:induction false} CallsAreBracketed(makeActive: bool, clearing: bool, labels: seq<Label>)
    ensures var s := Run(Init(makeActive, clearing), labels); AreOpen(s.pc, Scan(s.trace))
  {
    hide Next;
    if labels != [] {
      var n := |labels| - 1;
      CallsAreBracketed(makeActive, clearing, labels[..n]);
      KeepsBracketing(Run(Init(makeActive, clearing), labels[..n]), labels[n]);
    }
  }
}
