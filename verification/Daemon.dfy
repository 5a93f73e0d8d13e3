/**
 * Main's command queue and session loop (src/main.cpp:103-240, 490-536) as a state machine. Steps of the loop
 * thread, of callbacks in flight on any number of other threads, and of the environment interleave freely; a
 * step that is not enabled leaves the state alone, so every sequence of labels is a schedule.
 */
module Daemon {
  import opened Sequences

  datatype Command = Standby | Active | Inactive | Restart | Exit

  /** The calls the loop makes on the cec and lirc objects, in order. */
  datatype Call = CecOpen | LircOpen | MakeActive | CecClose(makeInactive: bool) | LircClose

  datatype Ending = Bottom | LircFailed | OpenThrew | ActivateThrew

  /** Where the loop thread is. */
  datatype Pc =
    | AtOpen        // top of the outer loop, before cec.open
    | AtLirc        // before mylirc.Open
    | AtActivate    // session running, before the makeActive test
    | AtLock        // top of the inner loop
    | Draining      // holds libcec_sync
    | Waiting       // in pthread_cond_timedwait, libcec_sync released
    | AtClose       // behind the inner loop
    | Ended(how: Ending)

  datatype State = State(
    pc: Pc, running: bool, makeActive: bool, restart: bool, commands: seq<Command>, logicalAddress: int,
    pending: multiset<Command>,      // pushes begun by callbacks and not yet performed
    accepted: seq<Command>,          // pushes performed while running
    sessions: seq<seq<Command>>,     // the commands processed, session by session
    trace: seq<Call>,
    clearing: bool)                  // false: the code; true: restart is reset when a session starts

  /** `makeActive` as setMakeActive left it, `clearing` false for the code as it is. */
  function Init(makeActive: bool, clearing: bool): State {
    State(AtOpen, false, makeActive, false, [], -1, multiset{}, [], [], [], clearing)
  }

  /** libcec callbacks and signals that concern the queue. */
  datatype Callback =
    | StandbyRequested                          // opcode STANDBY
    | ActiveSourceRequested                     // opcode REQUEST_ACTIVE_SOURCE
    | SourceActivated(address: int, on: bool)
    | ConfigurationChanged(address: int)
    | ConnectionAlert                           // the five alerts that restart
    | SignalRestart                             // SIGHUP, SIGPIPE
    | SignalStop                                // SIGINT, SIGTERM

  datatype Label =
    | Open(ok: bool) | OpenLirc(ok: bool) | Activate(ok: bool)
    | Lock | Process | Wait | Wake | Close
    | Begin(callback: Callback)  // a callback reads what it reads, up to its push
    | Push(command: Command)     // and the push itself, under libcec_sync

  function Session(s: State): seq<Command>
    requires s.sessions != []
  {
    s.sessions[|s.sessions| - 1]
  }

  function Enabled(s: State, l: Label): bool {
    match l
    case Open(_) => s.pc == AtOpen
    case OpenLirc(_) => s.pc == AtLirc
    case Activate(_) => s.pc == AtActivate
    case Lock => s.pc == AtLock
    case Process => s.pc == Draining && s.running && s.commands != [] && s.sessions != []
    case Wait => s.pc == Draining && !(s.running && s.commands != [])
    case Wake => s.pc == Waiting
    case Close => s.pc == AtClose
    case Begin(_) => true
    case Push(c) => c in s.pending && s.pc != Draining
  }

  function ProcessOne(s: State): State
    requires Enabled(s, Process)
  {
    var c := s.commands[0];
    var n := |s.sessions| - 1;
    s.(commands := s.commands[1..],
       sessions := s.sessions[n := s.sessions[n] + [c]],
       makeActive := if c == Active then true else if c == Inactive then false else s.makeActive,
       running := c != Restart && c != Exit,
       restart := s.restart || c == Restart)
  }

  /** The push a callback makes up its mind about; makeActive is read without the lock. */
  function Intends(s: State, callback: Callback): multiset<Command> {
    match callback
    case StandbyRequested => multiset{Standby}
    case ActiveSourceRequested => if s.makeActive then multiset{Active} else multiset{}
    case SourceActivated(address, on) =>
      if address == s.logicalAddress then multiset{if on then Active else Inactive} else multiset{}
    case ConfigurationChanged(_) => multiset{}
    case ConnectionAlert => multiset{Restart}
    case SignalRestart => multiset{Restart}
    case SignalStop => multiset{Exit}
  }

  function BeginCallback(s: State, callback: Callback): (s': State)
    ensures s' == s.(pending := s'.pending, logicalAddress := s'.logicalAddress)
  {
    s.(pending := s.pending + Intends(s, callback),
       logicalAddress := if callback.ConfigurationChanged? then callback.address else s.logicalAddress)
  }

  /** Main::push: a command is queued while a session runs, and dropped otherwise. */
  function PushCommand(s: State, c: Command): (s': State)
    ensures s' == s.(pending := s'.pending, commands := s'.commands, accepted := s'.accepted)
  {
    var done := s.(pending := s.pending - multiset{c});
    if s.running then done.(commands := s.commands + [c], accepted := s.accepted + [c]) else done
  }

  function Next(s: State, l: Label): State {
    if !Enabled(s, l) then s
    else
      match l
      case Open(ok) =>
        var begun := s.(restart := s.restart && !s.clearing);
        if ok then begun.(pc := AtLirc, trace := s.trace + [CecOpen]) else begun.(pc := Ended(OpenThrew))
      case OpenLirc(ok) =>
        if ok then s.(pc := AtActivate, running := true, sessions := s.sessions + [[]], trace := s.trace + [LircOpen])
        else s.(pc := Ended(LircFailed), trace := s.trace + [CecClose(!s.restart)])
      case Activate(ok) =>
        if !s.makeActive then s.(pc := AtLock)
        else s.(pc := if ok then AtLock else Ended(ActivateThrew), trace := s.trace + [MakeActive])
      case Lock => s.(pc := Draining)
      case Process => ProcessOne(s)
      case Wait => s.(pc := Waiting)
      case Wake => s.(pc := if s.running then AtLock else AtClose)
      case Close =>
        s.(pc := if s.restart then AtOpen else Ended(Bottom), trace := s.trace + [CecClose(!s.restart), LircClose])
      case Begin(callback) => BeginCallback(s, callback)
      case Push(c) => PushCommand(s, c)
  }

  function Run(init: State, labels: seq<Label>): State {
    if labels == [] then init else Next(Run(init, labels[..|labels| - 1]), labels[|labels| - 1])
  }

  lemma RunSnoc(init: State, labels: seq<Label>, l: Label)
    ensures Run(init, labels + [l]) == Next(Run(init, labels), l)
  {
    assert (labels + [l])[..|labels|] == labels;
  }

  // ------------------------------------------------------------ reference definitions

  function Processed(s: State): seq<Command> { Flatten(s.sessions) }

  predicate Terminator(c: Command) { c == Restart || c == Exit }

  /** makeActive after a history of commands: the last ACTIVE or INACTIVE decides. */
  function Fold(initial: bool, commands: seq<Command>): bool {
    if commands == [] then initial
    else
      match commands[|commands| - 1]
      case Active => true
      case Inactive => false
      case _ => Fold(initial, commands[..|commands| - 1])
  }

  /** A session still running has met no terminator. */
  predicate Going(session: seq<Command>) {
    forall c | c in session :: !Terminator(c)
  }

  /** A finished session ends with its first terminator. */
  predicate Finished(session: seq<Command>) {
    session != [] && Terminator(session[|session| - 1]) && Going(session[..|session| - 1])
  }

  /** The value of the restart variable at the end of the sessions: as coded it remembers every RESTART. */
  function RestartSeen(clearing: bool, sessions: seq<seq<Command>>): bool {
    if clearing then sessions != [] && Restart in sessions[|sessions| - 1] else Restart in Flatten(sessions)
  }

  /** The calls that open the session behind `before`, up to the makeActive test. */
  function Opening(initial: bool, before: seq<seq<Command>>): seq<Call> {
    [CecOpen, LircOpen] + (if Fold(initial, Flatten(before)) then [MakeActive] else [])
  }

  /** The calls of a list of sessions from first open to last close. */
  function TraceOf(initial: bool, clearing: bool, sessions: seq<seq<Command>>): seq<Call> {
    if sessions == [] then []
    else
      var before := sessions[..|sessions| - 1];
      TraceOf(initial, clearing, before) + Opening(initial, before)
        + [CecClose(!RestartSeen(clearing, sessions)), LircClose]
  }

  /** The whole call trace, as a function of the processed commands and of where the loop is. */
  function ExpectedTrace(initial: bool, s: State): seq<Call> {
    var n := |s.sessions|;
    var closed := TraceOf(initial, s.clearing, s.sessions);
    var previous := if n == 0 then [] else s.sessions[..n - 1];
    var earlier := TraceOf(initial, s.clearing, previous);
    match s.pc
    case AtOpen => closed
    case AtLirc => closed + [CecOpen]
    case AtActivate => earlier + [CecOpen, LircOpen]
    case AtLock => earlier + Opening(initial, previous)
    case Draining => earlier + Opening(initial, previous)
    case Waiting => earlier + Opening(initial, previous)
    case AtClose => earlier + Opening(initial, previous)
    case Ended(Bottom) => closed
    case Ended(LircFailed) => closed + [CecOpen, CecClose(s.clearing || !RestartSeen(false, s.sessions))]
    case Ended(OpenThrew) => closed
    case Ended(ActivateThrew) => earlier + [CecOpen, LircOpen, MakeActive]
  }

  // ------------------------------------------------------------ invariants

  /** The loop is inside a session: the last entry of sessions is the current one. */
  predicate InSession(pc: Pc) {
    match pc
    case AtOpen => false
    case AtLirc => false
    case Ended(how) => how == ActivateThrew
    case _ => true
  }

  /** Nothing that was accepted is lost, duplicated or reordered, across any number of sessions. */
  predicate Conserved(s: State) {
    s.accepted == Processed(s) + s.commands
  }

  /** Every session but the current one has ended with its first terminator; the current one runs until then. */
  predicate Shaped(s: State) {
    var n := |s.sessions|;
    && (forall i :: 0 <= i < n - 1 ==> Finished(s.sessions[i]))
    && (InSession(s.pc) ==> n > 0)
    && (n > 0 && !InSession(s.pc) ==> Finished(s.sessions[n - 1]))
    && (n > 0 && InSession(s.pc) ==> if s.running then Going(s.sessions[n - 1]) else Finished(s.sessions[n - 1]))
    && (s.running ==> InSession(s.pc) && s.pc != AtClose)
    && (s.pc == AtActivate || s.pc == Ended(ActivateThrew) ==> s.running && s.sessions[n - 1] == [])
    && (s.pc == AtLock ==> s.running)
  }

  /** Outside the two steps at which it is cleared, restart is what the processed commands say. */
  predicate RestartIs(s: State) {
    if !s.clearing then s.restart == RestartSeen(false, s.sessions)
    else if s.pc == AtOpen then s.restart == (s.sessions != [])
    else if InSession(s.pc) then s.restart == RestartSeen(true, s.sessions)
    else !s.restart
  }

  predicate Folded(initial: bool, s: State) {
    s.makeActive == Fold(initial, Processed(s))
  }

  ghost predicate Inv(initial: bool, s: State) {
    Conserved(s) && Shaped(s) && RestartIs(s) && Folded(initial, s) && Traced(initial, s) && EndsRight(s)
  }

  /** How the loop can have ended, and when it goes round again. */
  predicate EndsRight(s: State) {
    && (s.pc == Ended(Bottom) ==> s.sessions != [] && !RestartSeen(s.clearing, s.sessions))
    && (!InSession(s.pc) && s.pc != Ended(Bottom) && s.sessions != [] ==> RestartSeen(s.clearing, s.sessions))
  }

  lemma FoldSnoc(initial: bool, commands: seq<Command>, c: Command)
    ensures Fold(initial, commands + [c]) ==
            if c == Active then true else if c == Inactive then false else Fold(initial, commands)
  {
    assert (commands + [c])[..|commands|] == commands;
  }

  /** Appending a command to the current session appends it to the whole history. */
  lemma ExtendLast(sessions: seq<seq<Command>>, c: Command)
    requires sessions != []
    ensures var n := |sessions| - 1;
            var longer := sessions[n := sessions[n] + [c]];
            && Flatten(longer) == Flatten(sessions) + [c] && longer[..n] == sessions[..n]
            && (RestartSeen(false, longer) <==> RestartSeen(false, sessions) || c == Restart)
            && (RestartSeen(true, longer) <==> RestartSeen(true, sessions) || c == Restart)
  {
    var n := |sessions| - 1;
    var longer := sessions[n := sessions[n] + [c]];
    assert longer[..n] == sessions[..n];
    Associate(Flatten(sessions[..n]), sessions[n], [c]);
  }

  lemma GoingOn(session: seq<Command>, c: Command)
    requires Going(session)
    ensures if Terminator(c) then Finished(session + [c]) else Going(session + [c])
  {
    assert (session + [c])[..|session|] == session;
  }

  lemma KeepsConserved(s: State, l: Label)
    requires Conserved(s)
    ensures Conserved(Next(s, l))
  {
    if Enabled(s, l) {
      match l
      case OpenLirc(_) => EmptySession(s.sessions);
      case Process =>
        ExtendLast(s.sessions, s.commands[0]);
        Associate(Processed(s), [s.commands[0]], s.commands[1..]);
        assert [s.commands[0]] + s.commands[1..] == s.commands;
      case Push(c) => Associate(Processed(s), s.commands, [c]);
      case _ =>
    }
  }

  lemma ProcessKeepsShape(s: State)
    requires Shaped(s) && Enabled(s, Process)
    ensures Shaped(ProcessOne(s))
  {
    GoingOn(s.sessions[|s.sessions| - 1], s.commands[0]);
  }

  lemma OpenLircKeepsShape(s: State, ok: bool)
    requires Shaped(s) && s.pc == AtLirc
    ensures Shaped(Next(s, OpenLirc(ok)))
  {
    hide Going, Finished;
    assert Going([]) by { EmptyIsGoing(); }
  }

  lemma CallbacksKeepShape(s: State, l: Label)
    requires Shaped(s) && (l.Begin? || l.Push?)
    ensures Shaped(Next(s, l))
  {
    hide BeginCallback, PushCommand, Going, Finished;
  }

  lemma OthersKeepShape(s: State, l: Label)
    requires Shaped(s) && l != Process && !l.OpenLirc? && !l.Begin? && !l.Push?
    ensures Shaped(Next(s, l))
  {
    hide BeginCallback, PushCommand, ProcessOne, Going, Finished;
  }

  lemma EmptyIsGoing()
    ensures Going([])
  {
  }

  lemma KeepsShaped(s: State, l: Label)
    requires Shaped(s)
    ensures Shaped(Next(s, l))
  {
    hide Shaped;
    if Enabled(s, l) {
      match l
      case OpenLirc(ok) => OpenLircKeepsShape(s, ok);
      case Process => ProcessKeepsShape(s);
      case Begin(_) => CallbacksKeepShape(s, l);
      case Push(_) => CallbacksKeepShape(s, l);
      case _ => OthersKeepShape(s, l);
    }
  }

  lemma OpenLircKeepsRestart(s: State, ok: bool)
    requires Shaped(s) && RestartIs(s) && s.pc == AtLirc
    ensures RestartIs(Next(s, OpenLirc(ok)))
  {
    EmptySession(s.sessions);
    hide RestartSeen, Going, Finished;
  }

  lemma ProcessKeepsRestart(s: State)
    requires Shaped(s) && RestartIs(s) && Enabled(s, Process)
    ensures RestartIs(ProcessOne(s))
  {
    ExtendLast(s.sessions, s.commands[0]);
    hide RestartSeen, Going, Finished, Flatten;
  }

  lemma CloseKeepsRestart(s: State)
    requires Shaped(s) && RestartIs(s) && s.pc == AtClose
    ensures RestartIs(Next(s, Close))
  {
    hide RestartSeen, Going, Finished;
  }

  lemma OthersKeepRestart(s: State, l: Label)
    requires Shaped(s) && RestartIs(s) && !l.OpenLirc? && l != Process && l != Close
    ensures RestartIs(Next(s, l))
  {
    hide BeginCallback, PushCommand, ProcessOne, RestartSeen, Going, Finished;
  }

  lemma KeepsRestart(s: State, l: Label)
    requires Shaped(s) && RestartIs(s)
    ensures RestartIs(Next(s, l))
  {
    hide Shaped, RestartIs;
    if Enabled(s, l) {
      match l
      case OpenLirc(ok) => OpenLircKeepsRestart(s, ok);
      case Process => ProcessKeepsRestart(s);
      case Close => CloseKeepsRestart(s);
      case _ => OthersKeepRestart(s, l);
    }
  }

  lemma KeepsEnds(s: State, l: Label)
    requires Shaped(s) && RestartIs(s) && EndsRight(s)
    ensures EndsRight(Next(s, l))
  {
    hide BeginCallback, PushCommand, RestartSeen, Going, Finished;
  }

  lemma KeepsFolded(initial: bool, s: State, l: Label)
    requires Folded(initial, s)
    ensures Folded(initial, Next(s, l))
  {
    hide BeginCallback, PushCommand;
    if Enabled(s, l) {
      match l
      case OpenLirc(_) => EmptySession(s.sessions);
      case Process =>
        ExtendLast(s.sessions, s.commands[0]);
        FoldSnoc(initial, Processed(s), s.commands[0]);
      case _ =>
    }
  }

  lemma EmptySession(sessions: seq<seq<Command>>)
    ensures Flatten(sessions + [[]]) == Flatten(sessions) && (sessions + [[]])[..|sessions|] == sessions
    ensures RestartSeen(false, sessions + [[]]) == RestartSeen(false, sessions) && !RestartSeen(true, sessions + [[]])
  {
    FlattenSnoc(sessions, []);
  }

  /** Nothing has been processed when the makeActive test is reached. */
  lemma FirstOfSession(s: State)
    requires Shaped(s) && s.pc == AtActivate
    ensures Flatten(s.sessions[..|s.sessions| - 1]) == Processed(s)
  {
    var previous := s.sessions[..|s.sessions| - 1];
    EmptySession(previous);
    assert s.sessions == previous + [[]];
  }

  /** The trace is the expected one. */
  predicate Traced(initial: bool, s: State) {
    s.trace == ExpectedTrace(initial, s)
  }

  lemma TraceOpen(initial: bool, s: State, ok: bool)
    requires Traced(initial, s) && s.pc == AtOpen
    ensures Traced(initial, Next(s, Open(ok)))
  {
  }

  lemma TraceOpenLirc(initial: bool, s: State, ok: bool)
    requires RestartIs(s) && Traced(initial, s) && s.pc == AtLirc
    ensures Traced(initial, Next(s, OpenLirc(ok)))
  {
    hide Fold, Flatten, Going, Finished, TraceOf;
    EmptySession(s.sessions);
    var closed := TraceOf(initial, s.clearing, s.sessions);
    Associate(closed, [CecOpen], [if ok then LircOpen else CecClose(!s.restart)]);
  }

  lemma TraceActivate(initial: bool, s: State, ok: bool)
    requires Shaped(s) && Folded(initial, s) && Traced(initial, s) && s.pc == AtActivate
    ensures Traced(initial, Next(s, Activate(ok)))
  {
    hide Fold, Flatten, RestartSeen, Going, Finished, TraceOf;
    var previous := s.sessions[..|s.sessions| - 1];
    var earlier := TraceOf(initial, s.clearing, previous);
    FirstOfSession(s);
    assert Fold(initial, Flatten(previous)) == s.makeActive;
    Associate(earlier, [CecOpen, LircOpen], if s.makeActive then [MakeActive] else []);
    assert s.trace + [] == s.trace;
  }

  lemma TraceProcess(initial: bool, s: State)
    requires Traced(initial, s) && Enabled(s, Process)
    ensures Traced(initial, ProcessOne(s))
  {
    ExtendLast(s.sessions, s.commands[0]);
  }

  lemma TraceClose(initial: bool, s: State)
    requires Shaped(s) && RestartIs(s) && Traced(initial, s) && s.pc == AtClose
    ensures Traced(initial, Next(s, Close))
  {
    hide Fold, Flatten, RestartSeen, Going, Finished, Opening;
    var previous := s.sessions[..|s.sessions| - 1];
    var sofar := TraceOf(initial, s.clearing, previous) + Opening(initial, previous);
    assert s.trace == sofar;
    assert TraceOf(initial, s.clearing, s.sessions) == sofar + [CecClose(!s.restart), LircClose];
  }

  /** Locking, waiting, waking and what callbacks do is not seen in the trace. */
  lemma TraceQuiet(initial: bool, s: State, l: Label)
    requires Traced(initial, s) && Shaped(s) && (l.Lock? || l.Wait? || l.Wake? || l.Begin? || l.Push?)
    ensures Traced(initial, Next(s, l))
  {
    hide BeginCallback, PushCommand, TraceOf, Opening, RestartSeen, Going, Finished;
  }

  lemma KeepsTrace(initial: bool, s: State, l: Label)
    requires Shaped(s) && RestartIs(s) && Folded(initial, s) && Traced(initial, s)
    ensures Traced(initial, Next(s, l))
  {
    hide Shaped, RestartIs, Folded, Traced;
    if Enabled(s, l) {
      match l
      case Open(ok) => TraceOpen(initial, s, ok);
      case OpenLirc(ok) => TraceOpenLirc(initial, s, ok);
      case Activate(ok) => TraceActivate(initial, s, ok);
      case Process => TraceProcess(initial, s);
      case Close => TraceClose(initial, s);
      case _ => TraceQuiet(initial, s, l);
    }
  }

  lemma InitInv(makeActive: bool, clearing: bool)
    ensures Inv(makeActive, Init(makeActive, clearing))
  {
  }

  lemma NextInv(initial: bool, s: State, l: Label)
    requires Inv(initial, s)
    ensures Inv(initial, Next(s, l)) && Next(s, l).clearing == s.clearing
  {
    KeepsMode(s, l);
    hide Next, Conserved, Shaped, RestartIs, EndsRight, Folded, Traced;
    KeepsConserved(s, l);
    KeepsShaped(s, l);
    KeepsRestart(s, l);
    KeepsEnds(s, l);
    KeepsFolded(initial, s, l);
    KeepsTrace(initial, s, l);
  }

  lemma KeepsMode(s: State, l: Label)
    ensures Next(s, l).clearing == s.clearing
  {
    hide BeginCallback, PushCommand;
  }

  /** All invariants hold in every state of every schedule. */
  lemma {:induction false} EveryRun(makeActive: bool, clearing: bool, labels: seq<Label>)
    ensures var s := Run(Init(makeActive, clearing), labels);
            s.clearing == clearing && Inv(makeActive, s)
  {
    hide Inv, Next;
    if labels == [] {
      InitInv(makeActive, clearing);
    } else {
      var n := |labels| - 1;
      EveryRun(makeActive, clearing, labels[..n]);
      NextInv(makeActive, Run(Init(makeActive, clearing), labels[..n]), labels[n]);
    }
  }
}
