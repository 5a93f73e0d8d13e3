/**
 * The two mutexes, libcec_sync and lirc_sync, and the threads that use them (src/main.cpp:147-205, 221-230,
 * 247-259, 371; src/lirc.cpp:126-144, 150-176), reduced to their lock operations. A thread is the sequence of
 * operations it has still to perform; system calls are assumed to return.
 */
module Locks {

  datatype Mutex = LibcecSync | LircSync
  datatype Op = Acquire(m: Mutex) | Release(m: Mutex)
  type Program = seq<Op>

  /** The mutexes are not recursive: each is free or has one holder. */
  datatype State = State(threads: seq<Program>, holder: map<Mutex, nat>)

  predicate CanStep(s: State, t: nat) {
    && t < |s.threads| && s.threads[t] != []
    && match s.threads[t][0]
       case Acquire(m) => m !in s.holder
       case Release(m) => true
  }

  /** One operation of thread t; a thread that would block stays where it is. */
  function Step(s: State, t: nat): State {
    if !CanStep(s, t) then s
    else
      State(s.threads[t := s.threads[t][1..]],
            match s.threads[t][0]
            case Acquire(m) => s.holder[m := t]
            case Release(m) => if m in s.holder && s.holder[m] == t then s.holder - {m} else s.holder)
  }

  function Run(s: State, schedule: seq<nat>): State {
    if schedule == [] then s else Step(Run(s, schedule[..|schedule| - 1]), schedule[|schedule| - 1])
  }

  lemma {:induction false} RunAppend(s: State, a: seq<nat>, b: seq<nat>)
    ensures Run(s, a + b) == Run(Run(s, a), b)
  {
    hide Step;
    if b == [] {
      assert a + b == a;
    } else {
      var n := |b| - 1;
      RunAppend(s, a, b[..n]);
      assert (a + b)[..|a + b| - 1] == a + b[..n];
    }
  }

  lemma RunOne(s: State, t: nat)
    ensures Run(s, [t]) == Step(s, t)
  {
    hide Step;
    assert [t][..0] == [];
  }

  function Start(threads: seq<Program>): State { State(threads, map[]) }

  /** Some thread has work left and none can do any. */
  predicate Deadlocked(s: State) {
    && (exists t | 0 <= t < |s.threads| :: s.threads[t] != [])
    && (forall t | 0 <= t < |s.threads| :: !CanStep(s, t))
  }

  // ------------------------------------------------------------ the programs

  /** A line for the clients is written completely or with an error, or one of the writes raises SIGPIPE. */
  datatype Line = Quiet | Raising

  /** processevent, in one critical section of lirc_sync. SIGPIPE runs signalHandler, hence push, inside it. */
  function WriteLine(line: Line): Program {
    match line
    case Quiet => [Acquire(LircSync), Release(LircSync)]
    case Raising => [Acquire(LircSync), Acquire(LibcecSync), Release(LibcecSync), Release(LircSync)]
  }

  /** One piece of program after the other. */
  function Sequence<T>(f: T -> Program, items: seq<T>): Program {
    if items == [] then [] else Sequence(f, items[..|items| - 1]) + f(items[|items| - 1])
  }

  function WriteLines(lines: seq<Line>): Program { Sequence(WriteLine, lines) }

  /** One round of the inner loop: drain the queue, writing some lines for STANDBY commands, then wait. The
      condition variable gives libcec_sync up and takes it again. */
  function LoopRound(lines: seq<Line>): Program {
    [Acquire(LibcecSync)] + WriteLines(lines) + [Release(LibcecSync), Acquire(LibcecSync), Release(LibcecSync)]
  }

  /** What a callback thread does: pushes and runs of written lines. */
  datatype Work = PushOne | Lines(lines: seq<Line>)

  function Perform(w: Work): Program {
    match w
    case PushOne => [Acquire(LibcecSync), Release(LibcecSync)]
    case Lines(lines) => WriteLines(lines)
  }

  /** An acceptor runs processnewclient once per connection; it locks like a line and writes nothing. */
  datatype Role = LoopRole(rounds: seq<seq<Line>>) | CallbackRole(work: seq<Work>) | AcceptorRole(connections: nat)

  function ProgramOf(r: Role): Program {
    match r
    case LoopRole(rounds) => Sequence(LoopRound, rounds)
    case CallbackRole(work) => Sequence(Perform, work)
    case AcceptorRole(n) => WriteLines(seq(n, _ => Quiet))
  }

  function Programs(roles: seq<Role>): seq<Program> {
    seq(|roles|, i requires 0 <= i < |roles| => ProgramOf(roles[i]))
  }

  /** The loop thread writes a line, hence with libcec_sync held. */
  predicate WritesInLoop(r: Role) {
    r.LoopRole? && exists k | 0 <= k < |r.rounds| :: r.rounds[k] != []
  }

  /** Some write of the thread raises SIGPIPE. */
  predicate Raises(r: Role) {
    match r
    case LoopRole(rounds) => exists k | 0 <= k < |rounds| :: Raising in rounds[k]
    case CallbackRole(work) => exists k | 0 <= k < |work| :: work[k].Lines? && Raising in work[k].lines
    case AcceptorRole(_) => false
  }

  lemma {:induction false} SequenceSplit<T>(f: T -> Program, items: seq<T>, k: nat)
    requires k < |items|
    ensures Sequence(f, items) == Sequence(f, items[..k]) + f(items[k]) + Sequence(f, items[k + 1..])
  {
    var n := |items| - 1;
    if k == n {
      assert items[k + 1..] == [];
    } else {
      SequenceSplit(f, items[..n], k);
      assert items[..n][..k] == items[..k] && items[..n][k + 1..] == items[k + 1..][..n - k - 1];
    }
  }

  // ------------------------------------------------------------ how often each mutex is taken

  function Locks(p: Program, m: Mutex): nat {
    if p == [] then 0 else (if p[0] == Acquire(m) then 1 else 0) + Locks(p[1..], m)
  }

  lemma {:induction false} LocksAppend(p: Program, q: Program, m: Mutex)
    ensures Locks(p + q, m) == Locks(p, m) + Locks(q, m)
  {
    if p == [] {
      assert p + q == q;
    } else {
      LocksAppend(p[1..], q, m);
      assert (p + q)[1..] == p[1..] + q;
    }
  }

  function Raisings(lines: seq<Line>): nat {
    if lines == [] then 0
    else Raisings(lines[..|lines| - 1]) + (if lines[|lines| - 1] == Raising then 1 else 0)
  }

  /** The number of pieces a thread's work consists of. */
  function Size(r: Role): nat {
    match r
    case LoopRole(rounds) => |rounds|
    case CallbackRole(work) => |work|
    case AcceptorRole(n) => n
  }

  /** The lines of a thread, or the connections it accepts. */
  function LineCount(r: Role): nat
    decreases Size(r)
  {
    match r
    case LoopRole(rounds) =>
      if rounds == [] then 0 else LineCount(LoopRole(rounds[..|rounds| - 1])) + |rounds[|rounds| - 1]|
    case CallbackRole(work) =>
      if work == [] then 0
      else LineCount(CallbackRole(work[..|work| - 1])) +
           (match work[|work| - 1] case PushOne => 0 case Lines(lines) => |lines|)
    case AcceptorRole(n) => n
  }

  function RaisingCount(r: Role): nat
    decreases Size(r)
  {
    match r
    case LoopRole(rounds) =>
      if rounds == [] then 0 else RaisingCount(LoopRole(rounds[..|rounds| - 1])) + Raisings(rounds[|rounds| - 1])
    case CallbackRole(work) =>
      if work == [] then 0
      else RaisingCount(CallbackRole(work[..|work| - 1])) +
           (match work[|work| - 1] case PushOne => 0 case Lines(lines) => Raisings(lines))
    case AcceptorRole(_) => 0
  }

  function PushCount(work: seq<Work>): nat {
    if work == [] then 0 else PushCount(work[..|work| - 1]) + (if work[|work| - 1].PushOne? then 1 else 0)
  }

  lemma LineLocks(line: Line)
    ensures Locks(WriteLine(line), LircSync) == 1
    ensures Locks(WriteLine(line), LibcecSync) == if line == Raising then 1 else 0
  {
    var p := WriteLine(line);
    assert p[1..] == if line == Quiet then [Release(LircSync)]
                     else [Acquire(LibcecSync), Release(LibcecSync), Release(LircSync)];
    var push := [Release(LibcecSync), Release(LircSync)];
    assert [Acquire(LibcecSync), Release(LibcecSync), Release(LircSync)][1..] == push;
    assert push[1..] == [Release(LircSync)];
    assert [Release(LircSync)][1..] == [];
  }

  lemma {:induction false} LinesLocks(lines: seq<Line>)
    ensures Locks(WriteLines(lines), LircSync) == |lines|
    ensures Locks(WriteLines(lines), LibcecSync) == Raisings(lines)
  {
    hide Locks, WriteLine;
    if lines == [] {
      NothingLocks();
    } else {
      var n := |lines| - 1;
      LinesLocks(lines[..n]);
      LineLocks(lines[n]);
      LocksAppend(WriteLines(lines[..n]), WriteLine(lines[n]), LircSync);
      LocksAppend(WriteLines(lines[..n]), WriteLine(lines[n]), LibcecSync);
    }
  }

  lemma NothingLocks()
    ensures forall m :: Locks([], m) == 0
  {
  }

  lemma RoundLocks(lines: seq<Line>)
    ensures Locks(LoopRound(lines), LircSync) == |lines|
    ensures Locks(LoopRound(lines), LibcecSync) == 2 + Raisings(lines)
  {
    LinesLocks(lines);
    var first, last := [Acquire(LibcecSync)], [Release(LibcecSync), Acquire(LibcecSync), Release(LibcecSync)];
    assert first[1..] == [] && last[1..] == [Acquire(LibcecSync), Release(LibcecSync)];
    assert [Acquire(LibcecSync), Release(LibcecSync)][1..] == [Release(LibcecSync)];
    assert [Release(LibcecSync)][1..] == [];
    forall m ensures Locks(LoopRound(lines), m) == Locks(first, m) + Locks(WriteLines(lines), m) + Locks(last, m) {
      LocksAppend(first, WriteLines(lines), m);
      LocksAppend(first + WriteLines(lines), last, m);
    }
  }

  lemma PushLocks()
    ensures Locks(Perform(PushOne), LircSync) == 0 && Locks(Perform(PushOne), LibcecSync) == 1
  {
    assert [Acquire(LibcecSync), Release(LibcecSync)][1..] == [Release(LibcecSync)];
    assert [Release(LibcecSync)][1..] == [];
  }

  /**
   * A thread takes lirc_sync once for each line it writes or connection it accepts, and libcec_sync once for each
   * push and each line that raises SIGPIPE, and twice for each round of the loop.
   */
  lemma {:induction false} RoleLocks(r: Role)
    ensures Locks(ProgramOf(r), LircSync) == LineCount(r)
    ensures Locks(ProgramOf(r), LibcecSync) ==
            RaisingCount(r) + match r
                              case LoopRole(rounds) => 2 * |rounds|
                              case CallbackRole(work) => PushCount(work)
                              case AcceptorRole(_) => 0
    decreases Size(r)
  {
    hide Locks, LoopRound, Perform, WriteLines;
    NothingLocks();
    match r
    case LoopRole(rounds) =>
      if rounds != [] {
        var n := |rounds| - 1;
        RoleLocks(LoopRole(rounds[..n]));
        RoundLocks(rounds[n]);
        LocksAppend(Sequence(LoopRound, rounds[..n]), LoopRound(rounds[n]), LircSync);
        LocksAppend(Sequence(LoopRound, rounds[..n]), LoopRound(rounds[n]), LibcecSync);
      }
    case CallbackRole(work) =>
      if work != [] {
        var n := |work| - 1;
        RoleLocks(CallbackRole(work[..n]));
        WorkLocks(work[n]);
        LocksAppend(Sequence(Perform, work[..n]), Perform(work[n]), LircSync);
        LocksAppend(Sequence(Perform, work[..n]), Perform(work[n]), LibcecSync);
      }
    case AcceptorRole(n) =>
      LinesLocks(seq(n, _ => Quiet));
      QuietRaisesNothing(seq(n, _ => Quiet));
  }

  lemma WorkLocks(w: Work)
    ensures Locks(Perform(w), LircSync) == match w case PushOne => 0 case Lines(lines) => |lines|
    ensures Locks(Perform(w), LibcecSync) == match w case PushOne => 1 case Lines(lines) => Raisings(lines)
  {
    hide Locks, WriteLines;
    match w
    case PushOne => PushLocks();
    case Lines(lines) => LinesLocks(lines);
  }

  lemma {:induction false} QuietRaisesNothing(lines: seq<Line>)
    requires Raising !in lines
    ensures Raisings(lines) == 0
  {
    if lines != [] {
      QuietRaisesNothing(lines[..|lines| - 1]);
    }
  }

  // ------------------------------------------------------------ lock order

  /**
   * Started with `held`, the program acquires only what it does not hold, releases only what it holds, takes the
   * mutexes of `outer` only with nothing held, and ends holding `end`. With no outer mutex that says the program
   * runs through when it is alone.
   */
  predicate Ordered(outer: set<Mutex>, p: Program, held: set<Mutex>, end: set<Mutex>) {
    if p == [] then held == end
    else
      match p[0]
      case Acquire(m) => m !in held && (m in outer ==> held == {}) && Ordered(outer, p[1..], held + {m}, end)
      case Release(m) => m in held && Ordered(outer, p[1..], held - {m}, end)
  }

  lemma {:induction false} OrderedAppend(outer: set<Mutex>, p: Program, q: Program,
                                         held: set<Mutex>, middle: set<Mutex>, end: set<Mutex>)
    requires Ordered(outer, p, held, middle) && Ordered(outer, q, middle, end)
    ensures Ordered(outer, p + q, held, end)
  {
    if p == [] {
      assert p + q == q;
    } else {
      assert (p + q)[1..] == p[1..] + q;
      match p[0]
      case Acquire(m) => OrderedAppend(outer, p[1..], q, held + {m}, middle, end);
      case Release(m) => OrderedAppend(outer, p[1..], q, held - {m}, middle, end);
    }
  }

  lemma {:induction false} SequenceOrdered<T>(outer: set<Mutex>, f: T -> Program, items: seq<T>, held: set<Mutex>)
    requires forall x | x in items :: Ordered(outer, f(x), held, held)
    ensures Ordered(outer, Sequence(f, items), held, held)
  {
    if items != [] {
      var n := |items| - 1;
      SequenceOrdered(outer, f, items[..n], held);
      OrderedAppend(outer, Sequence(f, items[..n]), f(items[n]), held, held, held);
    }
  }

  lemma OpOrdered(outer: set<Mutex>, op: Op, held: set<Mutex>, end: set<Mutex>)
    requires match op
             case Acquire(m) => m !in held && (m in outer ==> held == {}) && end == held + {m}
             case Release(m) => m in held && end == held - {m}
    ensures Ordered(outer, [op], held, end)
  {
    assert [op][1..] == [];
  }

  /** Taking a mutex, something in between, and giving it back. */
  lemma SectionOrdered(outer: set<Mutex>, m: Mutex, p: Program, held: set<Mutex>)
    requires m !in held && (m in outer ==> held == {}) && Ordered(outer, p, held + {m}, held + {m})
    ensures Ordered(outer, [Acquire(m)] + p + [Release(m)], held, held)
  {
    assert held + {m} - {m} == held;
    OpOrdered(outer, Acquire(m), held, held + {m});
    OpOrdered(outer, Release(m), held + {m}, held);
    OrderedAppend(outer, [Acquire(m)], p, held, held + {m}, held + {m});
    OrderedAppend(outer, [Acquire(m)] + p, [Release(m)], held, held + {m}, held);
  }

  lemma PairOrdered(outer: set<Mutex>, m: Mutex, held: set<Mutex>)
    requires m !in held && (m in outer ==> held == {})
    ensures Ordered(outer, [Acquire(m), Release(m)], held, held)
  {
    SectionOrdered(outer, m, [], held);
    assert [Acquire(m)] + [] + [Release(m)] == [Acquire(m), Release(m)];
  }

  /** A line nests libcec_sync in lirc_sync if it raises SIGPIPE, and nothing otherwise. */
  lemma LineOrdered(outer: set<Mutex>, line: Line, held: set<Mutex>)
    requires LircSync !in held && (LircSync in outer ==> held == {})
    requires line == Raising ==> held == {} && LibcecSync !in outer
    ensures Ordered(outer, WriteLine(line), held, held)
  {
    match line
    case Quiet => PairOrdered(outer, LircSync, held);
    case Raising =>
      PairOrdered(outer, LibcecSync, {LircSync});
      assert {} + {LircSync} == {LircSync};
      SectionOrdered(outer, LircSync, [Acquire(LibcecSync), Release(LibcecSync)], {});
      var push := [Acquire(LibcecSync), Release(LibcecSync)];
      assert [Acquire(LircSync)] + push + [Release(LircSync)] == WriteLine(Raising);
  }

  lemma LinesOrdered(outer: set<Mutex>, lines: seq<Line>, held: set<Mutex>)
    requires LircSync !in held && (LircSync in outer ==> held == {})
    requires Raising in lines ==> held == {} && LibcecSync !in outer
    ensures Ordered(outer, WriteLines(lines), held, held)
  {
    forall line | line in lines ensures Ordered(outer, WriteLine(line), held, held) {
      LineOrdered(outer, line, held);
    }
    SequenceOrdered(outer, WriteLine, lines, held);
  }

  lemma RoundOrdered(outer: set<Mutex>, lines: seq<Line>)
    requires Raising !in lines && (LircSync in outer ==> lines == [])
    ensures Ordered(outer, LoopRound(lines), {}, {})
  {
    var held := {LibcecSync};
    assert {} + held == held;
    if lines != [] {
      LinesOrdered(outer, lines, held);
    }
    SectionOrdered(outer, LibcecSync, WriteLines(lines), {});
    PairOrdered(outer, LibcecSync, {});
    var drain := [Acquire(LibcecSync)] + WriteLines(lines) + [Release(LibcecSync)];
    var wait := [Acquire(LibcecSync), Release(LibcecSync)];
    OrderedAppend(outer, drain, wait, {}, {}, {});
    assert drain + wait == LoopRound(lines);
  }

  lemma RoundsOrdered(outer: set<Mutex>, rounds: seq<seq<Line>>)
    requires forall lines | lines in rounds :: Raising !in lines && (LircSync in outer ==> lines == [])
    ensures Ordered(outer, Sequence(LoopRound, rounds), {}, {})
  {
    forall lines | lines in rounds ensures Ordered(outer, LoopRound(lines), {}, {}) {
      RoundOrdered(outer, lines);
    }
    SequenceOrdered(outer, LoopRound, rounds, {});
  }

  lemma WorkOrdered(outer: set<Mutex>, work: seq<Work>)
    requires LibcecSync in outer ==> !Raises(CallbackRole(work))
    ensures Ordered(outer, Sequence(Perform, work), {}, {})
  {
    forall w | w in work ensures Ordered(outer, Perform(w), {}, {}) {
      match w
      case PushOne => PairOrdered(outer, LibcecSync, {});
      case Lines(lines) =>
        var k :| 0 <= k < |work| && work[k] == w;
        assert LibcecSync in outer ==> Raising !in work[k].lines;
        LinesOrdered(outer, lines, {});
    }
    SequenceOrdered(outer, Perform, work, {});
  }

  /** Without SIGPIPE libcec_sync is the outer mutex; and without lines written by the loop lirc_sync is. */
  lemma EveryRoleOrdered(outer: Mutex, r: Role)
    requires if outer == LibcecSync then !Raises(r) else !WritesInLoop(r)
    ensures Ordered({outer}, ProgramOf(r), {}, {})
  {
    match r
    case LoopRole(rounds) => RoundsOrdered({outer}, rounds);
    case CallbackRole(work) => WorkOrdered({outer}, work);
    case AcceptorRole(n) => LinesOrdered({outer}, seq(n, _ => Quiet), {});
  }

  // ------------------------------------------------------------ an order rules deadlocks out

  ghost function HeldBy(s: State, t: nat): set<Mutex> {
    set m | m in s.holder && s.holder[m] == t
  }

  /** Every thread holds what its remaining program is about to release, and keeps the order. */
  ghost predicate Orderly(outer: Mutex, s: State) {
    && (forall m | m in s.holder :: s.holder[m] < |s.threads|)
    && (forall t :: 0 <= t < |s.threads| ==> Ordered({outer}, s.threads[t], HeldBy(s, t), {}))
  }

  lemma StepOrderly(outer: Mutex, s: State, t: nat)
    requires Orderly(outer, s)
    ensures Orderly(outer, Step(s, t))
  {
    if CanStep(s, t) {
      var s' := Step(s, t);
      var m := s.threads[t][0].m;
      assert Ordered({outer}, s.threads[t], HeldBy(s, t), {});
      forall u | 0 <= u < |s'.threads| ensures Ordered({outer}, s'.threads[u], HeldBy(s', u), {}) {
        assert Ordered({outer}, s.threads[u], HeldBy(s, u), {});
        if u == t {
          assert HeldBy(s', t) == if s.threads[t][0].Acquire? then HeldBy(s, t) + {m} else HeldBy(s, t) - {m};
        } else {
          assert m !in HeldBy(s, u);
          assert HeldBy(s', u) == HeldBy(s, u);
        }
      }
    }
  }

  lemma StuckThread(outer: Mutex, s: State, t: nat)
    requires Orderly(outer, s) && t < |s.threads| && s.threads[t] != [] && !CanStep(s, t)
    ensures s.threads[t][0].Acquire? && s.threads[t][0].m in s.holder
    ensures s.holder[s.threads[t][0].m] != t
    ensures s.threads[t][0].m == outer ==> HeldBy(s, t) == {}
  {
    assert Ordered({outer}, s.threads[t], HeldBy(s, t), {});
  }

  lemma HolderHasWork(outer: Mutex, s: State, m: Mutex)
    requires Orderly(outer, s) && m in s.holder
    ensures s.holder[m] < |s.threads| && s.threads[s.holder[m]] != []
  {
    var t := s.holder[m];
    assert Ordered({outer}, s.threads[t], HeldBy(s, t), {});
    assert m in HeldBy(s, t);
  }

  /** The holder of the inner mutex, or of the outer one while the inner one is free, can always go on. */
  lemma HolderGoesOn(outer: Mutex, s: State, m: Mutex)
    requires Orderly(outer, s) && m in s.holder && (m == outer ==> s.holder.Keys == {outer})
    ensures CanStep(s, s.holder[m])
  {
    HolderHasWork(outer, s, m);
    var t := s.holder[m];
    assert m in HeldBy(s, t);
    if !CanStep(s, t) {
      StuckThread(outer, s, t);
      assert false;
    }
  }

  lemma OrderlyIsNotDeadlocked(outer: Mutex, s: State)
    requires Orderly(outer, s)
    ensures !Deadlocked(s)
  {
    if Deadlocked(s) {
      if m :| m in s.holder && m != outer {
        HolderGoesOn(outer, s, m);
      } else if outer in s.holder {
        assert s.holder.Keys == {outer};
        HolderGoesOn(outer, s, outer);
      } else {
        var t :| 0 <= t < |s.threads| && s.threads[t] != [];
        StuckThread(outer, s, t);
      }
    }
  }

  lemma {:induction false} RunOrderly(outer: Mutex, s: State, schedule: seq<nat>)
    requires Orderly(outer, s)
    ensures Orderly(outer, Run(s, schedule))
  {
    if schedule != [] {
      RunOrderly(outer, s, schedule[..|schedule| - 1]);
      StepOrderly(outer, Run(s, schedule[..|schedule| - 1]), schedule[|schedule| - 1]);
    }
  }

  lemma OrderedRolesNeverDeadlock(outer: Mutex, roles: seq<Role>, schedule: seq<nat>)
    requires forall r | r in roles :: if outer == LibcecSync then !Raises(r) else !WritesInLoop(r)
    ensures !Deadlocked(Run(Start(Programs(roles)), schedule))
  {
    hide Raises, WritesInLoop, ProgramOf, Deadlocked, Run;
    var s := Start(Programs(roles));
    forall t | 0 <= t < |roles| ensures Ordered({outer}, s.threads[t], HeldBy(s, t), {}) {
      EveryRoleOrdered(outer, roles[t]);
      assert HeldBy(s, t) == {};
    }
    RunOrderly(outer, s, schedule);
    OrderlyIsNotDeadlocked(outer, Run(s, schedule));
  }

  /** Without SIGPIPE: any number of loop, callback and acceptor threads, with any work, in any interleaving. */
  lemma NoDeadlock(roles: seq<Role>, schedule: seq<nat>)
    requires forall r | r in roles :: !Raises(r)
    ensures !Deadlocked(Run(Start(Programs(roles)), schedule))
  {
    OrderedRolesNeverDeadlock(LibcecSync, roles, schedule);
  }

  // ------------------------------------------------------------ threads that block each other for good

  /** Thread i waits for what j holds and j for what i holds; they may be the same thread. */
  predicate Embraced(s: State, i: nat, j: nat) {
    && i < |s.threads| && j < |s.threads| && WaitsFor(s, i, j) && WaitsFor(s, j, i)
  }

  predicate WaitsFor(s: State, i: nat, j: nat)
    requires i < |s.threads|
  {
    && s.threads[i] != [] && s.threads[i][0].Acquire?
    && s.threads[i][0].m in s.holder && s.holder[s.threads[i][0].m] == j
  }

  lemma StaysEmbraced(s: State, i: nat, j: nat, t: nat)
    requires Embraced(s, i, j)
    ensures Embraced(Step(s, t), i, j)
  {
    if CanStep(s, t) {
      assert t != i && t != j;
      assert forall m | m in s.holder && (s.holder[m] == i || s.holder[m] == j) ::
               m in Step(s, t).holder && Step(s, t).holder[m] == s.holder[m];
    }
  }

  function Total(threads: seq<Program>): nat {
    if threads == [] then 0 else |threads[0]| + Total(threads[1..])
  }

  lemma {:induction false} TotalDrops(threads: seq<Program>, t: nat)
    requires t < |threads| && threads[t] != []
    ensures Total(threads[t := threads[t][1..]]) < Total(threads)
  {
    var threads' := threads[t := threads[t][1..]];
    if t == 0 {
      assert threads'[1..] == threads[1..];
    } else {
      TotalDrops(threads[1..], t - 1);
      assert threads'[1..] == threads[1..][t - 1 := threads[1..][t - 1][1..]];
    }
  }

  /** The other threads can be run until they stop, and then nobody can go on. */
  lemma {:induction false} EmbraceBecomesDeadlock(s: State, i: nat, j: nat) returns (schedule: seq<nat>)
    requires Embraced(s, i, j)
    ensures Deadlocked(Run(s, schedule))
    decreases Total(s.threads)
  {
    if t: nat :| t < |s.threads| && CanStep(s, t) {
      StaysEmbraced(s, i, j, t);
      TotalDrops(s.threads, t);
      var rest := EmbraceBecomesDeadlock(Step(s, t), i, j);
      RunOne(s, t);
      RunAppend(s, [t], rest);
      schedule := [t] + rest;
    } else {
      schedule := [];
      assert s.threads[i] != [];
    }
  }

  predicate HoldsAlone(holder: map<Mutex, nat>, t: nat, held: set<Mutex>) {
    holder.Keys == held && forall m | m in holder :: holder[m] == t
  }

  /** With nothing held by the others, a thread gets through whatever it could do on its own. */
  lemma {:induction false} RunAlone(s: State, t: nat, p: Program, q: Program, held: set<Mutex>, end: set<Mutex>)
    returns (schedule: seq<nat>)
    requires t < |s.threads| && s.threads[t] == p + q && HoldsAlone(s.holder, t, held) && Ordered({}, p, held, end)
    ensures Run(s, schedule).threads == s.threads[t := q] && HoldsAlone(Run(s, schedule).holder, t, end)
    decreases |p|
  {
    if p == [] {
      schedule := [];
      assert p + q == q && s.threads[t := q] == s.threads;
    } else {
      assert (p + q)[1..] == p[1..] + q;
      var s' := Step(s, t);
      var held' := if p[0].Acquire? then held + {p[0].m} else held - {p[0].m};
      assert HoldsAlone(s'.holder, t, held');
      var rest := RunAlone(s', t, p[1..], q, held', end);
      assert s'.threads[t := q] == s.threads[t := q];
      RunOne(s, t);
      RunAppend(s, [t], rest);
      schedule := [t] + rest;
    }
  }

  // ------------------------------------------------------------ when the SIGPIPE handler deadlocks

  lemma FirstRaising(lines: seq<Line>) returns (k: nat)
    requires Raising in lines
    ensures k < |lines| && lines[k] == Raising && Raising !in lines[..k]
  {
    if Raising in lines[..|lines| - 1] {
      k := FirstRaising(lines[..|lines| - 1]);
      assert lines[..|lines| - 1][..k] == lines[..k];
    } else {
      k := |lines| - 1;
    }
  }

  lemma FirstRaisingRound(rounds: seq<seq<Line>>, k: nat) returns (first: nat)
    requires k < |rounds| && Raising in rounds[k]
    ensures first < |rounds| && Raising in rounds[first] && forall lines | lines in rounds[..first] :: Raising !in lines
  {
    if lines :| lines in rounds[..k] && Raising in lines {
      var i :| 0 <= i < k && rounds[i] == lines;
      first := FirstRaisingRound(rounds, i);
    } else {
      first := k;
    }
  }

  /** What follows the acquisition of libcec_sync in a round, with line k of it set apart. */
  lemma RoundSplit(lines: seq<Line>, k: nat) returns (rest: Program)
    requires k < |lines|
    ensures LoopRound(lines) == [Acquire(LibcecSync)] + WriteLines(lines[..k]) + WriteLine(lines[k]) + rest
  {
    hide WriteLine;
    SequenceSplit(WriteLine, lines, k);
    var last := [Release(LibcecSync), Acquire(LibcecSync), Release(LibcecSync)];
    rest := WriteLines(lines[k + 1..]) + last;
  }

  /** A loop thread comes, alone, to just before line k of a round; earlier lines raise nothing. */
  lemma LoopReachesLine(rounds: seq<seq<Line>>, r: nat, k: nat) returns (p: Program, rest: Program)
    requires r < |rounds| && k < |rounds[r]|
    requires (forall lines | lines in rounds[..r] :: Raising !in lines) && Raising !in rounds[r][..k]
    ensures Sequence(LoopRound, rounds) == p + WriteLine(rounds[r][k]) + rest
    ensures Ordered({}, p, {}, {LibcecSync})
  {
    hide WriteLine, LoopRound, Sequence;
    var lines := rounds[r];
    var held := {LibcecSync};
    assert {} + held == held;
    var before := Sequence(LoopRound, rounds[..r]);
    var quiet := WriteLines(lines[..k]);
    RoundsOrdered({}, rounds[..r]);
    OpOrdered({}, Acquire(LibcecSync), {}, held);
    LinesOrdered({}, lines[..k], held);
    OrderedAppend({}, before, [Acquire(LibcecSync)], {}, {}, held);
    OrderedAppend({}, before + [Acquire(LibcecSync)], quiet, {}, held, held);
    SequenceSplit(LoopRound, rounds, r);
    var more := RoundSplit(lines, k);
    p := before + [Acquire(LibcecSync)] + quiet;
    rest := more + Sequence(LoopRound, rounds[r + 1..]);
    assert LoopRound(lines) == [Acquire(LibcecSync)] + quiet + WriteLine(lines[k]) + more;
  }

  /** A callback thread comes, alone, to just before any of its lines. */
  lemma CallbackReachesLine(work: seq<Work>, w: nat, k: nat) returns (p: Program, rest: Program)
    requires w < |work| && work[w].Lines? && k < |work[w].lines|
    ensures Sequence(Perform, work) == p + WriteLine(work[w].lines[k]) + rest
    ensures Ordered({}, p, {}, {})
  {
    hide WriteLine, Sequence;
    var lines := work[w].lines;
    WorkOrdered({}, work[..w]);
    LinesOrdered({}, lines[..k], {});
    var before, earlier := Sequence(Perform, work[..w]), WriteLines(lines[..k]);
    OrderedAppend({}, before, earlier, {}, {}, {});
    SequenceSplit(Perform, work, w);
    SequenceSplit(WriteLine, lines, k);
    p := before + earlier;
    rest := WriteLines(lines[k + 1..]) + Sequence(Perform, work[w + 1..]);
    assert Perform(work[w]) == earlier + WriteLine(lines[k]) + WriteLines(lines[k + 1..]);
  }

  /** A loop thread comes, alone, to where it holds both mutexes and wants libcec_sync. */
  lemma LoopReachesHandler(rounds: seq<seq<Line>>) returns (p: Program, q: Program)
    requires Raises(LoopRole(rounds))
    ensures Sequence(LoopRound, rounds) == p + q && q != [] && q[0] == Acquire(LibcecSync)
    ensures Ordered({}, p, {}, {LibcecSync, LircSync})
  {
    var r :| 0 <= r < |rounds| && Raising in rounds[r];
    r := FirstRaisingRound(rounds, r);
    hide Raises, Sequence, Ordered;
    var k := FirstRaising(rounds[r]);
    var before, rest := LoopReachesLine(rounds, r, k);
    OpOrdered({}, Acquire(LircSync), {LibcecSync}, {LibcecSync, LircSync});
    OrderedAppend({}, before, [Acquire(LircSync)], {}, {LibcecSync}, {LibcecSync, LircSync});
    p, q := before + [Acquire(LircSync)], [Acquire(LibcecSync), Release(LibcecSync), Release(LircSync)] + rest;
    assert WriteLine(Raising) == [Acquire(LircSync)] + [Acquire(LibcecSync), Release(LibcecSync), Release(LircSync)];
    assert before + WriteLine(Raising) + rest == p + q;
  }

  /** A loop thread whose write raises SIGPIPE waits for libcec_sync while it holds it. */
  lemma LoopBlocksItself(roles: seq<Role>, i: nat) returns (schedule: seq<nat>)
    requires i < |roles| && roles[i].LoopRole? && Raises(roles[i])
    ensures Embraced(Run(Start(Programs(roles)), schedule), i, i)
  {
    hide Run, Sequence, Ordered, Raises;
    var s := Start(Programs(roles));
    var p, q := LoopReachesHandler(roles[i].rounds);
    schedule := RunAlone(s, i, p, q, {}, {LibcecSync, LircSync});
    assert Run(s, schedule).threads[i] == q;
  }

  /** A loop thread that raises nothing comes, alone, to where it holds libcec_sync and wants lirc_sync. */
  lemma LoopReachesLirc(rounds: seq<seq<Line>>) returns (p: Program, q: Program)
    requires WritesInLoop(LoopRole(rounds)) && !Raises(LoopRole(rounds))
    ensures Sequence(LoopRound, rounds) == p + q && q != [] && q[0] == Acquire(LircSync)
    ensures Ordered({}, p, {}, {LibcecSync})
  {
    var r :| 0 <= r < |rounds| && rounds[r] != [];
    assert forall lines | lines in rounds[..r] :: Raising !in lines;
    hide Raises, WritesInLoop, Sequence, Ordered;
    var rest;
    p, rest := LoopReachesLine(rounds, r, 0);
    q := WriteLine(rounds[r][0]) + rest;
    assert p + WriteLine(rounds[r][0]) + rest == p + q;
  }

  /** A callback thread comes, alone, to where it wants both mutexes, lirc_sync first. */
  lemma CallbackReachesBoth(work: seq<Work>) returns (p: Program, q: Program)
    requires Raises(CallbackRole(work))
    ensures Sequence(Perform, work) == p + q && |q| > 1 && q[0] == Acquire(LircSync) && q[1] == Acquire(LibcecSync)
    ensures Ordered({}, p, {}, {})
  {
    var w :| 0 <= w < |work| && work[w].Lines? && Raising in work[w].lines;
    hide Raises, Sequence, Ordered;
    var k := FirstRaising(work[w].lines);
    var rest;
    p, rest := CallbackReachesLine(work, w, k);
    q := WriteLine(Raising) + rest;
    assert p + WriteLine(Raising) + rest == p + q;
  }

  /** A callback thread whose write raises SIGPIPE, and a loop thread about to write, wait for each other. */
  lemma LoopAndCallbackBlock(roles: seq<Role>, i: nat, j: nat) returns (schedule: seq<nat>)
    requires i < |roles| && roles[i].LoopRole? && WritesInLoop(roles[i]) && !Raises(roles[i])
    requires j < |roles| && roles[j].CallbackRole? && Raises(roles[j])
    ensures Embraced(Run(Start(Programs(roles)), schedule), i, j)
  {
    hide Run, Sequence, Ordered, Raises, WritesInLoop, Embraced;
    var p, q := LoopReachesLirc(roles[i].rounds);
    var p', q' := CallbackReachesBoth(roles[j].work);
    schedule := Meet(Start(Programs(roles)), i, j, p, q, p', q');
  }

  /** The last step into the embrace. */
  lemma TakesInner(s: State, i: nat, j: nat)
    requires i < |s.threads| && j < |s.threads| && i != j && HoldsAlone(s.holder, i, {LibcecSync})
    requires s.threads[i] != [] && s.threads[i][0] == Acquire(LircSync)
    requires |s.threads[j]| > 1 && s.threads[j][0] == Acquire(LircSync) && s.threads[j][1] == Acquire(LibcecSync)
    ensures Embraced(Step(s, j), i, j)
  {
    var s' := Step(s, j);
    assert s'.threads[i] == s.threads[i] && s'.threads[j] == s.threads[j][1..];
    assert s'.holder[LibcecSync] == i && s'.holder[LircSync] == j;
  }

  lemma Meet(s: State, i: nat, j: nat, p: Program, q: Program, p': Program, q': Program) returns (schedule: seq<nat>)
    requires i < |s.threads| && j < |s.threads| && i != j && s.holder == map[]
    requires s.threads[i] == p + q && Ordered({}, p, {}, {LibcecSync}) && q != [] && q[0] == Acquire(LircSync)
    requires s.threads[j] == p' + q' && Ordered({}, p', {}, {})
    requires |q'| > 1 && q'[0] == Acquire(LircSync) && q'[1] == Acquire(LibcecSync)
    ensures Embraced(Run(s, schedule), i, j)
  {
    hide Run, Ordered, Step, Embraced;
    var first := RunAlone(s, j, p', q', {}, {});
    var s1 := Run(s, first);
    var second := RunAlone(s1, i, p, q, {}, {LibcecSync});
    var s2 := Run(s1, second);
    assert s2.threads[i] == q && s2.threads[j] == q';
    TakesInner(s2, i, j);
    RunOne(s2, j);
    RunAppend(s1, second, [j]);
    RunAppend(s, first, second + [j]);
    schedule := first + (second + [j]);
  }

  /**
   * With the SIGPIPE handler running inside the write that raises it, for any threads with any amount of work:
   * some schedule deadlocks them if and only if a loop thread writes some line (for a STANDBY command) and some
   * thread, the same or another, writes one that raises SIGPIPE.
   */
  lemma WhenSigpipeDeadlocks(roles: seq<Role>)
    ensures (exists schedule: seq<nat> :: Deadlocked(Run(Start(Programs(roles)), schedule))) <==>
            (exists i | 0 <= i < |roles| :: WritesInLoop(roles[i])) && (exists j | 0 <= j < |roles| :: Raises(roles[j]))
  {
    if i, j :| 0 <= i < |roles| && WritesInLoop(roles[i]) && 0 <= j < |roles| && Raises(roles[j]) {
      var schedule := GuiltyThreadsDeadlock(roles, i, j);
    } else {
      var outer := if exists j | 0 <= j < |roles| :: Raises(roles[j]) then LircSync else LibcecSync;
      hide Deadlocked, Run, WritesInLoop, Raises, Programs;
      forall schedule: seq<nat> ensures !Deadlocked(Run(Start(Programs(roles)), schedule)) {
        OrderedRolesNeverDeadlock(outer, roles, schedule);
      }
    }
  }

  lemma GuiltyThreadsDeadlock(roles: seq<Role>, i: nat, j: nat) returns (schedule: seq<nat>)
    requires i < |roles| && WritesInLoop(roles[i]) && j < |roles| && Raises(roles[j])
    ensures Deadlocked(Run(Start(Programs(roles)), schedule))
  {
    var s := Start(Programs(roles));
    var before, rest;
    if roles[j].LoopRole? {
      before := LoopBlocksItself(roles, j);
      hide Run, Deadlocked, Embraced, Programs;
      rest := EmbraceBecomesDeadlock(Run(s, before), j, j);
    } else if Raises(roles[i]) {
      before := LoopBlocksItself(roles, i);
      hide Run, Deadlocked, Embraced, Programs;
      rest := EmbraceBecomesDeadlock(Run(s, before), i, i);
    } else {
      before := LoopAndCallbackBlock(roles, i, j);
      hide Run, Deadlocked, Embraced, Programs;
      rest := EmbraceBecomesDeadlock(Run(s, before), i, j);
    }
    RunAppend(s, before, rest);
    schedule := before + rest;
  }

  /** The smallest daemons that deadlock, and one that does not although its callback thread breaks the order. */
  lemma SmallestDeadlocks(schedule: seq<nat>)
    ensures var standby, press := LoopRole([[Quiet]]), CallbackRole([Lines([Raising])]);
            && (exists deadly: seq<nat> :: Deadlocked(Run(Start(Programs([LoopRole([[Raising]])])), deadly)))
            && (exists deadly: seq<nat> :: Deadlocked(Run(Start(Programs([standby, press])), deadly)))
            && !Deadlocked(Run(Start(Programs([LoopRole([[]]), press])), schedule))
  {
    hide Deadlocked, Run, Programs;
    var standby, press := LoopRole([[Quiet]]), CallbackRole([Lines([Raising])]);
    assert [[Raising]][0] == [Raising] && [[Quiet]][0] == [Quiet] && [Lines([Raising])][0] == Lines([Raising]);
    assert Raises(LoopRole([[Raising]])) && WritesInLoop(LoopRole([[Raising]]));
    assert Raises(press) && WritesInLoop(standby);
    var one, two := [LoopRole([[Raising]])], [standby, press];
    assert Raises(one[0]) && WritesInLoop(two[0]) && Raises(two[1]);
    WhenSigpipeDeadlocks(one);
    WhenSigpipeDeadlocks(two);
    WhenSigpipeDeadlocks([LoopRole([[]]), press]);
  }
}
