/**
 * The whole daemon: the session loop, the key machine and the broadcaster run side by side. Steps of the loop
 * thread, of callback threads and of the acceptor thread interleave freely. A key event leaves its lines in an
 * outbox of its thread, and the thread writes them one by one, each to every client.
 */
module System {
  import opened Sequences
  import W = Wire
  import K = Keys
  import D = Daemon
  import S = Subscribers

  /** The key table, and whether a standby command is configured (then STANDBY presses no key). */
  datatype Config = Config(table: K.Table, hasStandbyCommand: bool)

  type Thread = nat

  /** The thread of Main::loop; the others run callbacks. */
  const LOOP: Thread := 0

  datatype Label =
    | Queue(step: D.Label)                // any step of the session loop, or of a callback that pushes
    | Key(thread: Thread, event: K.Event)     // a callback of the key machine
    | Write(thread: Thread)                   // the thread writes its next line
    | Accept(answer: int)                 // the acceptor thread

  /** A key event, the thread it came on, and the lines it asked for. */
  datatype Happening = Happening(thread: Thread, event: K.Event, out: seq<W.Record>)

  datatype Written = Written(thread: Thread, record: W.Record)

  /** `history` is every key event so far, `written` every line broadcast; a thread with lines still to be written
      has an outbox. */
  datatype State = State(daemon: D.State, keys: K.State, hub: S.Hub, history: seq<Happening>,
                         outbox: map<Thread, seq<W.Record>>, written: seq<Written>)

  /** `garbage` is the uninitialised lastKey. */
  function Init(makeActive: bool, clearing: bool, garbage: K.Keypress): State {
    State(D.Init(makeActive, clearing), K.State(garbage, 0), S.EMPTY, [], map[], [])
  }

  /** One event of the key machine, by a thread that has nothing to write. */
  function Press(cfg: Config, s: State, t: Thread, e: K.Event): State {
    var (keys, out) := K.Step(cfg.table, s.keys, e);
    s.(keys := keys, history := s.history + [Happening(t, e, out)],
       outbox := if out == [] then s.outbox else s.outbox[t := out])
  }

  /** The next line of a thread goes to the clients. */
  function WriteNext(env: S.Env, s: State, t: Thread): State
    requires t in s.outbox && s.outbox[t] != []
  {
    var r, rest := s.outbox[t][0], s.outbox[t][1..];
    s.(hub := S.Broadcast(env, s.hub, W.Line(r)), written := s.written + [Written(t, r)],
       outbox := if rest == [] then s.outbox - {t} else s.outbox[t := rest])
  }

  /** Processing STANDBY without a configured command presses the power key. */
  predicate PressesPower(cfg: Config, s: D.State, l: D.Label) {
    l == D.Process && D.Enabled(s, l) && s.commands[0] == D.Standby && !cfg.hasStandbyCommand
  }

  /** A thread goes on only when its lines are written. */
  function Step(cfg: Config, env: S.Env, s: State, l: Label): State {
    match l
    case Queue(d) =>
      if LOOP in s.outbox && !d.Begin? && !d.Push? then s
      else
        var pressed := if PressesPower(cfg, s.daemon, d) then Press(cfg, s, LOOP, K.Inject(cfg.table.power)) else s;
        pressed.(daemon := D.Next(s.daemon, d))
    case Key(t, e) => if t == LOOP || t in s.outbox then s else Press(cfg, s, t, e)
    case Write(t) => if t in s.outbox && s.outbox[t] != [] then WriteNext(env, s, t) else s
    case Accept(answer) => s.(hub := S.AcceptClient(s.hub, answer))
  }

  function Run(cfg: Config, env: S.Env, init: State, labels: seq<Label>): State {
    if labels == [] then init
    else Step(cfg, env, Run(cfg, env, init, labels[..|labels| - 1]), labels[|labels| - 1])
  }

  lemma RunSnoc(cfg: Config, env: S.Env, init: State, labels: seq<Label>, l: Label)
    ensures Run(cfg, env, init, labels + [l]) == Step(cfg, env, Run(cfg, env, init, labels), l)
  {
    hide Step;
    assert (labels + [l])[..|labels|] == labels;
  }

  lemma {:induction false} RunAppend(cfg: Config, env: S.Env, init: State, a: seq<Label>, b: seq<Label>)
    ensures Run(cfg, env, init, a + b) == Run(cfg, env, Run(cfg, env, init, a), b)
  {
    hide Step;
    if b == [] {
      assert a + b == a;
    } else {
      var n := |b| - 1;
      RunAppend(cfg, env, init, a, b[..n]);
      assert a + b == (a + b[..n]) + [b[n]];
      RunSnoc(cfg, env, init, a + b[..n], b[n]);
    }
  }

  // ------------------------------------------------------------ what was asked for, and what was written

  function Events(history: seq<Happening>): seq<K.Event> {
    seq(|history|, i requires 0 <= i < |history| => history[i].event)
  }

  function Outs(history: seq<Happening>): seq<seq<W.Record>> {
    seq(|history|, i requires 0 <= i < |history| => history[i].out)
  }

  function Records(written: seq<Written>): (records: seq<W.Record>)
    ensures |records| == |written|
  {
    seq(|written|, i requires 0 <= i < |written| => written[i].record)
  }

  /** Everything the events of a thread have asked for, in order. */
  function AskedBy(t: Thread, history: seq<Happening>): seq<W.Record> {
    if history == [] then []
    else
      var last := history[|history| - 1];
      AskedBy(t, history[..|history| - 1]) + (if last.thread == t then last.out else [])
  }

  /** Everything a thread has written, in order. */
  function WrittenBy(t: Thread, written: seq<Written>): seq<W.Record> {
    if written == [] then []
    else
      var last := written[|written| - 1];
      WrittenBy(t, written[..|written| - 1]) + (if last.thread == t then [last.record] else [])
  }

  function Outbox(s: State, t: Thread): seq<W.Record> {
    if t in s.outbox then s.outbox[t] else []
  }

  /** Each thread has written what its events asked for, in order, but for what is left in its outbox. */
  ghost predicate Accounted(s: State) {
    forall t: Thread :: WrittenBy(t, s.written) + Outbox(s, t) == AskedBy(t, s.history)
  }

  /** The key machine has asked, event by event, for what the history-only specification wants. */
  ghost predicate Specified(cfg: Config, garbage: K.Keypress, s: State) {
    && K.EmitsAll(cfg.table, garbage, Events(s.history), Outs(s.history))
    && K.Tracks(cfg.table, garbage, Events(s.history), s.keys)
  }

  predicate CleanState(s: State) {
    W.Clean(Records(s.written)) && forall t | t in s.outbox :: W.Clean(s.outbox[t])
  }

  /** The broadcaster has gone through the lines written, and every client's bytes are accounted for. */
  ghost predicate Delivered(env: S.Env, s: State) {
    s.hub.log == W.Lines(Records(s.written)) && S.WellFormed(s.hub) && S.Faithful(env, s.hub)
  }

  ghost predicate Composed(cfg: Config, env: S.Env, garbage: K.Keypress, s: State) {
    Specified(cfg, garbage, s) && Accounted(s) && CleanState(s) && Delivered(env, s)
  }

  // ------------------------------------------------------------ a key event

  lemma PressSpecified(cfg: Config, garbage: K.Keypress, s: State, t: Thread, e: K.Event)
    requires cfg.table.Valid() && Specified(cfg, garbage, s)
    ensures Specified(cfg, garbage, Press(cfg, s, t, e))
  {
    hide K.EmitsAll, K.Tracks, K.Emits, K.Step;
    var events, outs, out := Events(s.history), Outs(s.history), K.Step(cfg.table, s.keys, e).1;
    K.TracksStep(cfg.table, garbage, events, s.keys, e);
    K.EmitsAllSnoc(cfg.table, garbage, events, outs, e, out);
    var longer := s.history + [Happening(t, e, out)];
    assert Events(longer) == events + [e] && Outs(longer) == outs + [out];
  }

  lemma AskedBySnoc(t: Thread, history: seq<Happening>, h: Happening)
    ensures AskedBy(t, history + [h]) == AskedBy(t, history) + (if h.thread == t then h.out else [])
  {
    assert (history + [h])[..|history|] == history;
  }

  lemma PressAccounted(cfg: Config, s: State, t: Thread, e: K.Event)
    requires Accounted(s) && t !in s.outbox
    ensures Accounted(Press(cfg, s, t, e))
  {
    hide K.Step, AskedBy, WrittenBy;
    var s', out := Press(cfg, s, t, e), K.Step(cfg.table, s.keys, e).1;
    forall u: Thread ensures WrittenBy(u, s'.written) + Outbox(s', u) == AskedBy(u, s'.history) {
      assert WrittenBy(u, s.written) + Outbox(s, u) == AskedBy(u, s.history);
      AskedBySnoc(u, s.history, Happening(t, e, out));
      assert Outbox(s', u) == Outbox(s, u) + (if u == t then out else []);
      Associate(WrittenBy(u, s.written), Outbox(s, u), if u == t then out else []);
    }
  }

  lemma PressComposed(cfg: Config, env: S.Env, garbage: K.Keypress, s: State, t: Thread, e: K.Event)
    requires cfg.table.Valid() && Composed(cfg, env, garbage, s) && t !in s.outbox
    ensures Composed(cfg, env, garbage, Press(cfg, s, t, e))
  {
    PressSpecified(cfg, garbage, s, t, e);
    PressAccounted(cfg, s, t, e);
    K.StepClean(cfg.table, s.keys, e);
    hide Specified, Accounted, S.WellFormed, S.Faithful, K.Step, W.Clean, W.Lines;
  }

  /** A key event on a thread that has nothing left to write is taken at once: the key machine makes its step, the
      event goes into the history, and its lines into the outbox of the thread. */
  lemma EventIsTaken(cfg: Config, env: S.Env, s: State, t: Thread, e: K.Event)
    requires t != LOOP && t !in s.outbox
    ensures var s', out := Step(cfg, env, s, Key(t, e)), K.Step(cfg.table, s.keys, e).1;
            && s'.keys == K.Step(cfg.table, s.keys, e).0 && s'.history == s.history + [Happening(t, e, out)]
            && Outbox(s', t) == out && s'.written == s.written && s'.hub == s.hub && s'.daemon == s.daemon
  {
    hide K.Step;
  }

  // ------------------------------------------------------------ a written line

  lemma WrittenBySnoc(t: Thread, written: seq<Written>, w: Written)
    ensures WrittenBy(t, written + [w]) == WrittenBy(t, written) + (if w.thread == t then [w.record] else [])
  {
    assert (written + [w])[..|written|] == written;
  }

  lemma RecordsSnoc(written: seq<Written>, w: Written)
    ensures Records(written + [w]) == Records(written) + [w.record]
    ensures W.Lines(Records(written + [w])) == W.Lines(Records(written)) + [W.Line(w.record)]
  {
    hide W.Line;
    var longer := written + [w];
    forall i | 0 <= i < |longer|
      ensures W.Lines(Records(longer))[i] == (W.Lines(Records(written)) + [W.Line(w.record)])[i]
    {
      assert W.Lines(Records(longer))[i] == W.Line(longer[i].record);
    }
  }

  lemma WriteAccounted(env: S.Env, s: State, t: Thread)
    requires Accounted(s) && t in s.outbox && s.outbox[t] != []
    ensures Accounted(WriteNext(env, s, t))
  {
    hide AskedBy, WrittenBy, S.Broadcast, W.Line;
    var s', r := WriteNext(env, s, t), s.outbox[t][0];
    forall u: Thread ensures WrittenBy(u, s'.written) + Outbox(s', u) == AskedBy(u, s'.history) {
      assert WrittenBy(u, s.written) + Outbox(s, u) == AskedBy(u, s.history);
      WrittenBySnoc(u, s.written, Written(t, r));
      var front := if u == t then [r] else [];
      assert Outbox(s, u) == front + Outbox(s', u);
      Associate(WrittenBy(u, s.written), front, Outbox(s', u));
    }
  }

  lemma WriteClean(env: S.Env, s: State, t: Thread)
    requires CleanState(s) && t in s.outbox && s.outbox[t] != []
    ensures CleanState(WriteNext(env, s, t))
  {
    hide W.CleanName, W.Lines, W.Line, S.Broadcast;
    var r, rest := s.outbox[t][0], s.outbox[t][1..];
    RecordsSnoc(s.written, Written(t, r));
    assert r in s.outbox[t];
    assert forall x | x in rest :: x in s.outbox[t];
  }

  lemma WriteComposed(cfg: Config, env: S.Env, garbage: K.Keypress, s: State, t: Thread)
    requires Composed(cfg, env, garbage, s) && t in s.outbox && s.outbox[t] != []
    ensures Composed(cfg, env, garbage, WriteNext(env, s, t))
  {
    WriteAccounted(env, s, t);
    WriteClean(env, s, t);
    var r := s.outbox[t][0];
    RecordsSnoc(s.written, Written(t, r));
    S.BroadcastFaithful(env, s.hub, W.Line(r));
    hide S.WellFormed, S.Faithful, W.Lines, W.Line, CleanState, Accounted, K.EmitsAll, K.Tracks;
  }

  // ------------------------------------------------------------ every run

  lemma AcceptKeepsLog(h: S.Hub, answer: int)
    ensures S.AcceptClient(h, answer).log == h.log && h.born <= S.AcceptClient(h, answer).born
  {
  }

  lemma AcceptComposed(cfg: Config, env: S.Env, garbage: K.Keypress, s: State, answer: int)
    requires Composed(cfg, env, garbage, s)
    ensures Composed(cfg, env, garbage, s.(hub := S.AcceptClient(s.hub, answer)))
  {
    S.AcceptFaithful(env, s.hub, answer);
    AcceptKeepsLog(s.hub, answer);
    hide S.WellFormed, S.Faithful, S.AcceptClient, W.Lines, CleanState, K.EmitsAll, K.Tracks, AskedBy, WrittenBy;
    var s' := s.(hub := S.AcceptClient(s.hub, answer));
    assert CleanState(s') by { SameLines(s, s'); }
    assert Accounted(s') by {
      assert forall t: Thread :: Outbox(s', t) == Outbox(s, t);
    }
  }

  lemma DaemonComposed(cfg: Config, env: S.Env, garbage: K.Keypress, s: State, daemon: D.State)
    requires Composed(cfg, env, garbage, s)
    ensures Composed(cfg, env, garbage, s.(daemon := daemon))
  {
    hide S.WellFormed, S.Faithful, W.Lines, CleanState, K.EmitsAll, K.Tracks, AskedBy, WrittenBy;
    var s' := s.(daemon := daemon);
    assert CleanState(s') by { SameLines(s, s'); }
    assert Accounted(s') by {
      assert forall t: Thread :: Outbox(s', t) == Outbox(s, t);
    }
  }

  lemma SameLines(s: State, s': State)
    requires CleanState(s) && s'.written == s.written && s'.outbox == s.outbox
    ensures CleanState(s')
  {
  }

  lemma StepComposed(cfg: Config, env: S.Env, garbage: K.Keypress, s: State, l: Label)
    requires cfg.table.Valid() && Composed(cfg, env, garbage, s)
    ensures Composed(cfg, env, garbage, Step(cfg, env, s, l))
  {
    hide Composed, Press, WriteNext, D.Next, S.AcceptClient, K.Table.Valid;
    match l
    case Queue(d) =>
      if !(LOOP in s.outbox && !d.Begin? && !d.Push?) {
        if PressesPower(cfg, s.daemon, d) {
          PressComposed(cfg, env, garbage, s, LOOP, K.Inject(cfg.table.power));
          DaemonComposed(cfg, env, garbage, Press(cfg, s, LOOP, K.Inject(cfg.table.power)), D.Next(s.daemon, d));
        } else {
          DaemonComposed(cfg, env, garbage, s, D.Next(s.daemon, d));
        }
      }
    case Key(t, e) => if t != LOOP && t !in s.outbox { PressComposed(cfg, env, garbage, s, t, e); }
    case Write(t) => if t in s.outbox && s.outbox[t] != [] { WriteComposed(cfg, env, garbage, s, t); }
    case Accept(answer) => AcceptComposed(cfg, env, garbage, s, answer);
  }

  lemma InitComposed(cfg: Config, env: S.Env, makeActive: bool, clearing: bool, garbage: K.Keypress)
    ensures Composed(cfg, env, garbage, Init(makeActive, clearing, garbage))
  {
    assert K.Ups([]) == {};
  }

  lemma {:induction false} EveryRunIsComposed(cfg: Config, env: S.Env, makeActive: bool, clearing: bool,
                                              garbage: K.Keypress, labels: seq<Label>)
    requires cfg.table.Valid()
    ensures Composed(cfg, env, garbage, Run(cfg, env, Init(makeActive, clearing, garbage), labels))
  {
    hide Composed, Step, K.Table.Valid;
    if labels == [] {
      InitComposed(cfg, env, makeActive, clearing, garbage);
    } else {
      var n := |labels| - 1;
      EveryRunIsComposed(cfg, env, makeActive, clearing, garbage, labels[..n]);
      StepComposed(cfg, env, garbage, Run(cfg, env, Init(makeActive, clearing, garbage), labels[..n]), labels[n]);
    }
  }

  // ------------------------------------------------------------ what clients can decode

  lemma SliceOfLines(records: seq<W.Record>, lo: nat, hi: nat)
    requires lo <= hi <= |records|
    ensures W.Lines(records)[lo..hi] == W.Lines(records[lo..hi])
  {
  }

  lemma SliceOfRecords(written: seq<Written>, lo: nat, hi: nat)
    requires lo <= hi <= |written|
    ensures Records(written)[lo..hi] == Records(written[lo..hi])
  {
  }

  lemma SliceClean(records: seq<W.Record>, lo: nat, hi: nat)
    requires lo <= hi <= |records| && W.Clean(records)
    ensures W.Clean(records[lo..hi])
  {
    forall r | r in records[lo..hi] ensures W.CleanName(r.name) {
      assert r in records;
    }
  }

  lemma EncodeIsFlatten(records: seq<W.Record>)
    ensures W.Encode(records) == Flatten(W.Lines(records))
  {
  }

  /** The bytes of the lines lo..hi, and the beginning of a line, decode to their records and that beginning. */
  lemma SliceDecodes(records: seq<W.Record>, lo: nat, hi: nat, part: string)
    requires W.Clean(records) && lo <= hi <= |records| && W.Unfinished(part)
    ensures W.Decode(Flatten(W.Lines(records)[lo..hi]) + part) == (records[lo..hi], part)
  {
    hide W.Decode, W.Lines, Flatten, W.Unfinished;
    SliceOfLines(records, lo, hi);
    SliceClean(records, lo, hi);
    EncodeIsFlatten(records[lo..hi]);
    W.DecodeEncode(records[lo..hi], part);
  }

  /** The bytes of a subscribed client decode to exactly the records written since it was accepted. */
  ghost predicate Served(s: State, c: S.Conn)
    requires |s.hub.born| == |s.hub.os.streams|
  {
    && c < |s.hub.born| && s.hub.born[c] <= |s.written|
    && W.Decode(s.hub.os.streams[c]) == (Records(s.written[s.hub.born[c]..]), "")
  }

  ghost predicate AllServed(s: State) {
    && |s.hub.born| == |s.hub.os.streams|
    && forall c: S.Conn | S.Subscribed(s.hub, c) :: Served(s, c)
  }

  lemma LiveClientDecodes(cfg: Config, env: S.Env, garbage: K.Keypress, s: State, c: S.Conn)
    requires Composed(cfg, env, garbage, s) && S.Subscribed(s.hub, c)
    ensures |s.hub.born| == |s.hub.os.streams| && Served(s, c)
  {
    hide W.Decode, W.Lines, Flatten, W.Clean, Specified, Accounted;
    var h, records, n := s.hub, Records(s.written), |s.written|;
    S.LiveClientHasEverything(env, h, c);
    hide S.WellFormed, S.Faithful, S.Subscribed;
    var b := h.born[c];
    SliceDecodes(records, b, n, "");
    assert h.log[b..n] == h.log[b..] && s.written[b..n] == s.written[b..];
    assert Flatten(h.log[b..]) + "" == h.os.streams[c];
    SliceOfRecords(s.written, b, n);
  }

  lemma ComposedServes(cfg: Config, env: S.Env, garbage: K.Keypress, s: State)
    requires Composed(cfg, env, garbage, s)
    ensures AllServed(s)
  {
    hide W.Decode, Composed, Served;
    forall c: S.Conn | S.Subscribed(s.hub, c) ensures |s.hub.born| == |s.hub.os.streams| && Served(s, c) {
      LiveClientDecodes(cfg, env, garbage, s, c);
    }
    SameCount(cfg, env, garbage, s);
  }

  lemma SameCount(cfg: Config, env: S.Env, garbage: K.Keypress, s: State)
    requires Composed(cfg, env, garbage, s)
    ensures |s.hub.born| == |s.hub.os.streams|
  {
    hide Specified, Accounted, CleanState, S.Faithful;
  }

  /** The bytes of a dropped client decode to the records up to a later one, and a beginning of that one's line. */
  lemma DroppedClientDecodes(cfg: Config, env: S.Env, garbage: K.Keypress, s: State, c: S.Conn)
    returns (m: nat, part: string)
    requires Composed(cfg, env, garbage, s)
    requires c < |s.hub.os.streams| && !S.Subscribed(s.hub, c)
    ensures |s.hub.born| == |s.hub.os.streams| && s.hub.born[c] <= m < |s.written|
    ensures part < W.Line(s.written[m].record)
    ensures W.Decode(s.hub.os.streams[c]) == (Records(s.written[s.hub.born[c]..m]), part)
  {
    hide W.Decode, Flatten, W.CleanName, W.Line, Specified, Accounted;
    var h, records := s.hub, Records(s.written);
    m, part := S.DroppedClientHasPrefix(env, h, c);
    hide S.WellFormed, S.Faithful, S.Subscribed;
    assert records[m] in records;
    assert W.Unfinished(part);
    hide W.Lines, W.Unfinished;
    SliceDecodes(records, h.born[c], m, part);
    SliceOfRecords(s.written, h.born[c], m);
  }

  // ------------------------------------------------------------ since it connected

  lemma StepGrows(cfg: Config, env: S.Env, s: State, l: Label)
    ensures s.written <= Step(cfg, env, s, l).written && s.hub.born <= Step(cfg, env, s, l).hub.born
    ensures s.history <= Step(cfg, env, s, l).history
  {
    hide D.Next, K.Step, W.Lines, S.AcceptClient;
    if l.Accept? {
      AcceptKeepsLog(s.hub, l.answer);
    }
  }

  lemma {:induction false} RunGrows(cfg: Config, env: S.Env, init: State, labels: seq<Label>, more: seq<Label>)
    ensures Run(cfg, env, init, labels).written <= Run(cfg, env, init, labels + more).written
    ensures Run(cfg, env, init, labels).hub.born <= Run(cfg, env, init, labels + more).hub.born
    ensures Run(cfg, env, init, labels).history <= Run(cfg, env, init, labels + more).history
  {
    hide Step;
    if more == [] {
      assert labels + more == labels;
    } else {
      var n := |more| - 1;
      RunGrows(cfg, env, init, labels, more[..n]);
      assert labels + more == (labels + more[..n]) + [more[n]];
      RunSnoc(cfg, env, init, labels + more[..n], more[n]);
      StepGrows(cfg, env, Run(cfg, env, init, labels + more[..n]), more[n]);
    }
  }

  lemma JoinsNow(h: S.Hub, answer: int)
    requires S.Accepted(h, answer)
    ensures S.AcceptClient(h, answer).born == h.born + [|h.log|]
  {
  }

  lemma {:induction false} AskedByAppend(t: Thread, a: seq<Happening>, b: seq<Happening>)
    ensures AskedBy(t, a + b) == AskedBy(t, a) + AskedBy(t, b)
  {
    if b == [] {
      assert a + b == a;
    } else {
      var n := |b| - 1;
      AskedByAppend(t, a, b[..n]);
      assert a + b == (a + b[..n]) + [b[n]];
      AskedBySnoc(t, a + b[..n], b[n]);
      Associate(AskedBy(t, a), AskedBy(t, b[..n]), if b[n].thread == t then b[n].out else []);
    }
  }

  lemma {:induction false} WrittenByAppend(t: Thread, a: seq<Written>, b: seq<Written>)
    ensures WrittenBy(t, a + b) == WrittenBy(t, a) + WrittenBy(t, b)
  {
    if b == [] {
      assert a + b == a;
    } else {
      var n := |b| - 1;
      WrittenByAppend(t, a, b[..n]);
      assert a + b == (a + b[..n]) + [b[n]];
      WrittenBySnoc(t, a + b[..n], b[n]);
      Associate(WrittenBy(t, a), WrittenBy(t, b[..n]), if b[n].thread == t then [b[n].record] else []);
    }
  }

  /** Between two states, what a thread had still to write and what its events asked for since is what it has
      written since and has still to write. */
  ghost predicate AccountedSince(s: State, now: State)
    requires s.history <= now.history && s.written <= now.written
  {
    forall t: Thread :: Outbox(s, t) + AskedBy(t, now.history[|s.history|..]) ==
                        WrittenBy(t, now.written[|s.written|..]) + Outbox(now, t)
  }

  lemma CancelFront<T>(front: seq<T>, a: seq<T>, b: seq<T>)
    requires front + a == front + b
    ensures a == b
  {
    DropFront(front, a);
    DropFront(front, b);
  }

  lemma SinceThen(s: State, now: State)
    requires Accounted(s) && Accounted(now) && s.history <= now.history && s.written <= now.written
    ensures AccountedSince(s, now)
  {
    hide AskedBy, WrittenBy, Outbox;
    var asked, written := now.history[|s.history|..], now.written[|s.written|..];
    assert now.history == s.history + asked && now.written == s.written + written;
    forall t: Thread ensures Outbox(s, t) + AskedBy(t, asked) == WrittenBy(t, written) + Outbox(now, t) {
      assert WrittenBy(t, s.written) + Outbox(s, t) == AskedBy(t, s.history);
      assert WrittenBy(t, now.written) + Outbox(now, t) == AskedBy(t, now.history);
      AskedByAppend(t, s.history, asked);
      WrittenByAppend(t, s.written, written);
      Rearrange(WrittenBy(t, s.written), Outbox(s, t), AskedBy(t, asked), WrittenBy(t, written), Outbox(now, t));
    }
  }

  lemma Rearrange<T>(front: seq<T>, a: seq<T>, b: seq<T>, c: seq<T>, d: seq<T>)
    requires front + a + b == front + c + d
    ensures a + b == c + d
  {
    Associate(front, a, b);
    Associate(front, c, d);
    CancelFront(front, a + b, c + d);
  }

  /** An accept makes the connection the next one, born now. */
  lemma Joins(cfg: Config, env: S.Env, garbage: K.Keypress, s: State, answer: int)
    requires Composed(cfg, env, garbage, s) && S.Accepted(s.hub, answer)
    ensures Step(cfg, env, s, Accept(answer)).written == s.written
    ensures Step(cfg, env, s, Accept(answer)).history == s.history
    ensures Step(cfg, env, s, Accept(answer)).hub.born == s.hub.born + [|s.written|]
  {
    hide Specified, Accounted, CleanState, S.WellFormed, S.Faithful;
    JoinsNow(s.hub, answer);
  }

  /**
   * End to end. A client that connected after `before` and is still subscribed after any `later` steps (sessions,
   * restarts, other clients coming and going, key presses) has received a byte stream that decodes to exactly the
   * records written after it connected; since then each thread has written what it had still to write and what its
   * key events asked for, in order, but for what it has still to write now; and each event asked for what the
   * history of events wants.
   */
  lemma EndToEnd(cfg: Config, env: S.Env, makeActive: bool, clearing: bool, garbage: K.Keypress,
                 before: seq<Label>, answer: int, later: seq<Label>)
    requires cfg.table.Valid()
    requires S.Accepted(Run(cfg, env, Init(makeActive, clearing, garbage), before).hub, answer)
    ensures var init := Init(makeActive, clearing, garbage);
            var joined, now := Run(cfg, env, init, before), Run(cfg, env, init, before + [Accept(answer)] + later);
            var c := |joined.hub.born|;
            && joined.written <= now.written && c < |now.hub.os.streams|
            && (S.Subscribed(now.hub, c) ==>
                  W.Decode(now.hub.os.streams[c]) == (Records(now.written[|joined.written|..]), ""))
            && joined.history <= now.history && AccountedSince(joined, now) && Accounted(now)
            && K.EmitsAll(cfg.table, garbage, Events(now.history), Outs(now.history))
  {
    hide Run, Step, Composed, Served, W.Decode, K.EmitsAll, K.Table.Valid, S.Accepted, Accounted;
    var init := Init(makeActive, clearing, garbage);
    var joined := Run(cfg, env, init, before);
    var now := Run(cfg, env, init, before + [Accept(answer)] + later);
    var c := |joined.hub.born|;
    EveryRunIsComposed(cfg, env, makeActive, clearing, garbage, before);
    EveryRunIsComposed(cfg, env, makeActive, clearing, garbage, before + [Accept(answer)] + later);
    RunSnoc(cfg, env, init, before, Accept(answer));
    Joins(cfg, env, garbage, joined, answer);
    RunGrows(cfg, env, init, before + [Accept(answer)], later);
    ComposedParts(cfg, env, garbage, joined);
    ComposedParts(cfg, env, garbage, now);
    SinceThen(joined, now);
    hide AccountedSince;
    assert now.hub.born[c] == |joined.written|;
    if S.Subscribed(now.hub, c) {
      LiveClientDecodes(cfg, env, garbage, now, c);
      ServedSays(now, c);
    }
  }

  lemma ComposedParts(cfg: Config, env: S.Env, garbage: K.Keypress, s: State)
    requires Composed(cfg, env, garbage, s)
    ensures Accounted(s) && K.EmitsAll(cfg.table, garbage, Events(s.history), Outs(s.history))
    ensures |s.hub.born| == |s.hub.os.streams|
  {
    hide K.EmitsAll, K.Tracks, Accounted;
    SameCount(cfg, env, garbage, s);
  }

  lemma ServedSays(s: State, c: S.Conn)
    requires |s.hub.born| == |s.hub.os.streams| && Served(s, c)
    ensures c < |s.hub.born| && s.hub.born[c] <= |s.written|
    ensures W.Decode(s.hub.os.streams[c]) == (Records(s.written[s.hub.born[c]..]), "")
  {
  }

  // ------------------------------------------------------------ an event whose lines are written at once

  function BroadcastAll(env: S.Env, h: S.Hub, lines: seq<string>): S.Hub {
    if lines == [] then h
    else S.Broadcast(env, BroadcastAll(env, h, lines[..|lines| - 1]), lines[|lines| - 1])
  }

  function Writes(t: Thread, n: nat): (labels: seq<Label>)
    ensures |labels| == n && forall l | l in labels :: l == Write(t)
  {
    seq(n, _ => Write(t))
  }

  lemma BroadcastNext(env: S.Env, h: S.Hub, lines: seq<string>, k: nat)
    requires 0 < k <= |lines|
    ensures BroadcastAll(env, h, lines[..k]) == S.Broadcast(env, BroadcastAll(env, h, lines[..k - 1]), lines[k - 1])
  {
    hide S.Broadcast;
    assert lines[..k][..k - 1] == lines[..k - 1];
  }

  lemma OutboxNext(outbox: map<Thread, seq<W.Record>>, t: Thread, out: seq<W.Record>, k: nat)
    requires 0 < k <= |out|
    ensures out[k - 1..][0] == out[k - 1] && out[k - 1..][1..] == out[k..]
    ensures outbox[t := out[k - 1..]][t := out[k..]] == outbox[t := out[k..]]
    ensures outbox[t := out[k - 1..]] - {t} == outbox - {t}
  {
  }

  /** The state after the first k of the lines a thread has in its outbox. */
  lemma {:induction false} WritesRun(cfg: Config, env: S.Env, s: State, t: Thread, k: nat)
    requires k <= |Outbox(s, t)| && (t in s.outbox ==> s.outbox[t] != [])
    ensures var s' := Run(cfg, env, s, Writes(t, k));
            && s'.daemon == s.daemon && s'.keys == s.keys && s'.history == s.history
            && s'.hub == BroadcastAll(env, s.hub, W.Lines(Outbox(s, t))[..k])
            && s'.outbox == if k < |Outbox(s, t)| then s.outbox[t := Outbox(s, t)[k..]] else s.outbox - {t}
  {
    hide S.Broadcast, W.Line, BroadcastAll;
    var out := Outbox(s, t);
    if k == 0 {
      NoWrites(cfg, env, s, t);
    } else {
      WritesRun(cfg, env, s, t, k - 1);
      assert Writes(t, k - 1) + [Write(t)] == Writes(t, k);
      RunSnoc(cfg, env, s, Writes(t, k - 1), Write(t));
      hide Run;
      BroadcastNext(env, s.hub, W.Lines(out), k);
      OutboxNext(s.outbox, t, out, k);
    }
  }

  lemma NoWrites(cfg: Config, env: S.Env, s: State, t: Thread)
    requires t in s.outbox ==> s.outbox[t] != []
    ensures Run(cfg, env, s, Writes(t, 0)) == s && BroadcastAll(env, s.hub, W.Lines(Outbox(s, t))[..0]) == s.hub
    ensures s.outbox == if Outbox(s, t) != [] then s.outbox[t := Outbox(s, t)[0..]] else s.outbox - {t}
  {
    if t in s.outbox {
      assert s.outbox[t][0..] == s.outbox[t];
    }
  }

  // ------------------------------------------------------------ the session loop on its own

  /** What is proved about all schedules of the session loop holds inside the whole daemon. */
  lemma {:induction false} DaemonAlone(cfg: Config, env: S.Env, makeActive: bool, clearing: bool,
                                       garbage: K.Keypress, labels: seq<Label>) returns (steps: seq<D.Label>)
    ensures Run(cfg, env, Init(makeActive, clearing, garbage), labels).daemon ==
            D.Run(D.Init(makeActive, clearing), steps)
  {
    hide D.Next, K.Step, S.AcceptClient, S.Broadcast, D.Run;
    if labels == [] {
      steps := [];
      NoSteps(D.Init(makeActive, clearing));
    } else {
      var n := |labels| - 1;
      steps := DaemonAlone(cfg, env, makeActive, clearing, garbage, labels[..n]);
      var s := Run(cfg, env, Init(makeActive, clearing, garbage), labels[..n]);
      if labels[n].Queue? && Step(cfg, env, s, labels[n]) != s {
        D.RunSnoc(D.Init(makeActive, clearing), steps, labels[n].step);
        steps := steps + [labels[n].step];
      }
    }
  }

  lemma NoSteps(s: D.State)
    ensures D.Run(s, []) == s
  {
  }
}
