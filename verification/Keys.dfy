/**
 * The key and key-repeat machine of Main: onCecKeyPress (both overloads), the key-related branches of
 * onCecCommand and onCecMenuStateChanged (src/main.cpp:375-410, 442-479, 517-521), as a step function on
 * (lastKey, repeatCount), and a specification that looks only at the history of events.
 */
module Keys {
  import opened Sequences
  import opened Wire

  datatype Keypress = Keypress(keycode: int, duration: nat)

  /** The key table and the libcec codes the daemon names. The table has one entry per code 0..MAX. */
  datatype Table = Table(names: seq<seq<string>>, unknown: int, anReturn: int, anChannelsList: int,
                         stop: int, play: int, pause: int, contentsMenu: int, power: int)
  {
    ghost predicate Valid() {
      && !(0 <= unknown < |names|)
      && forall c :: 0 <= c < |names| ==> forall name | name in names[c] :: CleanName(name)
    }

    /** The names written for a code: none when it is out of bounds. */
    function NamesOf(code: int): seq<string> {
      if 0 <= code < |names| then names[code] else []
    }
  }

  /** What the libcec callbacks deliver to the key machine. */
  datatype Event =
    | Press(key: Keypress)      // a key press callback
    | Inject(code: int)         // a key synthesised from a deck, play, menu or standby command
    | ControlPressed            // opcode USER_CONTROL_PRESSED
    | ButtonUp                  // opcode VENDOR_REMOTE_BUTTON_UP

  datatype State = State(lastKey: Keypress, repeatCount: int)

  function Records(t: Table, code: int, repeat: bool): (rs: seq<Record>)
    ensures |rs| == |t.NamesOf(code)|
    ensures forall i :: 0 <= i < |rs| ==> rs[i] == Record(code, repeat, t.NamesOf(code)[i])
  {
    var names := t.NamesOf(code);
    seq(|names|, i requires 0 <= i < |names| => Record(code, repeat, names[i]))
  }

  /** onCecKeyPress is willing to write this key. */
  predicate Accepts(t: Table, key: Keypress) {
    && t.NamesOf(key.keycode) != []
    && (key.duration == 0 || key.keycode == t.anChannelsList || key.keycode == t.anReturn)
  }

  function PressKey(t: Table, s: State, key: Keypress): (State, seq<Record>) {
    if Accepts(t, key) then (s.(lastKey := key), Records(t, key.keycode, s.repeatCount > 2)) else (s, [])
  }

  function Step(t: Table, s: State, e: Event): (State, seq<Record>) {
    match e
    case Press(key) => PressKey(t, s, key)
    case Inject(code) => PressKey(t, s, Keypress(code, 0))
    case ControlPressed => (State(s.lastKey.(keycode := t.unknown), 0), [])
    case ButtonUp =>
      var up := s.(repeatCount := s.repeatCount + 1);
      if up.repeatCount > 2 && s.lastKey.keycode != t.unknown
      then PressKey(t, up, Keypress(s.lastKey.keycode, 0))
      else (up, [])
  }

  /** The machine's state after a history, and everything it has emitted. */
  function Run(t: Table, init: Keypress, history: seq<Event>): (State, seq<Record>) {
    if history == [] then (State(init, 0), [])
    else
      var n := |history| - 1;
      var (s, out) := Run(t, init, history[..n]);
      var (s', more) := Step(t, s, history[n]);
      (s', out + more)
  }

  // ------------------------------------------------------------ the history-only specification

  /** Where the current key press starts: just behind the last USER_CONTROL_PRESSED. */
  function PressStart(history: seq<Event>): (i: nat)
    ensures i <= |history|
    ensures i > 0 ==> history[i - 1].ControlPressed?
    ensures forall j :: i <= j < |history| ==> !history[j].ControlPressed?
  {
    if history == [] then 0
    else if history[|history| - 1].ControlPressed? then |history|
    else PressStart(history[..|history| - 1])
  }

  /** The BUTTON_UPs of the current key press. */
  function Ups(history: seq<Event>): set<nat> {
    set j: nat | PressStart(history) <= j < |history| && history[j].ButtonUp?
  }

  /** The key an event carries itself, when it is accepted. */
  function Carries(t: Table, e: Event): Option<int> {
    match e
    case Press(key) =>
      if t.NamesOf(key.keycode) == [] then None
      else if key.duration == 0 then Some(key.keycode)
      else if key.keycode == t.anReturn || key.keycode == t.anChannelsList then Some(key.keycode)
      else None
    case Inject(code) => if t.NamesOf(code) != [] then Some(code) else None
    case _ => None
  }

  /** `code` is what a repeat replays: the most recent accepted key of the current press, or the
      uninitialised lastKey as long as no USER_CONTROL_PRESSED was seen and no key accepted. */
  ghost predicate Replays(t: Table, init: Keypress, history: seq<Event>, code: int) {
    || (exists j :: PressStart(history) <= j < |history| && Carries(t, history[j]) == Some(code)
          && forall k :: j < k < |history| ==> Carries(t, history[k]) == None)
    || (PressStart(history) == 0 && code == init.keycode && code != t.unknown
        && forall k :: 0 <= k < |history| ==> Carries(t, history[k]) == None)
  }

  /** What event `e` has to emit after `history`. */
  ghost predicate Emits(t: Table, init: Keypress, history: seq<Event>, e: Event, out: seq<Record>) {
    match e
    case Press(_) => out == (match Carries(t, e)
                             case Some(code) => Records(t, code, |Ups(history)| > 2)
                             case None => [])
    case Inject(_) => out == (match Carries(t, e)
                              case Some(code) => Records(t, code, |Ups(history)| > 2)
                              case None => [])
    case ControlPressed => out == []
    case ButtonUp =>
      && (|Ups(history)| < 2 ==> out == [])
      && ((forall code :: !Replays(t, init, history, code)) ==> out == [])
      && (forall code :: |Ups(history)| >= 2 && Replays(t, init, history, code) ==> out == Records(t, code, true))
  }

  // ------------------------------------------------------------ refinement

  /** The two fields are functions of the history alone. */
  ghost predicate Tracks(t: Table, init: Keypress, history: seq<Event>, s: State) {
    && s.repeatCount == |Ups(history)|
    && forall code :: Replays(t, init, history, code) <==> code == s.lastKey.keycode && code != t.unknown
  }

  lemma UpsSnoc(history: seq<Event>, e: Event)
    ensures |Ups(history + [e])| ==
            if e.ControlPressed? then 0 else if e.ButtonUp? then |Ups(history)| + 1 else |Ups(history)|
  {
    var longer := history + [e];
    assert longer[..|history|] == history;
    if e.ControlPressed? {
      assert Ups(longer) == {};
    } else {
      assert PressStart(longer) == PressStart(history);
      assert Ups(longer) == Ups(history) + (if e.ButtonUp? then {|history|} else {});
    }
  }

  lemma ReplaysSnoc(t: Table, init: Keypress, history: seq<Event>, e: Event, code: int)
    ensures Replays(t, init, history + [e], code) <==>
            match Carries(t, e)
            case Some(c) => code == c
            case None => !e.ControlPressed? && Replays(t, init, history, code)
  {
    var longer := history + [e];
    var n := |history|;
    assert longer[..n] == history && longer[n] == e;
    assert forall j :: 0 <= j < n ==> longer[j] == history[j];
    if !e.ControlPressed? {
      assert PressStart(longer) == PressStart(history);
    }
    if Carries(t, e).Some? {
      if Replays(t, init, longer, code) {
        assert Carries(t, longer[n]) != None;
      }
    } else if Replays(t, init, history, code) && !e.ControlPressed? {
      if j :| PressStart(history) <= j < n && Carries(t, history[j]) == Some(code)
              && forall k :: j < k < n ==> Carries(t, history[k]) == None {
        assert Carries(t, longer[j]) == Some(code);
      }
    }
  }

  lemma TracksStep(t: Table, init: Keypress, history: seq<Event>, s: State, e: Event)
    requires t.Valid() && Tracks(t, init, history, s)
    ensures Tracks(t, init, history + [e], Step(t, s, e).0)
    ensures Emits(t, init, history, e, Step(t, s, e).1)
  {
    UpsSnoc(history, e);
    assert s.lastKey.keycode != t.unknown ==> Replays(t, init, history, s.lastKey.keycode);
    forall code
      ensures Replays(t, init, history + [e], code) <==>
              code == Step(t, s, e).0.lastKey.keycode && code != t.unknown
    {
      ReplaysSnoc(t, init, history, e, code);
    }
  }

  /** `outs` lists what each event of the history has to emit. */
  ghost predicate EmitsAll(t: Table, init: Keypress, history: seq<Event>, outs: seq<seq<Record>>) {
    |outs| == |history| && forall i :: 0 <= i < |outs| ==> Emits(t, init, history[..i], history[i], outs[i])
  }

  lemma EmitsAllSnoc(t: Table, init: Keypress, history: seq<Event>, outs: seq<seq<Record>>, e: Event, out: seq<Record>)
    requires EmitsAll(t, init, history, outs) && Emits(t, init, history, e, out)
    ensures EmitsAll(t, init, history + [e], outs + [out])
  {
    var longer := history + [e];
    forall i | 0 <= i < |longer| ensures Emits(t, init, longer[..i], longer[i], (outs + [out])[i]) {
      assert longer[..i] == history[..i];
      if i == |history| { assert history[..i] == history; }
    }
  }

  /**
   * Main result of the module: for every history, the stateful code has emitted what the history-only
   * specification asks for after each event, in that order, and its fields hold the history's repeat count
   * and replayed key.
   */
  lemma {:induction false} RunMeetsSpecification(t: Table, init: Keypress, history: seq<Event>)
    returns (outs: seq<seq<Record>>)
    requires t.Valid()
    ensures EmitsAll(t, init, history, outs) && Run(t, init, history).1 == Flatten(outs)
    ensures Tracks(t, init, history, Run(t, init, history).0)
  {
    if history == [] {
      outs := [];
      assert Ups(history) == {};
    } else {
      var n := |history| - 1;
      var before := RunMeetsSpecification(t, init, history[..n]);
      outs := SpecificationStep(t, init, history[..n], before, history[n]);
      assert history[..n] + [history[n]] == history;
    }
  }

  lemma SpecificationStep(t: Table, init: Keypress, history: seq<Event>, outs: seq<seq<Record>>, e: Event)
    returns (outs': seq<seq<Record>>)
    requires t.Valid() && EmitsAll(t, init, history, outs)
    requires Run(t, init, history).1 == Flatten(outs) && Tracks(t, init, history, Run(t, init, history).0)
    ensures EmitsAll(t, init, history + [e], outs')
    ensures Run(t, init, history + [e]).1 == Flatten(outs')
    ensures Tracks(t, init, history + [e], Run(t, init, history + [e]).0)
  {
    var s := Run(t, init, history).0;
    var out := Step(t, s, e).1;
    TracksStep(t, init, history, s, e);
    RunSnoc(t, init, history, e);
    EmitsAllSnoc(t, init, history, outs, e, out);
    FlattenSnoc(outs, out);
    outs' := outs + [out];
  }

  /** The specification leaves no choice. */
  lemma EmissionIsDetermined(t: Table, init: Keypress, history: seq<Event>, e: Event, a: seq<Record>, b: seq<Record>)
    requires Emits(t, init, history, e, a) && Emits(t, init, history, e, b)
    ensures a == b
  {
  }

  lemma StepClean(t: Table, s: State, e: Event)
    requires t.Valid()
    ensures Clean(Step(t, s, e).1)
  {
    hide CleanName;
  }

  lemma RunSnoc(t: Table, init: Keypress, history: seq<Event>, e: Event)
    ensures Run(t, init, history + [e]).0 == Step(t, Run(t, init, history).0, e).0
    ensures Run(t, init, history + [e]).1 == Run(t, init, history).1 + Step(t, Run(t, init, history).0, e).1
  {
    assert (history + [e])[..|history|] == history;
  }

  // ------------------------------------------------------------ each event in terms of the table alone

  /** One line for each name of a code, in the order of the table. */
  ghost predicate LinesFor(t: Table, code: int, repeat: bool, out: seq<Record>) {
    && 0 <= code < |t.names| && |out| == |t.names[code]|
    && forall i :: 0 <= i < |out| ==> out[i] == Record(code, repeat, t.names[code][i])
  }

  predicate HasNames(t: Table, code: int) { 0 <= code < |t.names| && t.names[code] != [] }

  /** A press is stored and written exactly if its code has names and it is either reported with duration 0 or one of
      the two keys that are written whatever the duration. Any other press does nothing at all. */
  lemma WhenAPressWrites(t: Table, s: State, key: Keypress)
    ensures var (s', out) := Step(t, s, Press(key));
            if HasNames(t, key.keycode)
               && (key.duration == 0 || key.keycode == t.anReturn || key.keycode == t.anChannelsList)
            then s' == State(key, s.repeatCount) && LinesFor(t, key.keycode, s.repeatCount > 2, out)
            else s' == s && out == []
  {
  }

  /** A synthesised key is stored and written exactly if its code has names. */
  lemma WhenAnInjectedKeyWrites(t: Table, s: State, code: int)
    ensures var (s', out) := Step(t, s, Inject(code));
            if HasNames(t, code)
            then s' == State(Keypress(code, 0), s.repeatCount) && LinesFor(t, code, s.repeatCount > 2, out)
            else s' == s && out == []
  {
  }

  /** USER_CONTROL_PRESSED resets the repeat count and forgets the key. */
  lemma ControlPressedResets(t: Table, s: State)
    ensures var (s', out) := Step(t, s, ControlPressed);
            s'.repeatCount == 0 && s'.lastKey == s.lastKey.(keycode := t.unknown) && out == []
  {
  }

  /** VENDOR_REMOTE_BUTTON_UP counts, and from the third on writes the stored key once more with flag 1. */
  lemma WhenAButtonUpWrites(t: Table, s: State)
    ensures var (s', out) := Step(t, s, ButtonUp);
            && s'.repeatCount == s.repeatCount + 1
            && if s.repeatCount >= 2 && s.lastKey.keycode != t.unknown && HasNames(t, s.lastKey.keycode)
               then s'.lastKey == Keypress(s.lastKey.keycode, 0) && LinesFor(t, s.lastKey.keycode, true, out)
               else s'.lastKey == s.lastKey && out == []
  {
  }

  lemma ReleaseAtTheEnd(t: Table, init: Keypress, before: seq<Event>, key: Keypress)
    requires key.duration != 0 && key.keycode != t.anReturn && key.keycode != t.anChannelsList
    ensures Run(t, init, before + [Press(key)]) == Run(t, init, before)
  {
    hide Run, Step;
    RunSnoc(t, init, before, Press(key));
    WhenAPressWrites(t, Run(t, init, before).0, key);
    assert Run(t, init, before).1 + [] == Run(t, init, before).1;
  }

  lemma AppendLast<T>(a: seq<T>, b: seq<T>)
    requires b != []
    ensures a + b == (a + b[..|b| - 1]) + [b[|b| - 1]]
  {
  }

  /** The report of a release, of any key but the two: it can be left out of every history, wherever it is. */
  lemma {:induction false} ReleaseIsIgnored(t: Table, init: Keypress, before: seq<Event>, key: Keypress,
                                            after: seq<Event>)
    requires key.duration != 0 && key.keycode != t.anReturn && key.keycode != t.anChannelsList
    ensures Run(t, init, before + [Press(key)] + after) == Run(t, init, before + after)
  {
    var longer := before + [Press(key)];
    if after == [] {
      assert longer + after == longer && before + after == before;
      ReleaseAtTheEnd(t, init, before, key);
    } else {
      hide Run, Step;
      var n := |after| - 1;
      ReleaseIsIgnored(t, init, before, key, after[..n]);
      AppendLast(longer, after);
      AppendLast(before, after);
      RunSnoc(t, init, longer + after[..n], after[n]);
      RunSnoc(t, init, before + after[..n], after[n]);
    }
  }

  // ------------------------------------------------------------ the closed form of auto-repeat

  function Ntimes<T>(n: nat, x: T): (s: seq<T>)
    ensures |s| == n && forall i :: 0 <= i < n ==> s[i] == x
  {
    seq(n, _ => x)
  }

  /** The lines n BUTTON_UPs in a row produce: the first two are swallowed, each later one replays the key. */
  function Repeats(t: Table, code: int, n: nat): seq<Record> {
    Flatten(Ntimes(if n > 2 then n - 2 else 0, Records(t, code, true)))
  }

  lemma RepeatsNext(t: Table, code: int, n: nat)
    ensures Repeats(t, code, n + 1) == Repeats(t, code, n) + (if n >= 2 then Records(t, code, true) else [])
  {
    if n >= 2 {
      var r := Records(t, code, true);
      FlattenSnoc(Ntimes(n - 2, r), r);
      assert Ntimes(n - 2, r) + [r] == Ntimes(n - 1, r);
    }
  }

  lemma HoldingStep(t: Table, init: Keypress, held: seq<Event>, code: int, n: nat)
    requires t.Valid() && t.NamesOf(code) != []
    requires Run(t, init, held).0 == State(Keypress(code, 0), n)
    ensures Run(t, init, held + [ButtonUp]).0 == State(Keypress(code, 0), n + 1)
    ensures Run(t, init, held + [ButtonUp]).1 ==
            Run(t, init, held).1 + (if n >= 2 then Records(t, code, true) else [])
  {
    RunSnoc(t, init, held, ButtonUp);
  }

  lemma {:induction false} HoldingFrom(t: Table, init: Keypress, pressed: seq<Event>, code: int, n: nat)
    requires t.Valid() && t.NamesOf(code) != []
    requires Run(t, init, pressed).0 == State(Keypress(code, 0), 0)
    ensures Run(t, init, pressed + Ntimes(n, ButtonUp)).0 == State(Keypress(code, 0), n)
    ensures Run(t, init, pressed + Ntimes(n, ButtonUp)).1 == Run(t, init, pressed).1 + Repeats(t, code, n)
  {
    if n == 0 {
      assert pressed + Ntimes(0, ButtonUp) == pressed;
      assert Repeats(t, code, 0) == [];
    } else {
      HoldingFrom(t, init, pressed, code, n - 1);
      HoldingStep(t, init, pressed + Ntimes(n - 1, ButtonUp), code, n - 1);
      assert pressed + Ntimes(n - 1, ButtonUp) + [ButtonUp] == pressed + Ntimes(n, ButtonUp);
      RepeatsNext(t, code, n - 1);
      Associate(Run(t, init, pressed).1, Repeats(t, code, n - 1), if n - 1 >= 2 then Records(t, code, true) else []);
    }
  }

  /** USER_CONTROL_PRESSED and a press, whatever came before. */
  lemma AfterPress(t: Table, init: Keypress, before: seq<Event>, code: int)
    requires t.NamesOf(code) != []
    ensures var (s, out) := Run(t, init, before + [ControlPressed, Press(Keypress(code, 0))]);
            s == State(Keypress(code, 0), 0) && out == Run(t, init, before).1 + Records(t, code, false)
  {
    hide Run, Records;
    var key := Keypress(code, 0);
    assert before + [ControlPressed] + [Press(key)] == before + [ControlPressed, Press(key)];
    RunSnoc(t, init, before, ControlPressed);
    RunSnoc(t, init, before + [ControlPressed], Press(Keypress(code, 0)));
  }

  /**
   * Holding a key down, for every n: USER_CONTROL_PRESSED and a press write each name once with flag 0, and
   * n BUTTON_UPs then write each name max(0, n - 2) times with flag 1.
   */
  lemma HoldingAKey(t: Table, init: Keypress, before: seq<Event>, code: int, n: nat)
    requires t.Valid() && t.NamesOf(code) != []
    ensures Run(t, init, before + [ControlPressed, Press(Keypress(code, 0))] + Ntimes(n, ButtonUp)).1 ==
            Run(t, init, before).1 + Records(t, code, false) + Repeats(t, code, n)
  {
    hide Run, Step, Records, Repeats;
    var pressed := before + [ControlPressed, Press(Keypress(code, 0))];
    AfterPress(t, init, before, code);
    HoldingFrom(t, init, pressed, code, n);
  }

  /** Without an accepted key since USER_CONTROL_PRESSED, BUTTON_UPs emit nothing however many there are. */
  lemma {:induction false} NothingToRepeat(t: Table, init: Keypress, before: seq<Event>, n: nat)
    ensures var (s, out) := Run(t, init, before + [ControlPressed] + Ntimes(n, ButtonUp));
            s.lastKey.keycode == t.unknown && out == Run(t, init, before).1
  {
    var pressed := before + [ControlPressed];
    if n == 0 {
      RunSnoc(t, init, before, ControlPressed);
      assert pressed + Ntimes(0, ButtonUp) == pressed;
    } else {
      NothingToRepeat(t, init, before, n - 1);
      RunSnoc(t, init, pressed + Ntimes(n - 1, ButtonUp), ButtonUp);
      assert pressed + Ntimes(n - 1, ButtonUp) + [ButtonUp] == pressed + Ntimes(n, ButtonUp);
    }
  }

  /**
   * lastKey is not initialised (src/main.cpp:87-88). Three BUTTON_UPs as the very first events emit a key
   * nobody pressed exactly when the garbage happens to be a code with names.
   */
  lemma UninitialisedLastKey(t: Table, init: Keypress)
    requires t.Valid()
    ensures Run(t, init, [ButtonUp, ButtonUp, ButtonUp]).1 != [] <==> t.NamesOf(init.keycode) != []
  {
    RunSnoc(t, init, [], ButtonUp);
    RunSnoc(t, init, [ButtonUp], ButtonUp);
    RunSnoc(t, init, [ButtonUp, ButtonUp], ButtonUp);
    assert [ButtonUp] + [ButtonUp] == [ButtonUp, ButtonUp];
    assert [ButtonUp, ButtonUp] + [ButtonUp] == [ButtonUp, ButtonUp, ButtonUp];
    assert [] + [ButtonUp] == [ButtonUp];
  }
}
