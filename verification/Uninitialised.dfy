/**
 * The constructor leaves lastKey uninitialised (src/main.cpp:87-88). Which histories of key events let that memory
 * show in the lines written, and which contents of it can then be told apart.
 */
module Uninitialised {
  import opened Sequences
  import opened Wire
  import opened Keys

  /** Nothing has been stored in lastKey yet. */
  predicate Undetermined(t: Table, history: seq<Event>) {
    forall k | 0 <= k < |history| :: !history[k].ControlPressed? && Carries(t, history[k]) == None
  }

  /** The event falls back on the uninitialised key: a third or later BUTTON_UP before anything was stored. */
  predicate Falls(t: Table, history: seq<Event>, e: Event) {
    e.ButtonUp? && |Ups(history)| >= 2 && Undetermined(t, history)
  }

  predicate Exposed(t: Table, history: seq<Event>) {
    exists k | 0 <= k < |history| :: Falls(t, history[..k], history[k])
  }

  lemma UndeterminedSnoc(t: Table, history: seq<Event>, e: Event)
    ensures Undetermined(t, history + [e]) <==>
            Undetermined(t, history) && !e.ControlPressed? && Carries(t, e) == None
  {
    hide Carries;
    var longer := history + [e];
    assert longer[|history|] == e;
    assert forall k :: 0 <= k < |history| ==> longer[k] == history[k];
  }

  lemma ExposedSnoc(t: Table, history: seq<Event>, e: Event)
    ensures Exposed(t, history + [e]) <==> Exposed(t, history) || Falls(t, history, e)
  {
    hide Falls;
    var longer := history + [e];
    assert longer[..|history|] == history && longer[|history|] == e;
    assert forall k :: 0 <= k < |history| ==> longer[..k] == history[..k] && longer[k] == history[k];
  }

  // ------------------------------------------------------------ two daemons that differ in the garbage

  /** Their states agree, but for the code in lastKey as long as it is the one that was there at the start. */
  ghost predicate Alike(t: Table, a: Keypress, b: Keypress, history: seq<Event>, s: State, s': State) {
    && s.repeatCount == |Ups(history)| && s'.repeatCount == s.repeatCount
    && if Undetermined(t, history) then s.lastKey.keycode == a.keycode && s'.lastKey.keycode == b.keycode
       else s.lastKey.keycode == s'.lastKey.keycode
  }

  lemma StepAlike(t: Table, a: Keypress, b: Keypress, history: seq<Event>, s: State, s': State, e: Event)
    requires Alike(t, a, b, history, s, s')
    ensures Alike(t, a, b, history + [e], Step(t, s, e).0, Step(t, s', e).0)
  {
    UpsSnoc(history, e);
    UndeterminedSnoc(t, history, e);
    hide Undetermined, Ups;
  }

  lemma {:induction false} RunAlike(t: Table, a: Keypress, b: Keypress, history: seq<Event>)
    ensures Alike(t, a, b, history, Run(t, a, history).0, Run(t, b, history).0)
  {
    hide Step, Alike;
    if history == [] {
      StartAlike(t, a, b);
    } else {
      var n := |history| - 1;
      RunAlike(t, a, b, history[..n]);
      StepAlike(t, a, b, history[..n], Run(t, a, history[..n]).0, Run(t, b, history[..n]).0, history[n]);
      assert history[..n] + [history[n]] == history;
    }
  }

  lemma StartAlike(t: Table, a: Keypress, b: Keypress)
    ensures Alike(t, a, b, [], Run(t, a, []).0, Run(t, b, []).0)
  {
    assert Ups([]) == {};
  }

  /** An event that does not fall back on the garbage writes the same in both daemons; one that does writes the
      names of each one's garbage. */
  lemma StepWrites(t: Table, a: Keypress, b: Keypress, history: seq<Event>, s: State, s': State, e: Event)
    requires t.Valid() && Alike(t, a, b, history, s, s')
    ensures !Falls(t, history, e) ==> Step(t, s, e).1 == Step(t, s', e).1
    ensures Falls(t, history, e) ==>
              Step(t, s, e).1 == Records(t, a.keycode, true) && Step(t, s', e).1 == Records(t, b.keycode, true)
  {
    hide Undetermined, Ups;
    assert Records(t, t.unknown, true) == [];
    assert forall code :: t.NamesOf(code) == [] ==> Records(t, code, true) == [];
  }

  lemma LastEventWrites(t: Table, a: Keypress, b: Keypress, history: seq<Event>, e: Event)
    returns (more: seq<Record>, more': seq<Record>)
    requires t.Valid()
    ensures Run(t, a, history + [e]).1 == Run(t, a, history).1 + more
    ensures Run(t, b, history + [e]).1 == Run(t, b, history).1 + more'
    ensures if Falls(t, history, e) then more == Records(t, a.keycode, true) && more' == Records(t, b.keycode, true)
            else more == more'
  {
    hide Step, Falls, Records, Alike;
    var s, s' := Run(t, a, history).0, Run(t, b, history).0;
    RunAlike(t, a, b, history);
    StepWrites(t, a, b, history, s, s', e);
    RunSnoc(t, a, history, e);
    RunSnoc(t, b, history, e);
    more, more' := Step(t, s, e).1, Step(t, s', e).1;
  }

  /** The two garbage codes can be told apart by what they write. */
  predicate Distinguishable(t: Table, a: Keypress, b: Keypress) {
    a.keycode != b.keycode && (t.NamesOf(a.keycode) != [] || t.NamesOf(b.keycode) != [])
  }

  lemma {:induction false} WritesTheSame(t: Table, a: Keypress, b: Keypress, history: seq<Event>)
    requires t.Valid() && (!Exposed(t, history) || !Distinguishable(t, a, b))
    ensures Run(t, a, history).1 == Run(t, b, history).1
  {
    hide Falls, Exposed;
    if history != [] {
      var n := |history| - 1;
      assert history[..n] + [history[n]] == history;
      ExposedSnoc(t, history[..n], history[n]);
      WritesTheSame(t, a, b, history[..n]);
      hide Run;
      var more, more' := LastEventWrites(t, a, b, history[..n], history[n]);
      if !Distinguishable(t, a, b) {
        assert Records(t, a.keycode, true) == Records(t, b.keycode, true);
      }
    }
  }

  /** Some line differs. */
  ghost predicate DifferSomewhere(x: seq<Record>, y: seq<Record>) {
    exists i :: 0 <= i < |x| && i < |y| && x[i] != y[i]
  }

  lemma StillDiffer(x: seq<Record>, y: seq<Record>, more: seq<Record>, more': seq<Record>)
    requires DifferSomewhere(x, y)
    ensures DifferSomewhere(x + more, y + more')
  {
    var i :| 0 <= i < |x| && i < |y| && x[i] != y[i];
    assert (x + more)[i] == x[i] && (y + more')[i] == y[i];
  }

  lemma DifferNow(t: Table, x: seq<Record>, code: int, code': int)
    requires code != code' && t.NamesOf(code) != [] && t.NamesOf(code') != []
    ensures DifferSomewhere(x + Records(t, code, true), x + Records(t, code', true))
  {
    var y, y' := x + Records(t, code, true), x + Records(t, code', true);
    assert y[|x|].code == code && y'[|x|].code == code';
    assert y[|x|] != y'[|x|];
  }

  /** A garbage key that has names always writes more than one that has none, and other lines than another key. */
  lemma {:induction false} WritesDiffer(t: Table, a: Keypress, b: Keypress, history: seq<Event>)
    requires t.Valid() && Exposed(t, history) && a.keycode != b.keycode && t.NamesOf(a.keycode) != []
    ensures if t.NamesOf(b.keycode) == [] then |Run(t, a, history).1| > |Run(t, b, history).1|
            else DifferSomewhere(Run(t, a, history).1, Run(t, b, history).1)
  {
    hide Falls, Exposed, Run, DifferSomewhere;
    if history == [] {
      NothingIsExposed(t);
    } else {
      var n := |history| - 1;
      var before, e := history[..n], history[n];
      assert before + [e] == history;
      ExposedSnoc(t, before, e);
      var more, more' := LastEventWrites(t, a, b, before, e);
      if Exposed(t, before) {
        WritesDiffer(t, a, b, before);
        if t.NamesOf(b.keycode) != [] {
          StillDiffer(Run(t, a, before).1, Run(t, b, before).1, more, more');
        }
      } else {
        WritesTheSame(t, a, b, before);
        if t.NamesOf(b.keycode) != [] {
          DifferNow(t, Run(t, a, before).1, a.keycode, b.keycode);
        }
      }
    }
  }

  lemma NothingIsExposed(t: Table)
    ensures !Exposed(t, [])
  {
  }

  lemma DifferentLines(x: seq<Record>, y: seq<Record>)
    requires |x| > |y| || DifferSomewhere(x, y)
    ensures x != y
  {
  }

  /**
   * For every history and every two contents of the uninitialised memory: the lines written are the same unless the
   * history is exposed and the two contents are different codes of which at least one has names.
   */
  lemma WhenGarbageShows(t: Table, a: Keypress, b: Keypress, history: seq<Event>)
    requires t.Valid()
    ensures Run(t, a, history).1 == Run(t, b, history).1 <==> !(Exposed(t, history) && Distinguishable(t, a, b))
  {
    hide Run, Exposed, DifferSomewhere;
    if !(Exposed(t, history) && Distinguishable(t, a, b)) {
      WritesTheSame(t, a, b, history);
    } else if t.NamesOf(a.keycode) != [] {
      WritesDiffer(t, a, b, history);
      DifferentLines(Run(t, a, history).1, Run(t, b, history).1);
    } else {
      WritesDiffer(t, b, a, history);
      DifferentLines(Run(t, b, history).1, Run(t, a, history).1);
    }
  }

  /** So the lines are independent of the uninitialised memory exactly if the history is not exposed (or no key has
      any name, so that nothing is ever written). */
  lemma WhenLinesAreDetermined(t: Table, history: seq<Event>)
    requires t.Valid()
    ensures (forall a, b :: Run(t, a, history).1 == Run(t, b, history).1) <==>
            !Exposed(t, history) || forall code :: t.NamesOf(code) == []
  {
    hide Run, Exposed;
    if Exposed(t, history) {
      if named :| t.NamesOf(named) != [] {
        var a, b := Keypress(named, 0), Keypress(t.unknown, 0);
        WhenGarbageShows(t, a, b, history);
        assert Run(t, a, history).1 != Run(t, b, history).1;
      }
    }
    forall a, b | !Exposed(t, history) || forall code :: t.NamesOf(code) == []
      ensures Run(t, a, history).1 == Run(t, b, history).1
    {
      WhenGarbageShows(t, a, b, history);
    }
  }

  /** The shortest exposed history: three BUTTON_UPs as the very first events. */
  lemma ThreeButtonUps(t: Table)
    ensures Exposed(t, [ButtonUp, ButtonUp, ButtonUp])
    ensures !Exposed(t, [ButtonUp, ButtonUp])
  {
    UpsSnoc([], ButtonUp);
    UpsSnoc([ButtonUp], ButtonUp);
    assert [] + [ButtonUp] == [ButtonUp] && [ButtonUp] + [ButtonUp] == [ButtonUp, ButtonUp];
    assert [ButtonUp, ButtonUp] + [ButtonUp] == [ButtonUp, ButtonUp, ButtonUp];
    assert Ups([]) == {};
    hide Ups;
    NothingIsExposed(t);
    ExposedSnoc(t, [], ButtonUp);
    ExposedSnoc(t, [ButtonUp], ButtonUp);
    ExposedSnoc(t, [ButtonUp, ButtonUp], ButtonUp);
    hide Exposed;
  }
}
