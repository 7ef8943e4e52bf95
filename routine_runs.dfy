/**
 * Any sequence of accepted hours, in any order and of any length, fed to the machine
 * one after another with the random draws of each hour.
 */
module RoutineRuns {
  import opened RoutineModel

  predicate AllWellFormed(ds: seq<Draws>) {
    forall i :: 0 <= i < |ds| ==> WellFormed(ds[i])
  }

  /** The agent after accepting hours[0], hours[1], ... in turn; an hour that raises leaves its effects. */
  function Run(a: Agent, hours: seq<int>, ds: seq<Draws>): (b: Agent)
    requires |hours| == |ds| && AllWellFormed(ds)
    ensures hours == [] ==> b == a
    decreases |hours|
  {
    if hours == [] then a
    else
      var n := |hours| - 1;
      Transition(Run(a, hours[..n], ds[..n]), hours[n], ds[n]).after
  }

  /** Energy stays in [0, 100] and hunger non-negative along every run. */
  lemma {:induction false} RunKeepsInvariant(a: Agent, hours: seq<int>, ds: seq<Draws>)
    requires |hours| == |ds| && AllWellFormed(ds)
    requires Invariant(a)
    ensures Invariant(Run(a, hours, ds))
  {
    if hours != [] {
      var n := |hours| - 1;
      RunKeepsInvariant(a, hours[..n], ds[..n]);
    }
  }

  /** In particular for every run of a new machine. */
  lemma RunFromStartKeepsInvariant(hours: seq<int>, ds: seq<Draws>)
    requires |hours| == |ds| && AllWellFormed(ds)
    ensures var b := Run(Initial(), hours, ds);
      0 <= b.energy <= 100 && 0 <= b.hunger
  {
    RunKeepsInvariant(Initial(), hours, ds);
  }

  lemma AppendWellFormed(d1: seq<Draws>, d2: seq<Draws>)
    requires AllWellFormed(d1) && AllWellFormed(d2)
    ensures AllWellFormed(d1 + d2)
  {
    forall i | 0 <= i < |d1 + d2| ensures WellFormed((d1 + d2)[i]) {
      if i < |d1| { assert (d1 + d2)[i] == d1[i]; } else { assert (d1 + d2)[i] == d2[i - |d1|]; }
    }
  }

  /** Running two sequences back to back is running their concatenation. */
  lemma {:induction false} RunAppend(a: Agent, h1: seq<int>, d1: seq<Draws>, h2: seq<int>, d2: seq<Draws>)
    requires |h1| == |d1| && AllWellFormed(d1)
    requires |h2| == |d2| && AllWellFormed(d2)
    ensures AllWellFormed(d1 + d2)
    ensures Run(a, h1 + h2, d1 + d2) == Run(Run(a, h1, d1), h2, d2)
  {
    AppendWellFormed(d1, d2);
    if h2 == [] {
      assert h1 + h2 == h1 && d1 + d2 == d1;
    } else {
      var n := |h2| - 1;
      var hs, ds := h1 + h2, d1 + d2;
      RunAppend(a, h1, d1, h2[..n], d2[..n]);
      assert hs[..|hs| - 1] == h1 + h2[..n];
      assert ds[..|ds| - 1] == d1 + d2[..n];
      assert hs[|hs| - 1] == h2[n] && ds[|ds| - 1] == d2[n];
      var mid := Run(a, hs[..|hs| - 1], ds[..|ds| - 1]);
      assert mid == Run(Run(a, h1, d1), h2[..n], d2[..n]);
      calc {
        Run(a, hs, ds);
        Transition(mid, h2[n], d2[n]).after;
        Run(Run(a, h1, d1), h2, d2);
      }
    }
  }

  /** Once Rest's body has raised, no later hour changes anything. */
  lemma {:induction false} HaltedRunIsStuck(a: Agent, hours: seq<int>, ds: seq<Draws>)
    requires |hours| == |ds| && AllWellFormed(ds)
    requires a.halted
    ensures Run(a, hours, ds) == a
  {
    if hours != [] {
      var n := |hours| - 1;
      HaltedRunIsStuck(a, hours[..n], ds[..n]);
    }
  }

  /**
   * An hour that raises in Rest ends the machine's useful life: whatever is fed
   * afterwards, it stays in Rest with the energy and hunger of that hour.
   */
  lemma CrashIsFinal(a: Agent, hour: int, d: Draws, hours: seq<int>, ds: seq<Draws>)
    requires WellFormed(d) && |hours| == |ds| && AllWellFormed(ds)
    requires Transition(a, hour, d).outcome == Failed(MissingArgument)
    ensures a.state == Rest
    ensures Run(a, [hour] + hours, [d] + ds) == Transition(a, hour, d).after
    ensures Run(a, [hour] + hours, [d] + ds).state == Rest
  {
    var b := Transition(a, hour, d).after;
    assert Run(a, [hour], [d]) == b by {
      assert [hour][..0] == [] && [d][..0] == [];
    }
    RunAppend(a, [hour], [d], hours, ds);
    HaltedRunIsStuck(b, hours, ds);
  }

  /** Waking at seven and eating at eight: fed, and off to study or chores. */
  lemma MorningRoutine(a: Agent, d7: Draws, d8: Draws)
    requires a.state == Sleep && !a.halted && WellFormed(d7) && WellFormed(d8)
    ensures var b := Run(a, [7, 8], [d7, d8]);
      b.hunger == 0 && (b.state == Study || b.state == DoChores) && !b.halted
  {
    assert [7, 8][..1] == [7] && [d7, d8][..1] == [d7];
    assert [7][..0] == [] && [d7][..0] == [];
  }
}
