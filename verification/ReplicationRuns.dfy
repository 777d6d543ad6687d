/** Runs of the replication system, put together and taken apart; what a step does plays no role here. */
module ReplicationRuns {
  import opened Replication

  lemma OneStep(y: System, step: Step)
    requires Enabled(y, step)
    ensures Legal(y, [step]) && After(y, [step]) == Next(y, step)
  {
    hide Enabled, Next;
    assert [step][1..] == [];
  }

  lemma {:induction false} RunAppend(y: System, a: seq<Step>, b: seq<Step>)
    requires Legal(y, a) && Legal(After(y, a), b)
    ensures Legal(y, a + b) && After(y, a + b) == After(After(y, a), b)
    decreases |a|
  {
    hide Enabled, Next;
    if a == [] {
      assert a + b == b;
    } else {
      assert (a + b)[0] == a[0] && (a + b)[1..] == a[1..] + b;
      RunAppend(Next(y, a[0]), a[1..], b);
    }
  }

  lemma {:induction false} RunSnoc(y: System, steps: seq<Step>)
    requires steps != [] && Legal(y, steps)
    ensures var last := |steps| - 1;
            && Legal(y, steps[..last]) && Enabled(After(y, steps[..last]), steps[last])
            && After(y, steps) == Next(After(y, steps[..last]), steps[last])
    decreases |steps|
  {
    hide Enabled, Next;
    if |steps| > 1 {
      RunSnoc(Next(y, steps[0]), steps[1..]);
      assert steps[1..][..|steps| - 2] == steps[..|steps| - 1][1..];
    }
  }

  ghost predicate Reaches(y: System, z: System) {
    exists steps :: Legal(y, steps) && After(y, steps) == z
  }

  lemma ReachesItself(y: System)
    ensures Reaches(y, y)
  {
    assert Legal(y, []) && After(y, []) == y;
  }

  lemma ReachesNext(x: System, y: System, step: Step)
    requires Reaches(x, y) && Enabled(y, step)
    ensures Reaches(x, Next(y, step))
  {
    hide Enabled, Next;
    var steps :| Legal(x, steps) && After(x, steps) == y;
    OneStep(y, step);
    RunAppend(x, steps, [step]);
    assert Legal(x, steps + [step]) && After(x, steps + [step]) == Next(y, step);
  }
}
