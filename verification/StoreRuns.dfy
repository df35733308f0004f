/** Runs of the store: the states an operation passes through and the steps
    between them. Each operation returns its run, so that statements proved for
    all runs apply to it. */
module StoreRuns {
  import opened Collections
  import opened Ranking
  import opened MemoryNodes
  import opened MemoryStore
  import opened StoreInvariant
  import opened StoreTheorems

  datatype Run = Run(states: seq<Store>, steps: seq<Step>)

  ghost predicate Took(num: Numerics, cfg: Config, s: Store, step: Step, t: Store) {
    Enabled(cfg, s, step) && t == Apply(num, cfg, s, step)
  }

  ghost predicate TookAt(num: Numerics, cfg: Config, run: Run, i: nat)
    requires i < |run.steps| && i + 1 < |run.states|
  {
    Took(num, cfg, run.states[i], run.steps[i], run.states[i + 1])
  }

  ghost predicate IsRun(num: Numerics, cfg: Config, run: Run) {
    && |run.states| == |run.steps| + 1
    && forall i {:trigger TookAt(num, cfg, run, i)} | 0 <= i < |run.steps| :: TookAt(num, cfg, run, i)
  }

  ghost predicate RunsFrom(num: Numerics, cfg: Config, s: Store, run: Run, t: Store) {
    IsRun(num, cfg, run) && run.states[0] == s && run.states[|run.steps|] == t
  }

  lemma EmptyRun(num: Numerics, cfg: Config, s: Store) returns (run: Run)
    ensures RunsFrom(num, cfg, s, run, s) && run.steps == []
  {
    run := Run([s], []);
  }

  lemma Extend(num: Numerics, cfg: Config, s: Store, run: Run, m: Store, step: Step, t: Store) returns (next: Run)
    requires RunsFrom(num, cfg, s, run, m) && Took(num, cfg, m, step, t)
    ensures RunsFrom(num, cfg, s, next, t) && next.steps == run.steps + [step]
  {
    next := Run(run.states + [t], run.steps + [step]);
    forall i | 0 <= i < |next.steps|
      ensures TookAt(num, cfg, next, i)
    {
      if i < |run.steps| {
        assert TookAt(num, cfg, run, i);
      }
    }
  }

  lemma Join(num: Numerics, cfg: Config, s: Store, first: Run, m: Store, second: Run, t: Store) returns (run: Run)
    requires RunsFrom(num, cfg, s, first, m) && RunsFrom(num, cfg, m, second, t)
    ensures RunsFrom(num, cfg, s, run, t) && run.steps == first.steps + second.steps
  {
    var n := |first.steps|;
    run := Run(first.states + second.states[1..], first.steps + second.steps);
    forall i | 0 <= i < |run.steps|
      ensures TookAt(num, cfg, run, i)
    {
      if i < n {
        assert TookAt(num, cfg, first, i);
      } else {
        assert TookAt(num, cfg, second, i - n);
        assert run.states[i] == second.states[i - n];
      }
    }
  }

  lemma {:induction false} RunReaches(num: Numerics, cfg: Config, s: Store, run: Run, t: Store)
    requires RunsFrom(num, cfg, s, run, t)
    ensures Reaches(num, cfg, s, run.steps, t)
    decreases |run.steps|
  {
    if run.steps != [] {
      var rest := Run(run.states[1..], run.steps[1..]);
      forall i | 0 <= i < |rest.steps|
        ensures TookAt(num, cfg, rest, i)
      {
        assert TookAt(num, cfg, run, i + 1);
      }
      assert TookAt(num, cfg, run, 0);
      RunReaches(num, cfg, run.states[1], rest, t);
    }
  }

  // ----- One lemma per step the operations take -----

  lemma TookClock(num: Numerics, cfg: Config, s: Store, now: real)
    ensures Took(num, cfg, s, Clock(now), s.(logicalTime := now))
  {
  }

  lemma TookDecayEdges(num: Numerics, cfg: Config, s: Store, now: real)
    ensures Took(num, cfg, s, DecayEdges(now), EdgesDecayed(num, cfg, s, now))
  {
  }

  lemma TookDecayNodes(num: Numerics, cfg: Config, s: Store, now: real)
    ensures Took(num, cfg, s, DecayNodes(now), NodesDecayed(num, cfg, s, now))
  {
  }

  lemma TookCount(num: Numerics, cfg: Config, s: Store, visits: Row, meetings: Pairs)
    requires Countable(s, visits, meetings)
    ensures Took(num, cfg, s, Count(visits, meetings), Counted(s, visits, meetings))
  {
  }

  lemma TookSpawn(num: Numerics, cfg: Config, s: Store, event: EventId, input: Vector, now: real,
                  source: Option<string>, metadata: map<string, string>)
    requires |input| == cfg.dimension
    ensures Took(num, cfg, s, Spawn(event, input, now, source, metadata),
                 Spawned(num, cfg, s, event, input, now, source, metadata))
  {
  }

  lemma TookRefresh(num: Numerics, cfg: Config, s: Store, policy: Policy, total: real)
    requires total == TotalVisits(s) + cfg.pmiEpsilon
    ensures Took(num, cfg, s, Refresh(policy, total), Refreshed(num, cfg, policy, s, total))
  {
  }

  lemma TookMerge(num: Numerics, cfg: Config, s: Store, left: NodeId, right: NodeId, node: MemoryNode)
    requires left in s.nodes && right in s.nodes && left != right
      && Combines(s.nodes[left], s.nodes[right], right, node)
    ensures Took(num, cfg, s, Merge(left, right, node), MergedStore(cfg, s, left, right, node))
  {
  }

  lemma TookPrune(num: Numerics, cfg: Config, s: Store, id: NodeId)
    requires id in s.nodes
    ensures Took(num, cfg, s, Prune(id), Pruned(s, id))
  {
  }

  lemma TookStretch(num: Numerics, cfg: Config, s: Store, id: NodeId)
    requires id in s.nodes
    ensures Took(num, cfg, s, Stretch(id), s.(nodes := s.nodes[id := Stretched(cfg, s.nodes[id])]))
  {
  }

  lemma TookReinforce(num: Numerics, cfg: Config, s: Store, id: NodeId, event: EventId, input: Vector,
                      similarity: real, now: real, source: Option<string>)
    requires id in s.nodes && |input| == cfg.dimension
    ensures Took(num, cfg, s, Reinforce(id, event, input, similarity, now, source),
      s.(nodes := s.nodes[id := Reinforced(num, cfg, s.nodes[id], event, input, similarity, now, source)]))
  {
  }

  lemma TookAnnotate(num: Numerics, cfg: Config, s: Store, id: NodeId, metadata: map<string, string>)
    requires id in s.nodes
    ensures Took(num, cfg, s, Annotate(id, metadata),
      s.(nodes := s.nodes[id := s.nodes[id].(metadata := s.nodes[id].metadata + metadata)]))
  {
  }

  lemma TookRelieve(num: Numerics, cfg: Config, s: Store, id: NodeId, bayesian: bool)
    requires id in s.nodes
    ensures Took(num, cfg, s, Relieve(id, bayesian),
      s.(nodes := s.nodes[id := Relieved(num, cfg, s.nodes[id], bayesian)]))
  {
  }

  lemma TookBeginDream(num: Numerics, cfg: Config, s: Store, counter: nat)
    requires counter == if s.dreamCounter < U64_MAX then s.dreamCounter + 1 else U64_MAX
    ensures Took(num, cfg, s, BeginDream, s.(dreamCounter := counter))
  {
  }

  // ----- Runs that observe nothing and forget nothing -----

  predicate CalmStep(step: Step) { !step.Prune? && Observed(step) == {} }

  ghost predicate Calm(steps: seq<Step>) {
    forall i {:trigger CalmStep(steps[i])} | 0 <= i < |steps| :: CalmStep(steps[i])
  }

  lemma CalmConcat(first: seq<Step>, second: seq<Step>)
    requires Calm(first) && Calm(second)
    ensures Calm(first + second)
  {
    forall i | 0 <= i < |first + second|
      ensures CalmStep((first + second)[i])
    {
      if i < |first| {
        assert CalmStep(first[i]);
      } else {
        assert CalmStep(second[i - |first|]);
      }
    }
  }

  lemma CalmAppend(steps: seq<Step>, step: Step)
    requires Calm(steps) && CalmStep(step)
    ensures Calm(steps + [step])
  {
    CalmConcat(steps, [step]);
  }

  lemma MergesAreCalm(steps: seq<Step>)
    requires OnlyMerges(steps)
    ensures Calm(steps)
  {
  }

  lemma {:induction false} CalmRecordsNothing(steps: seq<Step>)
    requires Calm(steps)
    ensures AllObserved(steps) == {}
    decreases |steps|
  {
    if steps != [] {
      assert CalmStep(steps[0]);
      forall i | 0 <= i < |steps[1..]|
        ensures CalmStep(steps[1..][i])
      {
        assert CalmStep(steps[i + 1]);
      }
      CalmRecordsNothing(steps[1..]);
    }
  }

  /** Such a run leaves the evidence held by active nodes exactly as it was. */
  lemma CalmKeepsEvidence(num: Numerics, cfg: Config, s: Store, run: Run, t: Store)
    requires num.Valid() && cfg.eps > 0.0 && Inv(num, cfg, s) && RunsFrom(num, cfg, s, run, t) && Calm(run.steps)
    ensures Evidence(t.nodes) == Evidence(s.nodes)
  {
    RunReaches(num, cfg, s, run, t);
    forall i | 0 <= i < |run.steps|
      ensures !run.steps[i].Prune?
    {
      assert CalmStep(run.steps[i]);
    }
    RunKeepsEvidence(num, cfg, s, run.steps, t);
    CalmRecordsNothing(run.steps);
  }
}
