/**
 * The web worker: its own copy of the evaluator and of the chain runner (with progress
 * messages and a guarded early stop), and the message handler in front of them. The worker's
 * proposal helpers and initialisers are the library's line for line; the runner here calls
 * the Proposal definitions.
 */
module Worker {
  import opened Tasks
  import opened Objective
  import opened Proposal
  import opened Engine

  datatype Option<T> = None | Some(value: T)

  /** What the worker's evaluator returns: the score and the estimated time only. */
  datatype Estimate = Estimate(score: int, estimatedTime: int)

  /** A message the worker posts. The text of a caught error is the JavaScript engine's and is not modelled. */
  datatype Message =
    | Progress(chainId: int, iteration: nat, currentScore: int, acceptanceRate: real)
    | Complete(result: ChainState)
    | Error

  /** Progress is posted every this many iterations. */
  const ReportInterval: nat := 10

  /** The worker's evaluator loop. */
  method CalculateObjective(sequence: seq<Task>) returns (r: Estimate)
    ensures r.score == Score(sequence)
    ensures r.estimatedTime == TotalTime(sequence)
    ensures r.score >= r.estimatedTime >= 0
  {
    var totalTime: nat := 0;
    var dependencyViolations: nat := 0;
    var inefficiencyPenalty: nat := 0;
    var completedTasks: set<string> := {};
    for i := 0 to |sequence|
      invariant totalTime == TotalTime(sequence[..i])
      invariant dependencyViolations == DependencyViolations(sequence[..i])
      invariant inefficiencyPenalty == Inefficiency(sequence[..i])
      invariant completedTasks == IdSet(sequence[..i])
    {
      var task := sequence[i];
      PrefixStep(sequence, i);
      assert sequence[..i + 1] == sequence[..i] + [task];
      totalTime := totalTime + task.duration;
      if |task.deps| > 0 {
        for k := 0 to |task.deps|
          invariant dependencyViolations
            == DependencyViolations(sequence[..i]) + DependencyPenalty * MissingCount(task.deps[..k], completedTasks)
        {
          assert task.deps[..k + 1][..k] == task.deps[..k];
          if task.deps[k] !in completedTasks {
            dependencyViolations := dependencyViolations + DependencyPenalty;
          }
        }
        assert task.deps[..|task.deps|] == task.deps;
      } else {
        assert task.deps == [];
      }
      assert dependencyViolations
        == DependencyViolations(sequence[..i]) + DependencyPenalty * MissingCount(task.deps, completedTasks);
      IdSetSnoc(sequence[..i], task);
      completedTasks := completedTasks + {task.id};
      if i > 0 {
        var prevTask := sequence[i - 1];
        if prevTask.category != task.category {
          inefficiencyPenalty := inefficiencyPenalty + SwitchPenalty;
        }
        if Ordinal(task.priority) > Ordinal(prevTask.priority) {
          inefficiencyPenalty := inefficiencyPenalty + InversionPenalty;
        }
      }
    }
    assert sequence[..|sequence|] == sequence;
    r := Estimate(totalTime + dependencyViolations + inefficiencyPenalty, totalTime);
  }

  /** The worker's early-stop test: the engine's, guarded by a non-empty window. */
  predicate WorkerStops(cfg: Config, scores: seq<int>, iter: int)
  {
    && cfg.convergenceThreshold != 0.0
    && iter > cfg.burnIn + Window
    && var recent := Recent(scores);
       recent != [] && (MaxOf(recent) - MinOf(recent)) as real < cfg.convergenceThreshold
  }

  /** The worker's test stops only when the engine's does, and differs from it only on an empty window. */
  lemma WorkerStopsGuarded(cfg: Config, scores: seq<int>, iter: int)
    ensures WorkerStops(cfg, scores, iter) ==> EngineStops(cfg, scores, iter)
    ensures Recent(scores) != [] ==> (WorkerStops(cfg, scores, iter) <==> EngineStops(cfg, scores, iter))
    ensures scores == [] ==> !WorkerStops(cfg, scores, iter)
  {
  }

  /** The progress message of iteration `iter`, if that iteration reports. */
  function ProgressAt(chainId: int, iter: nat, score: int, accepted: nat): seq<Message>
  {
    if iter % ReportInterval == 0 then [Progress(chainId, iter, score, accepted as real / (iter + 1) as real)]
    else []
  }

  /** A reporting iteration posts one progress message of its chain, with rate acceptedMoves / (iter + 1). */
  lemma ProgressAtShape(chainId: int, iter: nat, score: int, accepted: nat)
    ensures |ProgressAt(chainId, iter, score, accepted)| == if iter % ReportInterval == 0 then 1 else 0
    ensures forall m :: m in ProgressAt(chainId, iter, score, accepted) ==>
      && m.Progress? && m.chainId == chainId && m.iteration == iter && m.currentScore == score
      && m.acceptanceRate * (iter + 1) as real == accepted as real
  {
  }

  /** The state of the worker's loop at its end and the messages it posted. */
  datatype Run = Run(walk: Walk, messages: seq<Message>)

  /** The worker's loop from iteration `iter` on. */
  function WorkerRunFrom(cfg: Config, chainId: int, w: Walk, iter: nat, steps: seq<Step>): (r: Run)
    requires StepsFit(|w.current|, steps, cfg.iterations)
    ensures |r.walk.current| == |w.current|
    decreases cfg.iterations - iter
  {
    if iter >= cfg.iterations then Run(w, [])
    else
      var next := Advance(cfg, w, iter, steps[iter]);
      var posted := ProgressAt(chainId, iter, next.score, next.acceptedMoves);
      if WorkerStops(cfg, next.scores, iter) then Run(next, posted)
      else
        var rest := WorkerRunFrom(cfg, chainId, next, iter + 1, steps);
        Run(rest.walk, posted + rest.messages)
  }

  /** Past burnIn + 50 an iteration has just recorded a score, so the extra guard never changes the outcome. */
  lemma StopsAgree(cfg: Config, w: Walk, iter: nat, st: Step)
    requires DrawFits(|w.current|, st.proposal)
    ensures var next := Advance(cfg, w, iter, st);
      WorkerStops(cfg, next.scores, iter) == EngineStops(cfg, next.scores, iter)
  {
    var next := Advance(cfg, w, iter, st);
    if iter > cfg.burnIn + Window {
      assert next.scores == w.scores + [next.score];
      assert Recent(next.scores) != [];
    }
  }

  /** Given the same draws, the worker's loop ends in the same state as the engine's. */
  lemma {:induction false} WorkerAgrees(cfg: Config, chainId: int, w: Walk, iter: nat, steps: seq<Step>)
    requires StepsFit(|w.current|, steps, cfg.iterations)
    ensures WorkerRunFrom(cfg, chainId, w, iter, steps).walk == RunFrom(cfg, w, iter, steps)
    decreases cfg.iterations - iter
  {
    if iter < cfg.iterations {
      StopsAgree(cfg, w, iter, steps[iter]);
      WorkerAgrees(cfg, chainId, Advance(cfg, w, iter, steps[iter]), iter + 1, steps);
    }
  }

  /** The multiples of ReportInterval in [from, to), ascending. */
  function Tens(from: nat, to: int): seq<nat>
    decreases to - from
  {
    if from >= to then []
    else (if from % ReportInterval == 0 then [from] else []) + Tens(from + 1, to)
  }

  /** The iterations of the progress messages among `ms`, in order. */
  function IterationsOf(ms: seq<Message>): seq<nat>
  {
    if ms == [] then []
    else (if ms[0].Progress? then [ms[0].iteration] else []) + IterationsOf(ms[1..])
  }

  predicate IsPrefix(a: seq<nat>, b: seq<nat>)
  {
    |a| <= |b| && a == b[..|a|]
  }

  lemma IterationsOfAppend(a: seq<Message>, b: seq<Message>)
    ensures IterationsOf(a + b) == IterationsOf(a) + IterationsOf(b)
    decreases |a|
  {
    if a != [] {
      assert (a + b)[1..] == a[1..] + b;
      IterationsOfAppend(a[1..], b);
    } else {
      assert a + b == b;
    }
  }

  lemma ProgressAtIterations(chainId: int, iter: nat, score: int, accepted: nat)
    ensures IterationsOf(ProgressAt(chainId, iter, score, accepted)) == if iter % ReportInterval == 0 then [iter] else []
  {
    if iter % ReportInterval == 0 {
      assert ProgressAt(chainId, iter, score, accepted)[1..] == [];
    }
  }

  /** Proof step: a sequence is a prefix of itself followed by anything. */
  lemma PrefixOfHead(h: seq<nat>, b: seq<nat>)
    ensures IsPrefix(h, h + b)
  {
    assert (h + b)[..|h|] == h;
  }

  /** The multiples of 10 in [from, to) are those in [from, mid) followed by those in [mid, to). */
  lemma {:induction false} TensSplit(from: nat, mid: nat, to: nat)
    requires from <= mid <= to
    ensures Tens(from, to) == Tens(from, mid) + Tens(mid, to)
    decreases mid - from
  {
    if from < mid {
      TensSplit(from + 1, mid, to);
    }
  }

  /** The posted iterations are the first ones of the multiples of 10 in [iter, iterations). */
  lemma ProgressPrefix(cfg: Config, chainId: int, w: Walk, iter: nat, steps: seq<Step>)
    requires StepsFit(|w.current|, steps, cfg.iterations)
    ensures IsPrefix(IterationsOf(WorkerRunFrom(cfg, chainId, w, iter, steps).messages), Tens(iter, cfg.iterations))
  {
    ProgressExact(cfg, chainId, w, iter, steps);
    var end := EndOf(cfg, w, iter, steps);
    if iter <= cfg.iterations {
      EndBounds(cfg, w, iter, steps);
      TensSplit(iter, end, cfg.iterations);
      PrefixOfHead(Tens(iter, end), Tens(end, cfg.iterations));
    }
  }

  /** Without a convergence threshold the loop posts on every multiple of 10 in [iter, iterations). */
  lemma ProgressComplete(cfg: Config, chainId: int, w: Walk, iter: nat, steps: seq<Step>)
    requires StepsFit(|w.current|, steps, cfg.iterations)
    requires cfg.convergenceThreshold == 0.0
    ensures IterationsOf(WorkerRunFrom(cfg, chainId, w, iter, steps).messages) == Tens(iter, cfg.iterations)
  {
    ProgressExact(cfg, chainId, w, iter, steps);
    if iter <= cfg.iterations {
      EndBounds(cfg, w, iter, steps);
    }
  }

  /** One past the last iteration the worker's loop runs from `iter` on: where it breaks, or the budget. */
  function EndOf(cfg: Config, w: Walk, iter: nat, steps: seq<Step>): (r: nat)
    requires StepsFit(|w.current|, steps, cfg.iterations)
    ensures iter <= r
    decreases cfg.iterations - iter
  {
    if iter >= cfg.iterations then iter
    else
      var next := Advance(cfg, w, iter, steps[iter]);
      if WorkerStops(cfg, next.scores, iter) then iter + 1 else EndOf(cfg, next, iter + 1, steps)
  }

  /**
   * Every iteration the loop runs that is a multiple of 10 posts progress, the one that breaks
   * the loop included, and no other iteration does.
   */
  lemma {:induction false} ProgressExact(cfg: Config, chainId: int, w: Walk, iter: nat, steps: seq<Step>)
    requires StepsFit(|w.current|, steps, cfg.iterations)
    ensures IterationsOf(WorkerRunFrom(cfg, chainId, w, iter, steps).messages) == Tens(iter, EndOf(cfg, w, iter, steps))
    decreases cfg.iterations - iter
  {
    if iter < cfg.iterations {
      var next := Advance(cfg, w, iter, steps[iter]);
      if WorkerStops(cfg, next.scores, iter) {
        ExactStops(cfg, chainId, w, iter, steps);
      } else {
        ProgressExact(cfg, chainId, next, iter + 1, steps);
        ExactContinues(cfg, chainId, w, iter, steps);
      }
    }
  }

  /** The iteration that breaks the loop posts exactly the multiple of 10 it may be. */
  lemma ExactStops(cfg: Config, chainId: int, w: Walk, iter: nat, steps: seq<Step>)
    requires StepsFit(|w.current|, steps, cfg.iterations)
    requires iter < cfg.iterations
    requires WorkerStops(cfg, Advance(cfg, w, iter, steps[iter]).scores, iter)
    ensures IterationsOf(WorkerRunFrom(cfg, chainId, w, iter, steps).messages) == Tens(iter, EndOf(cfg, w, iter, steps))
  {
    var next := Advance(cfg, w, iter, steps[iter]);
    ProgressAtIterations(chainId, iter, next.score, next.acceptedMoves);
    WorkerStep(cfg, chainId, w, iter, steps);
    EndStep(cfg, w, iter, steps);
    assert Tens(iter + 1, iter + 1) == [];
  }

  /** An iteration that does not break posts its multiple of 10 in front of what the rest of the loop posts. */
  lemma ExactContinues(cfg: Config, chainId: int, w: Walk, iter: nat, steps: seq<Step>)
    requires StepsFit(|w.current|, steps, cfg.iterations)
    requires iter < cfg.iterations
    requires var next := Advance(cfg, w, iter, steps[iter]);
      && !WorkerStops(cfg, next.scores, iter)
      && IterationsOf(WorkerRunFrom(cfg, chainId, next, iter + 1, steps).messages) == Tens(iter + 1, EndOf(cfg, next, iter + 1, steps))
    ensures IterationsOf(WorkerRunFrom(cfg, chainId, w, iter, steps).messages) == Tens(iter, EndOf(cfg, w, iter, steps))
  {
    var next := Advance(cfg, w, iter, steps[iter]);
    var posted := ProgressAt(chainId, iter, next.score, next.acceptedMoves);
    ProgressAtIterations(chainId, iter, next.score, next.acceptedMoves);
    WorkerStep(cfg, chainId, w, iter, steps);
    EndStep(cfg, w, iter, steps);
    IterationsOfAppend(posted, WorkerRunFrom(cfg, chainId, next, iter + 1, steps).messages);
  }

  /** One iteration of EndOf. */
  lemma EndStep(cfg: Config, w: Walk, iter: nat, steps: seq<Step>)
    requires StepsFit(|w.current|, steps, cfg.iterations)
    requires iter < cfg.iterations
    ensures var next := Advance(cfg, w, iter, steps[iter]);
      EndOf(cfg, w, iter, steps) == if WorkerStops(cfg, next.scores, iter) then iter + 1 else EndOf(cfg, next, iter + 1, steps)
  {
  }

  /**
   * The loop ends within its budget; it ends early only when a threshold is set and past
   * iteration burnIn + 50, and runs the whole budget without a threshold.
   */
  lemma {:induction false} EndBounds(cfg: Config, w: Walk, iter: nat, steps: seq<Step>)
    requires StepsFit(|w.current|, steps, cfg.iterations)
    requires iter <= cfg.iterations
    ensures EndOf(cfg, w, iter, steps) <= cfg.iterations
    ensures EndOf(cfg, w, iter, steps) < cfg.iterations ==>
      cfg.convergenceThreshold != 0.0 && EndOf(cfg, w, iter, steps) > cfg.burnIn + Window + 1
    ensures cfg.convergenceThreshold == 0.0 ==> EndOf(cfg, w, iter, steps) == cfg.iterations
    decreases cfg.iterations - iter
  {
    if iter < cfg.iterations {
      var next := Advance(cfg, w, iter, steps[iter]);
      EndStep(cfg, w, iter, steps);
      if !WorkerStops(cfg, next.scores, iter) {
        EndBounds(cfg, next, iter + 1, steps);
      }
    }
  }

  /**
   * Progress is posted exactly on the iterations that are multiples of 10: the posted iterations
   * are the multiples of 10 the loop runs, a prefix of those in [iter, iterations), and all of
   * them when there is no convergence threshold.
   */
  lemma ProgressCadence(cfg: Config, chainId: int, w: Walk, iter: nat, steps: seq<Step>)
    requires StepsFit(|w.current|, steps, cfg.iterations)
    ensures IterationsOf(WorkerRunFrom(cfg, chainId, w, iter, steps).messages) == Tens(iter, EndOf(cfg, w, iter, steps))
    ensures IsPrefix(IterationsOf(WorkerRunFrom(cfg, chainId, w, iter, steps).messages), Tens(iter, cfg.iterations))
    ensures cfg.convergenceThreshold == 0.0 ==>
      IterationsOf(WorkerRunFrom(cfg, chainId, w, iter, steps).messages) == Tens(iter, cfg.iterations)
  {
    ProgressExact(cfg, chainId, w, iter, steps);
    ProgressPrefix(cfg, chainId, w, iter, steps);
    if cfg.convergenceThreshold == 0.0 {
      ProgressComplete(cfg, chainId, w, iter, steps);
    }
  }

  /** Every message of the loop is a progress message of this chain with a rate in [0, 1]. */
  predicate ProgressOnly(chainId: int, ms: seq<Message>)
  {
    forall m :: m in ms ==> m.Progress? && m.chainId == chainId && 0.0 <= m.acceptanceRate <= 1.0
  }

  lemma RateInUnit(accepted: nat, n: nat)
    requires accepted <= n + 1
    ensures 0.0 <= accepted as real / (n + 1) as real <= 1.0
  {
    var a, d := accepted as real, (n + 1) as real;
    assert a / d * d == a;
  }

  /**
   * The loop posts only progress messages of its own chain, each with acceptedMoves / (iteration + 1)
   * in [0, 1], because at most one move is accepted per iteration.
   */
  lemma {:induction false} ProgressRates(cfg: Config, chainId: int, w: Walk, iter: nat, steps: seq<Step>)
    requires StepsFit(|w.current|, steps, cfg.iterations)
    requires w.acceptedMoves <= iter
    ensures ProgressOnly(chainId, WorkerRunFrom(cfg, chainId, w, iter, steps).messages)
    decreases cfg.iterations - iter
  {
    if iter < cfg.iterations {
      var next := Advance(cfg, w, iter, steps[iter]);
      AdvanceAcceptOrReject(cfg, w, iter, steps[iter]);
      assert next.acceptedMoves <= iter + 1;
      RateInUnit(next.acceptedMoves, iter);
      var posted := ProgressAt(chainId, iter, next.score, next.acceptedMoves);
      assert ProgressOnly(chainId, posted);
      WorkerStep(cfg, chainId, w, iter, steps);
      if !WorkerStops(cfg, next.scores, iter) {
        ProgressRates(cfg, chainId, next, iter + 1, steps);
        ProgressOnlyAppend(chainId, posted, WorkerRunFrom(cfg, chainId, next, iter + 1, steps).messages);
      }
    }
  }

  /** Proof step: ProgressOnly distributes over concatenation. */
  lemma ProgressOnlyAppend(chainId: int, a: seq<Message>, b: seq<Message>)
    requires ProgressOnly(chainId, a) && ProgressOnly(chainId, b)
    ensures ProgressOnly(chainId, a + b)
  {
  }

  /** Proof step: concatenation of messages is associative; naming it keeps the worker proofs small. */
  lemma AppendAssoc(a: seq<Message>, b: seq<Message>, c: seq<Message>)
    ensures a + (b + c) == (a + b) + c
  {
  }

  /** One iteration of the worker's loop. */
  lemma WorkerStep(cfg: Config, chainId: int, w: Walk, iter: nat, steps: seq<Step>)
    requires StepsFit(|w.current|, steps, cfg.iterations)
    requires iter < cfg.iterations
    ensures var next := Advance(cfg, w, iter, steps[iter]);
      var r := WorkerRunFrom(cfg, chainId, w, iter, steps);
      if WorkerStops(cfg, next.scores, iter) then r == Run(next, ProgressAt(chainId, iter, next.score, next.acceptedMoves))
      else
        && r.walk == WorkerRunFrom(cfg, chainId, next, iter + 1, steps).walk
        && r.messages == ProgressAt(chainId, iter, next.score, next.acceptedMoves) + WorkerRunFrom(cfg, chainId, next, iter + 1, steps).messages
  {
  }

  /** The worker's loop body up to the progress report, with the temperature read before the loop. */
  method Iterate(cfg: Config, temperature: real, currentSequence: seq<Task>, currentScore: int, acceptedMoves: nat,
                 samples: seq<seq<Task>>, scores: seq<int>, iter: int, st: Step)
    returns (currentSequence': seq<Task>, currentScore': int, acceptedMoves': nat,
             samples': seq<seq<Task>>, scores': seq<int>)
    requires temperature == Temperature(cfg)
    requires DrawFits(|currentSequence|, st.proposal)
    ensures Walk(currentSequence', currentScore', acceptedMoves', samples', scores')
      == Advance(cfg, Walk(currentSequence, currentScore, acceptedMoves, samples, scores), iter, st)
  {
    var proposedSequence := ProposeNewSequence(currentSequence, st.proposal);
    var proposedObjective := CalculateObjective(proposedSequence);
    var proposedScore := proposedObjective.score;
    currentSequence', currentScore', acceptedMoves' := currentSequence, currentScore, acceptedMoves;
    if Accepted(proposedScore, currentScore, temperature, st.accept) {
      currentSequence' := proposedSequence;
      currentScore' := proposedScore;
      acceptedMoves' := acceptedMoves + 1;
    }
    samples', scores' := samples, scores;
    if iter >= cfg.burnIn {
      samples' := samples + [currentSequence'];
      scores' := scores + [currentScore'];
    }
  }

  /** Posts a progress message on every 10th iteration: the iteration, the score and acceptedMoves / (iter + 1). */
  method PostProgress(messages: seq<Message>, chainId: int, iter: nat, currentScore: int, acceptedMoves: nat)
    returns (messages': seq<Message>)
    ensures messages' == messages + ProgressAt(chainId, iter, currentScore, acceptedMoves)
  {
    messages' := messages;
    if iter % ReportInterval == 0 {
      messages' := messages + [Progress(chainId, iter, currentScore, acceptedMoves as real / (iter + 1) as real)];
    }
  }

  /** The worker's early-stop check after iteration `iter`. */
  method Converged(cfg: Config, scores: seq<int>, iter: int) returns (stop: bool)
    ensures stop == WorkerStops(cfg, scores, iter)
  {
    stop := false;
    if cfg.convergenceThreshold != 0.0 && iter > cfg.burnIn + Window {
      var recentScores := Recent(scores);
      if |recentScores| > 0 {
        var improvement := MaxOf(recentScores) - MinOf(recentScores);
        if (improvement as real) < cfg.convergenceThreshold {
          stop := true;
        }
      }
    }
  }

  /** The worker's chain runner: the temperature is read once, and progress is posted every 10 iterations. */
  method RunIterations(cfg: Config, chainId: int, start: seq<Task>, startScore: int, steps: seq<Step>)
    returns (currentSequence: seq<Task>, currentScore: int, acceptedMoves: nat,
             samples: seq<seq<Task>>, scores: seq<int>, messages: seq<Message>)
    requires StepsFit(|start|, steps, cfg.iterations)
    ensures Run(Walk(currentSequence, currentScore, acceptedMoves, samples, scores), messages)
      == WorkerRunFrom(cfg, chainId, Walk(start, startScore, 0, [], []), 0, steps)
  {
    currentSequence, currentScore, acceptedMoves, samples, scores := start, startScore, 0, [], [];
    messages := [];
    ghost var final := WorkerRunFrom(cfg, chainId, Walk(start, startScore, 0, [], []), 0, steps);
    var temperature := if cfg.temperature == 0.0 then 1.0 else cfg.temperature;
    var iter: nat := 0;
    while iter < cfg.iterations
      invariant |currentSequence| == |start|
      invariant temperature == Temperature(cfg)
      invariant WorkerRunFrom(cfg, chainId, Walk(currentSequence, currentScore, acceptedMoves, samples, scores), iter, steps).walk
        == final.walk
      invariant messages + WorkerRunFrom(cfg, chainId, Walk(currentSequence, currentScore, acceptedMoves, samples, scores), iter, steps).messages
        == final.messages
      decreases cfg.iterations - iter
    {
      ghost var before := Walk(currentSequence, currentScore, acceptedMoves, samples, scores);
      WorkerStep(cfg, chainId, before, iter, steps);
      currentSequence, currentScore, acceptedMoves, samples, scores :=
        Iterate(cfg, temperature, currentSequence, currentScore, acceptedMoves, samples, scores, iter, steps[iter]);
      ghost var after := Walk(currentSequence, currentScore, acceptedMoves, samples, scores);
      ghost var messages0 := messages;
      messages := PostProgress(messages, chainId, iter, currentScore, acceptedMoves);
      var stop := Converged(cfg, scores, iter);
      if stop {
        return;
      }
      ghost var rest := WorkerRunFrom(cfg, chainId, after, iter + 1, steps).messages;
      AppendAssoc(messages0, ProgressAt(chainId, iter, after.score, after.acceptedMoves), rest);
      iter := iter + 1;
    }
  }

  /** The worker's chain runner: the same chain state as the engine's, and the progress messages of its loop. */
  method RunMCMCChain(tasks: seq<Task>, cfg: Config, chainId: int, js: seq<nat>, steps: seq<Step>)
    returns (state: ChainState, messages: seq<Message>)
    requires DistinctIds(tasks)
    requires chainId != 0 ==> ShuffleFits(|tasks|, js)
    requires StepsFit(|tasks|, steps, cfg.iterations)
    ensures state == Chain(tasks, cfg, chainId, js, steps)
    ensures messages == WorkerRunFrom(cfg, chainId, StartWalk(Initial(tasks, chainId, js)), 0, steps).messages
  {
    var currentSequence, currentScore := InitializeChain(tasks, chainId, js);
    ghost var start := StartWalk(Initial(tasks, chainId, js));
    var acceptedMoves, samples, scores;
    currentSequence, currentScore, acceptedMoves, samples, scores, messages :=
      RunIterations(cfg, chainId, currentSequence, currentScore, steps);
    WorkerAgrees(cfg, chainId, start, 0, steps);
    state := ChainState(chainId, currentSequence, currentScore, samples, scores,
                        RateOf(acceptedMoves, cfg.iterations), cfg.iterations);
  }

  /** The data of an inbound message; an absent field is None. */
  datatype Inbound = Inbound(kind: string, tasks: Option<seq<Task>>, config: Option<Config>, chainId: int)

  /**
   * The tasks the runner sees: an absent list reaches only the greedy initialiser, where an
   * empty set is built from it (the shuffle spreads it and throws).
   */
  function TasksOf(e: Inbound): seq<Task>
  {
    if e.tasks.Some? then e.tasks.value else []
  }

  /** Whether running the chain throws before its loop: the shuffle of an absent list, or an absent configuration. */
  predicate Throws(e: Inbound)
    ensures e.config.None? ==> Throws(e)
    ensures e.config.Some? && (e.tasks.Some? || e.chainId == 0) ==> !Throws(e)
  {
    (e.tasks.None? && e.chainId != 0) || e.config.None?
  }

  /** The draws fit the chain the message asks for. */
  predicate InboundFits(e: Inbound, js: seq<nat>, steps: seq<Step>)
  {
    && DistinctIds(TasksOf(e))
    && (e.chainId != 0 ==> ShuffleFits(|TasksOf(e)|, js))
    && (e.config.Some? ==> StepsFit(|TasksOf(e)|, steps, e.config.value.iterations))
  }

  /** What posting a message yields: nothing unless it is 'start'; then the loop's progress and one 'complete', or one 'error'. */
  function Posted(e: Inbound, js: seq<nat>, steps: seq<Step>): seq<Message>
    requires InboundFits(e, js, steps)
  {
    if e.kind != "start" then []
    else if Throws(e) then [Error]
    else
      var tasks, cfg := TasksOf(e), e.config.value;
      WorkerRunFrom(cfg, e.chainId, StartWalk(Initial(tasks, e.chainId, js)), 0, steps).messages
        + [Complete(Chain(tasks, cfg, e.chainId, js, steps))]
  }

  /** The message handler. */
  method OnMessage(e: Inbound, js: seq<nat>, steps: seq<Step>) returns (posted: seq<Message>)
    requires InboundFits(e, js, steps)
    ensures posted == Posted(e, js, steps)
  {
    posted := [];
    if e.kind == "start" {
      if Throws(e) {
        posted := posted + [Error];
      } else {
        var result, progress := RunMCMCChain(TasksOf(e), e.config.value, e.chainId, js, steps);
        posted := progress + [Complete(result)];
      }
    }
  }

  /**
   * A 'start' message yields its progress messages followed by exactly one 'complete', carrying
   * the engine's chain state, or exactly one 'error'; any other message yields nothing.
   */
  lemma PostedShape(e: Inbound, js: seq<nat>, steps: seq<Step>)
    requires InboundFits(e, js, steps)
    ensures var ms := Posted(e, js, steps);
      && (e.kind != "start" <==> ms == [])
      && (e.kind == "start" ==> |ms| >= 1 && (ms[|ms| - 1].Complete? || ms[|ms| - 1] == Error))
      && (forall i :: 0 <= i < |ms| - 1 ==> ms[i].Progress? && ms[i].chainId == e.chainId)
      && (e.kind == "start" && !Throws(e) ==>
            ms[|ms| - 1] == Complete(Chain(TasksOf(e), e.config.value, e.chainId, js, steps)))
      && (e.kind == "start" ==> (ms[|ms| - 1] == Error <==> Throws(e)))
  {
    if e.kind == "start" && !Throws(e) {
      var tasks, cfg := TasksOf(e), e.config.value;
      var run := WorkerRunFrom(cfg, e.chainId, StartWalk(Initial(tasks, e.chainId, js)), 0, steps);
      ProgressRates(cfg, e.chainId, StartWalk(Initial(tasks, e.chainId, js)), 0, steps);
      var ms := run.messages + [Complete(Chain(tasks, cfg, e.chainId, js, steps))];
      forall i | 0 <= i < |ms| - 1 ensures ms[i].Progress? && ms[i].chainId == e.chainId {
        assert ms[i] == run.messages[i] && run.messages[i] in run.messages;
      }
    }
  }
}
