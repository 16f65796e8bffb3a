/**
 * The single-chain Metropolis loop, the multi-chain driver and the guard branches of the
 * Gelman-Rubin diagnostic. Every random draw of a run is an explicit parameter.
 */
module Engine {
  import opened Tasks
  import opened Objective
  import opened Proposal

  /** A chain configuration; 0.0 stands for an absent (falsy) temperature or convergence threshold. */
  datatype Config = Config(numChains: int, iterations: int, burnIn: int, temperature: real, convergenceThreshold: real)

  /**
   * The draws of one iteration: those of the proposal, and whether the uniform accept draw falls
   * below the acceptance probability (it decides only when that probability is below one).
   */
  datatype Step = Step(proposal: Draw, accept: bool)

  /** A quotient as the source computes it; 0 / 0 is not a number. */
  datatype Ratio = Rate(value: real) | NotANumber

  /** What a chain returns. */
  datatype ChainState = ChainState(
    chainId: int,
    currentSequence: seq<Task>,
    currentScore: int,
    samples: seq<seq<Task>>,
    scores: seq<int>,
    acceptanceRate: Ratio,
    iterations: int)

  /** The loop state of a chain between iterations. */
  datatype Walk = Walk(current: seq<Task>, score: int, acceptedMoves: nat, samples: seq<seq<Task>>, scores: seq<int>)

  /** The number of recent scores the convergence check looks at. */
  const Window: nat := 50

  /** A falsy temperature falls back to 1.0. */
  function Temperature(cfg: Config): (t: real)
    ensures t != 0.0
    ensures cfg.temperature != 0.0 ==> t == cfg.temperature
    ensures cfg.temperature == 0.0 ==> t == 1.0
  {
    if cfg.temperature == 0.0 then 1.0 else cfg.temperature
  }

  /**
   * min(1, exp(-(proposed - current) / t)) is 1 exactly when (proposed - current) * t <= 0
   * (t is never 0); then a uniform draw in [0, 1) is always below it.
   */
  predicate SurelyAccepted(proposed: int, current: int, t: real)
  {
    (proposed - current) as real * t <= 0.0
  }

  /** A draw below the acceptance probability: certain when that is 1, otherwise the `draw` decides. */
  predicate Accepted(proposed: int, current: int, t: real, draw: bool)
  {
    SurelyAccepted(proposed, current, t) || draw
  }

  /**
   * The acceptance rule: with a positive temperature a proposal is surely accepted exactly when
   * it scores no worse, with a negative one exactly when it scores no better; otherwise the draw decides.
   */
  lemma AcceptanceRule(proposed: int, current: int, t: real, draw: bool)
    ensures t > 0.0 ==> (SurelyAccepted(proposed, current, t) <==> proposed <= current)
    ensures t < 0.0 ==> (SurelyAccepted(proposed, current, t) <==> proposed >= current)
    ensures SurelyAccepted(proposed, current, t) ==> Accepted(proposed, current, t, draw)
    ensures !SurelyAccepted(proposed, current, t) ==> (Accepted(proposed, current, t, draw) <==> draw)
  {
    var d := (proposed - current) as real;
    if t > 0.0 && d > 0.0 {
      assert d * t > 0.0;
    } else if t < 0.0 && d < 0.0 {
      assert d * t > 0.0;
    }
  }

  /** The draws of the first `iterations` iterations are in range for sequences of length n. */
  predicate StepsFit(n: nat, steps: seq<Step>, iterations: int)
  {
    |steps| >= iterations && forall k :: 0 <= k < |steps| ==> DrawFits(n, steps[k].proposal)
  }

  function MaxOf(s: seq<int>): (m: int)
    requires s != []
    ensures m in s && forall i :: 0 <= i < |s| ==> s[i] <= m
  {
    if |s| == 1 then s[0]
    else
      var m := MaxOf(s[..|s| - 1]);
      if s[|s| - 1] > m then s[|s| - 1] else m
  }

  function MinOf(s: seq<int>): (m: int)
    requires s != []
    ensures m in s && forall i :: 0 <= i < |s| ==> m <= s[i]
  {
    if |s| == 1 then s[0]
    else
      var m := MinOf(s[..|s| - 1]);
      if s[|s| - 1] < m then s[|s| - 1] else m
  }

  /** The last `Window` scores (all of them when there are fewer). */
  function Recent(scores: seq<int>): (r: seq<int>)
    ensures |r| == if |scores| < Window then |scores| else Window
    ensures r == scores[|scores| - |r|..]
  {
    if |scores| <= Window then scores else scores[|scores| - Window..]
  }

  /**
   * The engine's early-stop test after iteration `iter`. An empty window would give
   * max - min = -Infinity, which is below any threshold.
   */
  predicate EngineStops(cfg: Config, scores: seq<int>, iter: int)
  {
    && cfg.convergenceThreshold != 0.0
    && iter > cfg.burnIn + Window
    && var recent := Recent(scores);
       (recent == [] || (MaxOf(recent) - MinOf(recent)) as real < cfg.convergenceThreshold)
  }

  /**
   * The early-stop test: a threshold is set, the iteration is past burnIn + 50, and any two of
   * the last 50 recorded scores differ by less than the threshold.
   */
  lemma StopsIffSpread(cfg: Config, scores: seq<int>, iter: int)
    ensures EngineStops(cfg, scores, iter) <==>
      && cfg.convergenceThreshold != 0.0
      && iter > cfg.burnIn + Window
      && SpreadBelow(Recent(scores), cfg.convergenceThreshold)
  {
    SpreadIsMaxMinusMin(Recent(scores), cfg.convergenceThreshold);
  }

  /** Any two of the scores differ by less than `threshold`. */
  predicate SpreadBelow(s: seq<int>, threshold: real)
  {
    forall i, j :: 0 <= i < |s| && 0 <= j < |s| ==> (s[i] - s[j]) as real < threshold
  }

  /** For a non-empty window, max - min is below the threshold exactly when every difference is. */
  lemma SpreadIsMaxMinusMin(s: seq<int>, threshold: real)
    ensures s != [] ==> ((MaxOf(s) - MinOf(s)) as real < threshold <==> SpreadBelow(s, threshold))
  {
    if s != [] {
      var hi, lo := MaxOf(s), MinOf(s);
      var a :| 0 <= a < |s| && s[a] == hi;
      var b :| 0 <= b < |s| && s[b] == lo;
      if SpreadBelow(s, threshold) {
        assert (s[a] - s[b]) as real < threshold;
      }
    }
  }

  /** Whether iteration step `st` accepts its proposal from `w`. */
  predicate AcceptsProposal(cfg: Config, w: Walk, st: Step)
    requires DrawFits(|w.current|, st.proposal)
  {
    Accepted(Score(Propose(w.current, st.proposal)), w.score, Temperature(cfg), st.accept)
  }

  /** One iteration: propose, accept or reject, then record a sample from the burn-in on. */
  function Advance(cfg: Config, w: Walk, iter: int, st: Step): (r: Walk)
    requires DrawFits(|w.current|, st.proposal)
    ensures |r.current| == |w.current|
  {
    var proposed := Propose(w.current, st.proposal);
    var accepted := AcceptsProposal(cfg, w, st);
    var current := if accepted then proposed else w.current;
    var score := if accepted then Score(proposed) else w.score;
    var moves := if accepted then w.acceptedMoves + 1 else w.acceptedMoves;
    if iter >= cfg.burnIn then Walk(current, score, moves, w.samples + [current], w.scores + [score])
    else Walk(current, score, moves, w.samples, w.scores)
  }

  /** The loop from iteration `iter` on, until the budget is spent or the chain has converged. */
  function RunFrom(cfg: Config, w: Walk, iter: nat, steps: seq<Step>): (r: Walk)
    requires StepsFit(|w.current|, steps, cfg.iterations)
    ensures |r.current| == |w.current|
    decreases cfg.iterations - iter
  {
    if iter >= cfg.iterations then w
    else
      var next := Advance(cfg, w, iter, steps[iter]);
      if EngineStops(cfg, next.scores, iter) then next else RunFrom(cfg, next, iter + 1, steps)
  }

  lemma RunFromStep(cfg: Config, w: Walk, iter: nat, steps: seq<Step>)
    requires StepsFit(|w.current|, steps, cfg.iterations)
    requires iter < cfg.iterations
    ensures var next := Advance(cfg, w, iter, steps[iter]);
      RunFrom(cfg, w, iter, steps) == if EngineStops(cfg, next.scores, iter) then next else RunFrom(cfg, next, iter + 1, steps)
  {
  }

  lemma RunFromDone(cfg: Config, w: Walk, iter: nat, steps: seq<Step>)
    requires StepsFit(|w.current|, steps, cfg.iterations)
    requires iter >= cfg.iterations
    ensures RunFrom(cfg, w, iter, steps) == w
  {
  }

  /** Chain 0 starts from the greedy order, every other chain from the shuffle. */
  function Initial(tasks: seq<Task>, chainId: int, js: seq<nat>): (r: seq<Task>)
    requires chainId != 0 ==> ShuffleFits(|tasks|, js)
    ensures |r| == |tasks| && multiset(r) == multiset(tasks)
  {
    GreedyPermutation(tasks, {});
    if chainId == 0 then Greedy(tasks) else Shuffle(tasks, js)
  }

  function StartWalk(s: seq<Task>): Walk
  {
    Walk(s, Score(s), 0, [], [])
  }

  /** acceptedMoves / iterations, where 0 / 0 is not a number. */
  function RateOf(accepted: nat, iterations: int): (r: Ratio)
    ensures r.NotANumber? <==> iterations == 0
    ensures r.Rate? ==> r.value * iterations as real == accepted as real
  {
    if iterations == 0 then NotANumber else Rate(accepted as real / iterations as real)
  }

  /** The state a chain returns, as a function of the tasks, the configuration and the draws. */
  function Chain(tasks: seq<Task>, cfg: Config, chainId: int, js: seq<nat>, steps: seq<Step>): ChainState
    requires chainId != 0 ==> ShuffleFits(|tasks|, js)
    requires StepsFit(|tasks|, steps, cfg.iterations)
  {
    var w := RunFrom(cfg, StartWalk(Initial(tasks, chainId, js)), 0, steps);
    ChainState(chainId, w.current, w.score, w.samples, w.scores, RateOf(w.acceptedMoves, cfg.iterations), cfg.iterations)
  }

  /** The loop invariant: permutations of the tasks everywhere, and every score is the objective of its sequence. */
  predicate WalkInvariant(tasks: seq<Task>, w: Walk)
  {
    && multiset(w.current) == multiset(tasks)
    && w.score == Score(w.current)
    && |w.samples| == |w.scores|
    && forall k :: 0 <= k < |w.samples| ==>
         w.scores[k] == Score(w.samples[k]) && multiset(w.samples[k]) == multiset(tasks)
  }

  /** The same facts about a returned chain state. */
  predicate ChainInvariant(tasks: seq<Task>, c: ChainState)
  {
    WalkInvariant(tasks, Walk(c.currentSequence, c.currentScore, 0, c.samples, c.scores))
  }

  /** An accepted proposal becomes current with its score and is counted; a rejection changes neither. */
  lemma AdvanceAcceptOrReject(cfg: Config, w: Walk, iter: int, st: Step)
    requires DrawFits(|w.current|, st.proposal)
    ensures var r := Advance(cfg, w, iter, st);
      var proposed := Propose(w.current, st.proposal);
      && (AcceptsProposal(cfg, w, st) ==>
            r.current == proposed && r.score == Score(proposed) && r.acceptedMoves == w.acceptedMoves + 1)
      && (!AcceptsProposal(cfg, w, st) ==>
            r.current == w.current && r.score == w.score && r.acceptedMoves == w.acceptedMoves)
      && (iter >= cfg.burnIn ==> r.samples == w.samples + [r.current] && r.scores == w.scores + [r.score])
      && (iter < cfg.burnIn ==> r.samples == w.samples && r.scores == w.scores)
  {
  }

  /** With a positive temperature, a proposal that scores no worse than the current one is always accepted. */
  lemma NonWorseningAccepted(cfg: Config, w: Walk, iter: int, st: Step)
    requires DrawFits(|w.current|, st.proposal)
    requires Temperature(cfg) > 0.0
    requires Score(Propose(w.current, st.proposal)) <= w.score
    ensures Advance(cfg, w, iter, st).current == Propose(w.current, st.proposal)
    ensures Advance(cfg, w, iter, st).acceptedMoves == w.acceptedMoves + 1
  {
    var d := Score(Propose(w.current, st.proposal)) - w.score;
    assert d as real <= 0.0;
    assert d as real * Temperature(cfg) <= 0.0;
  }

  lemma {:induction false} AdvanceKeepsInvariant(tasks: seq<Task>, cfg: Config, w: Walk, iter: int, st: Step)
    requires DrawFits(|w.current|, st.proposal)
    requires WalkInvariant(tasks, w)
    ensures WalkInvariant(tasks, Advance(cfg, w, iter, st))
  {
    var r := Advance(cfg, w, iter, st);
    if iter >= cfg.burnIn {
      forall k | 0 <= k < |r.samples|
        ensures r.scores[k] == Score(r.samples[k]) && multiset(r.samples[k]) == multiset(tasks)
      {
        if k < |w.samples| {
          assert r.samples[k] == w.samples[k] && r.scores[k] == w.scores[k];
        }
      }
    }
  }

  /** Throughout the loop the sequence is a permutation of the tasks and the score is its objective. */
  lemma {:induction false} RunKeepsInvariant(tasks: seq<Task>, cfg: Config, w: Walk, iter: nat, steps: seq<Step>)
    requires StepsFit(|w.current|, steps, cfg.iterations)
    requires WalkInvariant(tasks, w)
    ensures WalkInvariant(tasks, RunFrom(cfg, w, iter, steps))
    decreases cfg.iterations - iter
  {
    if iter < cfg.iterations {
      var next := Advance(cfg, w, iter, steps[iter]);
      AdvanceKeepsInvariant(tasks, cfg, w, iter, steps[iter]);
      if !EngineStops(cfg, next.scores, iter) {
        RunKeepsInvariant(tasks, cfg, next, iter + 1, steps);
      }
    }
  }

  /** One past the last iteration the loop runs from `iter` on: the one after the iteration whose stop test breaks the loop, or the budget. */
  function EngineEnd(cfg: Config, w: Walk, iter: nat, steps: seq<Step>): (r: nat)
    requires StepsFit(|w.current|, steps, cfg.iterations)
    ensures iter <= r
    decreases cfg.iterations - iter
  {
    if iter >= cfg.iterations then iter
    else
      var next := Advance(cfg, w, iter, steps[iter]);
      if EngineStops(cfg, next.scores, iter) then iter + 1 else EngineEnd(cfg, next, iter + 1, steps)
  }

  /** One iteration of EngineEnd. */
  lemma EngineEndStep(cfg: Config, w: Walk, iter: nat, steps: seq<Step>)
    requires StepsFit(|w.current|, steps, cfg.iterations)
    requires iter < cfg.iterations
    ensures var next := Advance(cfg, w, iter, steps[iter]);
      EngineEnd(cfg, w, iter, steps) == if EngineStops(cfg, next.scores, iter) then iter + 1 else EngineEnd(cfg, next, iter + 1, steps)
  {
  }

  /**
   * The loop ends within its budget; it ends before the budget only when a threshold is set and
   * past iteration burnIn + 50, and without a threshold it runs the whole budget.
   */
  lemma {:induction false} EngineEndBounds(cfg: Config, w: Walk, iter: nat, steps: seq<Step>)
    requires StepsFit(|w.current|, steps, cfg.iterations)
    requires iter <= cfg.iterations
    ensures EngineEnd(cfg, w, iter, steps) <= cfg.iterations
    ensures EngineEnd(cfg, w, iter, steps) < cfg.iterations ==>
      cfg.convergenceThreshold != 0.0 && EngineEnd(cfg, w, iter, steps) > cfg.burnIn + Window + 1
    ensures cfg.convergenceThreshold == 0.0 ==> EngineEnd(cfg, w, iter, steps) == cfg.iterations
    decreases cfg.iterations - iter
  {
    if iter < cfg.iterations {
      var next := Advance(cfg, w, iter, steps[iter]);
      EngineEndStep(cfg, w, iter, steps);
      if !EngineStops(cfg, next.scores, iter) {
        EngineEndBounds(cfg, next, iter + 1, steps);
      }
    }
  }

  /** How many of the iterations iter .. end-1 lie at or past the burn-in. */
  function Between(burnIn: int, iter: int, end: int): (r: nat)
    ensures r <= (if iter < end then end - iter else 0)
    ensures burnIn <= iter ==> r == (if iter < end then end - iter else 0)
  {
    var from := if iter < burnIn then burnIn else iter;
    if from >= end then 0 else end - from
  }

  /** How many samples iterations iter .. iterations-1 record when none of them stops early. */
  function Recorded(cfg: Config, iter: int): nat
  {
    Between(cfg.burnIn, iter, cfg.iterations)
  }

  /** Every iteration the loop runs from the burn-in on records one sample and one score, the one that stops the loop included. */
  lemma {:induction false} SamplesToEnd(cfg: Config, w: Walk, iter: nat, steps: seq<Step>)
    requires StepsFit(|w.current|, steps, cfg.iterations)
    ensures |RunFrom(cfg, w, iter, steps).samples| == |w.samples| + Between(cfg.burnIn, iter, EngineEnd(cfg, w, iter, steps))
    ensures |RunFrom(cfg, w, iter, steps).scores| == |w.scores| + Between(cfg.burnIn, iter, EngineEnd(cfg, w, iter, steps))
    decreases cfg.iterations - iter
  {
    if iter < cfg.iterations {
      var next := Advance(cfg, w, iter, steps[iter]);
      RunFromStep(cfg, w, iter, steps);
      EngineEndStep(cfg, w, iter, steps);
      if !EngineStops(cfg, next.scores, iter) {
        SamplesToEnd(cfg, next, iter + 1, steps);
      }
    }
  }

  /**
   * A run that does not stop early, in particular every run without a threshold, samples every
   * iteration from the burn-in on.
   */
  lemma SampleCount(cfg: Config, w: Walk, iter: nat, steps: seq<Step>)
    requires StepsFit(|w.current|, steps, cfg.iterations)
    ensures cfg.convergenceThreshold == 0.0 || EngineEnd(cfg, w, iter, steps) == cfg.iterations ==>
      && |RunFrom(cfg, w, iter, steps).samples| == |w.samples| + Recorded(cfg, iter)
      && |RunFrom(cfg, w, iter, steps).scores| == |w.scores| + Recorded(cfg, iter)
  {
    SamplesToEnd(cfg, w, iter, steps);
    if iter <= cfg.iterations {
      EngineEndBounds(cfg, w, iter, steps);
    }
  }

  /** At most one move is accepted per iteration. */
  lemma {:induction false} AcceptedMovesBound(cfg: Config, w: Walk, iter: nat, steps: seq<Step>)
    requires StepsFit(|w.current|, steps, cfg.iterations)
    ensures RunFrom(cfg, w, iter, steps).acceptedMoves
      <= w.acceptedMoves + (if iter < cfg.iterations then cfg.iterations - iter else 0)
    decreases cfg.iterations - iter
  {
    if iter < cfg.iterations {
      var next := Advance(cfg, w, iter, steps[iter]);
      if !EngineStops(cfg, next.scores, iter) {
        AcceptedMovesBound(cfg, next, iter + 1, steps);
      }
    }
  }

  /** While no iteration lies past burnIn + 50, a convergence threshold changes nothing. */
  lemma {:induction false} NoEarlyStopWithinWindow(cfg: Config, w: Walk, iter: nat, steps: seq<Step>)
    requires cfg.iterations <= cfg.burnIn + Window + 1
    requires StepsFit(|w.current|, steps, cfg.iterations)
    ensures RunFrom(cfg, w, iter, steps) == RunFrom(cfg.(convergenceThreshold := 0.0), w, iter, steps)
    decreases cfg.iterations - iter
  {
    if iter < cfg.iterations {
      var cfg0 := cfg.(convergenceThreshold := 0.0);
      assert Advance(cfg, w, iter, steps[iter]) == Advance(cfg0, w, iter, steps[iter]);
      NoEarlyStopWithinWindow(cfg, Advance(cfg, w, iter, steps[iter]), iter + 1, steps);
    }
  }

  lemma RateBounds(accepted: nat, iterations: int)
    requires iterations > 0 ==> accepted <= iterations
    requires iterations < 0 ==> accepted == 0
    ensures RateOf(accepted, iterations).Rate? ==> 0.0 <= RateOf(accepted, iterations).value <= 1.0
  {
    if iterations > 0 {
      var a, n := accepted as real, iterations as real;
      assert a / n <= 1.0 by {
        assert a <= n;
        assert a / n * n == a;
      }
    }
  }

  /**
   * What every returned chain state satisfies: permutations of the tasks, scores that are the
   * objectives of their sequences, paired samples, the configured budget and a rate in [0, 1];
   * without a threshold and with 0 <= burnIn <= iterations there are iterations - burnIn samples.
   */
  lemma ChainFacts(tasks: seq<Task>, cfg: Config, chainId: int, js: seq<nat>, steps: seq<Step>)
    requires chainId != 0 ==> ShuffleFits(|tasks|, js)
    requires StepsFit(|tasks|, steps, cfg.iterations)
    ensures var c := Chain(tasks, cfg, chainId, js, steps);
      && ChainInvariant(tasks, c)
      && c.chainId == chainId && c.iterations == cfg.iterations
      && (c.acceptanceRate.Rate? ==> 0.0 <= c.acceptanceRate.value <= 1.0)
      && (cfg.iterations == 0 <==> c.acceptanceRate == NotANumber)
      && var end := EngineEnd(cfg, StartWalk(Initial(tasks, chainId, js)), 0, steps);
         && |c.samples| == |c.scores| == Between(cfg.burnIn, 0, end)
         && ((cfg.convergenceThreshold == 0.0 || end == cfg.iterations) && 0 <= cfg.burnIn <= cfg.iterations ==>
               |c.samples| == |c.scores| == cfg.iterations - cfg.burnIn)
  {
    var start := StartWalk(Initial(tasks, chainId, js));
    assert WalkInvariant(tasks, start);
    RunKeepsInvariant(tasks, cfg, start, 0, steps);
    AcceptedMovesBound(cfg, start, 0, steps);
    var w := RunFrom(cfg, start, 0, steps);
    RateBounds(w.acceptedMoves, cfg.iterations);
    SamplesToEnd(cfg, start, 0, steps);
    SampleCount(cfg, start, 0, steps);
  }

  /**
   * One pass of the loop body: propose from a copy, evaluate, accept or reject, and record a
   * sample from the burn-in on.
   */
  method Iterate(cfg: Config, currentSequence: seq<Task>, currentScore: int, acceptedMoves: nat,
                 samples: seq<seq<Task>>, scores: seq<int>, iter: int, st: Step)
    returns (currentSequence': seq<Task>, currentScore': int, acceptedMoves': nat,
             samples': seq<seq<Task>>, scores': seq<int>)
    requires DrawFits(|currentSequence|, st.proposal)
    ensures Walk(currentSequence', currentScore', acceptedMoves', samples', scores')
      == Advance(cfg, Walk(currentSequence, currentScore, acceptedMoves, samples, scores), iter, st)
  {
    var proposedSequence := ProposeNewSequence(currentSequence, st.proposal);
    var proposedObjective := CalculateObjective(proposedSequence);
    var proposedScore := proposedObjective.score;
    var temperature := if cfg.temperature == 0.0 then 1.0 else cfg.temperature;
    var accepted := Accepted(proposedScore, currentScore, temperature, st.accept);
    currentSequence', currentScore', acceptedMoves' := currentSequence, currentScore, acceptedMoves;
    if accepted {
      currentSequence' := proposedSequence;
      currentScore' := proposedScore;
      acceptedMoves' := acceptedMoves + 1;
    }
    samples', scores' := samples, scores;
    if iter >= cfg.burnIn {
      samples' := samples + [currentSequence'];
      scores' := scores + [currentScore'];
    }
  }

  /** The iteration loop of a chain, from a start sequence and its score. */
  method RunIterations(cfg: Config, start: seq<Task>, startScore: int, steps: seq<Step>)
    returns (currentSequence: seq<Task>, currentScore: int, acceptedMoves: nat,
             samples: seq<seq<Task>>, scores: seq<int>)
    requires StepsFit(|start|, steps, cfg.iterations)
    ensures Walk(currentSequence, currentScore, acceptedMoves, samples, scores)
      == RunFrom(cfg, Walk(start, startScore, 0, [], []), 0, steps)
  {
    currentSequence, currentScore, acceptedMoves, samples, scores := start, startScore, 0, [], [];
    ghost var final := RunFrom(cfg, Walk(start, startScore, 0, [], []), 0, steps);
    var iter: nat := 0;
    while iter < cfg.iterations
      invariant |currentSequence| == |start|
      invariant RunFrom(cfg, Walk(currentSequence, currentScore, acceptedMoves, samples, scores), iter, steps) == final
      decreases cfg.iterations - iter
    {
      ghost var before := Walk(currentSequence, currentScore, acceptedMoves, samples, scores);
      currentSequence, currentScore, acceptedMoves, samples, scores :=
        Iterate(cfg, currentSequence, currentScore, acceptedMoves, samples, scores, iter, steps[iter]);
      ghost var after := Walk(currentSequence, currentScore, acceptedMoves, samples, scores);
      RunFromStep(cfg, before, iter, steps);
      if cfg.convergenceThreshold != 0.0 && iter > cfg.burnIn + Window {
        var recentScores := Recent(scores);
        if recentScores == [] || (MaxOf(recentScores) - MinOf(recentScores)) as real < cfg.convergenceThreshold {
          assert EngineStops(cfg, after.scores, iter);
          return;
        }
      }
      assert !EngineStops(cfg, after.scores, iter);
      iter := iter + 1;
    }
    RunFromDone(cfg, Walk(currentSequence, currentScore, acceptedMoves, samples, scores), iter, steps);
  }

  /** The start of a chain: greedy for chain 0, shuffled otherwise, with its objective. */
  method InitializeChain(tasks: seq<Task>, chainId: int, js: seq<nat>) returns (currentSequence: seq<Task>, currentScore: int)
    requires DistinctIds(tasks)
    requires chainId != 0 ==> ShuffleFits(|tasks|, js)
    ensures Walk(currentSequence, currentScore, 0, [], []) == StartWalk(Initial(tasks, chainId, js))
  {
    if chainId == 0 {
      currentSequence := InitializeGreedySequence(tasks);
      assert currentSequence == Initial(tasks, chainId, js);
    } else {
      currentSequence := InitializeRandomSequence(tasks, js);
      assert currentSequence == Initial(tasks, chainId, js);
    }
    var currentObjective := CalculateObjective(currentSequence);
    currentScore := currentObjective.score;
    assert currentScore == Score(currentSequence);
  }

  /** The chain runner: the Metropolis loop over the current sequence, score, accepted count and sample buffers. */
  method RunMCMCChain(tasks: seq<Task>, cfg: Config, chainId: int, js: seq<nat>, steps: seq<Step>)
    returns (state: ChainState)
    requires DistinctIds(tasks)
    requires chainId != 0 ==> ShuffleFits(|tasks|, js)
    requires StepsFit(|tasks|, steps, cfg.iterations)
    ensures state == Chain(tasks, cfg, chainId, js, steps)
    ensures ChainInvariant(tasks, state)
    ensures state.chainId == chainId && state.iterations == cfg.iterations
    ensures state.acceptanceRate.Rate? ==> 0.0 <= state.acceptanceRate.value <= 1.0
  {
    var currentSequence, currentScore := InitializeChain(tasks, chainId, js);
    var acceptedMoves, samples, scores;
    currentSequence, currentScore, acceptedMoves, samples, scores :=
      RunIterations(cfg, currentSequence, currentScore, steps);
    state := ChainState(chainId, currentSequence, currentScore, samples, scores,
                        RateOf(acceptedMoves, cfg.iterations), cfg.iterations);
    ChainFacts(tasks, cfg, chainId, js, steps);
  }

  /** The draws of every chain are in range. */
  predicate ChainDrawsFit(tasks: seq<Task>, cfg: Config, shuffles: seq<seq<nat>>, steps: seq<seq<Step>>)
  {
    && |shuffles| >= cfg.numChains && |steps| >= cfg.numChains
    && (forall i :: 1 <= i < |shuffles| ==> ShuffleFits(|tasks|, shuffles[i]))
    && (forall i :: 0 <= i < |steps| ==> StepsFit(|tasks|, steps[i], cfg.iterations))
  }

  /** The driver runs chains 0 .. numChains-1 in order and collects their states. */
  method RunMultipleMCMCChains(tasks: seq<Task>, cfg: Config, shuffles: seq<seq<nat>>, steps: seq<seq<Step>>)
    returns (chains: seq<ChainState>)
    requires DistinctIds(tasks)
    requires ChainDrawsFit(tasks, cfg, shuffles, steps)
    ensures |chains| == if cfg.numChains > 0 then cfg.numChains else 0
    ensures forall i :: 0 <= i < |chains| ==>
      chains[i].chainId == i && chains[i] == Chain(tasks, cfg, i, shuffles[i], steps[i])
    ensures forall i :: 0 <= i < |chains| ==> ChainInvariant(tasks, chains[i])
  {
    chains := [];
    var i := 0;
    while i < cfg.numChains
      invariant 0 <= i && |chains| == i
      invariant i <= (if cfg.numChains > 0 then cfg.numChains else 0)
      invariant forall c :: 0 <= c < i ==>
        chains[c].chainId == c && chains[c] == Chain(tasks, cfg, c, shuffles[c], steps[c])
    {
      var chain := RunMCMCChain(tasks, cfg, i, shuffles[i], steps[i]);
      chains := chains + [chain];
      i := i + 1;
    }
    forall c | 0 <= c < |chains|
      ensures ChainInvariant(tasks, chains[c])
    {
      ChainFacts(tasks, cfg, c, shuffles[c], steps[c]);
    }
  }

  /**
   * The Gelman-Rubin result: its two guard values, or the floating-point estimate (not modelled),
   * whose value may itself be 1.0, Infinity or NaN.
   */
  datatype Diagnostic = RHat(value: real) | Infinite | Estimated

  /** The guard branches of the diagnostic: fewer than two chains, or no samples in the first chain. */
  function GelmanRubin(chains: seq<ChainState>): (r: Diagnostic)
    ensures |chains| < 2 ==> r == RHat(1.0)
    ensures |chains| >= 2 && chains[0].scores == [] ==> r == Infinite
    ensures r == Estimated <==> |chains| >= 2 && chains[0].scores != []
  {
    if |chains| < 2 then RHat(1.0)
    else if |chains[0].scores| == 0 then Infinite
    else Estimated
  }
}
