/** The objective evaluator: the penalised cost of a task ordering (lower is better). */
module Objective {
  import opened Tasks

  /** Penalty added for every dependency that is not met when its task runs. */
  const DependencyPenalty: nat := 1000
  /** Penalty for a change of category between neighbours. */
  const SwitchPenalty: nat := 5
  /** Penalty for a rise in priority between neighbours. */
  const InversionPenalty: nat := 10

  datatype ObjectiveResult = ObjectiveResult(score: int, estimatedTime: int, dependencyViolations: int, inefficiency: int)

  /** Sum of all durations. */
  function TotalTime(s: seq<Task>): nat
  {
    if s == [] then 0 else TotalTime(s[..|s| - 1]) + s[|s| - 1].duration
  }

  /** How many entries of `deps` (counted with repetition) are not in `done`. */
  function MissingCount(deps: seq<string>, done: set<string>): nat
  {
    if deps == [] then 0
    else MissingCount(deps[..|deps| - 1], done) + (if deps[|deps| - 1] in done then 0 else 1)
  }

  /** The dependency penalty: each task is checked against the ids of the tasks strictly before it. */
  function DependencyViolations(s: seq<Task>): nat
  {
    if s == [] then 0
    else
      var prefix := s[..|s| - 1];
      DependencyViolations(prefix) + DependencyPenalty * MissingCount(s[|s| - 1].deps, IdSet(prefix))
  }

  /** The penalty for running `cur` right after `prev`. */
  function TransitionPenalty(prev: Task, cur: Task): nat
  {
    (if prev.category != cur.category then SwitchPenalty else 0)
    + (if Ordinal(cur.priority) > Ordinal(prev.priority) then InversionPenalty else 0)
  }

  /** The sum of the transition penalties of all neighbouring pairs. */
  function Inefficiency(s: seq<Task>): (r: nat)
    ensures |s| <= 1 ==> r == 0
    ensures |s| >= 1 ==> r <= (SwitchPenalty + InversionPenalty) * (|s| - 1)
  {
    if |s| < 2 then 0 else Inefficiency(s[..|s| - 1]) + TransitionPenalty(s[|s| - 2], s[|s| - 1])
  }

  /** Extending a prefix by one task adds its duration, its missing dependencies and its transition penalty. */
  lemma PrefixStep(s: seq<Task>, i: nat)
    requires i < |s|
    ensures TotalTime(s[..i + 1]) == TotalTime(s[..i]) + s[i].duration
    ensures DependencyViolations(s[..i + 1])
      == DependencyViolations(s[..i]) + DependencyPenalty * MissingCount(s[i].deps, IdSet(s[..i]))
    ensures Inefficiency(s[..i + 1]) == Inefficiency(s[..i]) + (if i > 0 then TransitionPenalty(s[i - 1], s[i]) else 0)
  {
    assert s[..i + 1][..i] == s[..i];
  }

  /** The objective of a sequence, as the evaluator reports it. */
  function Evaluate(s: seq<Task>): ObjectiveResult
  {
    var t := TotalTime(s);
    var d := DependencyViolations(s);
    var e := Inefficiency(s);
    ObjectiveResult(t + d + e, t, d, e)
  }

  function Score(s: seq<Task>): int
  {
    Evaluate(s).score
  }

  /** Every dependency of every task is the id of a task in `done` or of a strictly earlier task. */
  predicate ValidAfter(done: set<string>, s: seq<Task>)
  {
    forall i, k :: 0 <= i < |s| && 0 <= k < |s[i].deps| ==> s[i].deps[k] in done + IdSet(s[..i])
  }

  /** Every dependency is met at the point it is used. */
  predicate Valid(s: seq<Task>)
  {
    ValidAfter({}, s)
  }

  /** The evaluator's loop: one pass, accumulating time, dependency and transition penalties. */
  method CalculateObjective(sequence: seq<Task>) returns (r: ObjectiveResult)
    ensures r.estimatedTime == TotalTime(sequence)
    ensures r.dependencyViolations == DependencyViolations(sequence)
    ensures r.inefficiency == Inefficiency(sequence)
    ensures r.score == r.estimatedTime + r.dependencyViolations + r.inefficiency
    ensures r.score >= r.estimatedTime >= 0
  {
    var totalTime: nat := 0;
    var dependencyViolations: nat := 0;
    var inefficiencyPenalty: nat := 0;
    var completedTasks: set<string> := {};
    for i := 0 to |sequence|
      invariant totalTime == TotalTime(sequence[..i])
      invariant dependencyViolations == DependencyViolations(sequence[..i])
      invariant inefficiencyPenalty == Inefficiency(sequence[..i])
      invariant completedTasks == IdSet(sequence[..i])
    {
      var task := sequence[i];
      assert sequence[..i + 1][..i] == sequence[..i];
      assert sequence[..i + 1] == sequence[..i] + [task];
      totalTime := totalTime + task.duration;
      for k := 0 to |task.deps|
        invariant dependencyViolations
          == DependencyViolations(sequence[..i]) + DependencyPenalty * MissingCount(task.deps[..k], completedTasks)
      {
        assert task.deps[..k + 1][..k] == task.deps[..k];
        if task.deps[k] !in completedTasks {
          dependencyViolations := dependencyViolations + DependencyPenalty;
        }
      }
      assert task.deps[..|task.deps|] == task.deps;
      IdSetSnoc(sequence[..i], task);
      completedTasks := completedTasks + {task.id};
      if i > 0 {
        var prevTask := sequence[i - 1];
        if prevTask.category != task.category {
          inefficiencyPenalty := inefficiencyPenalty + SwitchPenalty;
        }
        if Ordinal(task.priority) > Ordinal(prevTask.priority) {
          inefficiencyPenalty := inefficiencyPenalty + InversionPenalty;
        }
      }
    }
    assert sequence[..|sequence|] == sequence;
    r := ObjectiveResult(totalTime + dependencyViolations + inefficiencyPenalty, totalTime,
                         dependencyViolations, inefficiencyPenalty);
  }

  /** The validity check: stops at the first dependency not yet met. */
  method IsValidSequence(sequence: seq<Task>) returns (b: bool)
    ensures b == Valid(sequence)
  {
    var completed: set<string> := {};
    for i := 0 to |sequence|
      invariant completed == IdSet(sequence[..i])
      invariant forall j, m :: 0 <= j < i && 0 <= m < |sequence[j].deps| ==>
        sequence[j].deps[m] in {} + IdSet(sequence[..j])
    {
      var task := sequence[i];
      for k := 0 to |task.deps|
        invariant forall m :: 0 <= m < k ==> task.deps[m] in completed
      {
        if task.deps[k] !in completed {
          assert !({} + IdSet(sequence[..i]) >= {task.deps[k]});
          return false;
        }
      }
      assert sequence[..i + 1] == sequence[..i] + [task];
      IdSetSnoc(sequence[..i], task);
      completed := completed + {task.id};
    }
    return true;
  }

  /** The empty sequence costs nothing. */
  lemma EmptySequenceScoresZero()
    ensures Evaluate([]) == ObjectiveResult(0, 0, 0, 0)
  {
  }

  lemma TotalTimeAppend(a: seq<Task>, b: seq<Task>)
    ensures TotalTime(a + b) == TotalTime(a) + TotalTime(b)
    decreases |b|
  {
    if b == [] {
      assert a + b == a;
    } else {
      assert (a + b)[..|a + b| - 1] == a + b[..|b| - 1];
      TotalTimeAppend(a, b[..|b| - 1]);
    }
  }

  /** Removing one task lowers the total time by exactly its duration. */
  lemma TotalTimeRemove(s: seq<Task>, i: nat)
    requires i < |s|
    ensures TotalTime(s) == s[i].duration + TotalTime(s[..i] + s[i + 1..])
  {
    var front, x, back := s[..i], s[i], s[i + 1..];
    assert s == front + ([x] + back);
    TotalTimeAppend(front, [x] + back);
    TotalTimeAppend([x], back);
    TotalTimeAppend(front, back);
    assert TotalTime([x]) == x.duration by {
      assert [x][..0] == [];
    }
  }

  /** The estimated time does not depend on the order: every permutation has the same total. */
  lemma {:induction false} TotalTimePermutationInvariant(s: seq<Task>, t: seq<Task>)
    requires multiset(s) == multiset(t)
    ensures TotalTime(s) == TotalTime(t)
    decreases |s|
  {
    if s != [] {
      var x := s[|s| - 1];
      assert x in multiset(t);
      var i :| 0 <= i < |t| && t[i] == x;
      var s' := s[..|s| - 1];
      var t' := t[..i] + t[i + 1..];
      assert s == s' + [x];
      assert t == t[..i] + [x] + t[i + 1..];
      assert multiset(s) == multiset(s') + multiset{x};
      assert multiset(t) == multiset(t[..i]) + multiset{x} + multiset(t[i + 1..]);
      assert multiset(t') == multiset(t[..i]) + multiset(t[i + 1..]);
      assert multiset(s') == multiset(s) - multiset{x};
      assert multiset(t') == multiset(t) - multiset{x};
      assert multiset(s') == multiset(t');
      TotalTimePermutationInvariant(s', t');
      TotalTimeRemove(t, i);
    } else {
      assert |t| == |multiset(t)| == 0;
    }
  }

  lemma MissingCountZero(deps: seq<string>, done: set<string>)
    ensures MissingCount(deps, done) == 0 <==> forall k :: 0 <= k < |deps| ==> deps[k] in done
  {
    if deps != [] {
      var init := deps[..|deps| - 1];
      MissingCountZero(init, done);
      assert forall k :: 0 <= k < |init| ==> init[k] == deps[k];
    }
  }

  /** A sequence is valid exactly when the evaluator reports no dependency violation. */
  lemma {:induction false} ValidIffNoViolations(s: seq<Task>)
    ensures Valid(s) <==> DependencyViolations(s) == 0
  {
    if s != [] {
      var n := |s| - 1;
      var prefix := s[..n];
      ValidIffNoViolations(prefix);
      MissingCountZero(s[n].deps, IdSet(prefix));
      assert forall i :: 0 <= i < n ==> prefix[i] == s[i] && prefix[..i] == s[..i];
      if Valid(s) {
        assert Valid(prefix);
        assert forall k :: 0 <= k < |s[n].deps| ==> s[n].deps[k] in IdSet(prefix) by {
          assert s[..n] == prefix;
        }
      }
      if DependencyViolations(s) == 0 {
        forall i, k | 0 <= i < |s| && 0 <= k < |s[i].deps|
          ensures s[i].deps[k] in {} + IdSet(s[..i])
        {
          if i < n {
            assert prefix[i].deps[k] in {} + IdSet(prefix[..i]);
          } else {
            assert s[..i] == prefix;
          }
        }
      }
    }
  }

  /** A task that lists its own id, placed after tasks that do not carry that id, is penalised. */
  lemma SelfDependencyViolates(prefix: seq<Task>, t: Task)
    requires t.id in t.deps
    requires t.id !in IdSet(prefix)
    ensures DependencyViolations(prefix + [t]) >= DependencyViolations(prefix) + DependencyPenalty
  {
    var s := prefix + [t];
    assert s[..|s| - 1] == prefix;
    MissingCountZero(t.deps, IdSet(prefix));
  }

  /** With A free and B depending on A (same category, same priority), [B, A] costs 1000 more than [A, B]. */
  lemma DependencyOrderPenalty(a: Task, b: Task)
    requires a.deps == [] && b.deps == [a.id]
    requires a.id != b.id
    requires a.category == b.category && a.priority == b.priority
    ensures Score([b, a]) == Score([a, b]) + DependencyPenalty
    ensures Evaluate([b, a]).dependencyViolations == DependencyPenalty
    ensures Evaluate([a, b]).dependencyViolations == 0
  {
    assert [a, b][..1] == [a] && [b, a][..1] == [b];
    assert [a][..0] == [] && [b][..0] == [];
    assert IdSet([]) == {};
    assert IdSet([a]) == {a.id} by { IdSetSnoc([], a); assert [] + [a] == [a]; }
    assert IdSet([b]) == {b.id} by { IdSetSnoc([], b); assert [] + [b] == [b]; }
    assert b.deps[..0] == [];
    assert MissingCount(b.deps, {}) == 1;
    assert MissingCount(b.deps, {a.id}) == 0;
    assert MissingCount(a.deps, {b.id}) == 0;
    assert DependencyViolations([a]) == 0;
    assert DependencyViolations([b]) == DependencyPenalty;
    assert DependencyViolations([a, b]) == 0;
    assert DependencyViolations([b, a]) == DependencyPenalty;
    assert TotalTime([a, b]) == TotalTime([b, a]) by {
      TotalTimePermutationInvariant([a, b], [b, a]);
    }
    assert Inefficiency([a, b]) == Inefficiency([b, a]) == 0;
  }
}
