/** Proposal moves and the two chain initialisers. Random draws are explicit parameters. */
module Proposal {
  import opened Tasks
  import opened Objective

  /**
   * The draws one proposal consumes: `strategy` is the uniform draw that picks the move
   * (below 0.5 adjacent swap, below 0.8 swap of two positions, otherwise a move);
   * `first` and `second` are the index draws of that move (`second` is unused by the adjacent swap).
   */
  datatype Draw = Draw(strategy: real, first: nat, second: nat)

  /** The draws are in range for a sequence of length n; the swap of two positions redraws until they differ. */
  predicate DrawFits(n: nat, d: Draw)
  {
    n < 2 ||
    ((d.strategy < 0.5 ==> d.first < n - 1) &&
     (0.5 <= d.strategy < 0.8 ==> d.first < n && d.second < n && d.first != d.second) &&
     (0.8 <= d.strategy ==> d.first < n && d.second < n))
  }

  /** Positions i and j exchanged. */
  function Swapped(s: seq<Task>, i: nat, j: nat): (r: seq<Task>)
    requires i < |s| && j < |s|
    ensures |r| == |s| && r[i] == s[j] && r[j] == s[i]
    ensures forall k :: 0 <= k < |s| && k != i && k != j ==> r[k] == s[k]
    ensures multiset(r) == multiset(s)
  {
    s[i := s[j]][j := s[i]]
  }

  /** The sequence without position i. */
  function Remove(s: seq<Task>, i: nat): (r: seq<Task>)
    requires i < |s|
    ensures |r| == |s| - 1
  {
    s[..i] + s[i + 1..]
  }

  lemma RemovePermutes(s: seq<Task>, i: nat)
    requires i < |s|
    ensures multiset(Remove(s, i)) + multiset{s[i]} == multiset(s)
  {
    assert s == s[..i] + [s[i]] + s[i + 1..];
  }

  /** The element at `from` taken out and reinserted so that it ends at index `to`. */
  function Moved(s: seq<Task>, from: nat, to: nat): (r: seq<Task>)
    requires from < |s| && to < |s|
    ensures |r| == |s|
  {
    if from == to then s
    else
      var rest := Remove(s, from);
      rest[..to] + [s[from]] + rest[to..]
  }

  /**
   * The moved element ends at `to`, and taking it out again gives the sequence with it taken
   * out at `from`: every other element keeps its relative order.
   */
  lemma MovedRemove(s: seq<Task>, from: nat, to: nat)
    requires from < |s| && to < |s|
    ensures Moved(s, from, to)[to] == s[from]
    ensures Remove(Moved(s, from, to), to) == Remove(s, from)
  {
    if from != to {
      var rest := Remove(s, from);
      var r := rest[..to] + [s[from]] + rest[to..];
      assert r[..to] == rest[..to] && r[to + 1..] == rest[to..];
      assert rest == rest[..to] + rest[to..];
    }
  }

  /** A move loses and adds nothing. */
  lemma MovedPermutes(s: seq<Task>, from: nat, to: nat)
    requires from < |s| && to < |s|
    ensures multiset(Moved(s, from, to)) == multiset(s)
  {
    MovedRemove(s, from, to);
    RemovePermutes(s, from);
    RemovePermutes(Moved(s, from, to), to);
  }

  /** The candidate one proposal produces from `s` with the draws `d`. */
  function Propose(s: seq<Task>, d: Draw): (r: seq<Task>)
    requires DrawFits(|s|, d)
    ensures |r| == |s| && multiset(r) == multiset(s)
  {
    if |s| < 2 then s
    else if d.strategy < 0.5 then Swapped(s, d.first, d.first + 1)
    else if d.strategy < 0.8 then Swapped(s, d.first, d.second)
    else MovedPermutes(s, d.first, d.second); Moved(s, d.first, d.second)
  }

  /** Adjacent swap in place at `index`; arrays shorter than two are left alone. */
  method SwapAdjacentTasks(sequence: array<Task>, index: nat)
    requires sequence.Length < 2 || index < sequence.Length - 1
    modifies sequence
    ensures sequence[..] == if sequence.Length < 2 then old(sequence[..]) else Swapped(old(sequence[..]), index, index + 1)
  {
    var maxIndex := sequence.Length - 2;
    if maxIndex < 0 {
      return;
    }
    sequence[index], sequence[index + 1] := sequence[index + 1], sequence[index];
  }

  /** Swap in place of two positions, distinct whenever the array has more than one element. */
  method SwapRandomTasks(sequence: array<Task>, i: nat, j: nat)
    requires i < sequence.Length && j < sequence.Length
    requires sequence.Length > 1 ==> i != j
    modifies sequence
    ensures sequence[..] == Swapped(old(sequence[..]), i, j)
  {
    sequence[i], sequence[j] := sequence[j], sequence[i];
  }

  /** The remove-and-reinsert move in place (two splices in the source). */
  method MoveTaskToRandomPosition(sequence: array<Task>, fromIndex: nat, toIndex: nat)
    requires fromIndex < sequence.Length && toIndex < sequence.Length
    modifies sequence
    ensures sequence[..] == Moved(old(sequence[..]), fromIndex, toIndex)
  {
    if fromIndex == toIndex {
      return;
    }
    var spliced := Moved(sequence[..], fromIndex, toIndex);
    forall k | 0 <= k < sequence.Length {
      sequence[k] := spliced[k];
    }
  }

  /** A proposal works on a copy, so the current sequence is never changed. */
  method ProposeNewSequence(currentSequence: seq<Task>, d: Draw) returns (r: seq<Task>)
    requires DrawFits(|currentSequence|, d)
    ensures r == Propose(currentSequence, d)
    ensures multiset(r) == multiset(currentSequence)
  {
    var newSequence := new Task[|currentSequence|](i requires 0 <= i < |currentSequence| => currentSequence[i]);
    assert newSequence[..] == currentSequence;
    if newSequence.Length < 2 {
      return newSequence[..];
    }
    if d.strategy < 0.5 {
      SwapAdjacentTasks(newSequence, d.first);
      assert newSequence[..] == Swapped(currentSequence, d.first, d.first + 1);
    } else if d.strategy < 0.8 {
      SwapRandomTasks(newSequence, d.first, d.second);
      assert newSequence[..] == Swapped(currentSequence, d.first, d.second);
    } else {
      MoveTaskToRandomPosition(newSequence, d.first, d.second);
      assert newSequence[..] == Moved(currentSequence, d.first, d.second);
    }
    r := newSequence[..];
  }

  /** A sequence shorter than two comes back unchanged, whatever the draws. */
  lemma ShortSequenceUnchanged(s: seq<Task>, d: Draw)
    requires |s| < 2
    ensures Propose(s, d) == s
  {
  }

  // ---------------------------------------------------------------- Fisher-Yates

  /** js[i] is the index drawn at step i of the shuffle, in [0, i]. */
  predicate ShuffleFits(n: nat, js: seq<nat>)
  {
    |js| >= n && forall i :: 1 <= i < n ==> js[i] <= i
  }

  /** The shuffle steps i-1 down to 1 applied to s (step k swaps positions k and js[k]). */
  function ShuffleSteps(s: seq<Task>, js: seq<nat>, i: nat): (r: seq<Task>)
    requires i <= |s| && ShuffleFits(|s|, js)
    ensures |r| == |s| && multiset(r) == multiset(s)
    decreases i
  {
    if i <= 1 then s else ShuffleSteps(Swapped(s, i - 1, js[i - 1]), js, i - 1)
  }

  function Shuffle(s: seq<Task>, js: seq<nat>): seq<Task>
    requires ShuffleFits(|s|, js)
  {
    ShuffleSteps(s, js, |s|)
  }

  /** One shuffle step taken off the front: step i first, then the steps below it. */
  lemma ShuffleStep(s: seq<Task>, js: seq<nat>, i: nat)
    requires 1 <= i < |s| && ShuffleFits(|s|, js)
    ensures ShuffleSteps(s, js, i + 1) == ShuffleSteps(Swapped(s, i, js[i]), js, i)
  {
  }

  /** Exchange of two array positions, which may coincide. */
  method Exchange(sequence: array<Task>, i: nat, j: nat)
    requires i < sequence.Length && j < sequence.Length
    modifies sequence
    ensures sequence[..] == Swapped(old(sequence[..]), i, j)
  {
    sequence[i], sequence[j] := sequence[j], sequence[i];
  }

  /** The Fisher-Yates shuffle on a copy, as a descending loop of in-place swaps. */
  method InitializeRandomSequence(tasks: seq<Task>, js: seq<nat>) returns (r: seq<Task>)
    requires ShuffleFits(|tasks|, js)
    ensures r == Shuffle(tasks, js)
    ensures multiset(r) == multiset(tasks)
  {
    var sequence := new Task[|tasks|](k requires 0 <= k < |tasks| => tasks[k]);
    assert sequence[..] == tasks;
    var i := sequence.Length - 1;
    while i > 0
      invariant -1 <= i < |tasks| == sequence.Length
      invariant ShuffleSteps(sequence[..], js, i + 1) == Shuffle(tasks, js)
    {
      ShuffleStep(sequence[..], js, i);
      Exchange(sequence, i, js[i]);
      i := i - 1;
    }
    r := sequence[..];
  }

  // ---------------------------------------------------------------- greedy builder

  /** All dependencies of t are among the completed ids. */
  predicate Ready(t: Task, completed: set<string>)
  {
    forall k :: 0 <= k < |t.deps| ==> t.deps[k] in completed
  }

  /** The tasks of `remaining` whose dependencies are met, in their order. */
  function Available(remaining: seq<Task>, completed: set<string>): (r: seq<Task>)
    ensures |r| <= |remaining|
    ensures forall t :: t in r <==> t in remaining && Ready(t, completed)
    ensures (forall t :: t in remaining ==> Ready(t, completed)) ==> r == remaining
  {
    if remaining == [] then []
    else if Ready(remaining[0], completed) then [remaining[0]] + Available(remaining[1..], completed)
    else Available(remaining[1..], completed)
  }

  /** The sort's comparator: the priority difference, or when that is 0 the duration difference. */
  function Compare(a: Task, b: Task): int
  {
    var priorityDiff := Ordinal(b.priority) - Ordinal(a.priority);
    if priorityDiff != 0 then priorityDiff else a.duration - b.duration
  }

  /** a sorts strictly before b: higher priority first, then shorter duration. */
  predicate SortsBefore(a: Task, b: Task)
    ensures SortsBefore(a, b) <==> Compare(a, b) < 0
  {
    Ordinal(a.priority) > Ordinal(b.priority)
    || (Ordinal(a.priority) == Ordinal(b.priority) && a.duration < b.duration)
  }

  /** The comparator is a strict weak order: irreflexive, transitive, and tied only when neither sorts before the other. */
  lemma SortsBeforeOrder(a: Task, b: Task, c: Task)
    ensures !SortsBefore(a, a)
    ensures SortsBefore(a, b) && SortsBefore(b, c) ==> SortsBefore(a, c)
    ensures SortsBefore(a, b) ==> !SortsBefore(b, a)
    ensures !SortsBefore(a, b) && !SortsBefore(b, a) <==> Compare(a, b) == 0
  {
  }

  /**
   * The index of the element a stable sort by SortsBefore puts first: one that nothing
   * sorts before, and the earliest such one.
   */
  function BestIndex(s: seq<Task>): (k: nat)
    requires s != []
    ensures k < |s|
    ensures forall m :: 0 <= m < |s| ==> !SortsBefore(s[m], s[k])
    ensures forall m :: 0 <= m < k ==> SortsBefore(s[k], s[m])
  {
    if |s| == 1 then 0
    else
      var k := BestIndex(s[..|s| - 1]);
      if SortsBefore(s[|s| - 1], s[k]) then |s| - 1 else k
  }

  /** The first occurrence of x taken out of s. */
  function RemoveFirst(s: seq<Task>, x: Task): (r: seq<Task>)
    requires x in s
    ensures |r| == |s| - 1
    ensures multiset(r) == multiset(s) - multiset{x}
  {
    if s[0] == x then
      assert s == [s[0]] + s[1..];
      s[1..]
    else
      assert s == [s[0]] + s[1..];
      [s[0]] + RemoveFirst(s[1..], x)
  }

  /** The greedy order from the remaining tasks; when nothing is available the rest is appended as it stands. */
  function GreedyFrom(remaining: seq<Task>, completed: set<string>): seq<Task>
    decreases |remaining|
  {
    if remaining == [] then []
    else
      var available := Available(remaining, completed);
      if available == [] then remaining
      else
        var next := available[BestIndex(available)];
        [next] + GreedyFrom(RemoveFirst(remaining, next), completed + {next.id})
  }

  function Greedy(tasks: seq<Task>): seq<Task>
  {
    GreedyFrom(tasks, {})
  }

  /** The greedy builder: repeatedly takes the best available task, falling back when none is available. */
  method InitializeGreedySequence(tasks: seq<Task>) returns (sequence: seq<Task>)
    requires DistinctIds(tasks)
    ensures sequence == Greedy(tasks)
    ensures multiset(sequence) == multiset(tasks)
  {
    ghost var target := Greedy(tasks);
    sequence := [];
    var remaining := tasks;
    var completed: set<string> := {};
    GreedyPermutation(tasks, {});
    assert sequence + GreedyFrom(remaining, completed) == target;
    while |remaining| > 0
      invariant sequence + GreedyFrom(remaining, completed) == target
      decreases |remaining|
    {
      var available := Available(remaining, completed);
      if |available| == 0 {
        GreedyFallback(remaining, completed);
        sequence := sequence + remaining;
        break;
      }
      var nextTask := available[BestIndex(available)];
      GreedyAdvance(sequence, remaining, completed);
      var rest := RemoveFirst(remaining, nextTask);
      sequence := sequence + [nextTask];
      remaining := rest;
      completed := completed + {nextTask.id};
    }
  }

  /** With nothing available, the greedy builder appends the remaining tasks in their order. */
  lemma GreedyFallback(remaining: seq<Task>, completed: set<string>)
    requires Available(remaining, completed) == []
    ensures GreedyFrom(remaining, completed) == remaining
  {
  }

  /**
   * Otherwise it places first a ready task that no available task sorts before, and carries on
   * with that task's id marked completed.
   */
  lemma GreedyPlacesBest(remaining: seq<Task>, completed: set<string>)
    requires Available(remaining, completed) != []
    ensures var available := Available(remaining, completed);
      var next := available[BestIndex(available)];
      && next in remaining && Ready(next, completed)
      && (forall t :: t in available ==> !SortsBefore(t, next))
      && GreedyFrom(remaining, completed) == [next] + GreedyFrom(RemoveFirst(remaining, next), completed + {next.id})
  {
  }

  /** The same step with the tasks placed so far in front. */
  lemma GreedyAdvance(placed: seq<Task>, remaining: seq<Task>, completed: set<string>)
    requires Available(remaining, completed) != []
    ensures var available := Available(remaining, completed);
      var next := available[BestIndex(available)];
      next in remaining &&
      placed + GreedyFrom(remaining, completed)
        == (placed + [next]) + GreedyFrom(RemoveFirst(remaining, next), completed + {next.id})
  {
    GreedyPlacesBest(remaining, completed);
  }

  /** The greedy builder returns every task exactly once, also through the fallback. */
  lemma {:induction false} GreedyPermutation(remaining: seq<Task>, completed: set<string>)
    ensures |GreedyFrom(remaining, completed)| == |remaining|
    ensures multiset(GreedyFrom(remaining, completed)) == multiset(remaining)
    decreases |remaining|
  {
    if remaining != [] {
      var available := Available(remaining, completed);
      if available != [] {
        var next := available[BestIndex(available)];
        var rest := RemoveFirst(remaining, next);
        GreedyPermutation(rest, completed + {next.id});
        assert next in remaining;
        assert multiset(remaining) == multiset{next} + multiset(rest);
      }
    }
  }

  /** The greedy builder never reaches its fallback from this point on. */
  predicate NoFallback(remaining: seq<Task>, completed: set<string>)
    decreases |remaining|
  {
    remaining == [] ||
    var available := Available(remaining, completed);
    && available != []
    && var next := available[BestIndex(available)];
       NoFallback(RemoveFirst(remaining, next), completed + {next.id})
  }

  /** A ready task put in front of a sequence that is valid once it is done. */
  lemma ValidAfterCons(completed: set<string>, next: Task, rest: seq<Task>)
    requires Ready(next, completed)
    requires ValidAfter(completed + {next.id}, rest)
    ensures ValidAfter(completed, [next] + rest)
  {
    var r := [next] + rest;
    forall i, k | 0 <= i < |r| && 0 <= k < |r[i].deps|
      ensures r[i].deps[k] in completed + IdSet(r[..i])
    {
      if i > 0 {
        assert r[i] == rest[i - 1];
        assert r[..i] == [next] + rest[..i - 1];
        IdSetCons(next, rest[..i - 1]);
        assert rest[i - 1].deps[k] in completed + {next.id} + IdSet(rest[..i - 1]);
      }
    }
  }

  /** Without the fallback, every placed task has its dependencies among the ids placed before it. */
  lemma {:induction false} GreedyValidWithoutFallback(remaining: seq<Task>, completed: set<string>)
    requires NoFallback(remaining, completed)
    ensures ValidAfter(completed, GreedyFrom(remaining, completed))
    decreases |remaining|
  {
    if remaining != [] {
      var available := Available(remaining, completed);
      var next := available[BestIndex(available)];
      var done' := completed + {next.id};
      GreedyValidWithoutFallback(RemoveFirst(remaining, next), done');
      assert next in available;
      ValidAfterCons(completed, next, GreedyFrom(RemoveFirst(remaining, next), done'));
    }
  }

  /** The tasks the greedy builder places one by one before it falls back (all of them when it never does). */
  function Placed(remaining: seq<Task>, completed: set<string>): seq<Task>
    decreases |remaining|
  {
    if remaining == [] then []
    else
      var available := Available(remaining, completed);
      if available == [] then []
      else
        var next := available[BestIndex(available)];
        [next] + Placed(RemoveFirst(remaining, next), completed + {next.id})
  }

  /**
   * Whether or not the fallback is taken, the tasks placed before it have their dependencies
   * among the ids placed before them, and they open the greedy order; with no fallback they are all of it.
   */
  lemma {:induction false} PlacedValid(remaining: seq<Task>, completed: set<string>)
    ensures ValidAfter(completed, Placed(remaining, completed))
    ensures Placed(remaining, completed) <= GreedyFrom(remaining, completed)
    ensures NoFallback(remaining, completed) ==> Placed(remaining, completed) == GreedyFrom(remaining, completed)
    decreases |remaining|
  {
    if remaining != [] {
      var available := Available(remaining, completed);
      if available != [] {
        var next := available[BestIndex(available)];
        var done' := completed + {next.id};
        var rest := RemoveFirst(remaining, next);
        PlacedValid(rest, done');
        assert next in available;
        ValidAfterCons(completed, next, Placed(rest, done'));
        assert Placed(remaining, completed) == [next] + Placed(rest, done');
        assert GreedyFrom(remaining, completed) == [next] + GreedyFrom(rest, done');
      }
    }
  }

  /** Hence, when the fallback is never taken, the greedy sequence passes the validity check. */
  lemma GreedyValid(tasks: seq<Task>)
    requires NoFallback(tasks, {})
    ensures Valid(Greedy(tasks))
  {
    GreedyValidWithoutFallback(tasks, {});
  }

  /** With no dependencies at all, the greedy sequence starts with a task of the highest priority. */
  lemma GreedyFirstHasTopPriority(tasks: seq<Task>)
    requires tasks != []
    requires forall i :: 0 <= i < |tasks| ==> tasks[i].deps == []
    ensures forall i :: 0 <= i < |tasks| ==> Ordinal(Greedy(tasks)[0].priority) >= Ordinal(tasks[i].priority)
  {
    assert forall t :: t in tasks ==> Ready(t, {});
    var available := Available(tasks, {});
    assert available == tasks;
    GreedyPlacesBest(tasks, {});
  }

  /** Two tasks that depend on each other both come back, through the fallback, in input order. */
  lemma MutualDependencyFallsBack(a: Task, b: Task)
    requires a.deps == [b.id] && b.deps == [a.id]
    ensures Greedy([a, b]) == [a, b]
  {
    var none: set<string> := {};
    assert a.deps[0] !in none && b.deps[0] !in none;
    assert !Ready(a, none) && !Ready(b, none);
    assert Available([a, b], none) == [];
  }
}
