/**
 * The top-k extractor: every sample of every chain as a (sequence, score, chainId) triple,
 * sorted by ascending score, deduplicated by the comma-joined id list and truncated.
 */
module Solutions {
  import opened Tasks
  import opened Engine

  datatype Solution = Solution(sequence: seq<Task>, score: int, chainId: int)

  /** How many solutions the extractor returns when no count is given. */
  const DefaultCount: int := 5

  /** Every sample of the chain has its score beside it. */
  predicate Paired(chains: seq<ChainState>)
  {
    forall c :: 0 <= c < |chains| ==> |chains[c].samples| == |chains[c].scores|
  }

  /** The samples of one chain, in order. */
  function ChainSolutions(c: ChainState): (r: seq<Solution>)
    requires |c.samples| == |c.scores|
    ensures |r| == |c.samples|
    ensures forall i :: 0 <= i < |r| ==> r[i] == Solution(c.samples[i], c.scores[i], c.chainId)
  {
    seq(|c.samples|, i requires 0 <= i < |c.samples| => Solution(c.samples[i], c.scores[i], c.chainId))
  }

  /** The samples of all chains, chain by chain. */
  function Flatten(chains: seq<ChainState>): seq<Solution>
    requires Paired(chains)
  {
    if chains == [] then []
    else Flatten(chains[..|chains| - 1]) + ChainSolutions(chains[|chains| - 1])
  }

  /** `x` is the triple of sample `i` of chain `c`. */
  predicate SampleOf(chains: seq<ChainState>, c: int, i: int, x: Solution)
  {
    && 0 <= c < |chains| && 0 <= i < |chains[c].samples| && i < |chains[c].scores|
    && x == Solution(chains[c].samples[i], chains[c].scores[i], chains[c].chainId)
  }

  /** Dropping the last chain keeps the samples paired with their scores. */
  lemma PairedInit(chains: seq<ChainState>)
    requires Paired(chains) && chains != []
    ensures Paired(chains[..|chains| - 1])
  {
    var init := chains[..|chains| - 1];
    assert forall c :: 0 <= c < |init| ==> init[c] == chains[c];
  }

  /** Every sampled triple is in the flattened list. */
  lemma {:induction false} FlattenHas(chains: seq<ChainState>, c: int, i: int, x: Solution)
    requires Paired(chains) && SampleOf(chains, c, i, x)
    ensures x in Flatten(chains)
  {
    var n := |chains| - 1;
    var init := chains[..n];
    PairedInit(chains);
    assert Flatten(chains) == Flatten(init) + ChainSolutions(chains[n]);
    if c < n {
      assert SampleOf(init, c, i, x);
      FlattenHas(init, c, i, x);
    } else {
      assert ChainSolutions(chains[n])[i] == x;
    }
  }

  /** Every triple of the flattened list is the triple of some sample. */
  lemma {:induction false} FlattenSource(chains: seq<ChainState>, x: Solution) returns (c: int, i: int)
    requires Paired(chains) && x in Flatten(chains)
    ensures SampleOf(chains, c, i, x)
  {
    var n := |chains| - 1;
    var init := chains[..n];
    PairedInit(chains);
    assert Flatten(chains) == Flatten(init) + ChainSolutions(chains[n]);
    if x in Flatten(init) {
      c, i := FlattenSource(init, x);
      assert init[c] == chains[c];
    } else {
      var k :| 0 <= k < |ChainSolutions(chains[n])| && ChainSolutions(chains[n])[k] == x;
      c, i := n, k;
    }
  }

  /** The flattened list holds exactly the sampled triples. */
  lemma FlattenMembers(chains: seq<ChainState>, x: Solution)
    requires Paired(chains)
    ensures x in Flatten(chains) <==> exists c, i :: SampleOf(chains, c, i, x)
  {
    if x in Flatten(chains) {
      var c, i := FlattenSource(chains, x);
    }
    if exists c, i :: SampleOf(chains, c, i, x) {
      var c, i :| SampleOf(chains, c, i, x);
      FlattenHas(chains, c, i, x);
    }
  }

  predicate Sorted(s: seq<Solution>)
  {
    forall i, j :: 0 <= i < j < |s| ==> s[i].score <= s[j].score
  }

  /** Inserts `x` after every element of `s` that scores no more than it (so equal scores keep their order). */
  function Insert(s: seq<Solution>, x: Solution): (r: seq<Solution>)
    ensures |r| == |s| + 1
  {
    if s == [] then [x]
    else if s[|s| - 1].score <= x.score then s + [x]
    else Insert(s[..|s| - 1], x) + [s[|s| - 1]]
  }

  lemma {:induction false} InsertPermutes(s: seq<Solution>, x: Solution)
    ensures multiset(Insert(s, x)) == multiset(s) + multiset{x}
  {
    if s != [] && s[|s| - 1].score > x.score {
      InsertPermutes(s[..|s| - 1], x);
      assert s == s[..|s| - 1] + [s[|s| - 1]];
    }
  }

  /** A sorted sequence extended by an element no smaller than any of its elements stays sorted. */
  lemma SortedSnoc(r: seq<Solution>, last: Solution)
    requires Sorted(r)
    requires forall y :: y in r ==> y.score <= last.score
    ensures Sorted(r + [last])
  {
    forall i, j | 0 <= i < j < |r| + 1 ensures (r + [last])[i].score <= (r + [last])[j].score {
      if j == |r| { assert (r + [last])[i] in r; }
    }
  }

  /** Inserting keeps an upper bound that the inserted element and every element of `s` respect. */
  lemma InsertBounded(s: seq<Solution>, x: Solution, bound: int)
    requires forall y :: y in s ==> y.score <= bound
    requires x.score <= bound
    ensures forall y :: y in Insert(s, x) ==> y.score <= bound
  {
    InsertPermutes(s, x);
    forall y | y in Insert(s, x) ensures y.score <= bound {
      assert y in multiset(Insert(s, x));
    }
  }

  lemma {:induction false} InsertSorted(s: seq<Solution>, x: Solution)
    requires Sorted(s)
    ensures Sorted(Insert(s, x))
  {
    if s != [] && s[|s| - 1].score > x.score {
      var init, last := s[..|s| - 1], s[|s| - 1];
      assert Sorted(init) by {
        forall i, j | 0 <= i < j < |init| ensures init[i].score <= init[j].score {
          assert init[i] == s[i] && init[j] == s[j];
        }
      }
      InsertSorted(init, x);
      forall y | y in init ensures y.score <= last.score {
        var i :| 0 <= i < |init| && init[i] == y;
        assert s[i] == y;
      }
      InsertBounded(init, x, last.score);
      SortedSnoc(Insert(init, x), last);
    }
  }

  /** Inserting the last element of `s` into a sorted permutation of the rest gives a sorted permutation of `s`. */
  lemma InsertLast(init: seq<Solution>, s: seq<Solution>)
    requires s != [] && Sorted(init) && multiset(init) == multiset(s[..|s| - 1])
    ensures Sorted(Insert(init, s[|s| - 1]))
    ensures multiset(Insert(init, s[|s| - 1])) == multiset(s)
  {
    var last := s[|s| - 1];
    InsertSorted(init, last);
    InsertPermutes(init, last);
    assert s == s[..|s| - 1] + [last];
  }

  /** The stable sort by ascending score the extractor uses. */
  function SortByScore(s: seq<Solution>): (r: seq<Solution>)
    ensures |r| == |s|
    ensures Sorted(r)
    ensures multiset(r) == multiset(s)
  {
    if s == [] then []
    else
      var init := SortByScore(s[..|s| - 1]);
      InsertLast(init, s);
      Insert(init, s[|s| - 1])
  }

  /** Stability: an input already in score order is left exactly as it is. */
  lemma {:induction false} SortKeepsSorted(s: seq<Solution>)
    requires Sorted(s)
    ensures SortByScore(s) == s
  {
    if s != [] {
      var init, last := s[..|s| - 1], s[|s| - 1];
      assert Sorted(init) by {
        forall i, j | 0 <= i < j < |init| ensures init[i].score <= init[j].score {
          assert init[i] == s[i] && init[j] == s[j];
        }
      }
      SortKeepsSorted(init);
      assert SortByScore(s) == Insert(init, last);
      assert s == init + [last];
      if init != [] {
        assert init[|init| - 1] == s[|s| - 2];
      }
    }
  }

  /** The elements of `s` scoring exactly `v`, in their order. */
  function WithScore(s: seq<Solution>, v: int): seq<Solution>
  {
    if s == [] then []
    else WithScore(s[..|s| - 1], v) + (if s[|s| - 1].score == v then [s[|s| - 1]] else [])
  }

  /** Inserting x puts it after every element scoring v, so among them it comes last. */
  lemma {:induction false} InsertWithScore(s: seq<Solution>, x: Solution, v: int)
    ensures WithScore(Insert(s, x), v) == WithScore(s + [x], v)
  {
    assert (s + [x])[..|s|] == s;
    if s != [] && s[|s| - 1].score > x.score {
      var init, last := s[..|s| - 1], s[|s| - 1];
      InsertWithScore(init, x, v);
      var ins := Insert(init, x);
      assert (ins + [last])[..|ins|] == ins;
      assert (init + [x])[..|init|] == init;
    }
  }

  /** Stability: for every score, the solutions with that score keep their input order. */
  lemma {:induction false} SortStable(s: seq<Solution>, v: int)
    ensures WithScore(SortByScore(s), v) == WithScore(s, v)
  {
    if s != [] {
      var init, last := s[..|s| - 1], s[|s| - 1];
      SortStable(init, v);
      InsertWithScore(SortByScore(init), last, v);
      var sorted := SortByScore(init);
      assert (sorted + [last])[..|sorted|] == sorted;
    }
  }

  /** How often c occurs in s. */
  function Occurrences(s: string, c: char): nat
  {
    if s == [] then 0 else (if s[0] == c then 1 else 0) + Occurrences(s[1..], c)
  }

  lemma {:induction false} OccurrencesAppend(a: string, b: string, c: char)
    ensures Occurrences(a + b, c) == Occurrences(a, c) + Occurrences(b, c)
  {
    if a == [] {
      assert a + b == b;
    } else {
      assert (a + b)[0] == a[0] && (a + b)[1..] == a[1..] + b;
      OccurrencesAppend(a[1..], b, c);
    }
  }

  /** How often c occurs in all the parts together. */
  function OccurrencesIn(parts: seq<string>, c: char): nat
  {
    if parts == [] then 0 else Occurrences(parts[0], c) + OccurrencesIn(parts[1..], c)
  }

  /** Array.prototype.join with a separator: one separator between each two parts, none added elsewhere. */
  function Join(parts: seq<string>, sep: char): (r: string)
    ensures |parts| >= 1 ==> Occurrences(r, sep) == OccurrencesIn(parts, sep) + |parts| - 1
    ensures |parts| == 0 ==> r == ""
  {
    if |parts| == 0 then ""
    else if |parts| == 1 then parts[0]
    else
      OccurrencesAppend(parts[0] + [sep], Join(parts[1..], sep), sep);
      OccurrencesAppend(parts[0], [sep], sep);
      parts[0] + [sep] + Join(parts[1..], sep)
  }

  predicate CommaFree(ids: seq<string>)
  {
    forall i, j :: 0 <= i < |ids| && 0 <= j < |ids[i]| ==> ids[i][j] != ','
  }

  lemma {:induction false} NoOccurrences(s: string, c: char)
    requires forall j :: 0 <= j < |s| ==> s[j] != c
    ensures Occurrences(s, c) == 0
  {
    if s != [] {
      NoOccurrences(s[1..], c);
    }
  }

  lemma {:induction false} CommaFreeNoCommas(ids: seq<string>)
    requires CommaFree(ids)
    ensures OccurrencesIn(ids, ',') == 0
  {
    if ids != [] {
      NoOccurrences(ids[0], ',');
      assert forall i :: 0 <= i < |ids[1..]| ==> ids[1..][i] == ids[i + 1];
      CommaFreeNoCommas(ids[1..]);
    }
  }

  /** The dedup key: the ids of the sequence joined by commas; with comma-free ids it has one comma between each two ids. */
  function Key(s: seq<Task>): (r: string)
    ensures s != [] && CommaFree(Ids(s)) ==> Occurrences(r, ',') == |s| - 1
    ensures s == [] ==> r == ""
  {
    if CommaFree(Ids(s)) then CommaFreeNoCommas(Ids(s)); Join(Ids(s), ',')
    else Join(Ids(s), ',')
  }

  /** Proof step for JoinInjective: two positions that are both the first comma of a string are the same position. */
  lemma FirstCommaUnique(s: string, n: nat, m: nat)
    requires n < |s| && m < |s| && s[n] == ',' && s[m] == ','
    requires forall j :: 0 <= j < n ==> s[j] != ','
    requires forall j :: 0 <= j < m ==> s[j] != ','
    ensures n == m
  {
  }

  /** The join of two or more comma-free ids: the first id, its comma, then the join of the rest. */
  lemma JoinSplit(a: seq<string>)
    requires |a| >= 2 && CommaFree(a)
    ensures var j := Join(a, ',');
      && |a[0]| < |j| && j[|a[0]|] == ','
      && (forall i :: 0 <= i < |a[0]| ==> j[i] == a[0][i] && j[i] != ',')
      && j[..|a[0]|] == a[0]
      && j[|a[0]| + 1..] == Join(a[1..], ',')
      && CommaFree(a[1..])
  {
    assert Join(a, ',') == a[0] + [','] + Join(a[1..], ',');
    assert forall i :: 0 <= i < |a[1..]| ==> a[1..][i] == a[i + 1];
  }

  /** For lists of equally many comma-free ids the joined key determines the list. */
  lemma {:induction false} JoinInjective(a: seq<string>, b: seq<string>)
    requires |a| == |b| && CommaFree(a) && CommaFree(b)
    requires Join(a, ',') == Join(b, ',')
    ensures a == b
  {
    if |a| >= 2 {
      var j := Join(a, ',');
      JoinSplit(a);
      JoinSplit(b);
      FirstCommaUnique(j, |a[0]|, |b[0]|);
      assert a[0] == b[0];
      JoinInjective(a[1..], b[1..]);
      assert a == [a[0]] + a[1..] && b == [b[0]] + b[1..];
    }
  }

  /** A comma inside an id lets two different id lists share a key. */
  lemma CommaCollision()
    ensures Join(["a,b"], ',') == Join(["a", "b"], ',')
    ensures ["a,b"] != ["a", "b"]
  {
    assert ["a", "b"][1..] == ["b"];
  }

  /** The largest number of solutions the extractor returns once `taken` are kept: the count is checked after a push. */
  function Bound(k: int, taken: int): int
  {
    if k - taken >= 1 then k - taken else 1
  }

  /** The dedup loop from position 0 of `xs`, with the keys `seen` and `taken` solutions already kept. */
  function TopFrom(xs: seq<Solution>, seen: set<string>, taken: nat, k: int): (r: seq<Solution>)
    ensures |r| <= |xs|
    decreases |xs|
  {
    if xs == [] then []
    else
      var key := Key(xs[0].sequence);
      if key in seen then TopFrom(xs[1..], seen, taken, k)
      else if taken + 1 >= k then [xs[0]]
      else [xs[0]] + TopFrom(xs[1..], seen + {key}, taken + 1, k)
  }

  /** The loop keeps nothing exactly when every key of `xs` was seen before it started. */
  lemma {:induction false} TopFromEmpty(xs: seq<Solution>, seen: set<string>, taken: nat, k: int)
    ensures TopFrom(xs, seen, taken, k) == [] <==> Covered(xs, seen)
    decreases |xs|
  {
    if xs != [] && Key(xs[0].sequence) in seen {
      TopFromEmpty(xs[1..], seen, taken, k);
      assert forall i :: 0 < i < |xs| ==> xs[i] == xs[1..][i - 1];
    }
  }

  /** What the extractor returns for `chains` and count `k`. */
  function Top(chains: seq<ChainState>, k: int): seq<Solution>
    requires Paired(chains)
  {
    TopFrom(SortByScore(Flatten(chains)), {}, 0, k)
  }

  function KeySet(s: seq<Solution>): set<string>
  {
    set i | 0 <= i < |s| :: Key(s[i].sequence)
  }

  /** Every element of `r` is an element of `xs`. */
  predicate Within(r: seq<Solution>, xs: seq<Solution>)
  {
    forall y :: y in r ==> y in xs
  }

  /** No key of `r` is in `seen`. */
  predicate KeysAvoid(r: seq<Solution>, seen: set<string>)
  {
    forall i :: 0 <= i < |r| ==> Key(r[i].sequence) !in seen
  }

  /** The keys of `r` are pairwise distinct. */
  predicate DistinctKeys(r: seq<Solution>)
  {
    forall i, j :: 0 <= i < j < |r| ==> Key(r[i].sequence) != Key(r[j].sequence)
  }

  /** Every key of `xs` is in `keys`. */
  predicate Covered(xs: seq<Solution>, keys: set<string>)
  {
    forall i :: 0 <= i < |xs| ==> Key(xs[i].sequence) in keys
  }

  /** Every element of `r` scores no more than any element of `xs` with the same key. */
  predicate BestOf(r: seq<Solution>, xs: seq<Solution>)
  {
    forall y, x :: y in r && x in xs && Key(x.sequence) == Key(y.sequence) ==> y.score <= x.score
  }

  lemma SortedTail(xs: seq<Solution>)
    requires xs != [] && Sorted(xs)
    ensures Sorted(xs[1..])
  {
    forall i, j | 0 <= i < j < |xs[1..]| ensures xs[1..][i].score <= xs[1..][j].score {
      assert xs[1..][i] == xs[i + 1] && xs[1..][j] == xs[j + 1];
    }
  }

  /** The kept solutions are elements of `xs`. */
  lemma {:induction false} TopFromMembers(xs: seq<Solution>, seen: set<string>, taken: nat, k: int)
    ensures Within(TopFrom(xs, seen, taken, k), xs)
    decreases |xs|
  {
    if xs != [] {
      var key := Key(xs[0].sequence);
      if key in seen {
        TopFromMembers(xs[1..], seen, taken, k);
        WithinTail(TopFrom(xs[1..], seen, taken, k), xs);
      } else if taken + 1 < k {
        TopFromMembers(xs[1..], seen + {key}, taken + 1, k);
        WithinTail(TopFrom(xs[1..], seen + {key}, taken + 1, k), xs);
      }
    }
  }

  lemma WithinTail(r: seq<Solution>, xs: seq<Solution>)
    requires xs != [] && Within(r, xs[1..])
    ensures Within(r, xs) && Within([xs[0]] + r, xs)
  {
    forall y | y in r ensures y in xs {
      var i :| 0 <= i < |xs[1..]| && xs[1..][i] == y;
      assert xs[i + 1] == y;
    }
  }

  /** The kept solutions keep the order of `xs`, so they are sorted when `xs` is. */
  lemma {:induction false} TopFromSorted(xs: seq<Solution>, seen: set<string>, taken: nat, k: int)
    requires Sorted(xs)
    ensures Sorted(TopFrom(xs, seen, taken, k))
    decreases |xs|
  {
    if xs != [] {
      var key := Key(xs[0].sequence);
      SortedTail(xs);
      if key in seen {
        TopFromSorted(xs[1..], seen, taken, k);
      } else if taken + 1 < k {
        TopFromSorted(xs[1..], seen + {key}, taken + 1, k);
        TopFromMembers(xs[1..], seen + {key}, taken + 1, k);
        var rest := TopFrom(xs[1..], seen + {key}, taken + 1, k);
        var r := [xs[0]] + rest;
        assert TopFrom(xs, seen, taken, k) == r;
        forall i, j | 0 <= i < j < |r| ensures r[i].score <= r[j].score {
          assert r[j] == rest[j - 1] && rest[j - 1] in xs[1..];
          var m :| 0 <= m < |xs[1..]| && xs[1..][m] == r[j];
          assert xs[m + 1] == r[j];
          if i > 0 { assert r[i] == rest[i - 1]; }
        }
      }
    }
  }

  /** The kept keys are not in `seen` and pairwise distinct. */
  lemma {:induction false} TopFromKeys(xs: seq<Solution>, seen: set<string>, taken: nat, k: int)
    ensures KeysAvoid(TopFrom(xs, seen, taken, k), seen)
    ensures DistinctKeys(TopFrom(xs, seen, taken, k))
    decreases |xs|
  {
    if xs != [] {
      var key := Key(xs[0].sequence);
      if key in seen {
        TopFromKeys(xs[1..], seen, taken, k);
      } else if taken + 1 < k {
        TopFromKeys(xs[1..], seen + {key}, taken + 1, k);
        var rest := TopFrom(xs[1..], seen + {key}, taken + 1, k);
        var r := [xs[0]] + rest;
        assert TopFrom(xs, seen, taken, k) == r;
        assert forall i :: 0 < i < |r| ==> r[i] == rest[i - 1];
      }
    }
  }

  /** At most Bound(k, taken) solutions are kept. */
  lemma {:induction false} TopFromBound(xs: seq<Solution>, seen: set<string>, taken: nat, k: int)
    ensures |TopFrom(xs, seen, taken, k)| <= Bound(k, taken)
    decreases |xs|
  {
    if xs != [] {
      var key := Key(xs[0].sequence);
      if key in seen {
        TopFromBound(xs[1..], seen, taken, k);
      } else if taken + 1 < k {
        TopFromBound(xs[1..], seen + {key}, taken + 1, k);
      }
    }
  }

  /** Unless the bound is reached, every key of `xs` is in `seen` or among the kept keys. */
  lemma {:induction false} TopFromComplete(xs: seq<Solution>, seen: set<string>, taken: nat, k: int)
    ensures |TopFrom(xs, seen, taken, k)| < Bound(k, taken) ==> Covered(xs, seen + KeySet(TopFrom(xs, seen, taken, k)))
    decreases |xs|
  {
    if xs != [] {
      var key := Key(xs[0].sequence);
      assert forall i :: 0 < i < |xs| ==> xs[i] == xs[1..][i - 1];
      if key in seen {
        TopFromComplete(xs[1..], seen, taken, k);
      } else if taken + 1 < k {
        TopFromComplete(xs[1..], seen + {key}, taken + 1, k);
        var rest := TopFrom(xs[1..], seen + {key}, taken + 1, k);
        var r := [xs[0]] + rest;
        assert TopFrom(xs, seen, taken, k) == r;
        assert Key(r[0].sequence) == key;
        forall i | 0 <= i < |rest| ensures Key(rest[i].sequence) in KeySet(r) {
          assert r[i + 1] == rest[i];
        }
      }
    }
  }

  /** The head of a sorted sequence scores no more than any of its elements. */
  lemma SortedHeadLeast(xs: seq<Solution>)
    requires xs != [] && Sorted(xs)
    ensures forall x :: x in xs ==> xs[0].score <= x.score
  {
    forall x | x in xs ensures xs[0].score <= x.score {
      var i :| 0 <= i < |xs| && xs[i] == x;
      if i > 0 { assert xs[0].score <= xs[i].score; }
    }
  }

  /** Being best among the tail extends to the whole when the head's key is not among r's keys. */
  lemma BestOfCons(r: seq<Solution>, xs: seq<Solution>)
    requires xs != [] && BestOf(r, xs[1..])
    requires KeysAvoid(r, {Key(xs[0].sequence)})
    ensures BestOf(r, xs)
  {
    forall y, x | y in r && x in xs && Key(x.sequence) == Key(y.sequence) ensures y.score <= x.score {
      var j :| 0 <= j < |r| && r[j] == y;
      var i :| 0 <= i < |xs| && xs[i] == x;
      assert i > 0;
      assert xs[1..][i - 1] == x;
    }
  }

  /** The head of a sorted sequence, put in front of solutions best in it, is best in it too. */
  lemma BestOfHead(rest: seq<Solution>, xs: seq<Solution>)
    requires xs != [] && Sorted(xs) && BestOf(rest, xs)
    ensures BestOf([xs[0]] + rest, xs)
  {
    SortedHeadLeast(xs);
    forall y, x | y in [xs[0]] + rest && x in xs && Key(x.sequence) == Key(y.sequence) ensures y.score <= x.score {
      if y != xs[0] {
        assert y in rest;
      }
    }
  }

  /** When `xs` is sorted, every kept solution scores no more than any element of `xs` with its key. */
  lemma {:induction false} TopFromBest(xs: seq<Solution>, seen: set<string>, taken: nat, k: int)
    requires Sorted(xs)
    ensures BestOf(TopFrom(xs, seen, taken, k), xs)
    decreases |xs|
  {
    if xs != [] {
      var key := Key(xs[0].sequence);
      SortedTail(xs);
      if key in seen {
        TopFromBest(xs[1..], seen, taken, k);
        TopFromKeys(xs[1..], seen, taken, k);
        BestOfCons(TopFrom(xs[1..], seen, taken, k), xs);
      } else if taken + 1 < k {
        var rest := TopFrom(xs[1..], seen + {key}, taken + 1, k);
        TopFromBest(xs[1..], seen + {key}, taken + 1, k);
        TopFromKeys(xs[1..], seen + {key}, taken + 1, k);
        BestOfCons(rest, xs);
        BestOfHead(rest, xs);
      } else {
        BestOfHead([], xs);
        assert [xs[0]] + [] == [xs[0]];
      }
    }
  }

  /** No element of `xs` before position i has the key of `xs[i]`. */
  predicate FirstOfKey(xs: seq<Solution>, i: int)
  {
    0 <= i < |xs| && forall j :: 0 <= j < i ==> Key(xs[j].sequence) != Key(xs[i].sequence)
  }

  /** A first occurrence in the tail, whose key differs from the head's, is a first occurrence in the whole. */
  lemma FirstOfKeyCons(xs: seq<Solution>, i: int)
    requires xs != [] && FirstOfKey(xs[1..], i)
    requires Key(xs[0].sequence) != Key(xs[1..][i].sequence)
    ensures FirstOfKey(xs, i + 1) && xs[i + 1] == xs[1..][i]
  {
    forall j | 0 <= j < i + 1 ensures Key(xs[j].sequence) != Key(xs[i + 1].sequence) {
      if j > 0 { assert xs[j] == xs[1..][j - 1]; }
    }
  }

  /** Every kept solution is the first element of `xs` with its key. */
  lemma {:induction false} TopFromFirst(xs: seq<Solution>, seen: set<string>, taken: nat, k: int)
    ensures forall y :: y in TopFrom(xs, seen, taken, k) ==> exists i :: FirstOfKey(xs, i) && xs[i] == y
    decreases |xs|
  {
    if xs != [] {
      var key := Key(xs[0].sequence);
      var seen' := if key in seen then seen else seen + {key};
      var taken' := if key in seen then taken else taken + 1;
      if key in seen || taken + 1 < k {
        var rest := TopFrom(xs[1..], seen', taken', k);
        TopFromFirst(xs[1..], seen', taken', k);
        TopFromKeys(xs[1..], seen', taken', k);
        forall y | y in rest ensures exists i :: FirstOfKey(xs, i) && xs[i] == y {
          var i :| FirstOfKey(xs[1..], i) && xs[1..][i] == y;
          var m :| 0 <= m < |rest| && rest[m] == y;
          assert Key(y.sequence) !in seen';
          FirstOfKeyCons(xs, i);
        }
        assert FirstOfKey(xs, 0);
      } else {
        assert FirstOfKey(xs, 0);
      }
    }
  }

  /** Every returned solution is the first of its key in score order, ties kept in the order the chains were collected. */
  lemma TopFirst(chains: seq<ChainState>, k: int)
    requires Paired(chains)
    ensures forall y :: y in Top(chains, k) ==>
      exists i :: FirstOfKey(SortByScore(Flatten(chains)), i) && SortByScore(Flatten(chains))[i] == y
    ensures forall v :: WithScore(SortByScore(Flatten(chains)), v) == WithScore(Flatten(chains), v)
  {
    var sorted := SortByScore(Flatten(chains));
    TopFromFirst(sorted, {}, 0, k);
    assert Top(chains, k) == TopFrom(sorted, {}, 0, k);
    forall v ensures WithScore(SortByScore(Flatten(chains)), v) == WithScore(Flatten(chains), v) {
      SortStable(Flatten(chains), v);
    }
  }

  /** Every returned solution is the triple of some sample. */
  lemma TopMembers(chains: seq<ChainState>, k: int)
    requires Paired(chains)
    ensures forall y :: y in Top(chains, k) ==> exists c, i :: SampleOf(chains, c, i, y)
  {
    var sorted := SortByScore(Flatten(chains));
    TopFromMembers(sorted, {}, 0, k);
    forall y | y in Top(chains, k) ensures exists c, i :: SampleOf(chains, c, i, y) {
      assert y in multiset(sorted);
      FlattenMembers(chains, y);
    }
  }

  /** The returned solutions are in ascending score order, with pairwise-distinct keys and id sequences. */
  lemma TopOrder(chains: seq<ChainState>, k: int)
    requires Paired(chains)
    ensures Sorted(Top(chains, k))
    ensures DistinctKeys(Top(chains, k))
    ensures forall i, j :: 0 <= i < j < |Top(chains, k)| ==> Ids(Top(chains, k)[i].sequence) != Ids(Top(chains, k)[j].sequence)
  {
    var sorted := SortByScore(Flatten(chains));
    var r := Top(chains, k);
    TopFromSorted(sorted, {}, 0, k);
    TopFromKeys(sorted, {}, 0, k);
    forall i, j | 0 <= i < j < |r| ensures Ids(r[i].sequence) != Ids(r[j].sequence) {
      assert Key(r[i].sequence) != Key(r[j].sequence);
    }
  }

  /** Each returned solution scores no more than any sample with the same key. */
  lemma TopBest(chains: seq<ChainState>, k: int)
    requires Paired(chains)
    ensures BestOf(Top(chains, k), Flatten(chains))
  {
    var all := Flatten(chains);
    var sorted := SortByScore(all);
    var r := Top(chains, k);
    TopFromBest(sorted, {}, 0, k);
    forall y, x | y in r && x in all && Key(x.sequence) == Key(y.sequence) ensures y.score <= x.score {
      assert x in multiset(sorted);
    }
  }

  /**
   * At most max(k, 1) solutions, exactly one when k <= 0 and there is a sample, and fewer than
   * max(k, 1) only when every sampled key is represented.
   */
  lemma TopSize(chains: seq<ChainState>, k: int)
    requires Paired(chains)
    ensures |Top(chains, k)| <= (if k >= 1 then k else 1)
    ensures k <= 0 && Flatten(chains) != [] ==> |Top(chains, k)| == 1
    ensures |Top(chains, k)| < (if k >= 1 then k else 1) ==> Covered(Flatten(chains), KeySet(Top(chains, k)))
  {
    var all := Flatten(chains);
    var sorted := SortByScore(all);
    var r := Top(chains, k);
    TopFromBound(sorted, {}, 0, k);
    TopFromComplete(sorted, {}, 0, k);
    if |r| < (if k >= 1 then k else 1) {
      forall i | 0 <= i < |all| ensures Key(all[i].sequence) in KeySet(r) {
        assert all[i] in multiset(sorted);
        var j :| 0 <= j < |sorted| && sorted[j] == all[i];
      }
    }
    if k <= 0 && all != [] {
      assert |sorted| == |all|;
    }
  }

  /**
   * The extractor's result: sampled triples in ascending score order, with pairwise-distinct
   * keys and so pairwise-distinct id sequences, each scoring no more than any sample with the
   * same key, at most max(k, 1) of them, exactly one when k <= 0 and there is a sample, and
   * fewer than max(k, 1) only when every sampled key is represented.
   */
  lemma TopFacts(chains: seq<ChainState>, k: int)
    requires Paired(chains)
    ensures forall y :: y in Top(chains, k) ==> exists c, i :: SampleOf(chains, c, i, y)
    ensures Sorted(Top(chains, k))
    ensures DistinctKeys(Top(chains, k))
    ensures forall i, j :: 0 <= i < j < |Top(chains, k)| ==> Ids(Top(chains, k)[i].sequence) != Ids(Top(chains, k)[j].sequence)
    ensures BestOf(Top(chains, k), Flatten(chains))
    ensures |Top(chains, k)| <= (if k >= 1 then k else 1)
    ensures k <= 0 && Flatten(chains) != [] ==> |Top(chains, k)| == 1
    ensures |Top(chains, k)| < (if k >= 1 then k else 1) ==> Covered(Flatten(chains), KeySet(Top(chains, k)))
  {
    TopMembers(chains, k);
    TopOrder(chains, k);
    TopBest(chains, k);
    TopSize(chains, k);
  }

  /** A sequence sampled by several chains, or several times, is returned at most once: two positions of the result with the same sequence are one position. */
  lemma SampledTwiceReturnedOnce(chains: seq<ChainState>, k: int)
    requires Paired(chains)
    ensures forall i, j :: 0 <= i < |Top(chains, k)| && 0 <= j < |Top(chains, k)| && Top(chains, k)[i].sequence == Top(chains, k)[j].sequence ==> i == j
  {
    TopFacts(chains, k);
  }

  /** A step of the dedup loop at position `i` whose key was seen: the solution is skipped. */
  lemma TopFromSkip(kept: seq<Solution>, xs: seq<Solution>, i: nat, seen: set<string>, k: int)
    requires i < |xs| && Key(xs[i].sequence) in seen
    ensures kept + TopFrom(xs[i..], seen, |kept|, k) == kept + TopFrom(xs[i + 1..], seen, |kept|, k)
  {
    assert xs[i..][1..] == xs[i + 1..];
  }

  /** A step whose key is new: the solution is pushed after those kept so far, and the loop stops once k are kept. */
  lemma TopFromKeep(kept: seq<Solution>, xs: seq<Solution>, i: nat, seen: set<string>, k: int)
    requires i < |xs| && Key(xs[i].sequence) !in seen
    ensures |kept| + 1 >= k ==> kept + TopFrom(xs[i..], seen, |kept|, k) == kept + [xs[i]]
    ensures |kept| + 1 < k ==>
      kept + TopFrom(xs[i..], seen, |kept|, k)
        == (kept + [xs[i]]) + TopFrom(xs[i + 1..], seen + {Key(xs[i].sequence)}, |kept| + 1, k)
  {
    assert xs[i..][1..] == xs[i + 1..];
    var key := Key(xs[i].sequence);
    if |kept| + 1 < k {
      var rest := TopFrom(xs[i + 1..], seen + {key}, |kept| + 1, k);
      assert kept + ([xs[i]] + rest) == (kept + [xs[i]]) + rest;
    }
  }

  /** Collects every sample of every chain, chain by chain. */
  method CollectSolutions(chains: seq<ChainState>) returns (allSolutions: seq<Solution>)
    requires Paired(chains)
    ensures allSolutions == Flatten(chains)
  {
    allSolutions := [];
    for c := 0 to |chains|
      invariant allSolutions == Flatten(chains[..c])
    {
      var chain := chains[c];
      assert chains[..c + 1][..c] == chains[..c];
      for idx := 0 to |chain.samples|
        invariant allSolutions == Flatten(chains[..c]) + ChainSolutions(chain)[..idx]
      {
        assert ChainSolutions(chain)[..idx + 1] == ChainSolutions(chain)[..idx] + [ChainSolutions(chain)[idx]];
        allSolutions := allSolutions + [Solution(chain.samples[idx], chain.scores[idx], chain.chainId)];
      }
      assert ChainSolutions(chain)[..|chain.samples|] == ChainSolutions(chain);
    }
    assert chains[..|chains|] == chains;
  }

  /** The dedup loop over the sorted solutions: the first solution of every key, until k are kept. */
  method KeepUnique(allSolutions: seq<Solution>, k: int) returns (uniqueSolutions: seq<Solution>)
    ensures uniqueSolutions == TopFrom(allSolutions, {}, 0, k)
  {
    ghost var target := TopFrom(allSolutions, {}, 0, k);
    assert allSolutions[0..] == allSolutions;
    uniqueSolutions := [];
    var seenSequences: set<string> := {};
    var i := 0;
    while i < |allSolutions|
      invariant 0 <= i <= |allSolutions|
      invariant uniqueSolutions + TopFrom(allSolutions[i..], seenSequences, |uniqueSolutions|, k) == target
    {
      var solution := allSolutions[i];
      var sequenceKey := Key(solution.sequence);
      if sequenceKey in seenSequences {
        TopFromSkip(uniqueSolutions, allSolutions, i, seenSequences, k);
      } else {
        TopFromKeep(uniqueSolutions, allSolutions, i, seenSequences, k);
        uniqueSolutions := uniqueSolutions + [solution];
        seenSequences := seenSequences + {sequenceKey};
        if |uniqueSolutions| >= k {
          return;
        }
      }
      i := i + 1;
    }
    assert allSolutions[i..] == [];
  }

  /** The extractor: collect every sample, sort by score, keep the first of every key until k are kept. */
  method ExtractTopSolutions(chains: seq<ChainState>, k: int := DefaultCount) returns (uniqueSolutions: seq<Solution>)
    requires Paired(chains)
    ensures uniqueSolutions == Top(chains, k)
  {
    var allSolutions := CollectSolutions(chains);
    allSolutions := SortByScore(allSolutions);
    uniqueSolutions := KeepUnique(allSolutions, k);
  }
}
