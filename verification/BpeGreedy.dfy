/** Training picks, and stops, as its description says; how a pass replaces; what unknown tokens stand for. */
module BpeGreedy {
  import opened Bpe

  predicate StandsAt(ts: seq<int>, p: Pair, i: int) { 0 <= i < |ts| - 1 && ts[i] == p.a && ts[i + 1] == p.b }

  /** The places where p stands. */
  function Places(ts: seq<int>, p: Pair): set<int> { set i | 0 <= i < |ts| && StandsAt(ts, p, i) }

  function NumberOf(ts: seq<int>, p: Pair): nat { |Places(ts, p)| }

  function PlacesFrom(ts: seq<int>, p: Pair, k: nat): set<int> { set i | k <= i < |ts| && StandsAt(ts, p, i) }

  /** Counting from the front finds every place once. */
  lemma CountExact(ts: seq<int>, p: Pair)
    ensures Count(ts, p) == NumberOf(ts, p)
  {
    CountFrom(ts, p, 0);
    assert ts[0..] == ts && PlacesFrom(ts, p, 0) == Places(ts, p);
  }

  lemma {:induction false} CountFrom(ts: seq<int>, p: Pair, k: nat)
    requires k <= |ts|
    ensures Count(ts[k..], p) == |PlacesFrom(ts, p, k)|
    decreases |ts| - k
  {
    if |ts| - k < 2 {
      assert PlacesFrom(ts, p, k) == {};
    } else {
      CountFrom(ts, p, k + 1);
      assert ts[k..][1..] == ts[k + 1..];
      var later := PlacesFrom(ts, p, k + 1);
      assert PlacesFrom(ts, p, k) == if StandsAt(ts, p, k) then later + {k} else later;
    }
  }

  /** p stands in two places at least, and no pair in more; among those in as many it has the least left part, and then
      the least right part. */
  ghost predicate Chosen(ts: seq<int>, p: Pair) {
    && NumberOf(ts, p) >= 2
    && forall q :: NotBetter(ts, q, p)
  }

  predicate NotBetter(ts: seq<int>, q: Pair, p: Pair) {
    && NumberOf(ts, q) <= NumberOf(ts, p)
    && (NumberOf(ts, q) == NumberOf(ts, p) ==> p.a < q.a || (p.a == q.a && p.b <= q.b))
  }

  ghost predicate NoneTwice(ts: seq<int>) { forall q :: NumberOf(ts, q) < 2 }

  /** The tokens after the first j of these rules, the first of which has the id 256 + k. */
  function Replayed(ts: seq<int>, rules: seq<Rule>, k: nat, j: nat): seq<int>
    requires j <= |rules|
    decreases j
  {
    if j == 0 then ts else Replayed(Apply(ts, rules[0], 256 + k), rules[1..], k + 1, j - 1)
  }

  lemma BestChosen(ts: seq<int>)
    requires |ts| >= 2 && Count(ts, Best(ts)) >= 2
    ensures Chosen(ts, Best(ts))
  {
    hide Count, NumberOf, BestOf;
    var b := Best(ts);
    BestIs(ts, b);
    CountExact(ts, b);
    forall q
      ensures NotBetter(ts, q, b)
    {
      CountExact(ts, q);
      if Occurs(ts, q) {
      } else {
        Absent(ts, q);
      }
    }
  }

  lemma Absent(ts: seq<int>, q: Pair)
    requires !Occurs(ts, q)
    ensures NumberOf(ts, q) == 0
  {
    forall i | 0 <= i < |ts| - 1
      ensures !StandsAt(ts, q, i)
    {
      assert PairAt(ts, i) != q;
    }
    assert Places(ts, q) == {};
  }

  /**
   Every rule is the pair to choose on the tokens so far; training stops when enough rules are found or no pair stands
   twice.
   */
  lemma {:induction false} GreedyFrom(ts: seq<int>, k: nat, n: nat)
    requires k <= n
    ensures var rules := TrainFrom(ts, k, n);
      && (forall j :: 0 <= j < |rules| ==> rules[j].Merge? && Chosen(Replayed(ts, rules, k, j), rules[j].p))
      && (|rules| == n - k || NoneTwice(Replayed(ts, rules, k, |rules|)))
    decreases n - k
  {
    hide Chosen, NumberOf, Count, Best, Pass;
    var rules := TrainFrom(ts, k, n);
    if k >= n {
    } else if |ts| < 2 {
      assert Replayed(ts, rules, k, 0) == ts;
      forall q
        ensures NumberOf(ts, q) < 2
      {
        Short(ts, q);
      }
    } else if Count(ts, Best(ts)) < 2 {
      assert Replayed(ts, rules, k, 0) == ts;
      forall q
        ensures NumberOf(ts, q) < 2
      {
        NotTwice(ts, q);
      }
    } else {
      var ts' := Pass(ts, Best(ts), 256 + k);
      BestChosen(ts);
      GreedyFrom(ts', k + 1, n);
      var rest := TrainFrom(ts', k + 1, n);
      assert rules[0] == Merge(Best(ts)) && rules[1..] == rest;
      forall j | 0 <= j < |rules|
        ensures rules[j].Merge? && Chosen(Replayed(ts, rules, k, j), rules[j].p)
      {
        if j > 0 {
          assert rules[j] == rest[j - 1] && Replayed(ts, rules, k, j) == Replayed(ts', rest, k + 1, j - 1);
        }
      }
      var last := Replayed(ts', rest, k + 1, |rest|);
      assert |rules| == |rest| + 1 && Replayed(ts, rules, k, |rules|) == last;
    }
  }

  lemma Short(ts: seq<int>, q: Pair)
    requires |ts| < 2
    ensures NumberOf(ts, q) == 0
  {
    assert Places(ts, q) == {};
  }

  lemma NotTwice(ts: seq<int>, q: Pair)
    requires |ts| >= 2 && Count(ts, Best(ts)) < 2
    ensures NumberOf(ts, q) < 2
  {
    hide Count, NumberOf, BestOf;
    BestIs(ts, Best(ts));
    CountExact(ts, q);
    if !Occurs(ts, q) {
      Absent(ts, q);
    }
  }

  lemma TrainingGreedy(text: seq<Byte>, n: nat)
    ensures var rules := Train(text, n);
      && (forall j :: 0 <= j < |rules| ==>
            rules[j].Merge? && Chosen(Replayed(Units(text), rules, 0, j), rules[j].p))
      && (|rules| == n || NoneTwice(Replayed(Units(text), rules, 0, |rules|)))
  {
    hide Chosen, NumberOf, Replayed, TrainFrom;
    GreedyFrom(Units(text), 0, n);
  }

  // ---- a pass ----

  /** Two different tokens side by side are replaced wherever they stand. */
  lemma {:induction false} PassApart(ts: seq<int>, p: Pair, id: int)
    requires p.a != p.b
    ensures |Pass(ts, p, id)| == |ts| - NumberOf(ts, p)
    decreases |ts|
  {
    hide NumberOf;
    CountExact(ts, p);
    if |ts| >= 2 {
      CountExact(ts[1..], p);
      if ts[0] == p.a && ts[1] == p.b {
        PassApart(ts[2..], p, id);
        CountExact(ts[2..], p);
        assert ts[1..][1..] == ts[2..];
        assert Count(ts[1..], p) == Count(ts[2..], p);
      } else {
        PassApart(ts[1..], p, id);
      }
    } else if |ts| == 1 {
      assert ts[1..] == [];
      PassApart(ts[1..], p, id);
      CountExact(ts[1..], p);
    }
  }

  function Repeated(n: nat, x: int): seq<int> { seq(n, _ => x) }

  /** A stretch of one token is replaced in pairs from the left; what is left over stays at its end. */
  lemma {:induction false} PassStretch(n: nat, a: int, id: int)
    ensures Pass(Repeated(n, a), Pair(a, a), id) == Repeated(n / 2, id) + Repeated(n % 2, a)
    decreases n
  {
    if n >= 2 {
      PassStretch(n - 2, a, id);
      assert Repeated(n, a)[2..] == Repeated(n - 2, a);
      assert Repeated(n / 2, id) == [id] + Repeated((n - 2) / 2, id);
    } else if n == 1 {
      assert Repeated(1, a) == [a] && Repeated(1, a)[1..] == [];
    }
  }

  // ---- tokens that are no rule ----

  /** An id below 256 is its low byte; an id that is no rule of the list is a question mark. */
  lemma PlainTokens(rules: seq<Rule>, id: int, depth: nat)
    ensures 0 <= id < 256 ==> Expand(rules, id, depth) == Some([id])
    ensures id < 0 ==> Expand(rules, id, depth) == Some([id % 256])
    ensures id >= 256 && (id - 256 >= |rules| || rules[id - 256].Skip?) ==>
      Expand(rules, id, depth) == Some(['?' as int])
  {
  }
}
