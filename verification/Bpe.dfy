/**
 The byte-pair tokenizer (internal/native/tensor.go): training, encoding and decoding, as functions on token lists.
 `BpeImpl` proves the loops against them.
 */
module Bpe {
  import Bytecode
  import Pigeonhole

  type Byte = Bytecode.Byte

  datatype Pair = Pair(a: int, b: int)

  /** A merge rule as the natives find it: anything but an array of two is skipped. */
  datatype Rule = Merge(p: Pair) | Skip

  function Units(text: seq<Byte>): (ts: seq<int>)
    ensures |ts| == |text|
    ensures forall i :: 0 <= i < |ts| ==> ts[i] == text[i]
  {
    if text == [] then [] else [text[0]] + Units(text[1..])
  }

  /** Left to right, every occurrence of p that does not overlap an earlier one becomes id. */
  function Pass(ts: seq<int>, p: Pair, id: int): seq<int>
    decreases |ts|
  {
    if ts == [] then []
    else if |ts| >= 2 && ts[0] == p.a && ts[1] == p.b then [id] + Pass(ts[2..], p, id)
    else [ts[0]] + Pass(ts[1..], p, id)
  }

  function Apply(ts: seq<int>, r: Rule, id: int): seq<int> { if r.Merge? then Pass(ts, r.p, id) else ts }

  /** The rules from the k-th on, each in its turn. */
  function EncodeFrom(ts: seq<int>, rules: seq<Rule>, k: nat): seq<int>
    requires k <= |rules|
    decreases |rules| - k
  {
    if k == |rules| then ts else EncodeFrom(Apply(ts, rules[k], 256 + k), rules, k + 1)
  }

  function Encode(text: seq<Byte>, rules: seq<Rule>): seq<int> { EncodeFrom(Units(text), rules, 0) }

  datatype Bytes = Some(s: seq<Byte>) | Endless

  function Join(x: Bytes, y: Bytes): Bytes { if x.Some? && y.Some? then Some(x.s + y.s) else Endless }

  /** What a token stands for; Endless when the rules nest deeper than depth. */
  function Expand(rules: seq<Rule>, id: int, depth: nat): Bytes
    decreases depth
  {
    if id < 256 then Some([id % 0x100])
    else if id - 256 < |rules| && rules[id - 256].Merge? then
      if depth == 0 then Endless
      else Join(Expand(rules, rules[id - 256].p.a, depth - 1), Expand(rules, rules[id - 256].p.b, depth - 1))
    else Some([0x3F])
  }

  function ExpandAll(rules: seq<Rule>, ts: seq<int>, depth: nat): Bytes {
    if ts == [] then Some([]) else Join(Expand(rules, ts[0], depth), ExpandAll(rules, ts[1..], depth))
  }

  // ---- expansion ----

  lemma {:induction false} Deeper(rules: seq<Rule>, id: int, d: nat, e: nat)
    requires d <= e && Expand(rules, id, d).Some?
    ensures Expand(rules, id, e) == Expand(rules, id, d)
    decreases d
  {
    if id >= 256 && id - 256 < |rules| && rules[id - 256].Merge? {
      Deeper(rules, rules[id - 256].p.a, d - 1, e - 1);
      Deeper(rules, rules[id - 256].p.b, d - 1, e - 1);
    }
  }

  lemma {:induction false} DeeperAll(rules: seq<Rule>, ts: seq<int>, d: nat, e: nat)
    requires d <= e && ExpandAll(rules, ts, d).Some?
    ensures ExpandAll(rules, ts, e) == ExpandAll(rules, ts, d)
  {
    if ts != [] {
      Deeper(rules, ts[0], d, e);
      DeeperAll(rules, ts[1..], d, e);
    }
  }

  lemma {:induction false} ExpandUnits(rules: seq<Rule>, text: seq<Byte>, d: nat)
    ensures ExpandAll(rules, Units(text), d) == Some(text)
  {
    if text != [] {
      assert Units(text)[1..] == Units(text[1..]);
      ExpandUnits(rules, text[1..], d);
      assert [text[0]] + text[1..] == text;
    }
  }

  /** All tokens are below n, and not negative. */
  predicate Below(ts: seq<int>, n: int) { forall i :: 0 <= i < |ts| ==> 0 <= ts[i] < n }

  lemma {:induction false} PassBelow(ts: seq<int>, p: Pair, id: nat)
    requires Below(ts, id)
    ensures Below(Pass(ts, p, id), id + 1) && |Pass(ts, p, id)| <= |ts|
    decreases |ts|
  {
    if ts == [] {
    } else if |ts| >= 2 && ts[0] == p.a && ts[1] == p.b {
      PassBelow(ts[2..], p, id);
    } else {
      PassBelow(ts[1..], p, id);
    }
  }

  /**
   A pass of rule k does not change what the tokens stand for, as long as they come from the bytes and earlier rules.
   */
  lemma {:induction false} PassKeeps(rules: seq<Rule>, ts: seq<int>, k: nat, d: nat)
    requires k < |rules| && rules[k].Merge? && ExpandAll(rules, ts, d).Some?
    ensures ExpandAll(rules, Pass(ts, rules[k].p, 256 + k), d + 1) == ExpandAll(rules, ts, d)
    decreases |ts|
  {
    hide Expand;
    var p, id := rules[k].p, 256 + k;
    if ts == [] {
    } else if |ts| >= 2 && ts[0] == p.a && ts[1] == p.b {
      ExpandCons(rules, ts[0], ts[1..], d);
      ExpandCons(rules, ts[1], ts[2..], d);
      assert ts == [ts[0]] + ts[1..] && ts[1..] == [ts[1]] + ts[2..];
      PassKeeps(rules, ts[2..], k, d);
      ExpandCons(rules, id, Pass(ts[2..], p, id), d + 1);
      ExpandRule(rules, k, d);
      JoinAssoc(Expand(rules, p.a, d), Expand(rules, p.b, d), ExpandAll(rules, ts[2..], d));
    } else {
      ExpandCons(rules, ts[0], ts[1..], d);
      assert ts == [ts[0]] + ts[1..];
      PassKeeps(rules, ts[1..], k, d);
      Deeper(rules, ts[0], d, d + 1);
      ExpandCons(rules, ts[0], Pass(ts[1..], p, id), d + 1);
    }
  }

  lemma ExpandCons(rules: seq<Rule>, t: int, ts: seq<int>, d: nat)
    ensures ExpandAll(rules, [t] + ts, d) == Join(Expand(rules, t, d), ExpandAll(rules, ts, d))
  {
    hide Expand;
    assert ([t] + ts)[1..] == ts;
  }

  lemma ExpandRule(rules: seq<Rule>, k: nat, d: nat)
    requires k < |rules| && rules[k].Merge?
    ensures Expand(rules, 256 + k, d + 1) == Join(Expand(rules, rules[k].p.a, d), Expand(rules, rules[k].p.b, d))
  {
  }

  lemma JoinAssoc(x: Bytes, y: Bytes, z: Bytes)
    ensures Join(Join(x, y), z) == Join(x, Join(y, z))
  {
    if x.Some? && y.Some? && z.Some? {
      assert x.s + y.s + z.s == x.s + (y.s + z.s);
    }
  }

  lemma {:induction false} EncodeKeeps(rules: seq<Rule>, ts: seq<int>, k: nat)
    requires k <= |rules| && ExpandAll(rules, ts, k).Some?
    ensures ExpandAll(rules, EncodeFrom(ts, rules, k), |rules|) == ExpandAll(rules, ts, k)
    decreases |rules| - k
  {
    hide ExpandAll, Pass;
    if k < |rules| {
      if rules[k].Merge? {
        PassKeeps(rules, ts, k, k);
      } else {
        DeeperAll(rules, ts, k, k + 1);
      }
      EncodeKeeps(rules, Apply(ts, rules[k], 256 + k), k + 1);
    }
  }

  /**
   Decoding an encoding gives the text back, for every text and whatever the rules; the recursion never goes deeper
   than their number.
   */
  lemma {:induction false} RoundTrip(text: seq<Byte>, rules: seq<Rule>, depth: nat)
    requires depth >= |rules|
    ensures ExpandAll(rules, Encode(text, rules), depth) == Some(text)
  {
    hide ExpandAll, EncodeFrom;
    ExpandUnits(rules, text, 0);
    EncodeKeeps(rules, Units(text), 0);
    DeeperAll(rules, Encode(text, rules), |rules|, depth);
  }

  /** Rule i only mentions bytes and earlier rules. */
  predicate Grounded(rules: seq<Rule>) {
    forall i :: 0 <= i < |rules| && rules[i].Merge? ==> rules[i].p.a < 256 + i && rules[i].p.b < 256 + i
  }

  /** Then every token has an expansion, not only those an encoding yields. */
  lemma {:induction false} GroundedEnds(rules: seq<Rule>, id: int, depth: nat)
    requires Grounded(rules) && id < 256 + depth
    ensures Expand(rules, id, depth).Some?
    decreases depth
  {
    if id >= 256 && id - 256 < |rules| && rules[id - 256].Merge? {
      GroundedEnds(rules, rules[id - 256].p.a, depth - 1);
      GroundedEnds(rules, rules[id - 256].p.b, depth - 1);
    }
  }

  // ---- which tokens have an expansion ----

  /** Token id stands for a rule, and c is one of its two parts. */
  predicate Mentions(rules: seq<Rule>, id: int, c: int) {
    256 <= id < 256 + |rules| && rules[id - 256].Merge? && c in {rules[id - 256].p.a, rules[id - 256].p.b}
  }

  predicate Walk(rules: seq<Rule>, w: seq<int>) {
    w != [] && forall i :: 0 <= i < |w| - 1 ==> Mentions(rules, w[i], w[i + 1])
  }

  /** Some walk of mentions from id comes to a token twice. */
  ghost predicate ComesBack(rules: seq<Rule>, id: int) {
    exists w: seq<int>, i: nat, j: nat :: i < j < |w| && w[i] == w[j] && w[0] == id && Walk(rules, w)
  }

  /** Endless at a depth: there is a walk two longer. */
  lemma {:induction false} EndlessWalks(rules: seq<Rule>, id: int, d: nat) returns (w: seq<int>)
    requires Expand(rules, id, d) == Endless
    ensures Walk(rules, w) && w[0] == id && |w| == d + 2
    decreases d
  {
    var p := rules[id - 256].p;
    if d == 0 {
      w := [id, p.a];
    } else {
      var c := if Expand(rules, p.a, d - 1) == Endless then p.a else p.b;
      var v := EndlessWalks(rules, c, d - 1);
      w := [id] + v;
      assert Mentions(rules, w[0], w[1]);
      assert forall i :: 0 < i < |w| - 1 ==> w[i] == v[i - 1] && w[i + 1] == v[i];
    }
  }

  lemma {:induction false} WalkEndless(rules: seq<Rule>, w: seq<int>, d: nat)
    requires Walk(rules, w) && |w| >= d + 2
    ensures Expand(rules, w[0], d) == Endless
    decreases d
  {
    assert Mentions(rules, w[0], w[1]);
    if d > 0 {
      var v := w[1..];
      forall i | 0 <= i < |v| - 1
        ensures Mentions(rules, v[i], v[i + 1])
      {
        assert v[i] == w[i + 1] && v[i + 1] == w[i + 1 + 1];
      }
      WalkEndless(rules, v, d - 1);
    }
  }

  /** Going round once more. */
  lemma {:induction false} Pump(rules: seq<Rule>, w: seq<int>, i: nat, j: nat, n: nat) returns (v: seq<int>)
    requires Walk(rules, w) && i < j < |w| && w[i] == w[j]
    ensures Walk(rules, v) && v[0] == w[0] && |v| > n && v[|v| - 1] == w[j]
    decreases n
  {
    if n == 0 {
      v := w[..j + 1];
    } else {
      var u := Pump(rules, w, i, j, n - 1);
      v := u + w[i + 1..j + 1];
      forall k | 0 <= k < |v| - 1
        ensures Mentions(rules, v[k], v[k + 1])
      {
        if k == |u| - 1 {
          assert Mentions(rules, w[i], w[i + 1]);
        } else if k >= |u| {
          assert v[k] == w[k - |u| + i + 1] && v[k + 1] == w[k - |u| + i + 1 + 1];
        }
      }
    }
  }

  /**
   The expansion of a token ends if and only if no walk of mentions from it comes to a token twice; then the recursion
   goes no deeper than there are rules.
   */
  lemma {:induction false} ExpandExact(rules: seq<Rule>, id: int)
    ensures Expand(rules, id, |rules|).Some? <==> !ComesBack(rules, id)
    ensures (exists d: nat :: Expand(rules, id, d).Some?) <==> !ComesBack(rules, id)
  {
    hide Expand;
    if Expand(rules, id, |rules|) == Endless {
      var w := EndlessWalks(rules, id, |rules|);
      var s := w[..|w| - 1];
      forall k | 0 <= k < |s|
        ensures 256 <= s[k] < 256 + |rules|
      {
        assert Mentions(rules, w[k], w[k + 1]);
      }
      var i, j := Pigeonhole.Twice(s, 256, |rules|);
      assert w[i] == w[j];
    }
    if d: nat :| ComesBack(rules, id) && Expand(rules, id, d).Some? {
      var w: seq<int>, i: nat, j: nat :| i < j < |w| && w[i] == w[j] && w[0] == id && Walk(rules, w);
      var v := Pump(rules, w, i, j, d + 1);
      WalkEndless(rules, v, d);
    }
  }

  /** For a list of tokens: all of them must be such. */
  lemma {:induction false} ExpandAllExact(rules: seq<Rule>, ts: seq<int>)
    ensures ExpandAll(rules, ts, |rules|).Some? <==> forall i :: 0 <= i < |ts| ==> !ComesBack(rules, ts[i])
  {
    hide Expand, ComesBack;
    if ts != [] {
      ExpandExact(rules, ts[0]);
      ExpandAllExact(rules, ts[1..]);
      assert forall i :: 0 <= i < |ts[1..]| ==> ts[1..][i] == ts[i + 1];
      if forall i :: 0 <= i < |ts[1..]| ==> !ComesBack(rules, ts[1..][i]) {
        assert forall i :: 0 < i < |ts| ==> ts[i] == ts[1..][i - 1];
      }
    }
  }

  /** A rule either of whose parts is the rule itself, wherever it stands in the list. */
  lemma {:induction false} SelfRuleNeverEnds(rules: seq<Rule>, k: nat, depth: nat)
    requires k < |rules| && rules[k].Merge? && 256 + k in {rules[k].p.a, rules[k].p.b}
    ensures Expand(rules, 256 + k, depth) == Endless
  {
    hide Expand;
    var w := [256 + k, 256 + k];
    assert Mentions(rules, w[0], w[1]) && w[0] == w[1];
    assert Walk(rules, w);
    ExpandExact(rules, 256 + k);
  }

  // ---- training ----

  /** How often p stands side by side, overlaps included. */
  function Count(ts: seq<int>, p: Pair): nat {
    if |ts| < 2 then 0 else (if ts[0] == p.a && ts[1] == p.b then 1 else 0) + Count(ts[1..], p)
  }

  predicate Less(p: Pair, q: Pair) { p.a < q.a || (p.a == q.a && p.b < q.b) }

  /** p is more frequent, or as frequent and smaller. */
  predicate Better(ts: seq<int>, p: Pair, q: Pair) {
    Count(ts, p) > Count(ts, q) || (Count(ts, p) == Count(ts, q) && Less(p, q))
  }

  function PairAt(ts: seq<int>, i: nat): Pair
    requires i + 1 < |ts|
  {
    Pair(ts[i], ts[i + 1])
  }

  /** The best of the first n pairs. */
  function BestOf(ts: seq<int>, n: nat): Pair
    requires 0 < n < |ts|
  {
    if n == 1 then PairAt(ts, 0)
    else if Better(ts, PairAt(ts, n - 1), BestOf(ts, n - 1)) then PairAt(ts, n - 1) else BestOf(ts, n - 1)
  }

  function Best(ts: seq<int>): Pair
    requires |ts| >= 2
  {
    BestOf(ts, |ts| - 1)
  }

  predicate Occurs(ts: seq<int>, p: Pair) { exists i: nat :: i + 1 < |ts| && PairAt(ts, i) == p }

  lemma {:induction false} OccursCount(ts: seq<int>, p: Pair)
    ensures Occurs(ts, p) <==> Count(ts, p) > 0
  {
    if |ts| >= 2 {
      OccursCount(ts[1..], p);
      if Occurs(ts, p) {
        var i: nat :| i + 1 < |ts| && PairAt(ts, i) == p;
        if i > 0 {
          assert PairAt(ts[1..], i - 1) == p;
        }
      }
      if Count(ts, p) > 0 {
        if PairAt(ts, 0) != p {
          var i: nat :| i + 1 < |ts[1..]| && PairAt(ts[1..], i) == p;
          assert PairAt(ts, i + 1) == p;
        }
      }
    }
  }

  lemma {:induction false} BestOfIs(ts: seq<int>, n: nat)
    requires 0 < n < |ts|
    ensures exists i: nat :: i < n && PairAt(ts, i) == BestOf(ts, n)
    ensures forall i: nat :: i < n ==> PairAt(ts, i) == BestOf(ts, n) || Better(ts, BestOf(ts, n), PairAt(ts, i))
  {
    hide Count;
    assert PairAt(ts, 0) == BestOf(ts, 1);
    if n > 1 {
      BestOfIs(ts, n - 1);
      var p, q := PairAt(ts, n - 1), BestOf(ts, n - 1);
      var at: nat :| at < n - 1 && PairAt(ts, at) == q;
      assert PairAt(ts, if Better(ts, p, q) then n - 1 else at) == BestOf(ts, n);
      if Better(ts, p, q) {
        forall i: nat | i < n
          ensures PairAt(ts, i) == p || Better(ts, p, PairAt(ts, i))
        {
          if i < n - 1 && PairAt(ts, i) != q {
            assert Better(ts, q, PairAt(ts, i));
          }
        }
      }
    }
  }

  /** The pair every comparison agrees on: it occurs, and beats every other that does. */
  ghost predicate IsBest(ts: seq<int>, p: Pair) {
    Occurs(ts, p) && forall q :: Occurs(ts, q) ==> q == p || Better(ts, p, q)
  }

  lemma Strict(ts: seq<int>, p: Pair, q: Pair)
    ensures !(Better(ts, p, q) && Better(ts, q, p))
  {
  }

  lemma {:induction false} BestIs(ts: seq<int>, p: Pair)
    requires |ts| >= 2
    ensures IsBest(ts, p) <==> p == Best(ts)
  {
    hide Count, BestOf;
    BestOfIs(ts, |ts| - 1);
    var b := Best(ts);
    forall q | Occurs(ts, q)
      ensures q == b || Better(ts, b, q)
    {
      var i: nat :| i + 1 < |ts| && PairAt(ts, i) == q;
    }
    assert IsBest(ts, b);
    if IsBest(ts, p) && p != b {
      Strict(ts, p, b);
      assert false;
    }
  }

  /** Go on training until n rules are known or nothing repeats. */
  function TrainFrom(ts: seq<int>, k: nat, n: nat): seq<Rule>
    decreases n - k
  {
    if k >= n || |ts| < 2 || Count(ts, Best(ts)) < 2 then []
    else [Merge(Best(ts))] + TrainFrom(Pass(ts, Best(ts), 256 + k), k + 1, n)
  }

  /** The tokens the training text has become by then. */
  function TokensFrom(ts: seq<int>, k: nat, n: nat): seq<int>
    decreases n - k
  {
    if k >= n || |ts| < 2 || Count(ts, Best(ts)) < 2 then ts else TokensFrom(Pass(ts, Best(ts), 256 + k), k + 1, n)
  }

  function Train(text: seq<Byte>, n: nat): seq<Rule> { TrainFrom(Units(text), 0, n) }

  /** Each pass shortens the tokens: a pair that occurs is merged at least once. */
  lemma {:induction false} PassShortens(ts: seq<int>, p: Pair, id: int)
    ensures |Pass(ts, p, id)| <= |ts|
    ensures |Pass(ts, p, id)| < |ts| <==> Count(ts, p) > 0
    decreases |ts|
  {
    if ts == [] {
    } else if |ts| >= 2 && ts[0] == p.a && ts[1] == p.b {
      PassShortens(ts[2..], p, id);
    } else {
      PassShortens(ts[1..], p, id);
    }
  }

  /** After a pass its pair is nowhere side by side. */
  lemma {:induction false} PassClears(ts: seq<int>, p: Pair, id: nat)
    requires Below(ts, id)
    ensures Count(Pass(ts, p, id), p) == 0
    ensures ts != [] ==> Pass(ts, p, id) != [] && Pass(ts, p, id)[0] in {ts[0], id}
    ensures |ts| >= 2 && ts[0] == p.a && ts[1] == p.b ==> Pass(ts, p, id)[0] == id
    decreases |ts|
  {
    if ts == [] {
    } else if |ts| >= 2 && ts[0] == p.a && ts[1] == p.b {
      var tail := Pass(ts[2..], p, id);
      PassClears(ts[2..], p, id);
      assert ([id] + tail)[1..] == tail;
    } else {
      var tail := Pass(ts[1..], p, id);
      PassClears(ts[1..], p, id);
      assert ([ts[0]] + tail)[1..] == tail;
    }
  }

  lemma {:induction false} BestInside(ts: seq<int>, n: int)
    requires |ts| >= 2 && Below(ts, n)
    ensures 0 <= Best(ts).a < n && 0 <= Best(ts).b < n
  {
    hide Count, BestOf;
    BestIs(ts, Best(ts));
    var i: nat :| i + 1 < |ts| && PairAt(ts, i) == Best(ts);
  }

  /** Training yields only rules on bytes and earlier rules, no more than asked for, and fewer than there are tokens. */
  lemma {:induction false} TrainedGrounded(ts: seq<int>, k: nat, n: nat)
    requires Below(ts, 256 + k)
    ensures forall i :: 0 <= i < |TrainFrom(ts, k, n)| ==>
      var r := TrainFrom(ts, k, n)[i]; r.Merge? && 0 <= r.p.a < 256 + k + i && 0 <= r.p.b < 256 + k + i
    ensures |TrainFrom(ts, k, n)| <= (if n > k then n - k else 0)
    ensures |TrainFrom(ts, k, n)| + |TokensFrom(ts, k, n)| <= |ts|
    decreases n - k
  {
    hide Count, Best, Pass;
    if k < n && |ts| >= 2 && Count(ts, Best(ts)) >= 2 {
      var p := Best(ts);
      var next := Pass(ts, p, 256 + k);
      BestInside(ts, 256 + k);
      PassBelow(ts, p, 256 + k);
      PassShortens(ts, p, 256 + k);
      TrainedGrounded(next, k + 1, n);
      var rest := TrainFrom(next, k + 1, n);
      forall i | 0 <= i < |TrainFrom(ts, k, n)|
        ensures var r := TrainFrom(ts, k, n)[i]; r.Merge? && 0 <= r.p.a < 256 + k + i && 0 <= r.p.b < 256 + k + i
      {
        assert TrainFrom(ts, k, n)[i] == if i == 0 then Merge(p) else rest[i - 1];
      }
    }
  }

  lemma {:induction false} TrainedEncodes(ts: seq<int>, before: seq<Rule>, n: nat)
    ensures EncodeFrom(ts, before + TrainFrom(ts, |before|, n), |before|) == TokensFrom(ts, |before|, n)
    decreases n - |before|
  {
    hide Count, Best, Pass;
    var k := |before|;
    if k < n && |ts| >= 2 && Count(ts, Best(ts)) >= 2 {
      var p := Best(ts);
      var next := Pass(ts, p, 256 + k);
      var rest := TrainFrom(next, k + 1, n);
      TrainedEncodes(next, before + [Merge(p)], n);
      assert before + [Merge(p)] + rest == before + ([Merge(p)] + rest);
    } else {
      assert before + [] == before;
    }
  }

  /**
   What training on a text promises: its rules are grounded, so every token of theirs can be decoded; encoding the
   text with them gives the very tokens training ended with; and those decode to the text.
   */
  lemma {:induction false} TrainingSound(text: seq<Byte>, n: nat)
    ensures Grounded(Train(text, n)) && |Train(text, n)| <= n
    ensures Encode(text, Train(text, n)) == TokensFrom(Units(text), 0, n)
    ensures ExpandAll(Train(text, n), TokensFrom(Units(text), 0, n), n) == Some(text)
    ensures |Train(text, n)| + |Encode(text, Train(text, n))| <= |text|
  {
    hide TrainFrom, TokensFrom, EncodeFrom, ExpandAll;
    TrainedGrounded(Units(text), 0, n);
    TrainedEncodes(Units(text), [], n);
    assert [] + Train(text, n) == Train(text, n);
    RoundTrip(text, Train(text, n), n);
  }
}

/** The loops of tBPETrain, tBPEEncode and tBPEDecode. */
module BpeImpl {
  import opened Bpe

  method MergePass(tokens: seq<int>, p: Pair, id: int) returns (merged: seq<int>)
    ensures merged == Pass(tokens, p, id)
  {
    merged := [];
    var i := 0;
    assert tokens[0..] == tokens;
    while i < |tokens|
      invariant 0 <= i <= |tokens|
      invariant merged + Pass(tokens[i..], p, id) == Pass(tokens, p, id)
    {
      ghost var rest := tokens[i..];
      if i < |tokens| - 1 && tokens[i] == p.a && tokens[i + 1] == p.b {
        assert rest[2..] == tokens[i + 2..];
        assert merged + ([id] + Pass(rest[2..], p, id)) == merged + [id] + Pass(rest[2..], p, id);
        merged := merged + [id];
        i := i + 2;
      } else {
        assert rest[1..] == tokens[i + 1..];
        assert merged + ([tokens[i]] + Pass(rest[1..], p, id)) == merged + [tokens[i]] + Pass(rest[1..], p, id);
        merged := merged + [tokens[i]];
        i := i + 1;
      }
    }
    assert tokens[i..] == [];
  }

  lemma {:induction false} CountSplit(ts: seq<int>, i: nat, p: Pair)
    requires i + 1 < |ts|
    ensures Count(ts[..i + 2], p) == Count(ts[..i + 1], p) + if PairAt(ts, i) == p then 1 else 0
    decreases i
  {
    if i > 0 {
      assert ts[..i + 2][1..] == ts[1..][..i + 1];
      assert ts[..i + 1][1..] == ts[1..][..i];
      CountSplit(ts[1..], i - 1, p);
    }
  }

  method CountPairs(tokens: seq<int>) returns (counts: map<Pair, nat>)
    ensures forall p :: p in counts <==> Occurs(tokens, p)
    ensures forall p :: p in counts ==> counts[p] == Count(tokens, p) > 0
  {
    hide Count, Occurs;
    counts := map[];
    var i := 0;
    ghost var seen := tokens[..if tokens == [] then 0 else 1];
    CountNone(seen);
    while i < |tokens| - 1
      invariant 0 <= i && (i < |tokens| || tokens == []) && seen == tokens[..if tokens == [] then 0 else i + 1]
      invariant forall p :: Count(seen, p) == if p in counts then counts[p] else 0
      invariant forall p :: p in counts ==> counts[p] > 0
    {
      var pair := PairAt(tokens, i);
      ghost var more := tokens[..i + 2];
      forall p
        ensures Count(more, p) == Count(seen, p) + if p == pair then 1 else 0
      {
        CountSplit(tokens, i, p);
      }
      counts := counts[pair := (if pair in counts then counts[pair] else 0) + 1];
      i := i + 1;
      seen := more;
    }
    assert seen == tokens;
    forall p
      ensures p in counts <==> Occurs(tokens, p)
    {
      OccursCount(tokens, p);
    }
  }

  lemma {:induction false} CountNone(ts: seq<int>)
    requires |ts| < 2
    ensures forall p :: Count(ts, p) == 0
  {
  }

  /** The keys are visited in whatever order: the pair found is the same. */
  method MostFrequent(tokens: seq<int>) returns (best: Pair, count: nat)
    ensures if |tokens| < 2 then count == 0 else best == Best(tokens) && count == Count(tokens, best)
  {
    hide Count, Occurs;
    var counts := CountPairs(tokens);
    best, count := Pair(0, 0), 0;
    var keys := counts.Keys;
    while keys != {}
      invariant keys <= counts.Keys
      invariant count == 0 <==> keys == counts.Keys
      invariant count > 0 ==> best in counts.Keys - keys && count == counts[best]
      invariant forall q :: q in counts.Keys - keys ==> q == best || Better(tokens, best, q)
      decreases |keys|
    {
      var pair :| pair in keys;
      keys := keys - {pair};
      if counts[pair] > count || (counts[pair] == count && Less(pair, best)) {
        forall q | q in counts.Keys - keys
          ensures q == pair || Better(tokens, pair, q)
        {
          if q != pair && q != best {
            assert Better(tokens, best, q);
          }
        }
        best, count := pair, counts[pair];
      }
    }
    if |tokens| >= 2 {
      assert PairAt(tokens, 0) in counts by {
        OccursFirst(tokens);
      }
      assert IsBest(tokens, best);
      BestIs(tokens, best);
    } else {
      assert counts.Keys == {} by {
        forall p
          ensures !Occurs(tokens, p)
        {
          NoneOccurs(tokens, p);
        }
      }
    }
  }

  lemma OccursFirst(ts: seq<int>)
    requires |ts| >= 2
    ensures Occurs(ts, PairAt(ts, 0))
  {
  }

  lemma NoneOccurs(ts: seq<int>, p: Pair)
    requires |ts| < 2
    ensures !Occurs(ts, p)
  {
  }

  /** The optional max_chars. */
  datatype Limit = Whole | Chars(n: int)

  /** How much of a text of n bytes is looked at; a negative limit is taken as it is, and slicing with it panics. */
  function CutAt(n: nat, limit: Limit): int { if limit.Chars? && limit.n < n then limit.n else n }

  datatype Trained = Rules(merges: seq<Rule>) | BadSize | Panics

  datatype Encoded = Tokens(ts: seq<int>) | Panicked

  method TrainBPE(wholeText: seq<Byte>, vocabSize: int, limit: Limit) returns (r: Trained)
    ensures r ==
      if !(256 < vocabSize <= 32768) then BadSize
      else if CutAt(|wholeText|, limit) < 0 then Panics
      else Rules(Train(wholeText[..CutAt(|wholeText|, limit)], vocabSize - 256))
  {
    hide Count, Best, Pass;
    if vocabSize <= 256 || vocabSize > 32768 {
      return BadSize;
    }
    var maxChars: int := |wholeText|;
    if limit.Chars? && limit.n < maxChars {
      maxChars := limit.n;
    }
    if maxChars < 0 {
      return Panics;
    }
    var text := wholeText[..maxChars];
    var numMerges := vocabSize - 256;
    var tokens := ToUnits(text);
    var merges: seq<Rule> := [];
    var merge := 0;
    var going := true;
    while going && merge < numMerges
      invariant 0 <= merge <= numMerges
      invariant Train(text, numMerges) == merges + if going then TrainFrom(tokens, merge, numMerges) else []
      decreases going, numMerges - merge
    {
      var bestPair, bestCount := MostFrequent(tokens);
      if bestCount < 2 {
        going := false;
      } else {
        var newTokens := MergePass(tokens, bestPair, 256 + merge);
        assert merges + ([Merge(bestPair)] + TrainFrom(newTokens, merge + 1, numMerges)) ==
               merges + [Merge(bestPair)] + TrainFrom(newTokens, merge + 1, numMerges);
        tokens := newTokens;
        merges := merges + [Merge(bestPair)];
        merge := merge + 1;
      }
    }
    r := Rules(merges);
  }

  method ToUnits(text: seq<Byte>) returns (tokens: seq<int>)
    ensures tokens == Units(text)
  {
    tokens := [];
    for i := 0 to |text|
      invariant |tokens| == i
      invariant forall j :: 0 <= j < i ==> tokens[j] == text[j]
    {
      tokens := tokens + [text[i]];
    }
  }

  method EncodeBPE(wholeText: seq<Byte>, rules: seq<Rule>, limit: Limit) returns (r: Encoded)
    ensures r == if CutAt(|wholeText|, limit) < 0 then Panicked
      else Tokens(Encode(wholeText[..CutAt(|wholeText|, limit)], rules))
  {
    var maxChars: int := |wholeText|;
    if limit.Chars? && limit.n < maxChars {
      maxChars := limit.n;
    }
    if maxChars < 0 {
      return Panicked;
    }
    var text := wholeText[..maxChars];
    var tokens := ToUnits(text);
    for ri := 0 to |rules|
      invariant Encode(text, rules) == EncodeFrom(tokens, rules, ri)
    {
      if rules[ri].Merge? {
        tokens := MergePass(tokens, rules[ri].p, 256 + ri);
      }
    }
    r := Tokens(tokens);
  }

  /** The recursion of tBPEDecode, over the map it builds from the rules. */
  method ExpandToken(ghost rules: seq<Rule>, mergeMap: map<int, Pair>, id: int, ghost depth: nat) returns (s: seq<Byte>)
    requires Lookup(mergeMap, rules) && Expand(rules, id, depth).Some?
    ensures Some(s) == Expand(rules, id, depth)
    decreases depth
  {
    if id < 256 {
      return [id % 0x100];
    }
    if id in mergeMap {
      var x := ExpandToken(rules, mergeMap, mergeMap[id].a, depth - 1);
      var y := ExpandToken(rules, mergeMap, mergeMap[id].b, depth - 1);
      return x + y;
    }
    return [0x3F];
  }

  ghost predicate Lookup(mergeMap: map<int, Pair>, rules: seq<Rule>) {
    && (forall id :: id in mergeMap <==> 256 <= id < 256 + |rules| && rules[id - 256].Merge?)
    && (forall id :: id in mergeMap ==> mergeMap[id] == rules[id - 256].p)
  }

  method MergeMap(rules: seq<Rule>) returns (mergeMap: map<int, Pair>)
    ensures Lookup(mergeMap, rules)
  {
    mergeMap := map[];
    for ri := 0 to |rules|
      invariant Lookup(mergeMap, rules[..ri])
    {
      if rules[ri].Merge? {
        mergeMap := mergeMap[256 + ri := rules[ri].p];
      }
    }
    assert rules[..|rules|] == rules;
  }

  /** Decoding, where the recursion ends: from no token does a walk of mentions come to a token twice. */
  method DecodeBPE(tokens: seq<int>, rules: seq<Rule>) returns (result: seq<Byte>)
    requires forall i :: 0 <= i < |tokens| ==> !ComesBack(rules, tokens[i])
    ensures Some(result) == ExpandAll(rules, tokens, |rules|)
  {
    hide ComesBack;
    ExpandAllExact(rules, tokens);
    hide Expand;
    ghost var depth := |rules|;
    var mergeMap := MergeMap(rules);
    hide Lookup;
    result := [];
    assert tokens[0..] == tokens;
    for i := 0 to |tokens|
      invariant ExpandAll(rules, tokens[i..], depth).Some?
      invariant ExpandAll(rules, tokens, depth) == Some(result + ExpandAll(rules, tokens[i..], depth).s)
    {
      assert tokens[i..][1..] == tokens[i + 1..] && tokens[i..][0] == tokens[i];
      var s := ExpandToken(rules, mergeMap, tokens[i], depth);
      assert result + (s + ExpandAll(rules, tokens[i + 1..], depth).s) == result + s
        + ExpandAll(rules, tokens[i + 1..], depth).s;
      result := result + s;
    }
    assert tokens[|tokens|..] == [];
  }
}
