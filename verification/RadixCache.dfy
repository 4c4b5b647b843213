/** The prompt cache as a value: the trie beside the recency-ordered prompts. */
module RadixCacheModel {
  import opened RadixTrie
  import opened Sequences

  datatype Cache = Cache(capacity: int, prompts: seq<string>, root: Trie)

  datatype Op = InsertPrefix(prompt: string) | LookupPrefix(query: string)

  /** An ordered dictionary's keys: no prompt occurs twice. */
  ghost predicate Distinct(ps: seq<string>) {
    Pairwise(ps, Differ)
  }

  predicate Differ(x: string, y: string) { x != y }

  function Without(ps: seq<string>, p: string): (r: seq<string>) {
    Filter(ps, x => x != p)
  }

  function MoveToEnd(ps: seq<string>, p: string): seq<string> {
    Without(ps, p) + [p]
  }

  /** The prompts of `ps`, in order, that do (`wanted`) or do not start with `prefix`. */
  function Pick(ps: seq<string>, prefix: string, wanted: bool): seq<string> {
    Filter(ps, x => (prefix <= x) == wanted)
  }

  function Touch(ps: seq<string>, prefix: string): seq<string> {
    if prefix == [] then ps else Pick(ps, prefix, false) + Pick(ps, prefix, true)
  }

  function Found(c: Cache, q: string): string {
    q[..Search(c.root, q)]
  }

  function Apply(c: Cache, op: Op): Cache {
    match op
    case LookupPrefix(q) => c.(prompts := Touch(c.prompts, Found(c, q)))
    case InsertPrefix(p) =>
      var ps := MoveToEnd(c.prompts, p);
      if |ps| > c.capacity then c.(prompts := ps[1..], root := InsertAll(EMPTY, ps[1..]))
      else c.(prompts := ps, root := Insert(c.root, p))
  }

  function Run(capacity: int, ops: seq<Op>): Cache {
    if ops == [] then Cache(capacity, [], EMPTY)
    else Apply(Run(capacity, ops[..|ops| - 1]), ops[|ops| - 1])
  }

  ghost predicate Good(c: Cache) {
    && Distinct(c.prompts)
    && |c.prompts| <= (if c.capacity > 0 then c.capacity else 0)
    && c.root.path == [] && Shaped(c.root)
    && Spells(c.root, Words(c.prompts))
  }

  // ---- recency lists ----

  lemma {:induction false} WithoutIs(ps: seq<string>, p: string)
    requires Distinct(ps)
    ensures Distinct(Without(ps, p)) && Words(Without(ps, p)) == Words(ps) - {p}
  {
    FilterPairwise(ps, x => x != p, Differ);
    forall x { FilterIn(ps, y => y != p, x); }
  }

  lemma {:induction false} PickIs(ps: seq<string>, prefix: string, wanted: bool)
    requires Distinct(ps)
    ensures Distinct(Pick(ps, prefix, wanted))
    ensures forall x :: x in Pick(ps, prefix, wanted) <==> x in ps && (prefix <= x) == wanted
  {
    FilterPairwise(ps, x => (prefix <= x) == wanted, Differ);
    forall x { FilterIn(ps, y => (prefix <= y) == wanted, x); }
  }

  lemma {:induction false} PickSizes(ps: seq<string>, prefix: string)
    ensures |Pick(ps, prefix, false)| + |Pick(ps, prefix, true)| == |ps|
  {
    if ps != [] { PickSizes(ps[..|ps| - 1], prefix); }
  }

  lemma {:induction false} TouchIs(ps: seq<string>, prefix: string)
    requires Distinct(ps)
    ensures Distinct(Touch(ps, prefix)) && Words(Touch(ps, prefix)) == Words(ps)
    ensures |Touch(ps, prefix)| == |ps|
  {
    PickIs(ps, prefix, false);
    PickIs(ps, prefix, true);
    PickSizes(ps, prefix);
    PairwiseAppend(Pick(ps, prefix, false), Pick(ps, prefix, true), Differ);
  }

  lemma {:induction false} MoveToEndIs(ps: seq<string>, p: string)
    requires Distinct(ps)
    ensures Distinct(MoveToEnd(ps, p)) && Words(MoveToEnd(ps, p)) == Words(ps) + {p}
    ensures |MoveToEnd(ps, p)| <= |ps| + 1
  {
    WithoutIs(ps, p);
    assert p !in Words(Without(ps, p));
    PairwiseAppend(Without(ps, p), [p], Differ);
    assert Words(Without(ps, p) + [p]) == Words(Without(ps, p)) + {p};
  }

  // ---- every reachable cache ----

  lemma {:induction false} ApplyIsGood(c: Cache, op: Op)
    requires Good(c)
    ensures Good(Apply(c, op)) && Apply(c, op).capacity == c.capacity
  {
    match op
    case LookupPrefix(q) =>
      TouchIs(c.prompts, Found(c, q));
    case InsertPrefix(p) =>
      MoveToEndIs(c.prompts, p);
      InsertSpells(c.root, p, Words(c.prompts));
      InsertAllSpells(MoveToEnd(c.prompts, p)[1..]);
  }

  /** Trie and prompt set agree, the trie is compressed and the bound holds after every history. */
  lemma {:induction false} RunIsGood(capacity: int, ops: seq<Op>)
    ensures Good(Run(capacity, ops)) && Run(capacity, ops).capacity == capacity
  {
    if ops == [] {
      InsertAllSpells([]);
    } else {
      RunIsGood(capacity, ops[..|ops| - 1]);
      ApplyIsGood(Run(capacity, ops[..|ops| - 1]), ops[|ops| - 1]);
    }
  }

  /** A lookup after any history finds the longest prefix anchored by the cached prompts. */
  lemma {:induction false} LookupIsLongestAnchor(capacity: int, ops: seq<Op>, q: string)
    ensures LongestAnchor(Words(Run(capacity, ops).prompts), q, Search(Run(capacity, ops).root, q))
  {
    RunIsGood(capacity, ops);
    var c := Run(capacity, ops);
    SearchFindsLongestAnchor(c.root, Words(c.prompts), q);
  }

  lemma {:induction false} OneLongestAnchor(words: set<string>, q: string, m: nat, n: nat)
    requires LongestAnchor(words, q, m) && LongestAnchor(words, q, n)
    ensures m == n
  {
    assert Anchor(words, q[..m]) && Anchor(words, q[..n]);
  }

  /** Two histories that leave the same prompts cached answer every lookup alike. */
  lemma {:induction false} HistoryDoesNotMatter(cap1: int, ops1: seq<Op>, cap2: int, ops2: seq<Op>, q: string)
    requires Words(Run(cap1, ops1).prompts) == Words(Run(cap2, ops2).prompts)
    ensures Found(Run(cap1, ops1), q) == Found(Run(cap2, ops2), q)
  {
    LookupIsLongestAnchor(cap1, ops1, q);
    LookupIsLongestAnchor(cap2, ops2, q);
    OneLongestAnchor(Words(Run(cap1, ops1).prompts), q,
                     Search(Run(cap1, ops1).root, q), Search(Run(cap2, ops2).root, q));
  }

  // ---- position is recency ----

  /** The prompts an operation uses. */
  ghost function Used(c: Cache, op: Op): set<string> {
    match op
    case InsertPrefix(p) => {p}
    case LookupPrefix(q) =>
      var prefix := Found(c, q);
      if prefix == [] then {} else set p | p in c.prompts && prefix <= p
  }

  /** When each prompt was last used, counting operations; 0 for a prompt never used. */
  ghost function LastUse(capacity: int, ops: seq<Op>, p: string): nat {
    if ops == [] then 0
    else if p in Used(Run(capacity, ops[..|ops| - 1]), ops[|ops| - 1]) then |ops|
    else LastUse(capacity, ops[..|ops| - 1], p)
  }

  ghost predicate Sooner(capacity: int, ops: seq<Op>, x: string, y: string) {
    LastUse(capacity, ops, x) <= LastUse(capacity, ops, y)
  }

  /** Least recently used first. */
  ghost predicate ByRecency(capacity: int, ops: seq<Op>, ps: seq<string>) {
    Pairwise(ps, (x, y) => Sooner(capacity, ops, x, y))
  }

  lemma {:induction false} LastUseBound(capacity: int, ops: seq<Op>, p: string)
    ensures LastUse(capacity, ops, p) <= |ops|
  {
    if ops != [] { LastUseBound(capacity, ops[..|ops| - 1], p); }
  }

  // After `op`: unused prompts in their old order, then prompts `op` has just used.
  lemma {:induction false} AppendByRecency(capacity: int, ops: seq<Op>, op: Op, older: seq<string>, recent: seq<string>)
    requires ByRecency(capacity, ops, older)
    requires forall x :: x in older ==> x !in Used(Run(capacity, ops), op)
    requires forall x :: x in recent ==> x in Used(Run(capacity, ops), op)
    ensures ByRecency(capacity, ops + [op], older + recent)
  {
    var ops' := ops + [op];
    assert ops'[..|ops|] == ops;
    forall x { LastUseBound(capacity, ops, x); }
    forall i, j | 0 <= i < j < |older| ensures Sooner(capacity, ops', older[i], older[j]) {
      assert Sooner(capacity, ops, older[i], older[j]);
      assert older[i] in older && older[j] in older;
    }
    forall x, y | x in older && y in recent ensures Sooner(capacity, ops', x, y) {
      assert LastUse(capacity, ops', x) == LastUse(capacity, ops, x);
      assert LastUse(capacity, ops', y) == |ops'|;
    }
    PairwiseAppend(older, recent, (x, y) => Sooner(capacity, ops', x, y));
  }

  // The whole recency list right after `op`, before any eviction.
  ghost function Queue(c: Cache, op: Op): seq<string> {
    match op
    case InsertPrefix(p) => MoveToEnd(c.prompts, p)
    case LookupPrefix(q) => Touch(c.prompts, Found(c, q))
  }

  lemma {:induction false} QueueByRecency(capacity: int, ops: seq<Op>, op: Op)
    requires ByRecency(capacity, ops, Run(capacity, ops).prompts)
    ensures ByRecency(capacity, ops + [op], Queue(Run(capacity, ops), op))
  {
    RunIsGood(capacity, ops);
    var c := Run(capacity, ops);
    var before := (x, y) => Sooner(capacity, ops, x, y);
    match op
    case InsertPrefix(p) =>
      FilterPairwise(c.prompts, x => x != p, before);
      WithoutIs(c.prompts, p);
      assert forall x :: x in Without(c.prompts, p) ==> x in Words(Without(c.prompts, p));
      AppendByRecency(capacity, ops, op, Without(c.prompts, p), [p]);
    case LookupPrefix(q) =>
      var prefix := Found(c, q);
      if prefix == [] {
        AppendByRecency(capacity, ops, op, c.prompts, []);
        assert c.prompts + [] == c.prompts;
      } else {
        FilterPairwise(c.prompts, x => (prefix <= x) == false, before);
        PickIs(c.prompts, prefix, false);
        PickIs(c.prompts, prefix, true);
        AppendByRecency(capacity, ops, op, Pick(c.prompts, prefix, false), Pick(c.prompts, prefix, true));
      }
  }

  /** Position in `prompts` is recency: the list is sorted by time of last use. */
  lemma {:induction false} RunByRecency(capacity: int, ops: seq<Op>)
    ensures ByRecency(capacity, ops, Run(capacity, ops).prompts)
  {
    if ops != [] {
      var init, op := ops[..|ops| - 1], ops[|ops| - 1];
      RunByRecency(capacity, init);
      QueueByRecency(capacity, init, op);
      assert init + [op] == ops;
    }
  }

  /** An insertion over capacity drops one prompt, and none that stays was used less recently. */
  lemma {:induction false} EvictionIsLeastRecent(capacity: int, ops: seq<Op>, p: string)
    requires |MoveToEnd(Run(capacity, ops).prompts, p)| > capacity
    ensures var ops' := ops + [InsertPrefix(p)];
      var before, after := Words(Run(capacity, ops).prompts), Words(Run(capacity, ops').prompts);
      exists victim ::
        && victim in before + {p} && after == before + {p} - {victim}
        && forall x :: x in after ==> Sooner(capacity, ops', victim, x)
  {
    var ops' := ops + [InsertPrefix(p)];
    assert ops'[..|ops|] == ops;
    RunIsGood(capacity, ops);
    RunByRecency(capacity, ops);
    QueueByRecency(capacity, ops, InsertPrefix(p));
    var c := Run(capacity, ops);
    var ps := MoveToEnd(c.prompts, p);
    MoveToEndIs(c.prompts, p);
    assert ps == [ps[0]] + ps[1..];
    assert Words(ps) == {ps[0]} + Words(ps[1..]);
    assert forall x :: x in ps[1..] ==> Differ(ps[0], x) && Sooner(capacity, ops', ps[0], x);
  }

  // ---- what is cached ----

  /** Every prompt ever inserted. */
  function Inserted(ops: seq<Op>): set<string> {
    if ops == [] then {}
    else Inserted(ops[..|ops| - 1]) + if ops[|ops| - 1].InsertPrefix? then {ops[|ops| - 1].prompt} else {}
  }

  lemma {:induction false} CacheFits(c: Cache, p: string)
    requires Good(c)
    ensures |Words(c.prompts) + {p}| <= c.capacity ==>
      Words(Apply(c, InsertPrefix(p)).prompts) == Words(c.prompts) + {p}
    ensures c.capacity > 0 ==> p in Apply(c, InsertPrefix(p)).prompts
  {
    var ps := MoveToEnd(c.prompts, p);
    MoveToEndIs(c.prompts, p);
    DistinctSize(ps);
    assert ps[|ps| - 1] == p;
    assert |ps| > 1 ==> ps[1..][|ps| - 2] == p;
  }

  /** An insertion that fits adds its prompt and drops nothing. */
  lemma {:induction false} InsertionFits(capacity: int, ops: seq<Op>, p: string)
    requires |Words(Run(capacity, ops).prompts) + {p}| <= capacity
    ensures Words(Run(capacity, ops + [InsertPrefix(p)]).prompts) == Words(Run(capacity, ops).prompts) + {p}
  {
    assert (ops + [InsertPrefix(p)])[..|ops|] == ops;
    RunIsGood(capacity, ops);
    CacheFits(Run(capacity, ops), p);
  }

  /** A lookup changes no more than the order of what is cached. */
  lemma {:induction false} LookupKeepsPrompts(capacity: int, ops: seq<Op>, q: string)
    ensures Words(Run(capacity, ops + [LookupPrefix(q)]).prompts) == Words(Run(capacity, ops).prompts)
  {
    assert (ops + [LookupPrefix(q)])[..|ops|] == ops;
    RunIsGood(capacity, ops);
    TouchIs(Run(capacity, ops).prompts, Found(Run(capacity, ops), q));
  }

  lemma {:induction false} DistinctSize(ps: seq<string>)
    requires Distinct(ps)
    ensures |Words(ps)| == |ps|
  {
    if ps != [] {
      var init, last := ps[..|ps| - 1], ps[|ps| - 1];
      DistinctSize(init);
      assert ps == init + [last];
      assert Words(ps) == Words(init) + {last};
      forall i | 0 <= i < |init| ensures init[i] != last { assert Differ(ps[i], ps[|ps| - 1]); }
      assert last !in Words(init);
    }
  }

  lemma {:induction false} InsertedIsCached(capacity: int, ops: seq<Op>, p: string)
    requires capacity > 0
    ensures p in Words(Run(capacity, ops + [InsertPrefix(p)]).prompts)
  {
    assert (ops + [InsertPrefix(p)])[..|ops|] == ops;
    RunIsGood(capacity, ops);
    CacheFits(Run(capacity, ops), p);
  }

  /** A prompt just inserted is found under everything that continues it. */
  lemma {:induction false} InsertedIsFound(capacity: int, ops: seq<Op>, p: string, x: string)
    requires capacity > 0
    ensures p <= Found(Run(capacity, ops + [InsertPrefix(p)]), p + x)
  {
    var c, q := Run(capacity, ops + [InsertPrefix(p)]), p + x;
    InsertedIsCached(capacity, ops, p);
    LookupIsLongestAnchor(capacity, ops + [InsertPrefix(p)], q);
    assert q[..|p|] == p && Anchor(Words(c.prompts), q[..|p|]);
    assert |p| <= Search(c.root, q);
  }

  // Before any eviction the insertion has `p` and everything that was cached; the front goes if that is too many.
  lemma {:induction false} InsertionSize(capacity: int, ops: seq<Op>, p: string)
    ensures var ops' := ops + [InsertPrefix(p)];
      var before, after := Words(Run(capacity, ops).prompts), Words(Run(capacity, ops').prompts);
      after <= before + {p} && |after| == if |before + {p}| > capacity then |before + {p}| - 1 else |before + {p}|
  {
    assert (ops + [InsertPrefix(p)])[..|ops|] == ops;
    RunIsGood(capacity, ops);
    RunIsGood(capacity, ops + [InsertPrefix(p)]);
    var ps := MoveToEnd(Run(capacity, ops).prompts, p);
    MoveToEndIs(Run(capacity, ops).prompts, p);
    DistinctSize(ps);
    DistinctSize(Run(capacity, ops + [InsertPrefix(p)]).prompts);
    assert forall x :: x in ps[1..] ==> x in ps;
  }

  /** As many prompts are cached as were ever inserted, up to the capacity. */
  lemma {:induction false} HoldsAllThatFits(capacity: int, ops: seq<Op>)
    ensures Words(Run(capacity, ops).prompts) <= Inserted(ops)
    ensures |Words(Run(capacity, ops).prompts)| ==
      if |Inserted(ops)| <= capacity then |Inserted(ops)| else if capacity > 0 then capacity else 0
  {
    if ops != [] {
      var init, op := ops[..|ops| - 1], ops[|ops| - 1];
      assert init + [op] == ops;
      HoldsAllThatFits(capacity, init);
      match op
      case LookupPrefix(q) => LookupKeepsPrompts(capacity, init, q);
      case InsertPrefix(p) =>
        InsertionSize(capacity, init, p);
        InsertionCounts(Words(Run(capacity, init).prompts), Inserted(init), p);
    }
  }

  lemma {:induction false} InsertionCounts(held: set<string>, ever: set<string>, p: string)
    requires held <= ever
    ensures |held| <= |ever| && (|held| == |ever| ==> held == ever)
    ensures |held + {p}| == |held| + if p in held then 0 else 1
    ensures |ever + {p}| == |ever| + if p in ever then 0 else 1
  {
    assert ever == held + (ever - held);
    if p in held { assert held + {p} == held; }
    if p in ever { assert ever + {p} == ever; }
  }

  lemma {:induction false} UseIsLasting(capacity: int, ops: seq<Op>, op: Op, x: string)
    ensures LastUse(capacity, ops, x) <= LastUse(capacity, ops + [op], x) <= |ops| + 1
    ensures x !in Used(Run(capacity, ops), op) ==> LastUse(capacity, ops + [op], x) == LastUse(capacity, ops, x)
    ensures x in Used(Run(capacity, ops), op) ==> LastUse(capacity, ops + [op], x) == |ops| + 1
  {
    assert (ops + [op])[..|ops|] == ops;
    LastUseBound(capacity, ops, x);
  }

  /** What is cached was used no less recently than anything inserted that is not. */
  lemma {:induction false} CachedAreMostRecent(capacity: int, ops: seq<Op>, x: string, y: string)
    requires x in Words(Run(capacity, ops).prompts) && y in Inserted(ops) && y !in Words(Run(capacity, ops).prompts)
    ensures Sooner(capacity, ops, y, x)
    decreases |ops|, 1
  {
    var init, op := ops[..|ops| - 1], ops[|ops| - 1];
    assert init + [op] == ops;
    UseIsLasting(capacity, init, op, x);
    UseIsLasting(capacity, init, op, y);
    match op
    case LookupPrefix(q) =>
      LookupKeepsPrompts(capacity, init, q);
      CachedAreMostRecent(capacity, init, x, y);
    case InsertPrefix(p) => InsertionKeepsRecent(capacity, init, p, x, y);
  }

  lemma {:induction false} InsertionKeepsRecent(capacity: int, init: seq<Op>, p: string, x: string, y: string)
    requires var ops := init + [InsertPrefix(p)];
      x in Words(Run(capacity, ops).prompts) && y in Inserted(ops) && y !in Words(Run(capacity, ops).prompts)
    ensures Sooner(capacity, init + [InsertPrefix(p)], y, x)
    decreases |init| + 1, 0
  {
    var ops := init + [InsertPrefix(p)];
    var before := Words(Run(capacity, init).prompts);
    assert ops[..|init|] == init;
    UseIsLasting(capacity, init, InsertPrefix(p), x);
    UseIsLasting(capacity, init, InsertPrefix(p), y);
    InsertionSize(capacity, init, p);
    if |before + {p}| <= capacity {
      InsertionFits(capacity, init, p);
    }
    if y in before + {p} {
      RunIsGood(capacity, init);
      MoveToEndIs(Run(capacity, init).prompts, p);
      DistinctSize(MoveToEnd(Run(capacity, init).prompts, p));
      EvictionIsLeastRecent(capacity, init, p);
    } else if x != p {
      CachedAreMostRecent(capacity, init, x, y);
    }
  }
}
