/** The compressed trie as a value: insertion with splits, search, and what its nodes mean. */
module RadixTrie {

  datatype Trie = Trie(path: string, children: seq<Trie>, leaf: bool)

  const EMPTY := Trie([], [], false)

  function CommonPrefix(a: string, b: string): (n: nat)
    ensures n <= |a| && n <= |b| && a[..n] == b[..n]
    ensures n < |a| && n < |b| ==> a[n] != b[n]
  {
    if a == [] || b == [] || a[0] != b[0] then 0
    else
      var n := 1 + CommonPrefix(a[1..], b[1..]);
      assert a[..n] == [a[0]] + a[1..][..n - 1] && b[..n] == [b[0]] + b[1..][..n - 1];
      n
  }

  /** The longest string two strings both start with. */
  function Shared(a: string, b: string): string {
    a[..CommonPrefix(a, b)]
  }

  /** First child from `i` on that shares a token with `tokens`, or `|kids|`. */
  function FirstOverlap(kids: seq<Trie>, tokens: string, i: nat): (r: nat)
    requires i <= |kids|
    ensures i <= r <= |kids|
    ensures r < |kids| ==> CommonPrefix(kids[r].path, tokens) > 0
    ensures forall j :: i <= j < r ==> CommonPrefix(kids[j].path, tokens) == 0
    decreases |kids| - i
  {
    if i == |kids| || CommonPrefix(kids[i].path, tokens) > 0 then i
    else FirstOverlap(kids, tokens, i + 1)
  }

  /** First child from `i` on whose whole path starts `tokens`, or `|kids|`. */
  function FirstMatch(kids: seq<Trie>, tokens: string, i: nat): (r: nat)
    requires i <= |kids|
    ensures i <= r <= |kids|
    ensures r < |kids| ==> kids[r].path <= tokens
    ensures forall j :: i <= j < r ==> !(kids[j].path <= tokens)
    decreases |kids| - i
  {
    if i == |kids| || CommonPrefix(kids[i].path, tokens) == |kids[i].path| then i
    else FirstMatch(kids, tokens, i + 1)
  }

  /** Cut a node after `k` tokens; the lower half keeps the children and the mark. */
  function Split(c: Trie, k: nat): Trie
    requires k <= |c.path|
  {
    if k < |c.path| then Trie(c.path[..k], [c.(path := c.path[k..])], false) else c
  }

  function Insert(t: Trie, tokens: string): (r: Trie)
    ensures r.path == t.path
    decreases |tokens|
  {
    if tokens == [] then t.(leaf := true)
    else
      var i := FirstOverlap(t.children, tokens, 0);
      if i == |t.children| then t.(children := t.children + [Trie(tokens, [], true)])
      else
        var k := CommonPrefix(t.children[i].path, tokens);
        t.(children := t.children[i := Insert(Split(t.children[i], k), tokens[k..])])
  }

  function InsertAll(t: Trie, prompts: seq<string>): Trie
    decreases |prompts|
  {
    if prompts == [] then t
    else Insert(InsertAll(t, prompts[..|prompts| - 1]), prompts[|prompts| - 1])
  }

  /** How many tokens of `q` the search loop consumes below `t`. */
  function Search(t: Trie, q: string): (n: nat)
    ensures n <= |q|
    decreases t
  {
    if q == [] then 0
    else
      var i := FirstMatch(t.children, q, 0);
      if i == |t.children| then 0
      else |t.children[i].path| + Search(t.children[i], q[|t.children[i].path|..])
  }

  // ---- what a trie means ----

  /** `w` is spelled by a path from `t` to a marked node. */
  ghost predicate Holds(t: Trie, w: string)
    decreases t, 0
  {
    (w == [] && t.leaf) || exists i :: 0 <= i < |t.children| && Via(t.children[i], w)
  }

  ghost predicate Via(c: Trie, w: string)
    decreases c, 1
  {
    c.path <= w && Holds(c, w[|c.path|..])
  }

  /** `p` is spelled by a path from `t` to some node, marked or not. */
  ghost predicate NodeAt(t: Trie, p: string)
    decreases t, 0
  {
    p == [] || exists i :: 0 <= i < |t.children| && Reach(t.children[i], p)
  }

  ghost predicate Reach(c: Trie, p: string)
    decreases c, 1
  {
    c.path <= p && NodeAt(c, p[|c.path|..])
  }

  /** A node below the root has a path, and is marked or branches. */
  predicate Kid(c: Trie) {
    c.path != [] && (c.leaf || |c.children| >= 2)
  }

  predicate Shaped(t: Trie)
    decreases t
  {
    && (forall i :: 0 <= i < |t.children| ==> Kid(t.children[i]) && Shaped(t.children[i]))
    && (forall i, j :: 0 <= i < j < |t.children| ==> t.children[i].path[0] != t.children[j].path[0])
  }

  // ---- insertion ----

  lemma {:induction false} ViaSplit(c: Trie, k: nat, w: string)
    requires 0 < k <= |c.path|
    ensures Via(Split(c, k), w) <==> Via(c, w)
  {
    if k < |c.path| {
      var lower := c.(path := c.path[k..]);
      var upper := Split(c, k);
      assert c.path == c.path[..k] + c.path[k..];
      assert upper.children[0] == lower;
      assert forall u :: Via(lower, u) ==> Via(upper.children[0], u);
      assert forall u :: Holds(upper, u) <==> Via(lower, u);
      assert forall u :: Holds(lower, u) <==> Holds(c, u);
      if upper.path <= w {
        assert w == w[..k] + w[k..];
        assert lower.path <= w[k..] ==> w[k..][|lower.path|..] == w[|c.path|..];
      }
    }
  }

  lemma {:induction false} ShapedSplit(c: Trie, k: nat)
    requires Kid(c) && Shaped(c) && 0 < k <= |c.path|
    ensures Shaped(Split(c, k))
  {
    if k < |c.path| {
      var lower := c.(path := c.path[k..]);
      assert Split(c, k).children == [lower];
      assert Shaped(lower) && Kid(lower);
    }
  }

  // Replacing one child changes what is spelled exactly as that child changes.
  lemma {:induction false} ReplaceChild(t: Trie, i: nat, d: Trie, s: string, w: string)
    requires i < |t.children| && s != []
    requires Via(d, w) <==> Via(t.children[i], w) || w == s
    ensures Holds(t.(children := t.children[i := d]), w) <==> Holds(t, w) || w == s
  {
    var r := t.(children := t.children[i := d]);
    assert r.children[i] == d;
    assert forall j :: 0 <= j < |t.children| && j != i ==> r.children[j] == t.children[j];
    if Holds(t, w) && !(w == [] && t.leaf) {
      var j :| 0 <= j < |t.children| && Via(t.children[j], w);
      assert Via(r.children[j], w);
    }
  }

  /** Inserting adds exactly one word. */
  lemma {:induction false} InsertHolds(t: Trie, s: string, w: string)
    ensures Holds(Insert(t, s), w) <==> Holds(t, w) || w == s
    decreases |s|
  {
    if s != [] {
      var i := FirstOverlap(t.children, s, 0);
      if i == |t.children| {
        var n, r := Trie(s, [], true), Insert(t, s);
        assert Via(n, w) <==> w == s;
        assert r.children[i] == n;
        assert forall j :: 0 <= j < i ==> r.children[j] == t.children[j];
      } else {
        var k := CommonPrefix(t.children[i].path, s);
        var c := Split(t.children[i], k);
        ViaSplit(t.children[i], k, w);
        if c.path <= w {
          InsertHolds(c, s[k..], w[k..]);
          assert w == w[..k] + w[k..] && s == s[..k] + s[k..];
        }
        ReplaceChild(t, i, Insert(c, s[k..]), s, w);
      }
    }
  }

  lemma {:induction false} ReplaceShaped(t: Trie, i: nat, d: Trie)
    requires Shaped(t) && i < |t.children| && Kid(d) && Shaped(d) && d.path[0] == t.children[i].path[0]
    ensures Shaped(t.(children := t.children[i := d]))
  {
    var r := t.(children := t.children[i := d]);
    assert forall j :: 0 <= j < |r.children| ==> Kid(r.children[j]) && r.children[j].path[0] == t.children[j].path[0];
  }

  /** Inserting keeps the shape; a freshly split node is marked or branching again afterwards. */
  lemma {:induction false} InsertShaped(t: Trie, s: string)
    requires Shaped(t)
    ensures Shaped(Insert(t, s))
    ensures t.leaf || |t.children| >= 2 ==> Insert(t, s).leaf || |Insert(t, s).children| >= 2
    decreases |s|
  {
    if s != [] {
      var i := FirstOverlap(t.children, s, 0);
      if i < |t.children| {
        var c := t.children[i];
        var k := CommonPrefix(c.path, s);
        var c' := Split(c, k);
        ShapedSplit(c, k);
        InsertShaped(c', s[k..]);
        if k < |c.path| && s[k..] != [] {
          assert CommonPrefix(c'.children[0].path, s[k..]) == 0;
        }
        ReplaceShaped(t, i, Insert(c', s[k..]));
      } else {
        assert forall j :: 0 <= j < i ==> t.children[j].path[0] != s[0];
      }
    }
  }

  ghost predicate Spells(t: Trie, words: set<string>) {
    forall w :: Holds(t, w) <==> w in words
  }

  function Words(prompts: seq<string>): set<string> {
    set p | p in prompts
  }

  lemma {:induction false} InsertSpells(t: Trie, s: string, words: set<string>)
    requires Shaped(t) && Spells(t, words)
    ensures Shaped(Insert(t, s)) && Spells(Insert(t, s), words + {s})
  {
    InsertShaped(t, s);
    forall w { InsertHolds(t, s, w); }
  }

  /** A rebuilt trie spells exactly the prompts it was rebuilt from. */
  lemma {:induction false} InsertAllSpells(prompts: seq<string>)
    ensures Shaped(InsertAll(EMPTY, prompts)) && Spells(InsertAll(EMPTY, prompts), Words(prompts))
    ensures InsertAll(EMPTY, prompts).path == []
    decreases |prompts|
  {
    if prompts != [] {
      var init, last := prompts[..|prompts| - 1], prompts[|prompts| - 1];
      InsertAllSpells(init);
      InsertSpells(InsertAll(EMPTY, init), last, Words(init));
      assert prompts == init + [last];
      assert Words(prompts) == Words(init) + {last};
    }
  }

  // ---- search ----

  // Two siblings that both start `q` are one.
  lemma {:induction false} SiblingsDiffer(t: Trie, j: nat, i: nat, q: string)
    requires Shaped(t) && j < |t.children| && i == FirstMatch(t.children, q, 0)
    requires t.children[j].path <= q
    ensures i == j
  {
    assert i <= j;
    var a, b := t.children[i].path, t.children[j].path;
    assert a[0] == q[0] && b[0] == q[0];
  }

  // Nodes along `q` all lie below the one child whose path starts `q`.
  lemma {:induction false} OnlyMatchReaches(t: Trie, q: string, m: nat)
    requires Shaped(t) && 0 < m <= |q|
    ensures var i := FirstMatch(t.children, q, 0);
      NodeAt(t, q[..m]) <==> i < |t.children| && Reach(t.children[i], q[..m])
  {
    var i, p := FirstMatch(t.children, q, 0), q[..m];
    if NodeAt(t, p) {
      var j :| 0 <= j < |t.children| && Reach(t.children[j], p);
      SiblingsDiffer(t, j, i, q);
    }
  }

  /** Search stops at the deepest node lying on the path of `q`. */
  lemma {:induction false} SearchIsDeepest(t: Trie, q: string, m: nat)
    requires Shaped(t)
    ensures NodeAt(t, q[..Search(t, q)])
    ensures Search(t, q) < m <= |q| ==> !NodeAt(t, q[..m])
    decreases t
  {
    var n := Search(t, q);
    if q != [] {
      var i := FirstMatch(t.children, q, 0);
      if i < |t.children| {
        var c := t.children[i];
        var l := |c.path|;
        SearchIsDeepest(c, q[l..], if m >= l then m - l else 0);
        assert q[..n][l..] == q[l..][..n - l];
        assert Reach(c, q[..n]);
        assert n < m <= |q| ==> q[..m][l..] == q[l..][..m - l];
      }
      if n < m <= |q| { OnlyMatchReaches(t, q, m); }
    }
  }

  // ---- nodes are anchors ----

  /** The strings at which cached prompts start, stop or part ways. */
  ghost predicate Anchor(words: set<string>, p: string) {
    p == [] || p in words || exists x, y :: x in words && y in words && x != y && p == Shared(x, y)
  }

  lemma {:induction false} CommonPrefixUnder(p: string, u: string, v: string)
    ensures CommonPrefix(p + u, p + v) == |p| + CommonPrefix(u, v)
  {
    if p == [] {
      assert p + u == u && p + v == v;
    } else {
      assert (p + u)[1..] == p[1..] + u && (p + v)[1..] == p[1..] + v;
      CommonPrefixUnder(p[1..], u, v);
    }
  }

  lemma {:induction false} SomeWord(c: Trie) returns (w: string)
    requires Kid(c) && Shaped(c)
    ensures Holds(c, w)
    decreases c
  {
    if c.leaf {
      w := [];
    } else {
      var u := SomeWord(c.children[0]);
      w := c.children[0].path + u;
      WordAbove(c, 0, u);
    }
  }

  // A word below child `i` starts with that child's first token.
  lemma {:induction false} WordBelow(c: Trie, i: nat) returns (w: string)
    requires Shaped(c) && i < |c.children|
    ensures Holds(c, w) && w != [] && w[0] == c.children[i].path[0]
  {
    var u := SomeWord(c.children[i]);
    w := c.children[i].path + u;
    WordAbove(c, i, u);
  }

  /** Every node is the place where one word ends or two words part. */
  lemma {:induction false} NodeParts(t: Trie, p: string) returns (x: string, y: string)
    requires Shaped(t) && NodeAt(t, p) && p != []
    ensures Holds(t, x) && Holds(t, y)
    ensures p == Shared(x, y) && (x == y ==> p == x)
    decreases t
  {
    var i :| 0 <= i < |t.children| && Reach(t.children[i], p);
    var c := t.children[i];
    var rest := p[|c.path|..];
    var u, v := [], [];
    if rest != [] {
      u, v := NodeParts(c, rest);
    } else if !c.leaf {
      u := WordBelow(c, 0);
      v := WordBelow(c, 1);
    }
    x, y := c.path + u, c.path + v;
    SharedUnder(c.path, u, v);
    WordAbove(t, i, u);
    WordAbove(t, i, v);
    assert p == c.path + rest;
  }

  lemma {:induction false} SharedUnder(p: string, u: string, v: string)
    ensures Shared(p + u, p + v) == p + Shared(u, v)
  {
    CommonPrefixUnder(p, u, v);
  }

  lemma {:induction false} WordAbove(t: Trie, i: nat, u: string)
    requires i < |t.children| && Holds(t.children[i], u)
    ensures Holds(t, t.children[i].path + u)
  {
    var c := t.children[i];
    assert (c.path + u)[|c.path|..] == u;
    assert Via(c, c.path + u);
  }

  lemma {:induction false} SameChild(t: Trie, x: string, y: string) returns (i: nat)
    requires Shaped(t) && Holds(t, x) && Holds(t, y)
    requires x != [] && y != [] && x[0] == y[0]
    ensures i < |t.children| && Via(t.children[i], x) && Via(t.children[i], y)
  {
    i :| 0 <= i < |t.children| && Via(t.children[i], x);
    var j :| 0 <= j < |t.children| && Via(t.children[j], y);
    assert t.children[i].path[0] == x[0] && t.children[j].path[0] == y[0];
  }

  /** Wherever two words of the trie part there is a node. */
  lemma {:induction false} PartingIsNode(t: Trie, x: string, y: string)
    requires Shaped(t) && Holds(t, x) && Holds(t, y)
    ensures NodeAt(t, Shared(x, y))
    decreases t
  {
    if CommonPrefix(x, y) > 0 {
      var i := SameChild(t, x, y);
      var c := t.children[i];
      var u, v := x[|c.path|..], y[|c.path|..];
      PartingIsNode(c, u, v);
      CommonPrefixUnder(c.path, u, v);
      assert x == c.path + u && y == c.path + v;
      assert Shared(x, y)[|c.path|..] == Shared(u, v);
      assert Reach(c, Shared(x, y));
    }
  }

  lemma {:induction false} WordSharesItself(x: string)
    ensures Shared(x, x) == x
  {
    assert CommonPrefix(x, x) == |x|;
  }

  lemma {:induction false} NodesAreAnchors(t: Trie, words: set<string>, p: string)
    requires Shaped(t) && Spells(t, words)
    ensures NodeAt(t, p) <==> Anchor(words, p)
  {
    if NodeAt(t, p) && p != [] {
      var x, y := NodeParts(t, p);
      assert x in words && y in words;
      WordSharesItself(x);
    }
    if Anchor(words, p) && p != [] {
      if p in words {
        WordSharesItself(p);
        PartingIsNode(t, p, p);
      } else {
        var x, y :| x in words && y in words && x != y && p == Shared(x, y);
        PartingIsNode(t, x, y);
      }
    }
  }

  ghost predicate LongestAnchor(words: set<string>, q: string, n: nat) {
    n <= |q| && Anchor(words, q[..n]) && forall m :: n < m <= |q| ==> !Anchor(words, q[..m])
  }

  /** Search returns the longest prefix of `q` that the plain set of cached prompts anchors. */
  lemma {:induction false} SearchFindsLongestAnchor(t: Trie, words: set<string>, q: string)
    requires Shaped(t) && Spells(t, words)
    ensures LongestAnchor(words, q, Search(t, q))
  {
    var n := Search(t, q);
    SearchIsDeepest(t, q, n);
    NodesAreAnchors(t, words, q[..n]);
    forall m | n < m <= |q| ensures !Anchor(words, q[..m]) {
      SearchIsDeepest(t, q, m);
      NodesAreAnchors(t, words, q[..m]);
    }
  }
}
