/**
 The cache in the source's own form: trie nodes on the heap that are split in place, and an
 ordered dictionary of prompts.  Every method is tied to the value model it refines.
 */
module RadixHeap {
  import opened RadixTrie
  import opened RadixCacheModel
  import opened Sequences

  class TrieNode {
    var path: string
    var children: seq<TrieNode>
    var isLeaf: bool
    ghost var tree: Trie
    ghost var Repr: set<TrieNode>

    constructor (path: string, children: seq<TrieNode>, isLeaf: bool)
      ensures this.path == path && this.children == children && this.isLeaf == isLeaf
      ensures Repr == {this} && tree == Trie(path, [], isLeaf)
    {
      this.path, this.children, this.isLeaf := path, children, isLeaf;
      Repr, tree := {this}, Trie(path, [], isLeaf);
    }

    ghost predicate Valid()
      reads this, Repr
      decreases Repr
    {
      && this in Repr
      && tree.path == path && tree.leaf == isLeaf && |tree.children| == |children|
      && (forall i | 0 <= i < |children| ::
            && children[i] in Repr && children[i].Repr < Repr && this !in children[i].Repr
            && children[i].Valid() && children[i].tree == tree.children[i])
      && (forall i, j | 0 <= i < j < |children| ::
            children[i] in Repr && children[j] in Repr && children[i].Repr !! children[j].Repr)
    }

    /** Cut this node after `k` tokens, pushing its children and its mark one level down. */
    method SplitAt(k: nat)
      requires Valid() && 0 < k < |path|
      modifies this
      ensures Valid() && fresh(Repr - old(Repr)) && old(Repr) <= Repr
      ensures tree == Split(old(tree), k) && path == old(path)[..k]
    {
      ghost var before := Repr;
      var lower := new TrieNode(path[k..], children, isLeaf);
      lower.tree := tree.(path := path[k..]);
      lower.Repr := Repr - {this} + {lower};
      path, children, isLeaf := path[..k], [lower], false;
      assert lower.Valid();
      tree, Repr := Split(tree, k), before + {lower};
    }

    /** Index of the first child sharing a token with `tokens`. */
    method FindOverlap(tokens: string) returns (i: nat, common: nat)
      requires Valid()
      ensures i == FirstOverlap(tree.children, tokens, 0)
      ensures i < |children| ==> common == CommonPrefix(tree.children[i].path, tokens)
    {
      i, common := 0, 0;
      while i < |children|
        invariant i <= |children|
        invariant FirstOverlap(tree.children, tokens, 0) == FirstOverlap(tree.children, tokens, i)
      {
        assert children[i].Valid() && children[i].path == tree.children[i].path;
        common := CommonPrefixLength(children[i].path, tokens);
        if common > 0 { return; }
        i := i + 1;
      }
    }

    method InsertNode(tokens: string)
      requires Valid()
      modifies Repr
      ensures Valid() && fresh(Repr - old(Repr)) && old(Repr) <= Repr
      ensures tree == Insert(old(tree), tokens)
      decreases |tokens|, 1
    {
      if tokens == [] {
        isLeaf := true;
        tree := tree.(leaf := true);
        return;
      }
      var i, common := FindOverlap(tokens);
      if i < |children| {
        InsertUnder(i, common, tokens);
      } else {
        AddLeaf(tokens);
      }
    }

    method AddLeaf(tokens: string)
      requires Valid()
      modifies this
      ensures Valid() && fresh(Repr - old(Repr)) && old(Repr) <= Repr
      ensures tree == old(tree).(children := old(tree).children + [Trie(tokens, [], true)])
    {
      var leaf := new TrieNode(tokens, [], true);
      children := children + [leaf];
      tree := tree.(children := tree.children + [leaf.tree]);
      Repr := Repr + {leaf};
    }

    method InsertUnder(i: nat, common: nat, tokens: string)
      requires Valid() && i < |children|
      requires common == CommonPrefix(tree.children[i].path, tokens) && common > 0
      modifies Repr
      ensures Valid() && fresh(Repr - old(Repr)) && old(Repr) <= Repr
      ensures tree == old(tree).(children := old(tree).children[i :=
                        Insert(Split(old(tree).children[i], common), tokens[common..])])
      decreases |tokens|, 0
    {
      if common < |children[i].path| {
        SplitChild(i, common);
      }
      InsertBelow(i, tokens[common..]);
    }

    method SplitChild(i: nat, k: nat)
      requires Valid() && i < |children| && 0 < k < |tree.children[i].path|
      modifies Repr
      ensures Valid() && fresh(Repr - old(Repr)) && old(Repr) <= Repr && children == old(children)
      ensures tree == old(tree).(children := old(tree).children[i := Split(old(tree).children[i], k)])
    {
      var child := children[i];
      child.SplitAt(k);
      tree := tree.(children := tree.children[i := child.tree]);
      Repr := Repr + child.Repr;
    }

    method InsertBelow(i: nat, tokens: string)
      requires Valid() && i < |children|
      modifies Repr
      ensures Valid() && fresh(Repr - old(Repr)) && old(Repr) <= Repr
      ensures tree == old(tree).(children := old(tree).children[i := Insert(old(tree).children[i], tokens)])
      decreases |tokens|, 2
    {
      var child := children[i];
      child.InsertNode(tokens);
      forall j | 0 <= j < |children| && j != i
        ensures children[j].Valid() && children[j].Repr == old(children[j].Repr) && children[j].Repr !! child.Repr
      {
        assert old(children[j]).Repr !! old(child.Repr);
      }
      tree := tree.(children := tree.children[i := child.tree]);
      Repr := Repr + child.Repr;
    }
  }

  method CommonPrefixLength(a: string, b: string) returns (length: nat)
    ensures length == CommonPrefix(a, b)
  {
    length := 0;
    while length < |a| && length < |b| && a[length] == b[length]
      invariant length <= |a| && length <= |b|
      invariant CommonPrefix(a, b) == length + CommonPrefix(a[length..], b[length..])
    {
      length := length + 1;
    }
  }

  class RadixTrieCache {
    const capacity: int
    var root: TrieNode
    var prompts: seq<string>

    constructor (capacity: int)
      ensures Valid() && fresh(root.Repr) && View() == Run(capacity, [])
    {
      this.capacity := capacity;
      root := new TrieNode([], [], false);
      prompts := [];
      new;
      RunIsGood(capacity, []);
    }

    ghost function View(): Cache
      reads this, root
    {
      Cache(capacity, prompts, root.tree)
    }

    ghost predicate Valid()
      reads this, root, root.Repr
    {
      root.Valid() && Good(View())
    }

    /** First child whose whole path starts `remaining`. */
    method FindMatch(node: TrieNode, remaining: string) returns (i: nat)
      requires node.Valid()
      ensures i == FirstMatch(node.tree.children, remaining, 0)
    {
      i := 0;
      while i < |node.children|
        invariant i <= |node.children|
        invariant FirstMatch(node.tree.children, remaining, 0) == FirstMatch(node.tree.children, remaining, i)
      {
        assert node.children[i].Valid() && node.children[i].path == node.tree.children[i].path;
        var common := CommonPrefixLength(node.children[i].path, remaining);
        if common == |node.children[i].path| { return; }
        i := i + 1;
      }
    }

    /** One step of the search: the child whose whole path starts `remaining`, if there is one. */
    method Descend(node: TrieNode, remaining: string) returns (child: TrieNode?)
      requires node.Valid() && remaining != []
      ensures child == null ==> Search(node.tree, remaining) == 0
      ensures child != null ==>
        && child.Valid() && child.Repr < node.Repr && child.path <= remaining
        && Search(node.tree, remaining) == |child.path| + Search(child.tree, remaining[|child.path|..])
    {
      var i := FindMatch(node, remaining);
      if i == |node.children| { return null; }
      child := node.children[i];
      SearchStep(node.tree, remaining, i);
    }

    method SearchTrie(prompt: string) returns (prefix: string, remaining: string)
      requires root.Valid()
      ensures prefix + remaining == prompt && |prefix| == Search(root.tree, prompt)
    {
      prefix, remaining := [], prompt;
      var curr: TrieNode := root;
      while remaining != []
        invariant curr.Valid() && prefix + remaining == prompt
        invariant Search(root.tree, prompt) == |prefix| + Search(curr.tree, remaining)
        decreases curr.Repr
      {
        var child := Descend(curr, remaining);
        if child == null { break; }
        SplitThere(prefix, child.path, remaining);
        prefix, remaining, curr := prefix + child.path, remaining[|child.path|..], child;
      }
    }

    /** Move every cached prompt starting with `prefix` to the end, keeping their order. */
    method TouchAll(prefix: string)
      requires Distinct(prompts) && prefix != []
      modifies this`prompts
      ensures prompts == Touch(old(prompts), prefix)
    {
      var keys := prompts;
      SweepIsTouch(keys, prefix);
      var i := 0;
      while i < |keys|
        invariant i <= |keys|
        invariant SweepOn(prompts, keys, prefix, i) == SweepOn(keys, keys, prefix, 0)
      {
        if prefix <= keys[i] {
          prompts := Without(prompts, keys[i]) + [keys[i]];
        }
        i := i + 1;
      }
    }

    method LookupPrefix(query: string) returns (prefix: string, suffix: string)
      requires Valid()
      modifies this`prompts
      ensures Valid() && View() == Apply(old(View()), Op.LookupPrefix(query))
      ensures prefix + suffix == query && LongestAnchor(Words(old(prompts)), query, |prefix|)
    {
      prefix, suffix := SearchTrie(query);
      SearchFindsLongestAnchor(root.tree, Words(prompts), query);
      ApplyIsGood(View(), Op.LookupPrefix(query));
      assert prefix == Found(View(), query);
      if prefix != [] {
        TouchAll(prefix);
      }
    }

    method InsertPrefix(prompt: string)
      requires Valid()
      modifies this, root.Repr
      ensures Valid() && fresh(root.Repr - old(root.Repr))
      ensures View() == Apply(old(View()), Op.InsertPrefix(prompt))
      ensures capacity > 0 ==> prompt in prompts
      ensures |Words(old(prompts)) + {prompt}| <= capacity ==> Words(prompts) == Words(old(prompts)) + {prompt}
    {
      ghost var next := Apply(View(), Op.InsertPrefix(prompt));
      CacheFits(View(), prompt);
      ApplyIsGood(View(), Op.InsertPrefix(prompt));
      Store(prompt);
      assert View() == next;
    }

    /** Remember the prompt as the newest, and bring the trie up to date. */
    method Store(prompt: string)
      requires root.Valid()
      modifies this, root.Repr
      ensures root.Valid() && fresh(root.Repr - old(root.Repr))
      ensures View() == Apply(old(View()), Op.InsertPrefix(prompt))
    {
      prompts := Without(prompts, prompt) + [prompt];
      if |prompts| > capacity {
        prompts := prompts[1..];
        RebuildTrie();
      } else {
        root.InsertNode(prompt);
      }
    }

    method RebuildTrie()
      modifies this`root
      ensures root.Valid() && fresh(root.Repr) && root.tree == InsertAll(EMPTY, prompts)
    {
      root := new TrieNode([], [], false);
      var i := 0;
      while i < |prompts|
        invariant i <= |prompts| && root.Valid() && fresh(root.Repr)
        invariant root.tree == InsertAll(EMPTY, prompts[..i])
      {
        root.InsertNode(prompts[i]);
        i := i + 1;
        assert prompts[..i][..i - 1] == prompts[..i - 1];
      }
      assert prompts[..i] == prompts;
    }
  }

  lemma {:induction false} SearchStep(t: Trie, q: string, i: nat)
    requires q != [] && i == FirstMatch(t.children, q, 0) && i < |t.children|
    ensures t.children[i].path <= q
    ensures Search(t, q) == |t.children[i].path| + Search(t.children[i], q[|t.children[i].path|..])
  {
  }

  lemma {:induction false} SplitThere(a: string, path: string, b: string)
    requires path <= b
    ensures (a + path) + b[|path|..] == a + b
  {
    assert b == path + b[|path|..];
  }

  /** The list after the first `i` keys have been looked at. */
  function Swept(keys: seq<string>, prefix: string, i: nat): seq<string>
    requires i <= |keys|
  {
    Pick(keys[..i], prefix, false) + keys[i..] + Pick(keys[..i], prefix, true)
  }

  /** What is left to do from key `i` on. */
  function SweepOn(ps: seq<string>, keys: seq<string>, prefix: string, i: nat): seq<string>
    requires i <= |keys|
    decreases |keys| - i
  {
    if i == |keys| then ps
    else SweepOn(if prefix <= keys[i] then Without(ps, keys[i]) + [keys[i]] else ps, keys, prefix, i + 1)
  }

  lemma {:induction false} SweepOnStep(ps: seq<string>, next: seq<string>, keys: seq<string>, prefix: string, i: nat)
    requires i < |keys| && next == if prefix <= keys[i] then Without(ps, keys[i]) + [keys[i]] else ps
    ensures SweepOn(ps, keys, prefix, i) == SweepOn(next, keys, prefix, i + 1)
  {
  }

  lemma {:induction false} SweepGoesOn(keys: seq<string>, prefix: string, i: nat)
    requires Distinct(keys) && i <= |keys| && prefix != []
    ensures SweepOn(Swept(keys, prefix, i), keys, prefix, i) == Touch(keys, prefix)
    decreases |keys| - i
  {
    if i < |keys| {
      SweepOne(keys, prefix, i);
      SweepOnStep(Swept(keys, prefix, i), Swept(keys, prefix, i + 1), keys, prefix, i);
      SweepGoesOn(keys, prefix, i + 1);
    } else {
      SweptEnds(keys, prefix);
    }
  }

  lemma {:induction false} SweepIsTouch(keys: seq<string>, prefix: string)
    requires Distinct(keys) && prefix != []
    ensures SweepOn(keys, keys, prefix, 0) == Touch(keys, prefix)
  {
    SweptEnds(keys, prefix);
    SweepGoesOn(keys, prefix, 0);
  }

  lemma {:induction false} SweptEnds(keys: seq<string>, prefix: string)
    requires prefix != []
    ensures Swept(keys, prefix, 0) == keys && Swept(keys, prefix, |keys|) == Touch(keys, prefix)
  {
    assert keys[..0] == [] && keys[0..] == keys && keys[..|keys|] == keys && keys[|keys|..] == [];
  }

  lemma {:induction false} WithoutMiddle(a: seq<string>, p: string, b: seq<string>)
    requires p !in a && p !in b
    ensures Without(a + [p] + b, p) == a + b
  {
    var f := x => x != p;
    FilterConcat(a + [p], b, f);
    FilterConcat(a, [p], f);
    FilterAll(a, f);
    FilterAll(b, f);
  }

  lemma {:induction false} NotPicked(keys: seq<string>, prefix: string, wanted: bool, i: nat)
    requires Distinct(keys) && i < |keys|
    ensures keys[i] !in Pick(keys[..i], prefix, wanted) && keys[i] !in keys[i + 1..]
  {
    FilterIn(keys[..i], y => (prefix <= y) == wanted, keys[i]);
    assert forall k :: 0 <= k < i ==> Differ(keys[k], keys[i]);
    assert forall k :: i < k < |keys| ==> Differ(keys[i], keys[k]);
  }

  lemma {:induction false} SweepMoves(keys: seq<string>, prefix: string, i: nat)
    requires Distinct(keys) && i < |keys| && prefix <= keys[i]
    ensures Swept(keys, prefix, i + 1) == Without(Swept(keys, prefix, i), keys[i]) + [keys[i]]
  {
    var p, rest := keys[i], keys[i + 1..];
    var kept, moved := Pick(keys[..i], prefix, false), Pick(keys[..i], prefix, true);
    assert keys[..i + 1][..i] == keys[..i];
    NotPicked(keys, prefix, false, i);
    NotPicked(keys, prefix, true, i);
    WithoutMiddle(kept, p, rest + moved);
    assert Swept(keys, prefix, i) == kept + [p] + (rest + moved);
    assert Swept(keys, prefix, i + 1) == kept + rest + (moved + [p]);
  }

  lemma {:induction false} SweepSkips(keys: seq<string>, prefix: string, i: nat)
    requires i < |keys| && !(prefix <= keys[i])
    ensures Swept(keys, prefix, i + 1) == Swept(keys, prefix, i)
  {
    assert keys[..i + 1][..i] == keys[..i];
    var kept, moved := Pick(keys[..i], prefix, false), Pick(keys[..i], prefix, true);
    assert Swept(keys, prefix, i + 1) == (kept + [keys[i]]) + keys[i + 1..] + moved;
  }

  lemma {:induction false} SweepOne(keys: seq<string>, prefix: string, i: nat)
    requires Distinct(keys) && i < |keys|
    ensures Swept(keys, prefix, i + 1) ==
      if prefix <= keys[i] then Without(Swept(keys, prefix, i), keys[i]) + [keys[i]]
      else Swept(keys, prefix, i)
  {
    if prefix <= keys[i] { SweepMoves(keys, prefix, i); } else { SweepSkips(keys, prefix, i); }
  }
}
