/** Loading a pipeline: the tree of plugins is flattened in preorder, each node keeping the indices of its children, and
    a list without any children becomes a chain. */
module PipelineLoaders {
  import opened Common
  import opened Jsons

  /** What a node carries besides its place in the tree; a configuration is kept as the value its text stands for. */
  datatype Config = Config(path: string, config: Option<Json>, queueDepth: int)

  datatype Node = Node(config: Config, children: seq<nat>)

  /** What one plugin entry comes to: not an object, a path or kind that is not a string, or its settings. */
  datatype Parsed = NotObject | Throws | Plugin(config: Config)

  /** An integer cut to a 32-bit int. */
  function Narrow(i: int): int { (i + 0x8000_0000) % 0x1_0000_0000 - 0x8000_0000 }

  lemma NarrowWraps(i: int)
    ensures -0x8000_0000 <= Narrow(i) < 0x8000_0000 && (i - Narrow(i)) % 0x1_0000_0000 == 0
  {}

  function ParsePlugin(j: Json, ext: string): Parsed {
    if !j.JObj? then NotObject
    else
      var m := j.members;
      var path :=
        match Lookup(m, "path")
        case Some(JStr(s)) => Some(s)
        case Some(_) => None
        case None =>
          match Lookup(m, "kind")
          case Some(JStr(s)) => Some("plugins/" + s + "/" + s + ext)
          case Some(_) => None
          case None => Some("");
      if path.None? then Throws
      else
        var config := if Lookup(m, "config").Some? then Lookup(m, "config") else Lookup(m, "cfg");
        var depth := match Lookup(m, "queue_depth") case Some(JInt(i)) => Narrow(i) case _ => 16;
        Plugin(Config(path.value, config, depth))
  }

  /** The entries below an object: those of its "children", if that is an array. */
  function ChildEntries(j: Json): (items: seq<Json>)
    ensures SizeOfItems(items) < Size(j)
  {
    if !j.JObj? then []
    else match Lookup(j.members, "children")
      case Some(JArr(items)) => items
      case _ => []
  }

  // ----- the trees a document describes -----

  datatype Tree = Tree(config: Config, children: seq<Tree>)

  /** How many nodes a tree has. */
  function Weight(t: Tree): (n: nat)
    ensures n > 0
    decreases t
  {
    1 + Weights(t.children)
  }

  function Weights(ts: seq<Tree>): nat
    decreases ts
  {
    if ts == [] then 0 else Weights(ts[..|ts| - 1]) + Weight(ts[|ts| - 1])
  }

  /** The trees of a list of entries, those not objects left out; none if one of them throws. */
  function Trees(items: seq<Json>, ext: string): Option<seq<Tree>>
    decreases SizeOfItems(items)
  {
    if items == [] then Some([])
    else match Trees(items[..|items| - 1], ext)
      case None => None
      case Some(before) =>
        var last := items[|items| - 1];
        match ParsePlugin(last, ext)
        case NotObject => Some(before)
        case Throws => None
        case Plugin(config) =>
          match Trees(ChildEntries(last), ext)
          case None => None
          case Some(kids) => Some(before + [Tree(config, kids)])
  }

  // ----- documents written for trees -----

  /** An entry for a tree: its path, its configuration if it has one, its depth if it is not the default of 16, and its
      children if it has some. */
  function Written(t: Tree): Json
    decreases t
  {
    JObj([Member("path", JStr(t.config.path))]
         + (if t.config.config.Some? then [Member("config", t.config.config.value)] else [])
         + (if t.config.queueDepth == 16 then [] else [Member("queue_depth", JInt(t.config.queueDepth))])
         + (if t.children == [] then [] else [Member("children", JArr(WrittenAll(t.children)))]))
  }

  function WrittenAll(ts: seq<Tree>): seq<Json>
    decreases ts
  {
    if ts == [] then [] else WrittenAll(ts[..|ts| - 1]) + [Written(ts[|ts| - 1])]
  }

  /** Every depth is a 32-bit int. */
  predicate DepthsFit(ts: seq<Tree>)
    decreases ts
  {
    ts == [] || (DepthsFit(ts[..|ts| - 1]) && -0x8000_0000 <= ts[|ts| - 1].config.queueDepth < 0x8000_0000
                 && DepthsFit(ts[|ts| - 1].children))
  }

  /** Each of four optional members is found under its own key. */
  lemma FoundInFour(p: Json, c: Option<Json>, q: Option<Json>, k: Option<Json>)
    ensures var ms := [Member("path", p)] + (if c.Some? then [Member("config", c.value)] else [])
                      + (if q.Some? then [Member("queue_depth", q.value)] else [])
                      + (if k.Some? then [Member("children", k.value)] else []);
      && Lookup(ms, "path") == Some(p) && Lookup(ms, "config") == c && Lookup(ms, "cfg") == None
      && Lookup(ms, "queue_depth") == q && Lookup(ms, "children") == k
  {
    hide Lookup;
    var m0, m1 := [Member("path", p)], if c.Some? then [Member("config", c.value)] else [];
    var m2, m3 := if q.Some? then [Member("queue_depth", q.value)] else [], if k.Some? then [Member("children", k.value)] else [];
    forall key | key in {"path", "config", "cfg", "queue_depth", "children"}
      ensures Lookup(m0 + m1 + m2 + m3, key) ==
        if key == "path" then Some(p) else if key == "config" then c else if key == "queue_depth" then q
        else if key == "children" then k else None
    {
      LookupConcat(m0, m1, key);
      LookupConcat(m0 + m1, m2, key);
      LookupConcat(m0 + m1 + m2, m3, key);
      LookupOne("path", p, key);
      if c.Some? { LookupOne("config", c.value, key); }
      if q.Some? { LookupOne("queue_depth", q.value, key); }
      if k.Some? { LookupOne("children", k.value, key); }
    }
  }

  lemma ReadsEntry(t: Tree, ext: string)
    requires -0x8000_0000 <= t.config.queueDepth < 0x8000_0000
    ensures ParsePlugin(Written(t), ext) == Plugin(t.config) && ChildEntries(Written(t)) == WrittenAll(t.children)
  {
    hide Lookup;
    FoundInFour(JStr(t.config.path), t.config.config,
                if t.config.queueDepth == 16 then None else Some(JInt(t.config.queueDepth)),
                if t.children == [] then None else Some(JArr(WrittenAll(t.children))));
  }

  lemma {:induction false} ReadsAll(ts: seq<Tree>, ext: string)
    requires DepthsFit(ts)
    ensures Trees(WrittenAll(ts), ext) == Some(ts)
    decreases Weights(ts)
  {
    hide Written, ParsePlugin, ChildEntries;
    if ts != [] {
      var front, last, items := ts[..|ts| - 1], ts[|ts| - 1], WrittenAll(ts);
      assert Weights(ts) == Weights(front) + Weight(last) && Weight(last) == 1 + Weights(last.children);
      assert items[..|items| - 1] == WrittenAll(front) && items[|items| - 1] == Written(last);
      ReadsAll(front, ext);
      ReadsEntry(last, ext);
      ReadsAll(last.children, ext);
      assert front + [last] == ts;
    }
  }

  /** Reading back a document written for any forest gives that forest. */
  lemma DocumentRoundTrip(ts: seq<Tree>, ext: string)
    requires DepthsFit(ts)
    ensures Document(Some(JObj([Member("plugins", JArr(WrittenAll(ts)))])), ext) == Some(ts)
  {
    hide Trees;
    ReadsAll(ts, ext);
  }

  /** The older spelling: a kind instead of a path, cfg instead of config, and no depth. A path goes before a kind and
      config before cfg; a path that is no string throws. */
  lemma OlderSpelling(kind: string, cfg: Json, p: string, c: Json, ext: string)
    ensures var older := [Member("kind", JStr(kind)), Member("cfg", cfg)];
      && ParsePlugin(JObj(older), ext) == Plugin(Config("plugins/" + kind + "/" + kind + ext, Some(cfg), 16))
      && ParsePlugin(JObj(older + [Member("path", JStr(p)), Member("config", c)]), ext) == Plugin(Config(p, Some(c), 16))
      && ParsePlugin(JObj(older + [Member("path", JInt(0))]), ext) == Throws
  {
    hide Lookup;
    var older := [Member("kind", JStr(kind))] + [Member("cfg", cfg)];
    var newer := [Member("path", JStr(p))] + [Member("config", c)];
    assert older == [Member("kind", JStr(kind)), Member("cfg", cfg)] && newer == [Member("path", JStr(p)), Member("config", c)];
    assert "path"[0] == 'p' && "kind"[0] == 'k';
    forall key | key in {"path", "kind", "config", "cfg", "queue_depth"}
      ensures Lookup(older, key) == if key == "kind" then Some(JStr(kind)) else if key == "cfg" then Some(cfg) else None
      ensures Lookup(older + newer, key) ==
        if key == "path" then Some(JStr(p)) else if key == "config" then Some(c) else Lookup(older, key)
      ensures Lookup(older + [Member("path", JInt(0))], key) == if key == "path" then Some(JInt(0)) else Lookup(older, key)
    {
      LookupConcat([Member("kind", JStr(kind))], [Member("cfg", cfg)], key);
      LookupConcat([Member("path", JStr(p))], [Member("config", c)], key);
      LookupConcat(older, newer, key);
      LookupConcat(older, [Member("path", JInt(0))], key);
      LookupOne("kind", JStr(kind), key);
      LookupOne("cfg", cfg, key);
      LookupOne("path", JStr(p), key);
      LookupOne("config", c, key);
      LookupOne("path", JInt(0), key);
    }
  }

  /** An entry that is no object is passed over. */
  lemma NoObjectSkipped(items: seq<Json>, j: Json, ext: string)
    requires !j.JObj?
    ensures Trees(items + [j], ext) == Trees(items, ext)
  {
    assert (items + [j])[..|items|] == items;
  }

  // ----- flattening -----

  /** A tree in preorder, its root at index base. */
  function FlattenTree(t: Tree, base: nat): seq<Node>
    decreases t
  {
    [Node(t.config, Roots(t.children, base + 1))] + Flatten(t.children, base + 1)
  }

  function Flatten(ts: seq<Tree>, base: nat): seq<Node>
    decreases ts
  {
    if ts == [] then []
    else
      var before := Flatten(ts[..|ts| - 1], base);
      before + FlattenTree(ts[|ts| - 1], base + |before|)
  }

  /** Where the roots of the trees come to lie. */
  function Roots(ts: seq<Tree>, base: nat): seq<nat>
    decreases ts
  {
    if ts == [] then []
    else Roots(ts[..|ts| - 1], base) + [base + |Flatten(ts[..|ts| - 1], base)|]
  }

  /** Without any child anywhere and with more than one node, node i feeds node i + 1. */
  function Chained(nodes: seq<Node>): (chained: seq<Node>)
    ensures |chained| == |nodes|
  {
    if |nodes| > 1 && forall n | n in nodes :: n.children == []
    then seq(|nodes|, i requires 0 <= i < |nodes| =>
           nodes[i].(children := if i + 1 < |nodes| then [i + 1] else []))
    else nodes
  }

  /** The trees of a document: none when it cannot be read, has no list of plugins, or an entry throws. */
  function Document(root: Option<Json>, ext: string): Option<seq<Tree>> {
    if root.None? || !root.value.JObj? then None
    else match Lookup(root.value.members, "plugins")
      case Some(JArr(arr)) => Trees(arr, ext)
      case _ => None
  }

  // ----- what an exception leaves behind -----

  /** The first entry of a list that throws. */
  function FirstThrow(items: seq<Json>, ext: string): (k: nat)
    requires Trees(items, ext).None?
    ensures k < |items| && Trees(items[..k], ext).Some? && Trees(items[..k + 1], ext).None?
  {
    var front := items[..|items| - 1];
    assert items[..|items|] == items && forall k | 0 <= k <= |front| :: front[..k] == items[..k];
    if Trees(front, ext).None? then FirstThrow(front, ext) else |front|
  }

  /** What an entry that throws has pushed by then, its own index being base: nothing if it throws itself, else its node
      with the children already whole, these, and what the child that throws has pushed, which no node lists. */
  function Residue(j: Json, ext: string, base: nat): seq<Node>
    decreases Size(j)
  {
    match ParsePlugin(j, ext)
    case Plugin(config) =>
      var items := ChildEntries(j);
      if Trees(items, ext).Some? then []
      else
        var k := FirstThrow(items, ext);
        var done := Trees(items[..k], ext).value;
        var nodes := [Node(config, Roots(done, base + 1))] + Flatten(done, base + 1);
        SizeOfOne(items, k);
        nodes + Residue(items[k], ext, base + |nodes|)
    case _ => []
  }

  /** The vector after a failed load: empty unless an entry threw; then the trees before it and what it had pushed. */
  function Leftover(root: Option<Json>, ext: string): seq<Node>
    requires Document(root, ext).None?
  {
    if root.None? || !root.value.JObj? then []
    else match Lookup(root.value.members, "plugins")
      case Some(JArr(arr)) =>
        var k := FirstThrow(arr, ext);
        var nodes := Flatten(Trees(arr[..k], ext).value, 0);
        nodes + Residue(arr[k], ext, |nodes|)
      case _ => []
  }

  lemma FirstThrowIs(items: seq<Json>, k: nat, ext: string)
    requires k < |items| && Trees(items[..k], ext).Some? && Trees(items[..k + 1], ext).None?
    ensures Trees(items, ext).None? && FirstThrow(items, ext) == k
  {
    hide Trees, FirstThrow;
    PrefixThrows(items, k + 1, ext);
    var f := FirstThrow(items, ext);
    if f < k {
      assert items[..k][..f + 1] == items[..f + 1];
      PrefixThrows(items[..k], f + 1, ext);
    } else if k < f {
      assert items[..f][..k + 1] == items[..k + 1];
      PrefixThrows(items[..f], k + 1, ext);
    }
  }

  lemma NoResidue(j: Json, ext: string, base: nat)
    requires ParsePlugin(j, ext) == Throws
    ensures Residue(j, ext, base) == []
  {}

  /** A node and the children done, then what the next child has pushed: the residue of the node. */
  lemma ResidueOfNode(j: Json, ext: string, config: Config, k: nat, before: seq<Node>, done: seq<Tree>)
    requires ParsePlugin(j, ext) == Plugin(config) && k < |ChildEntries(j)|
    requires Trees(ChildEntries(j)[..k], ext) == Some(done) && Trees(ChildEntries(j)[..k + 1], ext).None?
    ensures var nodes := Partial(before, config, done);
      nodes + Residue(ChildEntries(j)[k], ext, |nodes|) == before + Residue(j, ext, |before|)
  {
    hide Trees, ParsePlugin, ChildEntries, Flatten, Roots, FirstThrow;
    FirstThrowIs(ChildEntries(j), k, ext);
    var rest := Residue(ChildEntries(j)[k], ext, |Partial(before, config, done)|);
    assert Partial(before, config, done) + rest ==
           before + ([Node(config, Roots(done, |before| + 1))] + Flatten(done, |before| + 1) + rest);
  }

  // ----- the loader -----

  class PipelineLoader {
    var pipeline: seq<Node>

    constructor ()
      ensures pipeline == []
    {
      pipeline := [];
    }

    /** add_plugin: push the node, then its children, noting their indices; the index, -1 for an entry that is not an
        object, or none when an exception leaves the loader. */
    method AddPlugin(j: Json, ext: string) returns (index: Option<int>)
      modifies this`pipeline
      ensures index.None? <==> Trees([j], ext).None?
      ensures index == Some(-1) ==> Trees([j], ext) == Some([]) && pipeline == old(pipeline)
      ensures index.Some? && index.value != -1 ==>
        index.value == |old(pipeline)| && Trees([j], ext).Some? && |Trees([j], ext).value| == 1
        && pipeline == old(pipeline) + FlattenTree(Trees([j], ext).value[0], |old(pipeline)|)
      ensures index.None? ==> pipeline == old(pipeline) + Residue(j, ext, |old(pipeline)|)
      decreases Size(j), 0
    {
      hide ParsePlugin, ChildEntries, Trees, Flatten, Roots, Residue;
      OneEntry(j, ext);
      var parsed := ParsePlugin(j, ext);
      match parsed
      case NotObject => return Some(-1);
      case Throws =>
        NoResidue(j, ext, |pipeline|);
        return None;
      case Plugin(config) =>
        var myIndex := |pipeline|;
        ghost var before, done := pipeline, [];
        pipeline := pipeline + [Node(config, [])];
        NothingDone(before, config, ext);
        var items, k := ChildEntries(j), 0;
        assert items[..0] == [];
        while k < |items|
          invariant 0 <= k <= |items| && Trees(items[..k], ext) == Some(done)
          invariant pipeline == Partial(before, config, done)
        {
          SizeOfOne(items, k);
          OneMoreEntry(items, k, ext);
          var ok;
          ok, done := AddChild(items[k], myIndex, ext, before, config, done);
          if !ok {
            PrefixThrows(items, k + 1, ext);
            ResidueOfNode(j, ext, config, k, before, done);
            return None;
          }
          k := k + 1;
        }
        assert items[..|items|] == items;
        WholeTree(before, config, done);
        return Some(myIndex);
    }

    /** load: whether there is a pipeline. It is the flattened forest of the document's plugin entries, chained if no
        node has children. */
    method Load(root: Option<Json>, ext: string) returns (ok: bool)
      modifies this`pipeline
      ensures ok <==> Document(root, ext).Some? && Document(root, ext).value != []
      ensures Document(root, ext).Some? ==> pipeline == Chained(Flatten(Document(root, ext).value, 0))
      ensures Document(root, ext).None? ==> pipeline == Leftover(root, ext)
    {
      hide ParsePlugin, ChildEntries, Trees, Flatten, Roots, Chained, FlattenTree, Residue, FirstThrow;
      pipeline := [];
      if root.None? || !root.value.JObj? { return false; }
      var entry := Lookup(root.value.members, "plugins");
      if entry.None? || !entry.value.JArr? { return false; }
      var arr, k := entry.value.items, 0;
      ghost var done: seq<Tree> := [];
      NothingLoaded(ext);
      assert arr[..0] == [];
      while k < |arr|
        invariant 0 <= k <= |arr| && Trees(arr[..k], ext) == Some(done) && pipeline == Flatten(done, 0)
      {
        OneMoreEntry(arr, k, ext);
        var index := AddPlugin(arr[k], ext);
        if index.None? {
          FirstThrowIs(arr, k, ext);
          return false;
        }
        if index.value == -1 {
          assert done + [] == done;
        } else {
          ghost var t := Trees([arr[k]], ext).value[0];
          assert Trees([arr[k]], ext).value == [t];
          FlattenOneMore(done, t, 0);
          done := done + [t];
        }
        k := k + 1;
      }
      assert arr[..|arr|] == arr;
      EmptyIffNoTrees(done);
      ChainIfFlat();
      return pipeline != [];
    }

    /** The backward-compatible chain. */
    method ChainIfFlat()
      modifies this`pipeline
      ensures pipeline == Chained(old(pipeline))
    {
      var anyChildren, n := false, 0;
      while n < |pipeline| && !anyChildren
        invariant 0 <= n <= |pipeline|
        invariant !anyChildren ==> forall m | 0 <= m < n :: pipeline[m].children == []
        invariant anyChildren ==> exists m :: 0 <= m < |pipeline| && pipeline[m].children != []
      {
        if pipeline[n].children != [] { anyChildren := true; }
        n := n + 1;
      }
      if !anyChildren && |pipeline| > 1 {
        ghost var was := pipeline;
        assert forall p | p in was :: p.children == [];
        var i := 0;
        while i + 1 < |pipeline|
          invariant 0 <= i < |pipeline| == |was|
          invariant forall m | 0 <= m < |was| :: pipeline[m] == if m < i then was[m].(children := [m + 1]) else was[m]
        {
          pipeline := pipeline[i := pipeline[i].(children := pipeline[i].children + [i + 1])];
          i := i + 1;
        }
      }
    }

    /** One child entry: added, and its index noted unless it is -1. */
    method AddChild(j: Json, myIndex: nat, ext: string, ghost before: seq<Node>, ghost config: Config,
                    ghost done: seq<Tree>) returns (ok: bool, ghost done': seq<Tree>)
      requires myIndex == |before| && pipeline == Partial(before, config, done)
      modifies this`pipeline
      ensures ok <==> Trees([j], ext).Some?
      ensures ok ==> done' == done + Trees([j], ext).value && pipeline == Partial(before, config, done')
      ensures !ok ==> done' == done && pipeline == old(pipeline) + Residue(j, ext, |old(pipeline)|)
      decreases Size(j), 1
    {
      hide Trees, Flatten, Roots, FlattenTree, Residue;
      done' := done;
      var ci := AddPlugin(j, ext);
      if ci.None? { return false, done; }
      if ci.value >= 0 {
        ghost var t := Trees([j], ext).value[0];
        var me := pipeline[myIndex];
        pipeline := pipeline[myIndex := me.(children := me.children + [ci.value])];
        OneMoreDone(before, config, done, t);
        done' := done + [t];
        assert Trees([j], ext).value == [t];
      } else {
        assert done + [] == done;
      }
      ok := true;
    }
  }

  /** The vector while a node's children are being added. */
  ghost function Partial(before: seq<Node>, config: Config, done: seq<Tree>): (nodes: seq<Node>)
    ensures |nodes| == |before| + 1 + |Flatten(done, |before| + 1)|
    ensures nodes[|before|] == Node(config, Roots(done, |before| + 1))
  {
    before + [Node(config, Roots(done, |before| + 1))] + Flatten(done, |before| + 1)
  }

  lemma NothingDone(before: seq<Node>, config: Config, ext: string)
    ensures before + [Node(config, [])] == Partial(before, config, []) && Trees([], ext) == Some([])
  {}

  lemma WholeTree(before: seq<Node>, config: Config, done: seq<Tree>)
    ensures Partial(before, config, done) == before + FlattenTree(Tree(config, done), |before|)
  {}

  lemma OneMoreDone(before: seq<Node>, config: Config, done: seq<Tree>, t: Tree)
    ensures var was := Partial(before, config, done); var me := was[|before|];
      (was + FlattenTree(t, |was|))[|before| := me.(children := me.children + [|was|])] == Partial(before, config, done + [t])
  {
    hide Flatten, Roots, FlattenTree;
    FlattenOneMore(done, t, |before| + 1);
  }

  lemma {:induction false} SizeOfOne(items: seq<Json>, k: nat)
    requires k < |items|
    ensures Size(items[k]) <= SizeOfItems(items)
  {
    if k < |items| - 1 { SizeOfOne(items[..|items| - 1], k); }
  }

  lemma OneEntry(j: Json, ext: string)
    ensures Trees([j], ext) ==
      match ParsePlugin(j, ext)
      case NotObject => Some([])
      case Throws => None
      case Plugin(config) =>
        match Trees(ChildEntries(j), ext)
        case None => None
        case Some(kids) => Some([Tree(config, kids)])
  {
    hide ParsePlugin, ChildEntries;
    assert [j][..0] == [];
    assert Trees([j][..0], ext) == Some([]);
    assert forall t: Tree :: [] + [t] == [t];
  }

  lemma OneMoreEntry(items: seq<Json>, k: nat, ext: string)
    requires k < |items|
    ensures Trees(items[..k + 1], ext) ==
      match Trees(items[..k], ext)
      case None => None
      case Some(before) =>
        match Trees([items[k]], ext)
        case None => None
        case Some(more) => Some(before + more)
  {
    hide ParsePlugin, ChildEntries;
    OneEntry(items[k], ext);
    assert items[..k + 1][..k] == items[..k];
    assert forall s: seq<Tree> :: s + [] == s;
  }

  lemma {:induction false} PrefixThrows(items: seq<Json>, k: nat, ext: string)
    requires k <= |items| && Trees(items[..k], ext).None?
    ensures Trees(items, ext).None?
    decreases |items| - k
  {
    if k < |items| {
      OneMoreEntry(items, k, ext);
      PrefixThrows(items, k + 1, ext);
    } else {
      assert items[..k] == items;
    }
  }

  lemma FlattenOneMore(ts: seq<Tree>, t: Tree, base: nat)
    ensures Flatten(ts + [t], base) == Flatten(ts, base) + FlattenTree(t, base + |Flatten(ts, base)|)
    ensures Roots(ts + [t], base) == Roots(ts, base) + [base + |Flatten(ts, base)|]
  {
    hide FlattenTree;
    assert (ts + [t])[..|ts + [t]| - 1] == ts;
  }

  lemma NothingLoaded(ext: string)
    ensures Trees([], ext) == Some([]) && Flatten([], 0) == []
  {}

  lemma EmptyIffNoTrees(ts: seq<Tree>)
    ensures ts == [] <==> Flatten(ts, 0) == []
  {}

  // ----- the result is a preorder forest -----

  /** All parent-to-child links, parent by parent. */
  function Links(nodes: seq<Node>): seq<nat> {
    if nodes == [] then [] else Links(Front(nodes)) + Last(nodes).children
  }

  /** Each child comes after its parent, inside base..base + |nodes|. */
  predicate Downward(nodes: seq<Node>, base: nat) {
    forall k, c | 0 <= k < |nodes| && c in nodes[k].children :: base + k < c < base + |nodes|
  }

  lemma LinksOf(nodes: seq<Node>)
    requires nodes != []
    ensures Links(nodes) == Links(Front(nodes)) + Last(nodes).children
  {}

  lemma {:induction false} LinksConcat(a: seq<Node>, b: seq<Node>)
    ensures Links(a + b) == Links(a) + Links(b)
  {
    if b == [] {
      assert a + b == a;
    } else {
      hide Links;
      LinksConcat(a, Front(b));
      assert Front(a + b) == a + Front(b) && Last(a + b) == Last(b);
      LinksOf(a + b);
      LinksOf(b);
    }
  }

  function Count(s: seq<nat>, x: nat): nat { multiset(s)[x] }

  lemma CountConcat(a: seq<nat>, b: seq<nat>, x: nat)
    ensures Count(a + b, x) == Count(a, x) + Count(b, x)
  {}

  lemma CountOne(y: nat, x: nat)
    ensures Count([y], x) == if x == y then 1 else 0
  {}

  lemma NoTrees(base: nat, x: nat)
    ensures Flatten([], base) == [] && Roots([], base) == [] && Count(Roots([], base), x) == Count(Links([]), x) == 0
  {}

  /** Every index of the forest is either a root or the child of exactly one parent, listed once. */
  lemma {:induction false} EachIndexOnce(ts: seq<Tree>, base: nat, x: nat)
    ensures Count(Roots(ts, base), x) + Count(Links(Flatten(ts, base)), x) ==
            if base <= x < base + |Flatten(ts, base)| then 1 else 0
    decreases Weights(ts), 1
  {
    if ts == [] {
      NoTrees(base, x);
    } else {
      hide *;
      var front, t := ts[..|ts| - 1], ts[|ts| - 1];
      FrontAndLast(ts);
      EachIndexOnce(front, base, x);
      EachIndexOnceTree(t, base + |Flatten(front, base)|, x);
      OneTreeMore(front, t, base, x);
    }
  }

  lemma FrontAndLast(ts: seq<Tree>)
    requires ts != []
    ensures ts == ts[..|ts| - 1] + [ts[|ts| - 1]]
    ensures Weights(ts[..|ts| - 1]) < Weights(ts) && Weight(ts[|ts| - 1]) <= Weights(ts)
  {
    SplitLast(ts);
    WeightsSplit(ts);
  }

  lemma WeightsSplit(ts: seq<Tree>)
    requires ts != []
    ensures Weights(ts) == Weights(ts[..|ts| - 1]) + Weight(ts[|ts| - 1])
  {
    hide Weight;
  }

  lemma SplitLast<T>(s: seq<T>)
    requires s != []
    ensures s == s[..|s| - 1] + [s[|s| - 1]]
  {}

  lemma OneTreeMore(front: seq<Tree>, t: Tree, base: nat, x: nat)
    requires Count(Roots(front, base), x) + Count(Links(Flatten(front, base)), x) ==
             if base <= x < base + |Flatten(front, base)| then 1 else 0
    requires var at := base + |Flatten(front, base)|; var tree := FlattenTree(t, at);
      Count([at], x) + Count(Links(tree), x) == if at <= x < at + |tree| then 1 else 0
    ensures Count(Roots(front + [t], base), x) + Count(Links(Flatten(front + [t], base)), x) ==
            if base <= x < base + |Flatten(front + [t], base)| then 1 else 0
  {
    hide *;
    var before := Flatten(front, base);
    var at := base + |before|;
    FlattenOneMore(front, t, base);
    LinksConcat(before, FlattenTree(t, at));
    CountConcat(Links(before), Links(FlattenTree(t, at)), x);
    CountConcat(Roots(front, base), [at], x);
  }

  lemma {:induction false} EachIndexOnceTree(t: Tree, base: nat, x: nat)
    ensures |FlattenTree(t, base)| > 0
    ensures Count([base], x) + Count(Links(FlattenTree(t, base)), x) ==
            if base <= x < base + |FlattenTree(t, base)| then 1 else 0
    decreases Weight(t), 0
  {
    hide Flatten, Roots, Links, Count;
    var kids, root := t.children, Node(t.config, Roots(t.children, base + 1));
    EachIndexOnce(kids, base + 1, x);
    LinksConcat([root], Flatten(kids, base + 1));
    LinksOfOne(root);
    CountConcat(root.children, Links(Flatten(kids, base + 1)), x);
    CountOne(base, x);
  }

  lemma LinksOfOne(n: Node)
    ensures Links([n]) == n.children
  {
    assert Front([n]) == [];
  }

  /** Each child index exceeds its parent's: the forest has no cycle. */
  lemma {:induction false} FlattenDownward(ts: seq<Tree>, base: nat)
    ensures Downward(Flatten(ts, base), base)
    ensures forall r | r in Roots(ts, base) :: base <= r < base + |Flatten(ts, base)|
    ensures forall i, j | 0 <= i < j < |Roots(ts, base)| :: Roots(ts, base)[i] < Roots(ts, base)[j]
    decreases Weights(ts), 1
  {
    if ts == [] {
      NoTrees(base, 0);
    } else {
      hide *;
      var front, t := ts[..|ts| - 1], ts[|ts| - 1];
      FrontAndLast(ts);
      FlattenDownward(front, base);
      TreeDownward(t, base + |Flatten(front, base)|);
      FlattenOneMore(front, t, base);
      JoinDownward(Flatten(front, base), FlattenTree(t, base + |Flatten(front, base)|), base);
      RootsInOrder(Roots(front, base), base, base + |Flatten(front, base)|);
    }
  }

  /** A root after all the others keeps roots increasing and in range. */
  lemma RootsInOrder(roots: seq<nat>, base: nat, next: nat)
    requires base <= next && forall r | r in roots :: base <= r < next
    requires forall i, j | 0 <= i < j < |roots| :: roots[i] < roots[j]
    ensures forall r | r in roots + [next] :: base <= r <= next
    ensures forall i, j | 0 <= i < j < |roots| + 1 :: (roots + [next])[i] < (roots + [next])[j]
  {
    forall i, j | 0 <= i < j < |roots| + 1 ensures (roots + [next])[i] < (roots + [next])[j] {
      assert roots[i] in roots;
    }
  }

  lemma JoinDownward(a: seq<Node>, b: seq<Node>, base: nat)
    requires Downward(a, base) && Downward(b, base + |a|)
    ensures Downward(a + b, base)
  {
    var ab := a + b;
    forall k, c | 0 <= k < |ab| && c in ab[k].children ensures base + k < c < base + |ab| {
      if k >= |a| { assert ab[k] == b[k - |a|]; }
    }
  }

  lemma {:induction false} TreeDownward(t: Tree, base: nat)
    ensures Downward(FlattenTree(t, base), base) && |FlattenTree(t, base)| > 0
    decreases Weight(t), 0
  {
    hide Roots, Flatten;
    var kids := t.children;
    FlattenDownward(kids, base + 1);
    var all, below := FlattenTree(t, base), Flatten(kids, base + 1);
    forall k, c | 0 <= k < |all| && c in all[k].children ensures base + k < c < base + |all| {
      if k > 0 {
        assert all[k] == below[k - 1] && c in below[k - 1].children;
      } else {
        assert all[0].children == Roots(kids, base + 1);
      }
    }
  }

  // ----- the trees can be rebuilt -----

  function RebuildAt(nodes: seq<Node>, i: nat): Tree
    requires Downward(nodes, 0) && i < |nodes|
    decreases |nodes| - i, |nodes[i].children| + 1
  {
    Tree(nodes[i].config, RebuildEach(nodes, nodes[i].children, i))
  }

  function RebuildEach(nodes: seq<Node>, indices: seq<nat>, above: int): seq<Tree>
    requires Downward(nodes, 0) && forall i | i in indices :: above < i < |nodes|
    decreases |nodes| - above, |indices|
  {
    if indices == [] then []
    else
      assert (forall i | i in Front(indices) :: i in indices) && Last(indices) in indices;
      RebuildEach(nodes, Front(indices), above) + [RebuildAt(nodes, Last(indices))]
  }

  /** The indices below n that are nobody's child, in order. */
  function RootsBelow(nodes: seq<Node>, n: nat): (r: seq<nat>)
    ensures forall i | i in r :: i < n
  {
    if n == 0 then []
    else if n - 1 in Links(nodes) then RootsBelow(nodes, n - 1)
    else RootsBelow(nodes, n - 1) + [n - 1]
  }

  /** The forest a flat pipeline describes. */
  function Rebuild(nodes: seq<Node>): seq<Tree>
    requires Downward(nodes, 0)
  {
    RebuildEach(nodes, RootsBelow(nodes, |nodes|), -1)
  }

  /** Wherever a flattened forest lies in a pipeline, its trees are rebuilt from its roots. */
  lemma {:induction false} RebuildFlattened(nodes: seq<Node>, ts: seq<Tree>, base: nat, above: int)
    requires Downward(nodes, 0) && above < base && base + |Flatten(ts, base)| <= |nodes|
    requires nodes[base..base + |Flatten(ts, base)|] == Flatten(ts, base)
    requires forall i | i in Roots(ts, base) :: above < i < |nodes|
    ensures RebuildEach(nodes, Roots(ts, base), above) == ts
    decreases Weights(ts), 1
  {
    if ts != [] {
      var front, t := ts[..|ts| - 1], ts[|ts| - 1];
      hide Flatten, Roots, FlattenTree, RebuildEach, RebuildAt;
      var before, at := Flatten(front, base), base + |Flatten(front, base)|;
      var tree := FlattenTree(t, at);
      FrontAndLast(ts);
      FlattenOneMore(front, t, base);
      SliceParts(nodes, base, before, tree);
      assert forall i | i in Roots(front, base) :: i in Roots(ts, base);
      RebuildFlattened(nodes, front, base, above);
      RebuildTree(nodes, t, at);
      RebuildOneMore(nodes, Roots(front, base), at, above);
    } else {
      NoTrees(base, 0);
    }
  }

  lemma SliceParts(nodes: seq<Node>, base: nat, a: seq<Node>, b: seq<Node>)
    requires base + |a + b| <= |nodes| && nodes[base..base + |a + b|] == a + b
    ensures nodes[base..base + |a|] == a && nodes[base + |a|..base + |a| + |b|] == b
  {
    assert nodes[base..base + |a|] == nodes[base..base + |a + b|][..|a|];
    assert nodes[base + |a|..base + |a| + |b|] == nodes[base..base + |a + b|][|a|..];
  }

  lemma RebuildOneMore(nodes: seq<Node>, indices: seq<nat>, i: nat, above: int)
    requires Downward(nodes, 0) && (forall k | k in indices + [i] :: above < k < |nodes|)
    ensures i in indices + [i] && (forall k | k in indices :: k in indices + [i])
    ensures RebuildEach(nodes, indices + [i], above) == RebuildEach(nodes, indices, above) + [RebuildAt(nodes, i)]
  {
    assert i in indices + [i];
    assert Front(indices + [i]) == indices;
  }

  lemma {:induction false} RebuildTree(nodes: seq<Node>, t: Tree, base: nat)
    requires Downward(nodes, 0) && base + |FlattenTree(t, base)| <= |nodes|
    requires nodes[base..base + |FlattenTree(t, base)|] == FlattenTree(t, base)
    ensures base < |nodes| && RebuildAt(nodes, base) == t
    decreases Weight(t), 0
  {
    hide Flatten, Roots;
    var all, below := FlattenTree(t, base), Flatten(t.children, base + 1);
    assert all[0] == nodes[base..base + |all|][0] == nodes[base];
    assert nodes[base + 1..base + 1 + |below|] == all[1..] == below;
    RebuildFlattened(nodes, t.children, base + 1, base);
  }

  ghost predicate Increasing(s: seq<nat>) { forall i, j | 0 <= i < j < |s| :: s[i] < s[j] }

  lemma {:induction false} IncreasingUnique(a: seq<nat>, b: seq<nat>)
    requires Increasing(a) && Increasing(b) && forall x: nat :: x in a <==> x in b
    ensures a == b
    decreases |a|
  {
    if a == [] {
      assert forall i | 0 <= i < |b| :: b[i] in b;
    } else {
      assert a[0] in b;
      LastOfSame(a, b);
      IncreasingUnique(Front(a), Front(b));
      assert a == Front(a) + [Last(a)] && b == Front(b) + [Last(b)];
    }
  }

  lemma LastOfSame(a: seq<nat>, b: seq<nat>)
    requires a != [] && b != [] && Increasing(a) && Increasing(b) && forall x: nat :: x in a <==> x in b
    ensures Last(a) == Last(b) && forall x: nat :: x in Front(a) <==> x in Front(b)
  {
    assert Last(a) in a && Last(b) in b;
    var i :| 0 <= i < |b| && b[i] == Last(a);
    var j :| 0 <= j < |a| && a[j] == Last(b);
    assert b[i] <= Last(b) && a[j] <= Last(a);
    forall x: nat ensures x in Front(a) <==> x in Front(b) { InFront(a, x); InFront(b, x); }
  }

  lemma InFront(a: seq<nat>, x: nat)
    requires a != [] && Increasing(a)
    ensures x in Front(a) <==> x in a && x != Last(a)
  {
    assert a == Front(a) + [Last(a)];
  }

  lemma {:induction false} RootsBelowAre(nodes: seq<Node>, n: nat)
    ensures Increasing(RootsBelow(nodes, n))
    ensures forall i: nat :: i in RootsBelow(nodes, n) <==> i < n && i !in Links(nodes)
  {
    if n > 0 {
      RootsBelowAre(nodes, n - 1);
      var r := RootsBelow(nodes, n - 1);
      forall i | 0 <= i < |r| ensures r[i] < n - 1 { assert r[i] in r; }
    }
  }

  lemma RootXorLinked(ts: seq<Tree>, i: nat)
    requires i < |Flatten(ts, 0)|
    ensures i in Roots(ts, 0) <==> i !in Links(Flatten(ts, 0))
  {
    hide Flatten, Roots, Links;
    EachIndexOnce(ts, 0, i);
    assert i in Roots(ts, 0) <==> i in multiset(Roots(ts, 0));
    assert i in Links(Flatten(ts, 0)) <==> i in multiset(Links(Flatten(ts, 0)));
  }

  /** Flattening loses nothing: from the flat pipeline the input trees are rebuilt. */
  lemma RebuildInverts(ts: seq<Tree>)
    ensures Downward(Flatten(ts, 0), 0) && Rebuild(Flatten(ts, 0)) == ts
  {
    hide Flatten, Roots, RebuildEach, Links;
    var nodes, roots := Flatten(ts, 0), Roots(ts, 0);
    FlattenDownward(ts, 0);
    RootsBelowAre(nodes, |nodes|);
    forall i: nat ensures i in RootsBelow(nodes, |nodes|) <==> i in roots {
      if i < |nodes| { RootXorLinked(ts, i); }
    }
    IncreasingUnique(RootsBelow(nodes, |nodes|), roots);
    RebuildFlattened(nodes, ts, 0, -1);
  }

  // ----- the chain -----

  predicate AllLeaves(ts: seq<Tree>) { forall t | t in ts :: t.children == [] }

  /** Several trees without children stand for one nested line of them. */
  function Nested(ts: seq<Tree>): Tree
    requires ts != []
  {
    Tree(ts[0].config, if |ts| == 1 then [] else [Nested(ts[1..])])
  }

  /** The forest the loaded pipeline means. */
  function Meant(ts: seq<Tree>): seq<Tree> {
    if |ts| > 1 && AllLeaves(ts) then [Nested(ts)] else ts
  }

  /** No node has children exactly when no tree has. */
  lemma {:induction false} LeavesFlat(ts: seq<Tree>, base: nat)
    ensures (forall n | n in Flatten(ts, base) :: n.children == []) <==> AllLeaves(ts)
    ensures AllLeaves(ts) ==> |Flatten(ts, base)| == |ts| && forall i | 0 <= i < |ts| :: Flatten(ts, base)[i] == Node(ts[i].config, [])
    decreases |ts|
  {
    if ts == [] {
      NoTrees(base, 0);
    } else {
      hide *;
      var front, t := ts[..|ts| - 1], ts[|ts| - 1];
      FrontAndLast(ts);
      var before := Flatten(front, base);
      LeavesFlat(front, base);
      LeafTree(t, base + |before|);
      FlattenOneMore(front, t, base);
      LeavesMore(front, t, before, FlattenTree(t, base + |before|));
    }
  }

  /** One more tree on a forest, in both respects. */
  lemma LeavesMore(front: seq<Tree>, t: Tree, before: seq<Node>, tree: seq<Node>)
    requires (forall n | n in before :: n.children == []) <==> AllLeaves(front)
    requires (forall n | n in tree :: n.children == []) <==> t.children == []
    requires AllLeaves(front) ==> |before| == |front| && forall i | 0 <= i < |front| :: before[i] == Node(front[i].config, [])
    requires t.children == [] ==> tree == [Node(t.config, [])]
    ensures (forall n | n in before + tree :: n.children == []) <==> AllLeaves(front + [t])
    ensures AllLeaves(front + [t]) ==>
      (|before + tree| == |front| + 1
       && forall i | 0 <= i < |front| + 1 :: (before + tree)[i] == Node((front + [t])[i].config, []))
  {
    hide *;
    StillLeaves(front, t, before, tree);
    LeavesSplit(front, t);
  }

  lemma LeavesSplit(front: seq<Tree>, t: Tree)
    ensures AllLeaves(front + [t]) <==> AllLeaves(front) && t.children == []
  {
    assert forall u | u in front :: u in front + [t];
    assert t in front + [t];
  }

  lemma LeafTree(t: Tree, base: nat)
    ensures (forall n | n in FlattenTree(t, base) :: n.children == []) <==> t.children == []
    ensures t.children == [] ==> FlattenTree(t, base) == [Node(t.config, [])]
  {
    RootsLength(t.children, base + 1);
    var tree := FlattenTree(t, base);
    assert tree[0] in tree && tree[0].children == Roots(t.children, base + 1);
    assert t.children == [] ==> Flatten(t.children, base + 1) == [];
  }

  lemma StillLeaves(front: seq<Tree>, t: Tree, before: seq<Node>, tree: seq<Node>)
    requires (forall n | n in before :: n.children == []) <==> AllLeaves(front)
    requires (forall n | n in tree :: n.children == []) <==> t.children == []
    ensures (forall n | n in before + tree :: n.children == []) <==> AllLeaves(front + [t])
  {
    assert (forall n | n in before + tree :: n.children == []) <==>
           (forall n | n in before :: n.children == []) && (forall n | n in tree :: n.children == []) by {
      assert forall n | n in before :: n in before + tree;
      assert forall n | n in tree :: n in before + tree;
    }
    LeavesSplit(front, t);
  }

  lemma {:induction false} RootsLength(ts: seq<Tree>, base: nat)
    ensures |Roots(ts, base)| == |ts|
    decreases |ts|
  {
    if ts != [] { RootsLength(ts[..|ts| - 1], base); }
  }

  lemma {:induction false} FlattenNested(ts: seq<Tree>, base: nat)
    requires ts != []
    ensures |FlattenTree(Nested(ts), base)| == |ts|
    ensures forall i | 0 <= i < |ts| :: FlattenTree(Nested(ts), base)[i] ==
              Node(ts[i].config, if i + 1 < |ts| then [base + i + 1] else [])
    decreases |ts|
  {
    if |ts| > 1 {
      FlattenNested(ts[1..], base + 1);
      OneTree(Nested(ts[1..]), base + 1);
    }
  }

  lemma OneTree(t: Tree, base: nat)
    ensures Flatten([t], base) == FlattenTree(t, base) && Roots([t], base) == [base]
  {
    assert [t] == [] + [t];
    FlattenOneMore([], t, base);
  }

  /** The pipeline that is loaded is the flattening of what it means; the chain is made exactly when no entry has
      children and there is more than one. */
  lemma LoadedIsMeant(ts: seq<Tree>)
    ensures Chained(Flatten(ts, 0)) == Flatten(Meant(ts), 0)
    ensures Chained(Flatten(ts, 0)) != Flatten(ts, 0) <==> |ts| > 1 && AllLeaves(ts)
  {
    hide Flatten, FlattenTree, Nested;
    LeavesFlat(ts, 0);
    if |ts| > 1 && AllLeaves(ts) {
      ChainIsNested(ts);
    } else if ts == [] {
      EmptyIffNoTrees(ts);
    } else if |ts| == 1 && AllLeaves(ts) {
      assert |Flatten(ts, 0)| == 1;
    }
  }

  lemma ChainIsNested(ts: seq<Tree>)
    requires |ts| > 1 && AllLeaves(ts)
    ensures Chained(Flatten(ts, 0)) == Flatten([Nested(ts)], 0) != Flatten(ts, 0)
  {
    hide Flatten, FlattenTree, Nested;
    var nodes := Flatten(ts, 0);
    LeavesFlat(ts, 0);
    FlattenNested(ts, 0);
    OneTree(Nested(ts), 0);
    var nested := FlattenTree(Nested(ts), 0);
    forall i | 0 <= i < |ts| ensures Chained(nodes)[i] == nested[i] {
      assert nodes[i] == Node(ts[i].config, []);
    }
    assert nested[0].children == [1] && nodes[0].children == [];
  }

  /** So the loaded pipeline determines the document's trees up to the chain: two documents load alike exactly when they
      mean the same, and then only a flat list and its nested line are confused. */
  lemma LoadsAlikeIff(ts: seq<Tree>, us: seq<Tree>)
    ensures Chained(Flatten(ts, 0)) == Chained(Flatten(us, 0)) <==> Meant(ts) == Meant(us)
  {
    hide Flatten, Chained, Meant;
    LoadedIsMeant(ts);
    LoadedIsMeant(us);
    RebuildInverts(Meant(ts));
    RebuildInverts(Meant(us));
  }
}
