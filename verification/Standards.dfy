/** The standards forest: trees built by recursion over an unchecked parent relation. Call depth is
    made explicit, so that termination is a theorem and endless recursion is visible as `None`. */
module Standards {
  import opened Wrappers

  type Id = nat

  /** A standard; `label_` stands for the columns copied into the tree. */
  datatype Standard = Standard(id: Id, parent: Option<Id>, label_: string)

  datatype Node = Node(id: Id, label_: string, children: seq<Node>)

  predicate UniqueIds(ss: seq<Standard>) { forall i, j | 0 <= i < j < |ss| :: ss[i].id != ss[j].id }

  /** `grouped[parent]`, in input order. */
  function ChildrenOf(ss: seq<Standard>, parent: Option<Id>): seq<Standard> {
    if ss == [] then [] else (if ss[0].parent == parent then [ss[0]] else []) + ChildrenOf(ss[1..], parent)
  }

  /** `build_nodes` with `depth` calls left on the stack; `None` when they do not suffice. */
  function BuildNodes(ss: seq<Standard>, parent: Option<Id>, depth: nat): Option<seq<Node>>
    decreases depth, 1, 0
  {
    if depth == 0 then None else BuildEach(ss, ChildrenOf(ss, parent), depth)
  }

  function BuildEach(ss: seq<Standard>, level: seq<Standard>, depth: nat): Option<seq<Node>>
    requires depth > 0
    decreases depth, 0, |level|
  {
    if level == [] then Some([]) else
    var children := BuildNodes(ss, Some(level[0].id), depth - 1);
    var rest := BuildEach(ss, level[1..], depth);
    if children.None? || rest.None? then None
    else Some([Node(level[0].id, level[0].label_, children.value)] + rest.value)
  }

  function BuildTree(ss: seq<Standard>, depth: nat): Option<seq<Node>> { BuildNodes(ss, None, depth) }

  function FindStandard(ss: seq<Standard>, id: Id): (r: Option<Standard>)
    ensures r.Some? ==> r.value in ss && r.value.id == id
    ensures r.None? ==> forall s | s in ss :: s.id != id
  {
    if ss == [] then None else if ss[0].id == id then Some(ss[0]) else FindStandard(ss[1..], id)
  }

  /** `build_subtree`: the outer option is an exhausted stack, the inner one an unknown root. */
  function BuildSubtree(ss: seq<Standard>, root: Id, depth: nat): Option<Option<Node>> {
    var s := FindStandard(ss, root);
    if s.None? then Some(None) else
    var children := BuildNodes(ss, Some(root), depth);
    if children.None? then None else Some(Some(Node(root, s.value.label_, children.value)))
  }

  // ----- reference: descent along parent links

  /** `path` leads down from below `top` to its last element, parent by parent. */
  predicate Path(ss: seq<Standard>, top: Option<Id>, path: seq<Id>)
    decreases |path|
  {
    path != [] ==>
      && (exists i :: 0 <= i < |ss| && ss[i].id == path[0] && ss[i].parent == top)
      && Path(ss, Some(path[0]), path[1..])
  }

  /** `id` lies below `top`. */
  ghost predicate Below(ss: seq<Standard>, top: Option<Id>, id: Id) {
    exists path: seq<Id> :: path != [] && Path(ss, top, path) && path[|path| - 1] == id
  }

  ghost predicate OnCycle(ss: seq<Standard>, id: Id) { Below(ss, Some(id), id) }

  // ----- paths

  lemma {:induction false} PathAppend(ss: seq<Standard>, top: Option<Id>, p: seq<Id>, q: seq<Id>)
    requires Path(ss, top, p) && Path(ss, if p == [] then top else Some(p[|p| - 1]), q)
    ensures Path(ss, top, p + q)
    decreases |p|
  {
    if p == [] {
      assert p + q == q;
    } else {
      assert (p + q)[0] == p[0] && (p + q)[1..] == p[1..] + q;
      PathAppend(ss, Some(p[0]), p[1..], q);
    }
  }

  lemma {:induction false} PathSplit(ss: seq<Standard>, top: Option<Id>, p: seq<Id>, n: nat)
    requires Path(ss, top, p) && n <= |p|
    ensures Path(ss, top, p[..n]) && Path(ss, if n == 0 then top else Some(p[n - 1]), p[n..])
    decreases |p|
  {
    if n == 0 {
      assert p[..0] == [] && p[0..] == p;
    } else {
      PathSplit(ss, Some(p[0]), p[1..], n - 1);
      assert p[..n][0] == p[0] && p[..n][1..] == p[1..][..n - 1] && p[n..] == p[1..][n - 1..];
    }
  }

  /** A standard has one parent. */
  lemma OneParent(ss: seq<Standard>, i: nat, j: nat)
    requires UniqueIds(ss) && i < |ss| && j < |ss| && ss[i].id == ss[j].id
    ensures i == j
  {
  }

  lemma {:induction false} PathStep(ss: seq<Standard>, top: Option<Id>, p: seq<Id>, k: nat)
    requires Path(ss, top, p) && k < |p|
    ensures exists i :: 0 <= i < |ss| && ss[i].id == p[k] && ss[i].parent == if k == 0 then top else Some(p[k - 1])
  {
    PathSplit(ss, top, p, k);
    assert p[k..][0] == p[k];
  }

  /** From an element that occurs twice on a path one can climb to `top` through itself, so `top` is an
      id on a cycle; nothing below nil repeats. */
  lemma {:induction false} RepeatMeansCycle(ss: seq<Standard>, top: Option<Id>, p: seq<Id>, a: nat, b: nat)
    requires UniqueIds(ss) && Path(ss, top, p) && a < b < |p| && p[a] == p[b]
    ensures top.Some? && OnCycle(ss, top.value)
  {
    PathStep(ss, top, p, a);
    PathStep(ss, top, p, b);
    var i :| 0 <= i < |ss| && ss[i].id == p[a] && ss[i].parent == if a == 0 then top else Some(p[a - 1]);
    var j :| 0 <= j < |ss| && ss[j].id == p[b] && ss[j].parent == Some(p[b - 1]);
    OneParent(ss, i, j);
    if a == 0 {
      PathSplit(ss, top, p, b);
      var q := p[..b];
      assert q[|q| - 1] == p[b - 1] && top == Some(p[b - 1]);
    } else {
      RepeatMeansCycle(ss, top, p, a - 1, b - 1);
    }
  }

  lemma {:induction false} PathFromTop(ss: seq<Standard>, top: Option<Id>, p: seq<Id>)
    requires Path(ss, top, p)
    ensures forall k | 0 <= k < |p| :: exists i :: 0 <= i < |ss| && ss[i].id == p[k]
  {
    forall k | 0 <= k < |p| ensures exists i :: 0 <= i < |ss| && ss[i].id == p[k] {
      PathStep(ss, top, p, k);
    }
  }

  /** More elements than standards: some id repeats. */
  lemma {:induction false} Pigeonhole(p: seq<Id>, ids: set<Id>)
    requires (forall k | 0 <= k < |p| :: p[k] in ids) && |p| > |ids|
    ensures exists a, b :: 0 <= a < b < |p| && p[a] == p[b]
    decreases |p|
  {
    var last := p[|p| - 1];
    if a :| 0 <= a < |p| - 1 && p[a] == last {
      assert p[a] == p[|p| - 1];
    } else {
      var init := p[..|p| - 1];
      Pigeonhole(init, ids - {last});
      var a, b :| 0 <= a < b < |init| && init[a] == init[b];
      assert p[a] == p[b];
    }
  }

  function Ids(ss: seq<Standard>): set<Id> { set i | 0 <= i < |ss| :: ss[i].id }

  lemma {:induction false} IdsSize(ss: seq<Standard>)
    ensures |Ids(ss)| <= |ss|
  {
    if ss != [] {
      var init := ss[..|ss| - 1];
      IdsSize(init);
      assert Ids(ss) == Ids(init) + {ss[|ss| - 1].id};
    }
  }

  // ----- the depth the recursion needs

  lemma {:induction false} ChildrenAre(ss: seq<Standard>, parent: Option<Id>)
    ensures forall c :: c in ChildrenOf(ss, parent) <==> c in ss && c.parent == parent
    ensures UniqueIds(ss) ==> UniqueIds(ChildrenOf(ss, parent))
  {
    if ss != [] {
      ChildrenAre(ss[1..], parent);
      assert forall c :: c in ss <==> c == ss[0] || c in ss[1..];
      if UniqueIds(ss) {
        assert UniqueIds(ss[1..]);
        var rest := ChildrenOf(ss[1..], parent);
        forall j | 0 <= j < |rest| ensures ss[0].id != rest[j].id {
          assert rest[j] in ss[1..];
        }
      }
    }
  }

  /** An exhausted stack is witnessed by a path as long as the stack is deep. */
  lemma {:induction false} ExhaustedHasPath(ss: seq<Standard>, top: Option<Id>, depth: nat) returns (path: seq<Id>)
    requires BuildNodes(ss, top, depth).None?
    ensures Path(ss, top, path) && |path| == depth
    decreases depth, 1, 0
  {
    if depth == 0 {
      path := [];
    } else {
      var c, below := ExhaustedChild(ss, ChildrenOf(ss, top), depth);
      ChildrenAre(ss, top);
      path := [c.id] + below;
      assert path[1..] == below;
      var i :| 0 <= i < |ss| && ss[i] == c;
    }
  }

  lemma {:induction false} ExhaustedChild(ss: seq<Standard>, level: seq<Standard>, depth: nat)
    returns (c: Standard, below: seq<Id>)
    requires depth > 0 && BuildEach(ss, level, depth).None?
    ensures c in level && Path(ss, Some(c.id), below) && |below| == depth - 1
    decreases depth, 0, |level|
  {
    if BuildNodes(ss, Some(level[0].id), depth - 1).None? {
      c := level[0];
      below := ExhaustedHasPath(ss, Some(c.id), depth - 1);
    } else {
      c, below := ExhaustedChild(ss, level[1..], depth);
    }
  }

  /** And conversely a path as long as the stack is deep exhausts it. */
  lemma {:induction false} PathExhausts(ss: seq<Standard>, top: Option<Id>, path: seq<Id>)
    requires Path(ss, top, path)
    ensures BuildNodes(ss, top, |path|).None?
    decreases |path|, 1, 0
  {
    if path != [] {
      var i :| 0 <= i < |ss| && ss[i].id == path[0] && ss[i].parent == top;
      ChildrenAre(ss, top);
      PathExhausts(ss, Some(path[0]), path[1..]);
      ChildExhausts(ss, ChildrenOf(ss, top), ss[i], |path|);
    }
  }

  lemma {:induction false} ChildExhausts(ss: seq<Standard>, level: seq<Standard>, c: Standard, depth: nat)
    requires depth > 0 && c in level && BuildNodes(ss, Some(c.id), depth - 1).None?
    ensures BuildEach(ss, level, depth).None?
  {
    if level[0] != c {
      ChildExhausts(ss, level[1..], c, depth);
    }
  }

  /** Unless `top` is an id on a cycle, as many calls as there are standards, plus one, suffice. */
  lemma NoCycleTerminates(ss: seq<Standard>, top: Option<Id>)
    requires UniqueIds(ss) && (top.Some? ==> !OnCycle(ss, top.value))
    ensures BuildNodes(ss, top, |ss| + 1).Some?
  {
    if BuildNodes(ss, top, |ss| + 1).None? {
      var path := ExhaustedHasPath(ss, top, |ss| + 1);
      PathFromTop(ss, top, path);
      IdsSize(ss);
      Pigeonhole(path, Ids(ss));
      var a, b :| 0 <= a < b < |path| && path[a] == path[b];
      RepeatMeansCycle(ss, top, path, a, b);
    }
  }

  lemma {:induction false} CycleRepeats(ss: seq<Standard>, id: Id, loop_: seq<Id>, n: nat) returns (path: seq<Id>)
    requires loop_ != [] && Path(ss, Some(id), loop_) && loop_[|loop_| - 1] == id
    ensures Path(ss, Some(id), path) && |path| == n
  {
    if n <= |loop_| {
      PathSplit(ss, Some(id), loop_, n);
      path := loop_[..n];
    } else {
      var rest := CycleRepeats(ss, id, loop_, n - |loop_|);
      PathAppend(ss, Some(id), loop_, rest);
      path := loop_ + rest;
    }
  }

  /** `build_tree` terminates on every finite set of standards with unique ids, cycles or not. */
  lemma TreeTerminates(ss: seq<Standard>)
    requires UniqueIds(ss)
    ensures BuildTree(ss, |ss| + 1).Some?
  {
    NoCycleTerminates(ss, None);
  }

  /** `build_subtree` terminates iff its root is not on a cycle: on a cycle no stack is deep enough. */
  lemma SubtreeTerminatesIff(ss: seq<Standard>, root: Id)
    requires UniqueIds(ss)
    ensures BuildSubtree(ss, root, |ss| + 1).Some? <==> !OnCycle(ss, root)
    ensures OnCycle(ss, root) ==> forall depth :: BuildSubtree(ss, root, depth).None?
  {
    if OnCycle(ss, root) {
      var loop_: seq<Id> :| loop_ != [] && Path(ss, Some(root), loop_) && loop_[|loop_| - 1] == root;
      PathFromTop(ss, Some(root), loop_);
      assert FindStandard(ss, root).Some? by {
        var i :| 0 <= i < |ss| && ss[i].id == loop_[|loop_| - 1];
        assert ss[i] in ss;
      }
      forall depth ensures BuildSubtree(ss, root, depth).None? {
        var path := CycleRepeats(ss, root, loop_, depth);
        PathExhausts(ss, Some(root), path);
      }
    } else {
      NoCycleTerminates(ss, Some(root));
    }
  }

  /** A deeper stack gives the same tree. */
  lemma {:induction false} DepthIrrelevant(ss: seq<Standard>, top: Option<Id>, d: nat, d': nat)
    requires d <= d' && BuildNodes(ss, top, d).Some?
    ensures BuildNodes(ss, top, d') == BuildNodes(ss, top, d)
    decreases d, 1, 0
  {
    EachDepthIrrelevant(ss, ChildrenOf(ss, top), d, d');
  }

  lemma {:induction false} EachDepthIrrelevant(ss: seq<Standard>, level: seq<Standard>, d: nat, d': nat)
    requires 0 < d <= d' && BuildEach(ss, level, d).Some?
    ensures BuildEach(ss, level, d') == BuildEach(ss, level, d)
    decreases d, 0, |level|
  {
    if level != [] {
      DepthIrrelevant(ss, Some(level[0].id), d - 1, d' - 1);
      EachDepthIrrelevant(ss, level[1..], d, d');
    }
  }

  // ----- what the tree contains

  function CountIn(ns: seq<Node>, id: Id): nat
    decreases ns
  {
    if ns == [] then 0 else
    (if ns[0].id == id then 1 else 0) + CountIn(ns[0].children, id) + CountIn(ns[1..], id)
  }

  lemma BelowChild(ss: seq<Standard>, top: Option<Id>, c: Standard, id: Id)
    requires c in ss && c.parent == top && (c.id == id || Below(ss, Some(c.id), id))
    ensures Below(ss, top, id)
  {
    var i :| 0 <= i < |ss| && ss[i] == c;
    if c.id == id {
      assert Path(ss, top, [id]);
    } else {
      var p: seq<Id> :| p != [] && Path(ss, Some(c.id), p) && p[|p| - 1] == id;
      assert ([c.id] + p)[1..] == p;
      assert Path(ss, top, [c.id] + p);
    }
  }

  /** What lies below `top` is one of its children or lies below one. */
  lemma BelowThrough(ss: seq<Standard>, top: Option<Id>, id: Id) returns (c: Standard)
    requires Below(ss, top, id)
    ensures c in ChildrenOf(ss, top) && (c.id == id || Below(ss, Some(c.id), id))
  {
    var p: seq<Id> :| p != [] && Path(ss, top, p) && p[|p| - 1] == id;
    var i :| 0 <= i < |ss| && ss[i].id == p[0] && ss[i].parent == top;
    c := ss[i];
    ChildrenAre(ss, top);
    if |p| > 1 {
      assert p[1..] != [] && p[1..][|p[1..]| - 1] == id;
    }
  }

  /** A finished build has no cycle through its top. */
  lemma FinishedAcyclic(ss: seq<Standard>, top: Id, depth: nat)
    requires BuildNodes(ss, Some(top), depth).Some?
    ensures !OnCycle(ss, top)
  {
    if OnCycle(ss, top) {
      var loop_: seq<Id> :| loop_ != [] && Path(ss, Some(top), loop_) && loop_[|loop_| - 1] == top;
      var path := CycleRepeats(ss, top, loop_, depth);
      PathExhausts(ss, Some(top), path);
    }
  }

  /** An id is not below two siblings, nor below a sibling of its own, unless their parent is on a cycle. */
  lemma SiblingsApart(ss: seq<Standard>, top: Option<Id>, c: Standard, d: Standard, id: Id)
    requires UniqueIds(ss) && c in ss && d in ss && c.parent == top && d.parent == top && c.id != d.id
    requires c.id == id || Below(ss, Some(c.id), id)
    requires d.id == id || Below(ss, Some(d.id), id)
    ensures top.Some? && OnCycle(ss, top.value)
  {
    var p := PathTo(ss, top, c, id);
    var q := PathTo(ss, top, d, id);
    if |p| <= |q| {
      CommonEnd(ss, top, p, q);
    } else {
      CommonEnd(ss, top, q, p);
    }
  }

  lemma PathTo(ss: seq<Standard>, top: Option<Id>, c: Standard, id: Id) returns (p: seq<Id>)
    requires c in ss && c.parent == top && (c.id == id || Below(ss, Some(c.id), id))
    ensures p != [] && Path(ss, top, p) && p[0] == c.id && p[|p| - 1] == id
  {
    var i :| 0 <= i < |ss| && ss[i] == c;
    if c.id == id {
      p := [id];
    } else {
      var below: seq<Id> :| below != [] && Path(ss, Some(c.id), below) && below[|below| - 1] == id;
      p := [c.id] + below;
      assert p[1..] == below;
    }
  }

  /** Two paths from `top` to one id that start differently: climbing them together, the shorter one
      reaches `top` while the longer one still has a way to go, so `top` lies below itself. */
  lemma {:induction false} CommonEnd(ss: seq<Standard>, top: Option<Id>, p: seq<Id>, q: seq<Id>)
    requires UniqueIds(ss) && p != [] && |p| <= |q| && Path(ss, top, p) && Path(ss, top, q)
    requires p[|p| - 1] == q[|q| - 1] && p[0] != q[0]
    ensures top.Some? && OnCycle(ss, top.value)
    decreases |p|
  {
    PathStep(ss, top, p, |p| - 1);
    PathStep(ss, top, q, |q| - 1);
    var i :| 0 <= i < |ss| && ss[i].id == p[|p| - 1] && ss[i].parent == if |p| == 1 then top else Some(p[|p| - 2]);
    var j :| 0 <= j < |ss| && ss[j].id == q[|q| - 1] && ss[j].parent == if |q| == 1 then top else Some(q[|q| - 2]);
    OneParent(ss, i, j);
    if |p| == 1 {
      PathSplit(ss, top, q, |q| - 1);
      var q' := q[..|q| - 1];
      assert q'[|q'| - 1] == q[|q| - 2];
    } else {
      PathSplit(ss, top, p, |p| - 1);
      PathSplit(ss, top, q, |q| - 1);
      CommonEnd(ss, top, p[..|p| - 1], q[..|q| - 1]);
    }
  }

  ghost function Once(b: bool): nat { if b then 1 else 0 }

  /** A finished build holds each id below its top exactly once, and no other. */
  lemma {:induction false} NodesExact(ss: seq<Standard>, top: Option<Id>, depth: nat, id: Id)
    requires UniqueIds(ss) && BuildNodes(ss, top, depth).Some?
    ensures CountIn(BuildNodes(ss, top, depth).value, id) == Once(Below(ss, top, id))
    decreases depth, 1, 0
  {
    var level := ChildrenOf(ss, top);
    ChildrenAre(ss, top);
    if top.Some? {
      FinishedAcyclic(ss, top.value, depth);
    }
    EachExact(ss, top, level, depth, id);
    if Below(ss, top, id) {
      var c := BelowThrough(ss, top, id);
    }
    if c :| c in level && (c.id == id || Below(ss, Some(c.id), id)) {
      BelowChild(ss, top, c, id);
    }
  }

  lemma {:induction false} EachExact(ss: seq<Standard>, top: Option<Id>, level: seq<Standard>, depth: nat, id: Id)
    requires UniqueIds(ss) && depth > 0 && BuildEach(ss, level, depth).Some? && (top.Some? ==> !OnCycle(ss, top.value))
    requires UniqueIds(level) && forall c | c in level :: c in ss && c.parent == top
    ensures CountIn(BuildEach(ss, level, depth).value, id)
         == Once(exists c :: c in level && (c.id == id || Below(ss, Some(c.id), id)))
    decreases depth, 0, |level|
  {
    if level != [] {
      var c, rest := level[0], level[1..];
      NodesExact(ss, Some(c.id), depth - 1, id);
      assert UniqueIds(rest) && forall d | d in rest :: d in level;
      EachExact(ss, top, rest, depth, id);
      var nodes := BuildEach(ss, level, depth).value;
      var children := BuildNodes(ss, Some(c.id), depth - 1).value;
      assert nodes[0] == Node(c.id, c.label_, children) && nodes[1..] == BuildEach(ss, rest, depth).value;
      FinishedAcyclic(ss, c.id, depth - 1);
      if d :| d in rest && (d.id == id || Below(ss, Some(d.id), id)) {
        if c.id == id || Below(ss, Some(c.id), id) {
          SiblingsApart(ss, top, c, d, id);
        }
        assert d in level;
      }
      assert forall d | d in level :: d == c || d in rest;
    }
  }

  /** Every node stands for a standard, under the node of its parent, siblings in input order. */
  predicate Mirrors(ss: seq<Standard>, top: Option<Id>, ns: seq<Node>)
    decreases ns
  {
    var level := ChildrenOf(ss, top);
    && |ns| == |level|
    && forall i | 0 <= i < |ns| ::
         ns[i].id == level[i].id && ns[i].label_ == level[i].label_ && Mirrors(ss, Some(ns[i].id), ns[i].children)
  }

  lemma {:induction false} BuildMirrors(ss: seq<Standard>, top: Option<Id>, depth: nat)
    requires BuildNodes(ss, top, depth).Some?
    ensures Mirrors(ss, top, BuildNodes(ss, top, depth).value)
    decreases depth, 1, 0
  {
    EachMirrors(ss, ChildrenOf(ss, top), depth);
  }

  lemma {:induction false} EachMirrors(ss: seq<Standard>, level: seq<Standard>, depth: nat)
    requires depth > 0 && BuildEach(ss, level, depth).Some?
    ensures
      var ns := BuildEach(ss, level, depth).value;
      && |ns| == |level|
      && forall i | 0 <= i < |ns| ::
           ns[i].id == level[i].id && ns[i].label_ == level[i].label_ && Mirrors(ss, Some(ns[i].id), ns[i].children)
    decreases depth, 0, |level|
  {
    if level != [] {
      BuildMirrors(ss, Some(level[0].id), depth - 1);
      EachMirrors(ss, level[1..], depth);
    }
  }

  /** `build_tree` holds each standard whose parent chain reaches nil exactly once, and no other. */
  lemma TreeExact(ss: seq<Standard>, id: Id)
    requires UniqueIds(ss)
    ensures BuildTree(ss, |ss| + 1).Some?
    ensures CountIn(BuildTree(ss, |ss| + 1).value, id) == Once(Below(ss, None, id))
    ensures Mirrors(ss, None, BuildTree(ss, |ss| + 1).value)
  {
    TreeTerminates(ss);
    BuildMirrors(ss, None, |ss| + 1);
    NodesExact(ss, None, |ss| + 1, id);
  }

  /** `build_subtree` from a known root off every cycle holds exactly the root's descendants, once each. */
  lemma SubtreeExact(ss: seq<Standard>, root: Id, id: Id)
    requires UniqueIds(ss) && FindStandard(ss, root).Some? && !OnCycle(ss, root)
    ensures
      var r := BuildSubtree(ss, root, |ss| + 1);
      && r.Some? && r.value.Some? && r.value.value.id == root
      && CountIn(r.value.value.children, id) == Once(Below(ss, Some(root), id))
      && Mirrors(ss, Some(root), r.value.value.children)
  {
    SubtreeTerminatesIff(ss, root);
    BuildMirrors(ss, Some(root), |ss| + 1);
    NodesExact(ss, Some(root), |ss| + 1, id);
  }
}
