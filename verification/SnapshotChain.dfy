/** Chains of incremental snapshots (src/boot/template.rs): walking a chain to its
    root, resolving it to memory and machine state, and compacting it. */
module SnapshotChain {
  import opened Bytes
  import opened DirtyPages

  type Path = string

  datatype Incremental = Incremental(
    baseTemplate: Path, parentTag: Option<Path>, bitmap: seq<byte>, pagesFile: Path, memorySize: nat,
    vcpus: seq<byte>, devices: seq<byte>, tag: Option<string>, depth: nat, kind: string)

  datatype Template = Template(
    memoryFile: Path, vcpus: seq<byte>, devices: seq<byte>, memorySize: nat,
    tag: Option<string>, parentTag: Option<Path>, depth: nat, kind: string)

  /** The metadata that parse, by directory, and the contents of files. */
  datatype Store = Store(incs: map<Path, Incremental>, fulls: map<Path, Template>, files: map<Path, seq<byte>>)

  datatype ChainNode = ChainNode(tag: Option<string>, kind: string, depth: nat, dir: Path)

  datatype Image = Image(memory: seq<byte>, vcpus: seq<byte>, devices: seq<byte>)

  function LoadIncremental(st: Store, dir: Path): Option<Incremental> {
    if dir in st.incs then Some(st.incs[dir]) else None
  }

  /** A template loads only if its memory file exists. */
  function LoadTemplate(st: Store, dir: Path): Option<Template> {
    if dir in st.fulls && st.fulls[dir].memoryFile in st.files then Some(st.fulls[dir]) else None
  }

  datatype Link = NoSnapshot | Root | Child(parent: Path)

  /** Where a directory leads: incremental metadata take precedence. */
  function LinkOf(st: Store, dir: Path): Link {
    match LoadIncremental(st, dir)
    case Some(inc) => Child(if inc.parentTag.Some? then inc.parentTag.value else inc.baseTemplate)
    case None =>
      match LoadTemplate(st, dir)
      case Some(full) => if full.parentTag.Some? then Child(full.parentTag.value) else Root
      case None => NoSnapshot
  }

  function NodeOf(st: Store, dir: Path): ChainNode {
    match LoadIncremental(st, dir)
    case Some(inc) => ChainNode(inc.tag, inc.kind, inc.depth, dir)
    case None =>
      match LoadTemplate(st, dir)
      case Some(full) => ChainNode(full.tag, full.kind, full.depth, dir)
      case None => ChainNode(None, "", 0, dir)
  }

  // ----- walking

  /** The directories from the root down to `dir`, if the root is at most `limit`
      steps away. */
  function ChainFrom(st: Store, dir: Path, limit: nat): (c: Option<seq<Path>>)
    ensures c.Some? ==> 0 < |c.value| <= limit + 1 && c.value[|c.value| - 1] == dir
    decreases limit, dir
  {
    match LinkOf(st, dir)
    case NoSnapshot => None
    case Root => Some([dir])
    case Child(p) =>
      if limit == 0 then None else
      match ChainFrom(st, p, limit - 1)
      case None => None
      case Some(c) => Some(c + [dir])
  }

  function Nodes(st: Store, dirs: seq<Path>): (ns: seq<ChainNode>)
    ensures |ns| == |dirs|
  {
    seq(|dirs|, i requires 0 <= i < |dirs| => NodeOf(st, dirs[i]))
  }

  function Reversed(ns: seq<ChainNode>): (r: seq<ChainNode>)
    ensures |r| == |ns| && forall i :: 0 <= i < |ns| ==> r[i] == ns[|ns| - 1 - i]
  {
    seq(|ns|, i requires 0 <= i < |ns| => ns[|ns| - 1 - i])
  }

  /** The nodes of a chain to `dir`, followed by nodes already collected. */
  function Whole(st: Store, c: Option<seq<Path>>, collected: seq<ChainNode>): Option<seq<ChainNode>> {
    match c
    case None => None
    case Some(dirs) => Some(Nodes(st, dirs) + Reversed(collected))
  }

  /** `walk_chain` */
  method WalkChain(st: Store, leaf: Path) returns (r: Option<seq<ChainNode>>)
    ensures r == Whole(st, ChainFrom(st, leaf, 256), [])
    ensures r.Some? ==> |r.value| <= 257 && Recorded(st, Dirs(r.value), leaf)
    ensures r.Some? ==> forall k :: 0 <= k < |r.value| ==> NodeIs(st, r.value[k])
    ensures r == None ==> forall dirs :: Recorded(st, dirs, leaf) ==> |dirs| > 257
  {
    r := CollectChain(st, leaf);
    ghost var c := ChainFrom(st, leaf, 256);
    if c.Some? {
      NodesAre(st, leaf, c.value);
      assert r.value == Nodes(st, c.value);
    } else {
      forall dirs | Recorded(st, dirs, leaf) ensures |dirs| > 257 {
        ChainIsRecorded(st, leaf, 256, dirs);
      }
    }
  }

  /** The loop. */
  method CollectChain(st: Store, leaf: Path) returns (r: Option<seq<ChainNode>>)
    ensures r == Whole(st, ChainFrom(st, leaf, 256), [])
  {
    var chain: seq<ChainNode> := [];
    var dir := leaf;
    while true
      invariant |chain| <= 256
      invariant Whole(st, ChainFrom(st, leaf, 256), []) == Whole(st, ChainFrom(st, dir, 256 - |chain|), chain)
      decreases 256 - |chain|
    {
      ghost var was := chain;
      var inc := LoadIncremental(st, dir);
      if inc.Some? {
        chain := chain + [ChainNode(inc.value.tag, inc.value.kind, inc.value.depth, dir)];
        Climb(st, dir, was);
        dir := if inc.value.parentTag.Some? then inc.value.parentTag.value else inc.value.baseTemplate;
      } else {
        var full := LoadTemplate(st, dir);
        if full == None {
          return None;
        }
        chain := chain + [ChainNode(full.value.tag, full.value.kind, full.value.depth, dir)];
        if full.value.parentTag == None {
          RootReached(st, was, dir, 256 - |was|);
          break;
        }
        Climb(st, dir, was);
        dir := full.value.parentTag.value;
      }
      if |chain| > 256 {
        return None;
      }
    }
    return Some(Reversed(chain));
  }

  /** One step towards the root. */
  lemma Climb(st: Store, dir: Path, ns: seq<ChainNode>)
    requires |ns| <= 256 && LinkOf(st, dir).Child?
    ensures |ns| == 256 ==> ChainFrom(st, dir, 256 - |ns|) == None
    ensures |ns| < 256 ==>
      Whole(st, ChainFrom(st, dir, 256 - |ns|), ns) ==
        Whole(st, ChainFrom(st, LinkOf(st, dir).parent, 255 - |ns|), ns + [NodeOf(st, dir)])
  {
    if |ns| < 256 {
      var c := ChainFrom(st, LinkOf(st, dir).parent, 255 - |ns|);
      if c.Some? {
        Collect(st, c.value, ns, dir);
      }
    }
  }

  lemma Collect(st: Store, c: seq<Path>, ns: seq<ChainNode>, dir: Path)
    ensures Nodes(st, c + [dir]) + Reversed(ns) == Nodes(st, c) + Reversed(ns + [NodeOf(st, dir)])
  {
  }

  lemma RootReached(st: Store, ns: seq<ChainNode>, dir: Path, limit: nat)
    requires LinkOf(st, dir) == Root
    ensures Whole(st, ChainFrom(st, dir, limit), ns) == Some(Reversed(ns + [NodeOf(st, dir)]))
  {
    assert Nodes(st, [dir]) + Reversed(ns) == Reversed(ns + [NodeOf(st, dir)]);
  }

  // ----- what the metadata say

  /** Incremental metadata of d name p: as the parent tag, or as the base template if there
      is no tag.  A full snapshot names p as its parent tag. */
  predicate Names(st: Store, d: Path, p: Path) {
    || (d in st.incs && st.incs[d].parentTag == Some(p))
    || (d in st.incs && st.incs[d].parentTag == None && st.incs[d].baseTemplate == p)
    || (d !in st.incs && d in st.fulls && st.fulls[d].memoryFile in st.files && st.fulls[d].parentTag == Some(p))
  }

  /** A full snapshot with its memory file, without parent. */
  predicate IsBase(st: Store, d: Path) {
    d !in st.incs && d in st.fulls && st.fulls[d].memoryFile in st.files && st.fulls[d].parentTag == None
  }

  /** The directories lead from a base to the leaf, each naming the one before. */
  ghost predicate Recorded(st: Store, dirs: seq<Path>, leaf: Path) {
    && dirs != [] && dirs[|dirs| - 1] == leaf && IsBase(st, dirs[0])
    && forall k :: 0 < k < |dirs| ==> Names(st, dirs[k], dirs[k - 1])
  }

  lemma RecordedStep(st: Store, dirs: seq<Path>, leaf: Path)
    requires Recorded(st, dirs, leaf) && |dirs| > 1
    ensures Recorded(st, dirs[..|dirs| - 1], dirs[|dirs| - 2]) && Names(st, leaf, dirs[|dirs| - 2])
  {
  }

  lemma RecordedMore(st: Store, dirs: seq<Path>, p: Path, leaf: Path)
    requires Recorded(st, dirs, p) && Names(st, leaf, p)
    ensures Recorded(st, dirs + [leaf], leaf)
  {
  }

  /** The chain of a directory consists of what the metadata name, down from a base at most
      `limit` steps away, and there is no chain otherwise. */
  lemma {:induction false} ChainIsRecorded(st: Store, leaf: Path, limit: nat, dirs: seq<Path>)
    ensures ChainFrom(st, leaf, limit) == Some(dirs) <==> Recorded(st, dirs, leaf) && |dirs| <= limit + 1
    decreases limit
  {
    if limit > 0 && LinkOf(st, leaf).Child? {
      var p := LinkOf(st, leaf).parent;
      var n := if dirs == [] then 0 else |dirs| - 1;
      ChainIsRecorded(st, p, limit - 1, dirs[..n]);
      if Recorded(st, dirs, leaf) && |dirs| > 1 {
        RecordedStep(st, dirs, leaf);
        assert dirs == dirs[..n] + [leaf];
      }
      if ChainFrom(st, leaf, limit) == Some(dirs) {
        assert dirs[..n] == ChainFrom(st, p, limit - 1).value;
        RecordedMore(st, dirs[..n], p, leaf);
      }
    } else if Recorded(st, dirs, leaf) {
      if |dirs| > 1 {
        RecordedStep(st, dirs, leaf);
      } else {
        assert dirs == [leaf];
      }
    }
  }

  /** A node tells the tag, the kind and the depth that its directory's metadata record. */
  predicate NodeIs(st: Store, n: ChainNode) {
    if n.dir in st.incs
    then n.tag == st.incs[n.dir].tag && n.kind == st.incs[n.dir].kind && n.depth == st.incs[n.dir].depth
    else n.dir in st.fulls && n.tag == st.fulls[n.dir].tag && n.kind == st.fulls[n.dir].kind
         && n.depth == st.fulls[n.dir].depth
  }

  function Dirs(ns: seq<ChainNode>): seq<Path> { seq(|ns|, i requires 0 <= i < |ns| => ns[i].dir) }

  /** What the collected nodes say. */
  lemma NodesAre(st: Store, leaf: Path, dirs: seq<Path>)
    requires ChainFrom(st, leaf, 256) == Some(dirs)
    ensures Dirs(Nodes(st, dirs)) == dirs && forall k :: 0 <= k < |dirs| ==> NodeIs(st, Nodes(st, dirs)[k])
    ensures Recorded(st, dirs, leaf) && |dirs| <= 257
  {
    ChainIsRecorded(st, leaf, 256, dirs);
    forall k | 0 <= k < |dirs| ensures NodeIs(st, Nodes(st, dirs)[k]) {
      assert k > 0 ==> Names(st, dirs[k], dirs[k - 1]);
    }
  }

  // ----- what a chain is

  /** The k-th ancestor of a directory. */
  function Ancestor(st: Store, leaf: Path, k: nat): Option<Path> {
    if k == 0 then Some(leaf) else
    match Ancestor(st, leaf, k - 1)
    case Some(d) => if LinkOf(st, d).Child? then Some(LinkOf(st, d).parent) else None
    case None => None
  }

  predicate RootAt(st: Store, leaf: Path, k: nat) {
    Ancestor(st, leaf, k).Some? && LinkOf(st, Ancestor(st, leaf, k).value) == Root
  }

  lemma {:induction false} AncestorOfParent(st: Store, leaf: Path, k: nat)
    requires LinkOf(st, leaf).Child?
    ensures Ancestor(st, leaf, k + 1) == Ancestor(st, LinkOf(st, leaf).parent, k)
  {
    if k > 0 {
      AncestorOfParent(st, leaf, k - 1);
    }
  }

  /** A root is within `limit` steps. */
  ghost predicate Reaches(st: Store, leaf: Path, limit: nat) {
    exists k: nat :: k <= limit && RootAt(st, leaf, k)
  }

  /** c is the path of parents from the leaf to a root, reversed. */
  ghost predicate IsPath(st: Store, leaf: Path, c: seq<Path>) {
    && c != [] && RootAt(st, leaf, |c| - 1)
    && forall i :: 0 <= i < |c| ==> Ancestor(st, leaf, |c| - 1 - i) == Some(c[i])
  }

  /** A chain is the path of parents from the leaf to a root, reversed, and there is
      one exactly when a root is within reach. */
  lemma {:induction false} ChainIsPath(st: Store, leaf: Path, limit: nat)
    ensures ChainFrom(st, leaf, limit).Some? <==> Reaches(st, leaf, limit)
    ensures ChainFrom(st, leaf, limit).Some? ==> IsPath(st, leaf, ChainFrom(st, leaf, limit).value)
    decreases limit
  {
    match LinkOf(st, leaf)
    case NoSnapshot =>
      forall k: nat ensures !RootAt(st, leaf, k) {
        NoAncestor(st, leaf, k);
      }
    case Root =>
      assert RootAt(st, leaf, 0);
    case Child(p) =>
      ReachStep(st, leaf, p, limit);
      if limit > 0 {
        ChainIsPath(st, p, limit - 1);
        if ChainFrom(st, p, limit - 1).Some? {
          PathStep(st, leaf, p, ChainFrom(st, p, limit - 1).value);
        }
      }
  }

  lemma ReachStep(st: Store, leaf: Path, p: Path, limit: nat)
    requires LinkOf(st, leaf) == Child(p)
    ensures Reaches(st, leaf, limit) <==> limit > 0 && Reaches(st, p, limit - 1)
  {
    if Reaches(st, leaf, limit) {
      var k: nat :| k <= limit && RootAt(st, leaf, k);
      assert k > 0;
      AncestorOfParent(st, leaf, k - 1);
      assert RootAt(st, p, k - 1);
    }
    if limit > 0 && Reaches(st, p, limit - 1) {
      var k: nat :| k <= limit - 1 && RootAt(st, p, k);
      AncestorOfParent(st, leaf, k);
      assert RootAt(st, leaf, k + 1);
    }
  }

  lemma PathStep(st: Store, leaf: Path, p: Path, c: seq<Path>)
    requires LinkOf(st, leaf) == Child(p) && IsPath(st, p, c)
    ensures IsPath(st, leaf, c + [leaf])
  {
    AncestorOfParent(st, leaf, |c| - 1);
    forall i | 0 <= i < |c| + 1 ensures Ancestor(st, leaf, |c| - i) == Some((c + [leaf])[i]) {
      if i < |c| {
        AncestorOfParent(st, leaf, |c| - 1 - i);
      }
    }
  }

  lemma {:induction false} NoAncestor(st: Store, leaf: Path, k: nat)
    requires !LinkOf(st, leaf).Child?
    ensures k > 0 ==> Ancestor(st, leaf, k) == None
  {
    if k > 1 {
      NoAncestor(st, leaf, k - 1);
    }
  }

  lemma {:induction false} Periodic(st: Store, leaf: Path, i: nat, j: nat, m: nat)
    requires Ancestor(st, leaf, i) == Ancestor(st, leaf, j)
    ensures Ancestor(st, leaf, i + m) == Ancestor(st, leaf, j + m)
  {
    if m > 0 {
      Periodic(st, leaf, i, j, m - 1);
    }
  }

  lemma {:induction false} Earlier(st: Store, leaf: Path, i: nat, k: nat)
    requires i < k && Ancestor(st, leaf, k).Some?
    ensures Ancestor(st, leaf, i).Some? && LinkOf(st, Ancestor(st, leaf, i).value).Child?
    decreases k
  {
    if i < k - 1 {
      Earlier(st, leaf, i, k - 1);
    }
  }

  /** A directory that is its own ancestor leads to no root. */
  lemma NoRootOnCycle(st: Store, leaf: Path, i: nat, j: nat, k: nat)
    requires i < j && Ancestor(st, leaf, i).Some? && Ancestor(st, leaf, i) == Ancestor(st, leaf, j)
    ensures !RootAt(st, leaf, k)
  {
    if RootAt(st, leaf, k) {
      if k < j {
        Earlier(st, leaf, k, j);
      } else {
        Periodic(st, leaf, i, j, k - j);
        Earlier(st, leaf, i + (k - j), k);
      }
    }
  }

  /** Walking fails on every cycle, and the directories of a chain are distinct. */
  lemma CycleFails(st: Store, leaf: Path, limit: nat, i: nat, j: nat)
    requires i < j && Ancestor(st, leaf, i).Some? && Ancestor(st, leaf, i) == Ancestor(st, leaf, j)
    ensures ChainFrom(st, leaf, limit) == None
  {
    ChainIsPath(st, leaf, limit);
    if ChainFrom(st, leaf, limit).Some? {
      NoRootOnCycle(st, leaf, i, j, |ChainFrom(st, leaf, limit).value| - 1);
    }
  }

  lemma ChainDistinct(st: Store, leaf: Path, limit: nat, c: seq<Path>, i: nat, j: nat)
    requires ChainFrom(st, leaf, limit) == Some(c) && i < j < |c|
    ensures c[i] != c[j]
  {
    ChainIsPath(st, leaf, limit);
    if c[i] == c[j] {
      CycleFails(st, leaf, limit, |c| - 1 - j, |c| - 1 - i);
    }
  }
}
