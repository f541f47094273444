/** Resolving a chain of snapshots to memory and machine state, and compacting it
    into one full snapshot (src/boot/template.rs). */
module SnapshotResolve {
  import opened Bytes
  import opened DirtyPages
  import opened SnapshotChain

  // ----- resolving

  /** The memory that a chain of directories stands for: the root's memory with the
      diffs applied in order.  None if something cannot be read. */
  function Replay(st: Store, dirs: seq<Path>): Option<seq<byte>>
    requires dirs != []
  {
    var last := dirs[|dirs| - 1];
    if |dirs| == 1 then
      (match LoadTemplate(st, last)
       case None => None
       case Some(t) => Some(st.files[t.memoryFile]))
    else
      match Replay(st, dirs[..|dirs| - 1])
      case None => None
      case Some(mem) =>
        match LoadIncremental(st, last)
        case None => None
        case Some(inc) =>
          if inc.pagesFile !in st.files then None
          else Some(Applied(mem, inc.bitmap, st.files[inc.pagesFile], inc.memorySize / 4096))
  }

  /** The machine state recorded in a directory, beside a memory. */
  function WithState(st: Store, leaf: Path, mem: seq<byte>): Option<Image> {
    match LoadIncremental(st, leaf)
    case Some(inc) => Some(Image(mem, inc.vcpus, inc.devices))
    case None =>
      match LoadTemplate(st, leaf)
      case Some(t) => Some(Image(mem, t.vcpus, t.devices))
      case None => None
  }

  function Resolved(st: Store, leaf: Path): Option<Image> {
    match ChainFrom(st, leaf, 256)
    case None => None
    case Some(dirs) =>
      match Replay(st, dirs)
      case None => None
      case Some(mem) => WithState(st, leaf, mem)
  }

  lemma {:induction false} ReplayFails(st: Store, dirs: seq<Path>, n: nat)
    requires 0 < n <= |dirs| && Replay(st, dirs[..n]) == None
    ensures Replay(st, dirs) == None
    decreases |dirs|
  {
    if n < |dirs| {
      assert dirs[..|dirs| - 1][..n] == dirs[..n];
      ReplayFails(st, dirs[..|dirs| - 1], n);
    } else {
      assert dirs[..n] == dirs;
    }
  }

  /** `resolve_chain` */
  method ResolveChain(st: Store, leaf: Path) returns (r: Option<Image>)
    ensures r == Resolved(st, leaf)
  {
    var chain := WalkChain(st, leaf);
    if chain == None {
      return None;
    }
    ghost var dirs := ChainFrom(st, leaf, 256).value;
    var mem := ReplayNodes(st, chain.value, dirs);
    if mem == None {
      return None;
    }
    assert chain.value[|chain.value| - 1].dir == leaf;
    var inc := LoadIncremental(st, chain.value[|chain.value| - 1].dir);
    if inc.Some? {
      return Some(Image(mem.value, inc.value.vcpus, inc.value.devices));
    }
    var full := LoadTemplate(st, chain.value[|chain.value| - 1].dir);
    if full == None {
      return None;
    }
    return Some(Image(mem.value, full.value.vcpus, full.value.devices));
  }

  /** Load the root's memory and apply the diffs to it in place. */
  method ReplayNodes(st: Store, chain: seq<ChainNode>, ghost dirs: seq<Path>) returns (r: Option<seq<byte>>)
    requires dirs != [] && |chain| == |dirs| && forall i :: 0 <= i < |chain| ==> chain[i].dir == dirs[i]
    ensures r == Replay(st, dirs)
  {
    var root := LoadTemplate(st, chain[0].dir);
    if root == None {
      ReplayFails(st, dirs, 1);
      return None;
    }
    var f := st.files[root.value.memoryFile];
    var mem := new byte[|f|](i requires 0 <= i < |f| => f[i]);
    assert mem[..] == f;
    var n := 1;
    while n < |chain|
      invariant 1 <= n <= |chain| && Replay(st, dirs[..n]) == Some(mem[..])
    {
      assert dirs[..n + 1][..n] == dirs[..n];
      var inc := LoadIncremental(st, chain[n].dir);
      if inc == None || inc.value.pagesFile !in st.files {
        ReplayFails(st, dirs, n + 1);
        return None;
      }
      ApplyDiff(mem, inc.value.bitmap, st.files[inc.value.pagesFile], inc.value.memorySize);
      n := n + 1;
    }
    assert dirs[..n] == dirs;
    return Some(mem[..]);
  }

  /** The incremental snapshot holds what `collect_dirty_pages` yields for memory
      `now` under a log that covers the changes since `was`. */
  ghost predicate Captures(inc: Incremental, data: seq<byte>, words: seq<nat>, slot: nat, was: seq<byte>,
                           now: seq<byte>) {
    && |was| == |now| == inc.memorySize && |now| % 4096 == 0 && |now| / 4096 <= slot && Covers(words, was, now)
    && |inc.bitmap| == BitmapSize(slot)
    && (forall p: nat :: p < 8 * |inc.bitmap| ==> (Marked(inc.bitmap, p) <==> Logged(words, p)))
    && Holds(data, inc.bitmap, now, |now| / 4096)
  }

  /** Snapshots taken one after the other: the root is memory mems[0], and the k-th
      captures the step from mems[k - 1] to mems[k]. */
  ghost predicate History(st: Store, dirs: seq<Path>, mems: seq<seq<byte>>, logs: seq<seq<nat>>, slot: nat) {
    && 0 < |dirs| == |mems| == |logs|
    && LoadTemplate(st, dirs[0]).Some? && st.files[LoadTemplate(st, dirs[0]).value.memoryFile] == mems[0]
    && forall k :: 0 < k < |dirs| ==>
         && LoadIncremental(st, dirs[k]).Some? && LoadIncremental(st, dirs[k]).value.pagesFile in st.files
         && Captures(st.incs[dirs[k]], st.files[st.incs[dirs[k]].pagesFile], logs[k], slot, mems[k - 1], mems[k])
  }

  /** Replaying a chain restores the memory of its last snapshot. */
  lemma {:induction false} HistoryRestored(st: Store, dirs: seq<Path>, mems: seq<seq<byte>>, logs: seq<seq<nat>>,
                                           slot: nat)
    requires History(st, dirs, mems, logs, slot)
    ensures Replay(st, dirs) == Some(mems[|mems| - 1])
    decreases |dirs|
  {
    var n := |dirs| - 1;
    if n > 0 {
      HistoryRestored(st, dirs[..n], mems[..n], logs[..n], slot);
      var inc := st.incs[dirs[n]];
      DiffRoundTrip(logs[n], inc.bitmap, st.files[inc.pagesFile], mems[n - 1], mems[n], slot, inc.memorySize / 4096);
    }
  }

  /** Snapshots taken one after the other, each naming the one before, the first with no
      parent: resolving the last gives the memory and the machine state at that time. */
  lemma HistoryResolved(st: Store, dirs: seq<Path>, mems: seq<seq<byte>>, logs: seq<seq<nat>>, slot: nat)
    requires History(st, dirs, mems, logs, slot) && |dirs| <= 257 && IsBase(st, dirs[0])
    requires forall k :: 0 < k < |dirs| ==> Names(st, dirs[k], dirs[k - 1])
    ensures var leaf := dirs[|dirs| - 1];
      Resolved(st, leaf) == Some(
        if |dirs| == 1 then Image(mems[0], st.fulls[leaf].vcpus, st.fulls[leaf].devices)
        else Image(mems[|mems| - 1], st.incs[leaf].vcpus, st.incs[leaf].devices))
  {
    ChainIsRecorded(st, dirs[|dirs| - 1], 256, dirs);
    HistoryRestored(st, dirs, mems, logs, slot);
  }

  // ----- compacting

  function MemoryFile(dir: Path): Path { dir + "/memory.raw" }

  /** The store with a full snapshot of the image in directory `out`. */
  function Compacted(st: Store, out: Path, im: Image): Store {
    st.(files := st.files[MemoryFile(out) := im.memory],
        fulls := st.fulls[out := Template(MemoryFile(out), im.vcpus, im.devices, |im.memory|, None, None, 0, "full")])
  }

  /** Writing a file leaves every chain as it is: what loaded before still loads. */
  lemma {:induction false} ChainKept(st: Store, dir: Path, limit: nat, f: Path, d: seq<byte>)
    requires ChainFrom(st, dir, limit).Some?
    ensures ChainFrom(st.(files := st.files[f := d]), dir, limit) == ChainFrom(st, dir, limit)
    decreases limit
  {
    var st' := st.(files := st.files[f := d]);
    assert LinkOf(st', dir) == LinkOf(st, dir);
    if LinkOf(st, dir).Child? {
      ChainKept(st, LinkOf(st, dir).parent, limit - 1, f, d);
    }
  }

  class SnapshotStore {
    var st: Store

    /** `compact_chain`: it fails exactly when the chain does not resolve, and then
        changes nothing. */
    method CompactChain(leaf: Path, out: Path) returns (ok: bool)
      modifies this
      ensures ok <==> Resolved(old(st), leaf).Some?
      ensures ok ==> st == Compacted(old(st), out, Resolved(old(st), leaf).value)
      ensures !ok ==> st == old(st)
      ensures ok ==> out in st.fulls && var t, im := st.fulls[out], Resolved(old(st), leaf).value;
        && t.memoryFile == out + "/memory.raw" && t.memoryFile in st.files && st.files[t.memoryFile] == im.memory
        && t.vcpus == im.vcpus && t.devices == im.devices && t.memorySize == |im.memory|
        && t.tag == None && t.parentTag == None && t.depth == 0 && t.kind == "full"
      ensures st.incs == old(st.incs) && forall d :: d != out ==> (d in st.fulls <==> d in old(st.fulls))
      ensures forall d :: d != out && d in st.fulls ==> st.fulls[d] == old(st.fulls)[d]
      ensures forall f :: f in old(st.files) && f != out + "/memory.raw" ==>
        f in st.files && st.files[f] == old(st.files)[f]
    {
      var im := ResolveChain(st, leaf);
      if im == None {
        return false;
      }
      ChainKept(st, leaf, 256, MemoryFile(out), im.value.memory);
      st := st.(files := st.files[MemoryFile(out) := im.value.memory]);
      var chain := WalkChain(st, leaf);
      if chain == None {
        return false;
      }
      var t := Template(MemoryFile(out), im.value.vcpus, im.value.devices, |im.value.memory|, None, None, 0, "full");
      st := st.(fulls := st.fulls[out := t]);
      ok := true;
    }
  }

  /** Resolving the compacted snapshot gives the same memory and machine state as
      resolving the original, if the output directory holds no incremental
      metadata. */
  lemma CompactEquivalent(st: Store, leaf: Path, out: Path, im: Image)
    requires Resolved(st, leaf) == Some(im) && out !in st.incs
    ensures Resolved(Compacted(st, out, im), out) == Resolved(st, leaf)
    ensures ChainFrom(Compacted(st, out, im), out, 256) == Some([out])
  {
    var st' := Compacted(st, out, im);
    assert LinkOf(st', out) == Root;
    assert ChainFrom(st', out, 256) == Some([out]);
  }

  /** The files that the memory of a directory is read from. */
  predicate Reads(st: Store, dir: Path, f: Path) {
    || (dir in st.incs && st.incs[dir].pagesFile == f)
    || (dir in st.fulls && st.fulls[dir].memoryFile == f)
  }

  lemma {:induction false} ChainUnaffected(st: Store, st': Store, dir: Path, limit: nat, out: Path)
    requires ChainFrom(st, dir, limit).Some? && out !in ChainFrom(st, dir, limit).value
    requires st'.incs == st.incs
    requires forall d :: d != out ==> LoadTemplate(st, d).Some? ==> LoadTemplate(st', d) == LoadTemplate(st, d)
    ensures ChainFrom(st', dir, limit) == ChainFrom(st, dir, limit)
    decreases limit
  {
    assert dir == ChainFrom(st, dir, limit).value[|ChainFrom(st, dir, limit).value| - 1];
    assert dir in ChainFrom(st, dir, limit).value;
    if LinkOf(st, dir).Child? {
      ChainUnaffected(st, st', LinkOf(st, dir).parent, limit - 1, out);
    }
  }

  lemma {:induction false} ReplayUnaffected(st: Store, out: Path, im: Image, dirs: seq<Path>)
    requires dirs != [] && Replay(st, dirs).Some? && out !in dirs
    requires forall i :: 0 <= i < |dirs| ==> !Reads(st, dirs[i], MemoryFile(out))
    ensures Replay(Compacted(st, out, im), dirs) == Replay(st, dirs)
  {
    var last := dirs[|dirs| - 1];
    assert last in dirs && !Reads(st, last, MemoryFile(out));
    if |dirs| > 1 {
      ReplayUnaffected(st, out, im, dirs[..|dirs| - 1]);
    }
  }

  /** Compaction leaves the original as it was, if the output directory is off its
      chain and no snapshot of the chain reads the file that is written there. */
  lemma CompactKeepsOriginal(st: Store, leaf: Path, out: Path, im: Image, dirs: seq<Path>)
    requires Resolved(st, leaf) == Some(im) && ChainFrom(st, leaf, 256) == Some(dirs) && out !in dirs
    requires forall i :: 0 <= i < |dirs| ==> !Reads(st, dirs[i], MemoryFile(out))
    ensures Resolved(Compacted(st, out, im), leaf) == Resolved(st, leaf)
  {
    ChainUnaffected(st, Compacted(st, out, im), leaf, 256, out);
    ReplayUnaffected(st, out, im, dirs);
    assert leaf == dirs[|dirs| - 1];
  }

  /** The memory that a directory resolves to. */
  function MemoryOf(st: Store, dir: Path): Option<seq<byte>> {
    match ChainFrom(st, dir, 256)
    case None => None
    case Some(dirs) => Replay(st, dirs)
  }

  /** No snapshot but the full one in `out` reads the memory file that compaction writes
      there. */
  ghost predicate Unread(st: Store, out: Path) {
    && (forall d :: d in st.incs ==> st.incs[d].pagesFile != MemoryFile(out))
    && (forall d :: d in st.fulls && d != out ==> st.fulls[d].memoryFile != MemoryFile(out))
  }

  lemma {:induction false} ShadowChain(st: Store, out: Path, im: Image, dir: Path, limit: nat)
    requires out in st.incs && Unread(st, out)
    ensures ChainFrom(Compacted(st, out, im), dir, limit) == ChainFrom(st, dir, limit)
    decreases limit
  {
    var st' := Compacted(st, out, im);
    assert LinkOf(st', dir) == LinkOf(st, dir);
    if LinkOf(st, dir).Child? && limit > 0 {
      ShadowChain(st, out, im, LinkOf(st, dir).parent, limit - 1);
    }
  }

  lemma {:induction false} ShadowReplay(st: Store, out: Path, im: Image, dirs: seq<Path>)
    requires out in st.incs && Unread(st, out) && dirs != [] && dirs[0] != out
    ensures Replay(Compacted(st, out, im), dirs) == Replay(st, dirs)
  {
    if |dirs| > 1 {
      ShadowReplay(st, out, im, dirs[..|dirs| - 1]);
    }
  }

  lemma {:induction false} ChainRoot(st: Store, dir: Path, limit: nat)
    requires ChainFrom(st, dir, limit).Some?
    ensures LinkOf(st, ChainFrom(st, dir, limit).value[0]) == Root
    decreases limit
  {
    if LinkOf(st, dir).Child? {
      ChainRoot(st, LinkOf(st, dir).parent, limit - 1);
    }
  }

  /** Compaction does not change the memory that incremental metadata in the output
      directory stand for. */
  lemma ShadowMemory(st: Store, out: Path, im: Image)
    requires out in st.incs && Unread(st, out)
    ensures MemoryOf(Compacted(st, out, im), out) == MemoryOf(st, out)
  {
    ShadowChain(st, out, im, out, 256);
    if ChainFrom(st, out, 256).Some? {
      ChainRoot(st, out, 256);
      ShadowReplay(st, out, im, ChainFrom(st, out, 256).value);
    }
  }

  /** With incremental metadata in the output directory, what was compacted there is
      shadowed: the directory resolves to the machine state of these metadata and to
      the memory of their own chain.  That is what it resolved to before, unless
      another snapshot reads the file that was written; so compaction is equivalent
      exactly when all three are those of the original, which can be told beforehand. */
  lemma CompactShadowed(st: Store, leaf: Path, out: Path, im: Image)
    requires Resolved(st, leaf) == Some(im) && out in st.incs
    ensures Resolved(Compacted(st, out, im), out) ==
      match MemoryOf(Compacted(st, out, im), out)
      case None => None
      case Some(mem) => Some(Image(mem, st.incs[out].vcpus, st.incs[out].devices))
    ensures Resolved(Compacted(st, out, im), out) == Resolved(st, leaf) <==>
      && st.incs[out].vcpus == im.vcpus && st.incs[out].devices == im.devices
      && MemoryOf(Compacted(st, out, im), out) == Some(im.memory)
    ensures Unread(st, out) ==> Resolved(Compacted(st, out, im), out) == Resolved(st, out)
    ensures Unread(st, out) ==>
      (Resolved(Compacted(st, out, im), out) == Resolved(st, leaf) <==>
         st.incs[out].vcpus == im.vcpus && st.incs[out].devices == im.devices && MemoryOf(st, out) == Some(im.memory))
  {
    if Unread(st, out) {
      ShadowMemory(st, out, im);
    }
  }

  /** A full snapshot in directory "a", and an incremental one over it in "b" with
      another vCPU state: compacting "a" into "b" does not take effect. */
  lemma ShadowedStore(st: Store, full: Template, inc: Incremental)
    requires full == Template("m", [1], [], 0, None, None, 0, "full")
    requires inc == Incremental("a", None, [], "p", 0, [2], [], None, 1, "incremental")
    requires st == Store(map["b" := inc], map["a" := full], map["m" := [], "p" := []])
    ensures Resolved(st, "a") == Some(Image([], [1], []))
    ensures Resolved(Compacted(st, "b", Image([], [1], [])), "b") != Resolved(st, "a")
  {
    assert ChainFrom(st, "a", 256) == Some(["a"]);
    assert Replay(st, ["a"]) == Some([]);
    assert MemoryFile("b")[0] == 'b';
    CompactShadowed(st, "a", "b", Image([], [1], []));
  }
}
