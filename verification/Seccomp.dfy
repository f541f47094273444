/** The seccomp filter compiler (`bpf::build_filter` in src/control/jailer.rs) and the
    classic BPF machine that runs its output. */
module Seccomp {
  import opened Bytes

  /** `struct sock_filter` */
  datatype Instruction = Instruction(code: nat, jt: nat, jf: nat, k: nat)

  const LOAD := 0x20
  const JUMP_EQUAL := 0x15
  const RETURN := 0x06
  const ALLOW := 0x7fff_0000
  const KILL_THREAD := 0

  /** A syscall number is a signed 32-bit integer. */
  type Syscall = x: int | -0x8000_0000 <= x < 0x8000_0000

  /** `x as u32` */
  function Unsigned(x: Syscall): (r: nat)
    ensures r < 0x1_0000_0000 && (r - x) % 0x1_0000_0000 == 0
  {
    if x < 0 then x + 0x1_0000_0000 else x
  }

  // ----- the machine

  /** Run a program from pc on, with accumulator a, for syscall nr.  None when control
      leaves the program or an instruction is not one that the compiler emits. */
  function Execute(prog: seq<Instruction>, pc: nat, a: nat, nr: Syscall): Option<nat>
    decreases |prog| - pc
  {
    if pc >= |prog| then None else
    var i := prog[pc];
    if i.code == LOAD then (if i.k == 0 then Execute(prog, pc + 1, Unsigned(nr), nr) else None)
    else if i.code == JUMP_EQUAL then Execute(prog, pc + 1 + (if a == i.k then i.jt else i.jf), a, nr)
    else if i.code == RETURN then Some(i.k)
    else None
  }

  // ----- the compiler

  /** The test of the i-th of n allowed syscalls; the jump distance is cut to 8 bits. */
  function Test(n: nat, i: nat, x: Syscall): Instruction
    requires i <= n
  {
    Instruction(JUMP_EQUAL, (n - i) % 256, 0, Unsigned(x))
  }

  function Tests(allowed: seq<Syscall>): (ts: seq<Instruction>)
    ensures |ts| == |allowed|
  {
    seq(|allowed|, i requires 0 <= i < |allowed| => Test(|allowed|, i, allowed[i]))
  }

  function Filter(allowed: seq<Syscall>): (prog: seq<Instruction>)
    ensures |prog| == |allowed| + 3
  {
    [Instruction(LOAD, 0, 0, 0)] + Tests(allowed) + [Instruction(RETURN, 0, 0, KILL_THREAD),
      Instruction(RETURN, 0, 0, ALLOW)]
  }

  /** `build_filter` */
  method BuildFilter(allowed: seq<Syscall>) returns (prog: seq<Instruction>)
    ensures prog == Filter(allowed)
  {
    var n := |allowed|;
    prog := [Instruction(LOAD, 0, 0, 0)];
    for i := 0 to n
      invariant prog == [Instruction(LOAD, 0, 0, 0)] + Tests(allowed)[..i]
    {
      prog := prog + [Instruction(JUMP_EQUAL, (n - i) % 256, 0, Unsigned(allowed[i]))];
    }
    assert Tests(allowed)[..n] == Tests(allowed);
    prog := prog + [Instruction(RETURN, 0, 0, KILL_THREAD)];
    prog := prog + [Instruction(RETURN, 0, 0, ALLOW)];
  }

  // ----- what the filter does

  /** nr is among the entries from `from` on that an 8-bit jump reaches the end from. */
  ghost predicate Reached(allowed: seq<Syscall>, from: nat, nr: Syscall) {
    exists j :: from <= j < |allowed| && |allowed| - j <= 255 && allowed[j] == nr
  }

  lemma {:induction false} Scan(allowed: seq<Syscall>, prog: seq<Instruction>, i: nat, nr: Syscall)
    requires prog == Filter(allowed) && i <= |allowed|
    ensures Execute(prog, 1 + i, Unsigned(nr), nr) == Some(if Reached(allowed, i, nr) then ALLOW else KILL_THREAD)
    decreases |allowed| - i
  {
    var n, a := |allowed|, Unsigned(nr);
    if i < n {
      assert prog[1 + i] == Test(n, i, allowed[i]);
      if allowed[i] != nr {
        Scan(allowed, prog, i + 1, nr);
      } else if n - i <= 255 {
        assert prog[n + 2] == Instruction(RETURN, 0, 0, ALLOW);
        assert Execute(prog, 1 + i + 1 + (n - i), a, nr) == Some(ALLOW);
      } else {
        var next := i + 1 + (n - i) % 256;
        assert n - next >= 255;
        Scan(allowed, prog, next, nr);
        SameReach(allowed, i, next, nr);
      }
    } else {
      assert prog[1 + n] == Instruction(RETURN, 0, 0, KILL_THREAD);
    }
  }

  lemma SameReach(allowed: seq<Syscall>, i: nat, next: nat, nr: Syscall)
    requires i <= next && |allowed| - next >= 255
    ensures Reached(allowed, i, nr) <==> Reached(allowed, next, nr)
  {
    if Reached(allowed, i, nr) {
      var j :| i <= j < |allowed| && |allowed| - j <= 255 && allowed[j] == nr;
      assert next <= j;
    }
  }

  /** The last 255 entries, or all of them if there are fewer. */
  function Tail(allowed: seq<Syscall>): seq<Syscall> {
    if |allowed| <= 255 then allowed else allowed[|allowed| - 255..]
  }

  lemma ReachedIsTail(allowed: seq<Syscall>, nr: Syscall)
    ensures Reached(allowed, 0, nr) <==> nr in Tail(allowed)
  {
    var t := Tail(allowed);
    var d := |allowed| - |t|;
    if nr in t {
      var j :| 0 <= j < |t| && t[j] == nr;
      assert allowed[d + j] == nr;
    }
    if Reached(allowed, 0, nr) {
      var j :| 0 <= j < |allowed| && |allowed| - j <= 255 && allowed[j] == nr;
      assert t[j - d] == nr;
    }
  }

  /** For every allowlist, of any length, and every syscall number the program stays
      in bounds, ends, and allows the syscall exactly when it is among the last 255
      entries of the list; otherwise it kills the thread. */
  lemma FilterMeans(allowed: seq<Syscall>, nr: Syscall)
    ensures Execute(Filter(allowed), 0, 0, nr) == Some(if nr in Tail(allowed) then ALLOW else KILL_THREAD)
  {
    var prog := Filter(allowed);
    assert prog[0] == Instruction(LOAD, 0, 0, 0);
    Scan(allowed, prog, 0, nr);
    ReachedIsTail(allowed, nr);
  }

  /** The filter is the allowlist exactly when every entry is among the last 255, in
      particular whenever there are at most 255 entries. */
  lemma FilterExact(allowed: seq<Syscall>)
    ensures (forall nr: Syscall :: Execute(Filter(allowed), 0, 0, nr) == Some(ALLOW) <==> nr in allowed)
       <==> (forall i :: 0 <= i < |allowed| ==> allowed[i] in Tail(allowed))
    ensures |allowed| <= 255 ==> forall nr: Syscall :: Execute(Filter(allowed), 0, 0, nr) == Some(ALLOW) <==>
      nr in allowed
  {
    forall nr: Syscall ensures Execute(Filter(allowed), 0, 0, nr) == Some(ALLOW) <==> nr in Tail(allowed) {
      FilterMeans(allowed, nr);
    }
    if i :| 0 <= i < |allowed| && allowed[i] !in Tail(allowed) {
      assert allowed[i] in allowed && Execute(Filter(allowed), 0, 0, allowed[i]) != Some(ALLOW);
    }
  }

  /** The first n syscalls. */
  function FirstSyscalls(n: nat): seq<Syscall>
    requires n < 0x8000_0000
  {
    seq(n, i requires 0 <= i < n => i)
  }

  /** With 256 entries the first one is killed. */
  lemma FirstEntryKilled()
    ensures 0 in FirstSyscalls(256) && Execute(Filter(FirstSyscalls(256)), 0, 0, 0) == Some(KILL_THREAD)
  {
    var s := FirstSyscalls(256);
    assert s[0] == 0;
    FilterMeans(s, 0);
  }
}
