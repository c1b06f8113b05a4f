/** The seccomp filter assembler of the Linux sandbox: classic BPF with relative jumps held in
    8-bit fields, and an interpreter that gives the assembled program its meaning. */
module Seccomp {
  import opened Wrappers

  // BPF_LD | BPF_W | BPF_ABS, BPF_JMP | BPF_JEQ | BPF_K, BPF_RET | BPF_K
  const LOAD: int := 0x20
  const JUMP_EQ: int := 0x15
  const RET: int := 0x06

  const OFF_NR: int := 0
  const OFF_ARCH: int := 4

  const RET_ALLOW: int := 0x7FFF0000
  const RET_ERRNO_EACCES: int := 0x0005000D // RET_ERRNO | EACCES, that is 0x00050000 | 13
  const RET_KILL: int := 0x80000000

  /** One `_SockFilter`; the C field widths cut what is stored in it. */
  datatype Instr = Instr(code: int, jt: int, jf: int, k: int)

  type U32 = x: int | 0 <= x < 0x1_0000_0000

  /** `k & 0xFFFFFFFF`. */
  function Word(k: int): U32 {
    k % 0x1_0000_0000
  }

  function SockFilter(code: int, jt: int, jf: int, k: int): Instr {
    Instr(code % 0x10000, jt % 0x100, jf % 0x100, Word(k))
  }

  function Stmt(code: int, k: int): Instr {
    SockFilter(code, 0, 0, Word(k))
  }

  function Jump(code: int, k: int, jt: int, jf: int): Instr {
    SockFilter(code, jt, jf, Word(k))
  }

  // ---- the assembler ----

  /** Instruction i of the deny list: on a hit, jump to the ERRNO return. */
  function Check(nrs: seq<int>, i: int): Instr
    requires 0 <= i < |nrs|
  {
    Jump(JUMP_EQ, nrs[i], |nrs| - i, 0)
  }

  /** Instruction j of the program for this architecture and block list. */
  function InstrAt(arch: int, nrs: seq<int>, j: nat): Instr
    requires j < |nrs| + 6
  {
    var n := |nrs|;
    if j == 0 then Stmt(LOAD, OFF_ARCH)
    else if j == 1 then Jump(JUMP_EQ, arch, 0, n + 3)
    else if j == 2 then Stmt(LOAD, OFF_NR)
    else if j < n + 3 then Check(nrs, j - 3)
    else if j == n + 3 then Stmt(RET, RET_ALLOW)
    else if j == n + 4 then Stmt(RET, RET_ERRNO_EACCES)
    else Stmt(RET, RET_KILL)
  }

  function Program(arch: int, nrs: seq<int>): (prog: seq<Instr>)
    ensures |prog| == |nrs| + 6
    ensures forall j :: 0 <= j < |prog| ==> prog[j] == InstrAt(arch, nrs, j)
  {
    seq(|nrs| + 6, j requires 0 <= j < |nrs| + 6 => InstrAt(arch, nrs, j))
  }

  /** `_build_program`: the instructions and the length field of the `_SockFprog`. */
  method BuildProgram(arch: int, nrs: seq<int>) returns (len: int, instrs: seq<Instr>)
    ensures instrs == Program(arch, nrs)
    ensures len == |instrs| % 0x10000
  {
    var n := |nrs|;
    instrs := [Stmt(LOAD, OFF_ARCH), Jump(JUMP_EQ, arch, 0, n + 3), Stmt(LOAD, OFF_NR)];
    for i := 0 to n
      invariant |instrs| == 3 + i
      invariant forall j :: 0 <= j < |instrs| ==> instrs[j] == InstrAt(arch, nrs, j)
    {
      instrs := instrs + [Jump(JUMP_EQ, nrs[i], n - i, 0)];
    }
    instrs := instrs + [Stmt(RET, RET_ALLOW)];
    instrs := instrs + [Stmt(RET, RET_ERRNO_EACCES)];
    instrs := instrs + [Stmt(RET, RET_KILL)];
    len := |instrs| % 0x10000;
  }

  // ---- the machine ----

  /** The two words of `struct seccomp_data` the filter reads. */
  datatype Syscall = Syscall(nr: U32, arch: U32)

  /** What the kernel is told to do with the syscall. */
  datatype Action = Allow | Errno(errno: int) | KillProcess | OtherAction

  /** The high half of the returned word names the action, the low half is its data. */
  function ActionOf(word: int): Action {
    var high := word / 0x1_0000;
    if high == 0x7FFF then Allow
    else if high == 0x0005 then Errno(word % 0x1_0000)
    else if high == 0x8000 then KillProcess
    else OtherAction
  }

  datatype Machine = Running(pc: nat, acc: int) | Returned(action: Action) | Stuck

  function Step(prog: seq<Instr>, call: Syscall, m: Machine): Machine {
    if !m.Running? then m
    else if m.pc >= |prog| then Stuck
    else
      var ins := prog[m.pc];
      if ins.code == 0x20 && ins.k == 0 then Running(m.pc + 1, call.nr)
      else if ins.code == 0x20 && ins.k == 4 then Running(m.pc + 1, call.arch)
      else if ins.code == 0x15 then
        var offset := if m.acc == ins.k then ins.jt else ins.jf;
        if offset < 0 then Stuck else Running(m.pc + 1 + offset, m.acc)
      else if ins.code == 0x06 then Returned(ActionOf(ins.k))
      else Stuck
  }

  function Exec(prog: seq<Instr>, call: Syscall, m: Machine, steps: nat): Machine
    decreases steps
  {
    if steps == 0 || !m.Running? then m else Exec(prog, call, Step(prog, call, m), steps - 1)
  }

  /** What the length field lets the kernel see of the program. */
  function Loaded(arch: int, nrs: seq<int>): seq<Instr> {
    Program(arch, nrs)[..(|nrs| + 6) % 0x10000]
  }

  /** The kernel's view: as many instructions as the length field says, from the first one on. */
  function Filter(arch: int, nrs: seq<int>, call: Syscall, steps: nat): Machine {
    Exec(Loaded(arch, nrs), call, Running(0, 0), steps)
  }

  lemma WholeProgram(arch: int, nrs: seq<int>)
    requires |nrs| + 6 < 0x10000
    ensures Loaded(arch, nrs) == Program(arch, nrs)
  {
  }

  lemma LoadedStep(arch: int, nrs: seq<int>, call: Syscall, pc: nat, acc: int)
    ensures var m := Step(Loaded(arch, nrs), call, Running(pc, acc));
      m == Stuck || (pc < |nrs| + 6 && m == Step(Program(arch, nrs), call, Running(pc, acc)))
  {
  }

  // ---- what it should mean ----

  predicate Listed(nrs: seq<int>, nr: int) {
    exists i :: 0 <= i < |nrs| && Word(nrs[i]) == nr
  }

  /** Wrong architecture: kill. Listed syscall: EACCES. Anything else: allow. */
  function Intended(arch: int, nrs: seq<int>, call: Syscall): Action {
    if call.arch != Word(arch) then KillProcess
    else if Listed(nrs, call.nr) then Errno(13)
    else Allow
  }

  lemma StepAt(arch: int, nrs: seq<int>, call: Syscall, pc: nat, acc: int)
    requires pc < |nrs| + 6
    ensures var n := |nrs|;
      Step(Program(arch, nrs), call, Running(pc, acc))
      == if pc == 0 then Running(1, call.arch)
         else if pc == 1 then Running(if acc == Word(arch) then 2 else 2 + (n + 3) % 0x100, acc)
         else if pc == 2 then Running(3, call.nr)
         else if pc < n + 3 then
           Running(if acc == Word(nrs[pc - 3]) then pc + 1 + (n + 3 - pc) % 0x100 else pc + 1, acc)
         else if pc == n + 3 then Returned(Allow)
         else if pc == n + 4 then Returned(Errno(13))
         else Returned(KillProcess)
  {
  }

  lemma ExecStep(prog: seq<Instr>, call: Syscall, m: Machine, steps: nat)
    requires steps > 0
    ensures Exec(prog, call, m, steps) == Exec(prog, call, Step(prog, call, m), steps - 1)
  {
  }

  lemma Halted(prog: seq<Instr>, call: Syscall, m: Machine, steps: nat)
    requires !m.Running?
    ensures Exec(prog, call, m, steps) == m
  {
  }

  lemma ListedSplit(nrs: seq<int>, i: nat, nr: int)
    requires i < |nrs|
    ensures Listed(nrs[i..], nr) <==> Word(nrs[i]) == nr || Listed(nrs[i + 1..], nr)
  {
    assert nrs[i..] == [nrs[i]] + nrs[i + 1..];
    if Listed(nrs[i + 1..], nr) {
      var k :| 0 <= k < |nrs[i + 1..]| && Word(nrs[i + 1..][k]) == nr;
      assert Word(nrs[i..][k + 1]) == nr;
    }
    if Listed(nrs[i..], nr) {
      var k :| 0 <= k < |nrs[i..]| && Word(nrs[i..][k]) == nr;
      assert k > 0 ==> Word(nrs[i + 1..][k - 1]) == nr;
    }
  }

  /** From check i on, with every remaining jump in range, the scan answers for the rest of the list. */
  lemma {:induction false} Scan(arch: int, nrs: seq<int>, call: Syscall, i: nat, steps: nat)
    requires i <= |nrs| && |nrs| - i <= 255 && steps > |nrs| - i
    ensures Exec(Program(arch, nrs), call, Running(3 + i, call.nr), steps)
         == Returned(if Listed(nrs[i..], call.nr) then Errno(13) else Allow)
    decreases |nrs| - i
  {
    var n, prog := |nrs|, Program(arch, nrs);
    StepAt(arch, nrs, call, 3 + i, call.nr);
    ExecStep(prog, call, Running(3 + i, call.nr), steps);
    if i == n {
      Halted(prog, call, Returned(Allow), steps - 1);
      assert nrs[n..] == [];
    } else {
      ListedSplit(nrs, i, call.nr);
      if call.nr == Word(nrs[i]) {
        StepAt(arch, nrs, call, n + 4, call.nr);
        ExecStep(prog, call, Running(n + 4, call.nr), steps - 1);
        Halted(prog, call, Returned(Errno(13)), steps - 2);
      } else {
        Scan(arch, nrs, call, i + 1, steps - 1);
      }
    }
  }

  /** After the prologue: the scan, or the architecture jump. */
  lemma Prologue(arch: int, nrs: seq<int>, call: Syscall, steps: nat)
    requires steps >= 3 && |nrs| + 6 < 0x10000
    ensures var prog, far := Program(arch, nrs), 2 + (|nrs| + 3) % 0x100;
      Filter(arch, nrs, call, steps)
      == if call.arch == Word(arch) then Exec(prog, call, Running(3, call.nr), steps - 3)
         else Exec(prog, call, Running(far, call.arch), steps - 2)
  {
    WholeProgram(arch, nrs);
    var prog := Program(arch, nrs);
    StepAt(arch, nrs, call, 0, 0);
    StepAt(arch, nrs, call, 1, call.arch);
    ExecStep(prog, call, Running(0, 0), steps);
    ExecStep(prog, call, Running(1, call.arch), steps - 1);
    if call.arch == Word(arch) {
      StepAt(arch, nrs, call, 2, call.arch);
      ExecStep(prog, call, Running(2, call.arch), steps - 2);
    }
  }

  /** For block lists of at most 252 numbers the filter halts within n + 4 steps with exactly
      the intended verdict. */
  lemma FilterMeaning(arch: int, nrs: seq<int>, call: Syscall, steps: nat)
    requires |nrs| <= 252 && steps >= |nrs| + 4
    ensures Filter(arch, nrs, call, steps) == Returned(Intended(arch, nrs, call))
  {
    Prologue(arch, nrs, call, steps);
    var n, prog := |nrs|, Program(arch, nrs);
    if call.arch == Word(arch) {
      Scan(arch, nrs, call, 0, steps - 3);
      assert nrs[0..] == nrs;
    } else {
      StepAt(arch, nrs, call, n + 5, call.arch);
      ExecStep(prog, call, Running(n + 5, call.arch), steps - 2);
      Halted(prog, call, Returned(KillProcess), steps - 3);
    }
  }

  /** With one number more, no input reaches the KILL return: the architecture jump wraps. */
  lemma {:induction false} NeverKills(arch: int, nrs: seq<int>, call: Syscall, pc: nat, acc: int, steps: nat)
    requires |nrs| > 252 && pc <= |nrs| + 4
    ensures Exec(Loaded(arch, nrs), call, Running(pc, acc), steps) != Returned(KillProcess)
    decreases steps
  {
    if steps > 0 {
      var prog := Loaded(arch, nrs);
      ExecStep(prog, call, Running(pc, acc), steps);
      LoadedStep(arch, nrs, call, pc, acc);
      StepAt(arch, nrs, call, pc, acc);
      var next := Step(prog, call, Running(pc, acc));
      if next.Running? {
        NeverKills(arch, nrs, call, next.pc, next.acc, steps - 1);
      } else {
        Halted(prog, call, next, steps - 1);
      }
    }
  }

  /** The filter does what it should on every syscall. */
  ghost predicate Faithful(arch: int, nrs: seq<int>) {
    forall call: Syscall :: Answers(arch, nrs, call)
  }

  ghost predicate Answers(arch: int, nrs: seq<int>, call: Syscall) {
    exists steps: nat :: Filter(arch, nrs, call, steps) == Returned(Intended(arch, nrs, call))
  }

  /** 252 is exact: the filter is faithful if and only if the list has at most 252 numbers. */
  lemma FaithfulExactly(arch: int, nrs: seq<int>)
    ensures Faithful(arch, nrs) <==> |nrs| <= 252
  {
    if |nrs| <= 252 {
      forall call: Syscall
        ensures Answers(arch, nrs, call)
      {
        FilterMeaning(arch, nrs, call, |nrs| + 4);
      }
    } else {
      var call := Syscall(0, if Word(arch) == 0 then 1 else 0);
      forall steps: nat
        ensures Filter(arch, nrs, call, steps) != Returned(Intended(arch, nrs, call))
      {
        NeverKills(arch, nrs, call, 0, 0, steps);
      }
      assert !Answers(arch, nrs, call);
    }
  }

  /** On the right architecture the deny list itself survives up to 255 numbers. */
  lemma DenyListMeaning(arch: int, nrs: seq<int>, call: Syscall, steps: nat)
    requires |nrs| <= 255 && steps >= |nrs| + 4 && call.arch == Word(arch)
    ensures Filter(arch, nrs, call, steps) == Returned(Intended(arch, nrs, call))
  {
    Prologue(arch, nrs, call, steps);
    Scan(arch, nrs, call, 0, steps - 3);
    assert nrs[0..] == nrs;
  }

  /** With 256 or more distinct numbers one of them is let through: its jump wraps to 0. */
  lemma LongListLetsThrough(arch: int, nrs: seq<int>, steps: nat)
    requires 256 <= |nrs| < 0x10000 - 6 && steps >= |nrs| + 4
    requires forall i, j :: 0 <= i < j < |nrs| ==> Word(nrs[i]) != Word(nrs[j])
    ensures var nr := Word(nrs[|nrs| - 256]);
      Listed(nrs, nr) && Filter(arch, nrs, Syscall(nr, Word(arch)), steps) == Returned(Allow)
  {
    var n, k := |nrs|, |nrs| - 256;
    var call := Syscall(Word(nrs[k]), Word(arch));
    Prologue(arch, nrs, call, steps);
    SkipTo(arch, nrs, call, 0, k, steps - 3);
    StepAt(arch, nrs, call, 3 + k, call.nr);
    ExecStep(Program(arch, nrs), call, Running(3 + k, call.nr), steps - 3 - k);
    Scan(arch, nrs, call, k + 1, steps - 4 - k);
    assert !Listed(nrs[k + 1..], call.nr);
  }

  /** Checks that do not match are passed one by one. */
  lemma {:induction false} SkipTo(arch: int, nrs: seq<int>, call: Syscall, i: nat, k: nat, steps: nat)
    requires i <= k <= |nrs| && steps >= k - i
    requires forall j :: i <= j < k ==> Word(nrs[j]) != call.nr
    ensures Exec(Program(arch, nrs), call, Running(3 + i, call.nr), steps)
         == Exec(Program(arch, nrs), call, Running(3 + k, call.nr), steps - (k - i))
    decreases k - i
  {
    hide Program, Step;
    if i < k {
      StepAt(arch, nrs, call, 3 + i, call.nr);
      ExecStep(Program(arch, nrs), call, Running(3 + i, call.nr), steps);
      SkipTo(arch, nrs, call, i + 1, k, steps - 1);
    }
  }

  /** From 65530 numbers on the length field wraps, and the kernel sees so many instructions
      fewer; at 65530 it sees none. */
  lemma LengthWraps(arch: int, nrs: seq<int>, call: Syscall, steps: nat)
    requires |nrs| == 0x10000 - 6 && steps > 0
    ensures Loaded(arch, nrs) == [] && Filter(arch, nrs, call, steps) == Stuck
  {
    ExecStep(Loaded(arch, nrs), call, Running(0, 0), steps);
    Halted(Loaded(arch, nrs), call, Stuck, steps - 1);
  }

  /** The architectures the sandbox supports: audit number, and socket, connect, bind. */
  function Supported(machine: string): Option<(int, seq<int>)> {
    if machine == "x86_64" then Some((0xC000003E, [41, 42, 49]))
    else if machine == "aarch64" || machine == "arm64" then Some((0xC00000B7, [198, 203, 200]))
    else None
  }

  /** What an installed filter does to socket, connect and bind, by their numbers, and to the rest. */
  function Ruling(call: Syscall, arch: int, denied: set<int>): Action {
    if call.arch != arch then KillProcess else if call.nr in denied then Errno(13) else Allow
  }

  /** Exactly three machines are supported, and the filter each gets kills on a foreign architecture,
      denies its three network calls and allows the rest, within seven steps. */
  lemma InstalledFilters(machine: string, call: Syscall, steps: nat)
    requires steps >= 7
    ensures Supported(machine).Some? <==> machine in ["x86_64", "aarch64", "arm64"]
    ensures Supported(machine).Some? ==>
      Filter(Supported(machine).value.0, Supported(machine).value.1, call, steps)
      == Returned(if machine == "x86_64" then Ruling(call, 0xC000003E, {41, 42, 49})
                  else Ruling(call, 0xC00000B7, {198, 203, 200}))
  {
    hide Filter, SockFilter;
    if Supported(machine).Some? {
      var (arch, nrs) := Supported(machine).value;
      FilterMeaning(arch, nrs, call, steps);
      assert Listed(nrs, call.nr) <==> call.nr in nrs by {
        assert forall i :: 0 <= i < |nrs| ==> Word(nrs[i]) == nrs[i];
      }
    }
  }
}
