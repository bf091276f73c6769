/** The generated seccomp filter programs (tools/moriarty_isolation.py), run by a classic BPF interpreter over the
    call data of seccomp(2). */
module Seccomp {
  import opened Wrappers

  type word = x: int | 0 <= x < 0x1_0000_0000

  const BPF_LD_W_ABS := 0x20
  const BPF_JMP_JEQ_K := 0x15
  const BPF_JMP_JSET_K := 0x45
  const BPF_RET_K := 0x06
  const BPF_MAXINSNS := 4096

  const SECCOMP_RET_ALLOW: word := 0x7FFF_0000
  const SECCOMP_RET_ERRNO: word := 0x0005_0000
  const EPERM: word := 1
  const ALLOW: word := SECCOMP_RET_ALLOW
  const DENY: word := SECCOMP_RET_ERRNO + EPERM

  const NR_OFFSET: word := 0
  const ARCH_OFFSET: word := 4
  const ARG0_OFFSET: word := 16
  const X32_SYSCALL_BIT: word := 0x4000_0000
  const AF_UNIX: word := 1

  datatype SockFilter = SockFilter(code: nat, jt: nat, jf: nat, k: word)

  /** The words of struct seccomp_data that filters may load; arguments are 64 bits, low word first. */
  datatype Data = Data(nr: word, arch: word, ipLow: word, ipHigh: word, args: seq<word>)

  function Load(d: Data, offset: word): Option<word> {
    if offset == NR_OFFSET then Some(d.nr)
    else if offset == ARCH_OFFSET then Some(d.arch)
    else if offset == 8 then Some(d.ipLow)
    else if offset == 12 then Some(d.ipHigh)
    else if 16 <= offset < 64 && offset % 4 == 0 && |d.args| == 12 then Some(d.args[offset / 4 - 4])
    else None
  }

  /** Bitwise conjunction. */
  function And(a: nat, b: nat): nat {
    if a == 0 || b == 0 then 0
    else (if a % 2 == 1 && b % 2 == 1 then 1 else 0) + 2 * And(a / 2, b / 2)
  }

  /** The call data proper: six arguments of two words. */
  predicate CallData(d: Data) {
    |d.args| == 12
  }

  // ---------------------------------------------------------------- the interpreter

  /** Runs the program from `pc`; None is a program that leaves its text, loads outside the data, or holds an
      instruction it does not know. */
  function Run(program: seq<SockFilter>, pc: nat, acc: word, d: Data): Option<word>
    decreases |program| - pc
  {
    if pc >= |program| then None
    else
      var i := program[pc];
      if i.code == BPF_LD_W_ABS then
        var loaded := Load(d, i.k);
        if loaded.None? then None else Run(program, pc + 1, loaded.value, d)
      else if i.code == BPF_JMP_JEQ_K then Run(program, pc + 1 + (if acc == i.k then i.jt else i.jf), acc, d)
      else if i.code == BPF_JMP_JSET_K then Run(program, pc + 1 + (if And(acc, i.k) != 0 then i.jt else i.jf), acc, d)
      else if i.code == BPF_RET_K then Some(i.k)
      else None
  }

  /** What the kernel demands before it attaches a program: known instructions, loads inside the call data, jumps
      that land inside the program, and a return at its end. */
  predicate WellFormed(program: seq<SockFilter>) {
    && 0 < |program|
    && program[|program| - 1].code == BPF_RET_K
    && forall i | 0 <= i < |program| ::
         var insn := program[i];
         && insn.jt < 256 && insn.jf < 256
         && (|| insn.code == BPF_RET_K
             || (insn.code == BPF_LD_W_ABS && insn.k % 4 == 0 && insn.k < 64)
             || ((insn.code == BPF_JMP_JEQ_K || insn.code == BPF_JMP_JSET_K)
                 && i + 1 + insn.jt < |program| && i + 1 + insn.jf < |program|))
  }

  lemma LoadsSucceed(d: Data, k: word)
    requires CallData(d) && k % 4 == 0 && k < 64
    ensures Load(d, k).Some?
  {
  }

  /** A well-formed program always returns. */
  lemma {:induction false} WellFormedReturns(program: seq<SockFilter>, pc: nat, acc: word, d: Data)
    requires WellFormed(program) && CallData(d) && pc < |program|
    ensures Run(program, pc, acc, d).Some?
    decreases |program| - pc
  {
    var i := program[pc];
    if i.code == BPF_LD_W_ABS {
      LoadsSucceed(d, i.k);
      WellFormedReturns(program, pc + 1, Load(d, i.k).value, d);
    } else if i.code == BPF_JMP_JEQ_K {
      WellFormedReturns(program, pc + 1 + (if acc == i.k then i.jt else i.jf), acc, d);
    } else if i.code == BPF_JMP_JSET_K {
      WellFormedReturns(program, pc + 1 + (if And(acc, i.k) != 0 then i.jt else i.jf), acc, d);
    }
  }

  /** The same semantics on the text that is left, which is what relative jumps depend on. */
  function Exec(text: seq<SockFilter>, acc: word, d: Data): Option<word>
    decreases |text|
  {
    if text == [] then None
    else
      var i := text[0];
      if i.code == BPF_LD_W_ABS then
        var loaded := Load(d, i.k);
        if loaded.None? then None else Exec(text[1..], loaded.value, d)
      else if i.code == BPF_JMP_JEQ_K then Skip(text, if acc == i.k then i.jt else i.jf, acc, d)
      else if i.code == BPF_JMP_JSET_K then Skip(text, if And(acc, i.k) != 0 then i.jt else i.jf, acc, d)
      else if i.code == BPF_RET_K then Some(i.k)
      else None
  }

  function Skip(text: seq<SockFilter>, jump: nat, acc: word, d: Data): Option<word>
    requires text != []
    decreases |text|, 0
  {
    if 1 + jump > |text| then None else Exec(text[1 + jump..], acc, d)
  }

  lemma {:induction false} RunIsExec(program: seq<SockFilter>, pc: nat, acc: word, d: Data)
    requires pc <= |program|
    ensures Run(program, pc, acc, d) == Exec(program[pc..], acc, d)
    decreases |program| - pc
  {
    if pc < |program| {
      var i := program[pc];
      var text := program[pc..];
      if i.code == BPF_LD_W_ABS {
        assert text[1..] == program[pc + 1..];
        if Load(d, i.k).Some? {
          RunIsExec(program, pc + 1, Load(d, i.k).value, d);
        }
      } else if i.code == BPF_JMP_JEQ_K || i.code == BPF_JMP_JSET_K {
        var taken := if i.code == BPF_JMP_JEQ_K then acc == i.k else And(acc, i.k) != 0;
        var jump := if taken then i.jt else i.jf;
        if pc + 1 + jump <= |program| {
          assert text[1 + jump..] == program[pc + 1 + jump..];
          RunIsExec(program, pc + 1 + jump, acc, d);
        }
      }
    }
  }

  // ---------------------------------------------------------------- what the generator emits

  datatype Profile = Profile(
    auditArch: word, rejectX32: bool, denied: seq<word>,
    prlimit: word, socket: word, connect: word, socketpair: word)

  function Prologue(auditArch: word, rejectX32: bool): seq<SockFilter> {
    [SockFilter(BPF_LD_W_ABS, 0, 0, ARCH_OFFSET),
     SockFilter(BPF_JMP_JEQ_K, 1, 0, auditArch),
     SockFilter(BPF_RET_K, 0, 0, DENY),
     SockFilter(BPF_LD_W_ABS, 0, 0, NR_OFFSET)]
    + if rejectX32 then
        [SockFilter(BPF_JMP_JSET_K, 0, 1, X32_SYSCALL_BIT), SockFilter(BPF_RET_K, 0, 0, DENY)]
      else []
  }

  function DenyOne(nr: word): seq<SockFilter> {
    [SockFilter(BPF_JMP_JEQ_K, 0, 1, nr), SockFilter(BPF_RET_K, 0, 0, DENY)]
  }

  function DenyAll(numbers: seq<word>): seq<SockFilter> {
    if numbers == [] then [] else DenyOne(numbers[0]) + DenyAll(numbers[1..])
  }

  function PrlimitBlock(prlimit: word): seq<SockFilter> {
    [SockFilter(BPF_JMP_JEQ_K, 0, 4, prlimit),
     SockFilter(BPF_LD_W_ABS, 0, 0, ARG0_OFFSET),
     SockFilter(BPF_JMP_JEQ_K, 1, 0, 0),
     SockFilter(BPF_RET_K, 0, 0, DENY),
     SockFilter(BPF_LD_W_ABS, 0, 0, NR_OFFSET)]
  }

  function SocketpairTail(socketpair: word): seq<SockFilter> {
    [SockFilter(BPF_JMP_JEQ_K, 0, 4, socketpair),
     SockFilter(BPF_LD_W_ABS, 0, 0, ARG0_OFFSET),
     SockFilter(BPF_JMP_JEQ_K, 0, 1, AF_UNIX),
     SockFilter(BPF_RET_K, 0, 0, ALLOW),
     SockFilter(BPF_RET_K, 0, 0, DENY),
     SockFilter(BPF_RET_K, 0, 0, ALLOW)]
  }

  // ---------------------------------------------------------------- the policies

  predicate RightCaller(auditArch: word, rejectX32: bool, d: Data) {
    d.arch == auditArch && (rejectX32 ==> And(d.nr, X32_SYSCALL_BIT) == 0)
  }

  /** The stated policy of the first filter, on the low word of the first argument. */
  predicate NetworkAllows(p: Profile, d: Data)
    requires CallData(d)
  {
    && RightCaller(p.auditArch, p.rejectX32, d)
    && d.nr !in p.denied
    && (d.nr == p.prlimit ==> d.args[0] == 0)
    && d.nr != p.socket
    && d.nr != p.connect
    && (d.nr == p.socketpair ==> d.args[0] == AF_UNIX)
  }

  /** The stated policy of the second, deny-only filter. */
  predicate HandlesAllows(auditArch: word, rejectX32: bool, denied: seq<word>, d: Data) {
    RightCaller(auditArch, rejectX32, d) && d.nr !in denied
  }

  function Verdict(allowed: bool): word {
    if allowed then ALLOW else DENY
  }

  // ---------------------------------------------------------------- each block does its part

  lemma PrologueMeans(auditArch: word, rejectX32: bool, rest: seq<SockFilter>, acc: word, d: Data)
    ensures Exec(Prologue(auditArch, rejectX32) + rest, acc, d)
            == if RightCaller(auditArch, rejectX32, d) then Exec(rest, d.nr, d) else Some(DENY)
  {
    var text := Prologue(auditArch, rejectX32) + rest;
    assert Exec(text, acc, d) == Exec(text[1..], d.arch, d);
    if d.arch == auditArch {
      assert text[1..][2..] == text[3..] && text[3..][1..] == text[4..];
      assert Exec(text[1..], d.arch, d) == Exec(text[3..], d.arch, d) == Exec(text[4..], d.nr, d);
      if rejectX32 {
        assert text[4..][1..] == text[5..] && text[4..][2..] == text[6..] && text[6..] == rest;
        assert text[4..][0] == SockFilter(BPF_JMP_JSET_K, 0, 1, X32_SYSCALL_BIT);
        assert Exec(text[4..], d.nr, d)
               == if And(d.nr, X32_SYSCALL_BIT) != 0 then Exec(text[5..], d.nr, d) else Exec(text[6..], d.nr, d);
      } else {
        assert text[4..] == rest;
      }
    } else {
      assert text[1..][1..] == text[2..];
      assert Exec(text[1..], d.arch, d) == Exec(text[2..], d.arch, d) == Some(DENY);
    }
  }

  lemma DenyOneMeans(nr: word, rest: seq<SockFilter>, acc: word, d: Data)
    ensures Exec(DenyOne(nr) + rest, acc, d) == if acc == nr then Some(DENY) else Exec(rest, acc, d)
  {
    var text := DenyOne(nr) + rest;
    assert text[2..] == rest && text[1..][0] == SockFilter(BPF_RET_K, 0, 0, DENY);
    assert Exec(text, acc, d) == if acc == nr then Exec(text[1..], acc, d) else Exec(text[2..], acc, d);
  }

  lemma {:induction false} DenyAllMeans(numbers: seq<word>, rest: seq<SockFilter>, acc: word, d: Data)
    ensures Exec(DenyAll(numbers) + rest, acc, d) == if acc in numbers then Some(DENY) else Exec(rest, acc, d)
  {
    if numbers == [] {
      assert DenyAll(numbers) + rest == rest;
    } else {
      assert DenyAll(numbers) + rest == DenyOne(numbers[0]) + (DenyAll(numbers[1..]) + rest);
      DenyOneMeans(numbers[0], DenyAll(numbers[1..]) + rest, acc, d);
      DenyAllMeans(numbers[1..], rest, acc, d);
    }
  }

  lemma PrlimitMeans(prlimit: word, rest: seq<SockFilter>, d: Data)
    requires CallData(d)
    ensures Exec(PrlimitBlock(prlimit) + rest, d.nr, d)
            == if d.nr == prlimit && d.args[0] != 0 then Some(DENY) else Exec(rest, d.nr, d)
  {
    var text := PrlimitBlock(prlimit) + rest;
    assert text[5..] == rest;
    if d.nr == prlimit {
      var arg := d.args[0];
      assert Exec(text, d.nr, d) == Exec(text[1..], d.nr, d);
      assert text[1..][1..] == text[2..] && Load(d, ARG0_OFFSET) == Some(arg);
      assert Exec(text[1..], d.nr, d) == Exec(text[2..], arg, d);
      assert text[2..][2..] == text[4..] && text[2..][1..] == text[3..] && text[4..][1..] == text[5..];
      if arg == 0 {
        assert Exec(text[2..], arg, d) == Exec(text[4..], arg, d) == Exec(rest, d.nr, d);
      } else {
        assert Exec(text[2..], arg, d) == Exec(text[3..], arg, d) == Some(DENY);
      }
    } else {
      assert Exec(text, d.nr, d) == Exec(text[5..], d.nr, d);
    }
  }

  lemma TailMeans(socketpair: word, d: Data)
    requires CallData(d)
    ensures Exec(SocketpairTail(socketpair), d.nr, d) == Some(Verdict(d.nr == socketpair ==> d.args[0] == AF_UNIX))
  {
    var text := SocketpairTail(socketpair);
    if d.nr == socketpair {
      var arg := d.args[0];
      assert Exec(text, d.nr, d) == Exec(text[1..], d.nr, d);
      assert text[1..][1..] == text[2..] && Load(d, ARG0_OFFSET) == Some(arg);
      assert Exec(text[1..], d.nr, d) == Exec(text[2..], arg, d);
      assert text[2..][1..] == text[3..] && text[2..][2..] == text[4..];
      assert Exec(text[2..], arg, d) == if arg == AF_UNIX then Exec(text[3..], arg, d) else Exec(text[4..], arg, d);
    } else {
      assert Exec(text, d.nr, d) == Exec(text[5..], d.nr, d);
    }
  }

  // ---------------------------------------------------------------- well-formedness, block by block

  /** Jumps of the block stay inside it or land on its first following instruction. */
  predicate Closed(block: seq<SockFilter>) {
    forall i | 0 <= i < |block| ::
      var insn := block[i];
      && insn.jt < 256 && insn.jf < 256
      && (|| insn.code == BPF_RET_K
          || (insn.code == BPF_LD_W_ABS && insn.k % 4 == 0 && insn.k < 64)
          || ((insn.code == BPF_JMP_JEQ_K || insn.code == BPF_JMP_JSET_K)
              && i + 1 + insn.jt <= |block| && i + 1 + insn.jf <= |block|))
  }

  lemma ClosedJoin(a: seq<SockFilter>, b: seq<SockFilter>)
    requires Closed(a) && Closed(b)
    ensures Closed(a + b)
  {
  }

  lemma {:induction false} DenyAllClosed(numbers: seq<word>)
    ensures Closed(DenyAll(numbers)) && |DenyAll(numbers)| == 2 * |numbers|
  {
    if numbers != [] {
      DenyAllClosed(numbers[1..]);
      ClosedJoin(DenyOne(numbers[0]), DenyAll(numbers[1..]));
    }
  }

  lemma ClosedBeforeWellFormed(a: seq<SockFilter>, b: seq<SockFilter>)
    requires Closed(a) && WellFormed(b)
    ensures WellFormed(a + b)
  {
  }

  // ---------------------------------------------------------------- the programs mean the policies

  function NetworkFilter(p: Profile): seq<SockFilter> {
    Prologue(p.auditArch, p.rejectX32)
    + (DenyAll(p.denied)
       + (PrlimitBlock(p.prlimit) + (DenyOne(p.socket) + (DenyOne(p.connect) + SocketpairTail(p.socketpair)))))
  }

  function HandlesFilter(auditArch: word, rejectX32: bool, denied: seq<word>): seq<SockFilter> {
    Prologue(auditArch, rejectX32) + (DenyAll(denied) + [SockFilter(BPF_RET_K, 0, 0, ALLOW)])
  }

  /** For every profile and every call the first program returns exactly the verdict of its policy. */
  lemma NetworkFilterMeans(p: Profile, d: Data)
    requires CallData(d)
    ensures Run(NetworkFilter(p), 0, 0, d) == Some(Verdict(NetworkAllows(p, d)))
  {
    var tail := SocketpairTail(p.socketpair);
    var connect := DenyOne(p.connect) + tail;
    var socket := DenyOne(p.socket) + connect;
    var prlimit := PrlimitBlock(p.prlimit) + socket;
    var denied := DenyAll(p.denied) + prlimit;
    RunIsExec(NetworkFilter(p), 0, 0, d);
    assert NetworkFilter(p)[0..] == Prologue(p.auditArch, p.rejectX32) + denied;
    PrologueMeans(p.auditArch, p.rejectX32, denied, 0, d);
    DenyAllMeans(p.denied, prlimit, d.nr, d);
    PrlimitMeans(p.prlimit, socket, d);
    DenyOneMeans(p.socket, connect, d.nr, d);
    DenyOneMeans(p.connect, tail, d.nr, d);
    TailMeans(p.socketpair, d);
  }

  lemma HandlesFilterMeans(auditArch: word, rejectX32: bool, denied: seq<word>, d: Data)
    ensures Run(HandlesFilter(auditArch, rejectX32, denied), 0, 0, d)
            == Some(Verdict(HandlesAllows(auditArch, rejectX32, denied, d)))
  {
    var tail := [SockFilter(BPF_RET_K, 0, 0, ALLOW)];
    RunIsExec(HandlesFilter(auditArch, rejectX32, denied), 0, 0, d);
    assert HandlesFilter(auditArch, rejectX32, denied)[0..]
           == Prologue(auditArch, rejectX32) + (DenyAll(denied) + tail);
    PrologueMeans(auditArch, rejectX32, DenyAll(denied) + tail, 0, d);
    DenyAllMeans(denied, tail, d.nr, d);
  }

  lemma NetworkFilterWellFormed(p: Profile)
    ensures WellFormed(NetworkFilter(p))
    ensures |NetworkFilter(p)| == 19 + (if p.rejectX32 then 2 else 0) + 2 * |p.denied|
  {
    var tail := SocketpairTail(p.socketpair);
    var connect := DenyOne(p.connect) + tail;
    var socket := DenyOne(p.socket) + connect;
    var prlimit := PrlimitBlock(p.prlimit) + socket;
    DenyAllClosed(p.denied);
    assert WellFormed(tail);
    ClosedBeforeWellFormed(DenyOne(p.connect), tail);
    ClosedBeforeWellFormed(DenyOne(p.socket), connect);
    ClosedBeforeWellFormed(PrlimitBlock(p.prlimit), socket);
    ClosedBeforeWellFormed(DenyAll(p.denied), prlimit);
    ClosedBeforeWellFormed(Prologue(p.auditArch, p.rejectX32), DenyAll(p.denied) + prlimit);
  }

  lemma HandlesFilterWellFormed(auditArch: word, rejectX32: bool, denied: seq<word>)
    ensures WellFormed(HandlesFilter(auditArch, rejectX32, denied))
    ensures |HandlesFilter(auditArch, rejectX32, denied)| == 5 + (if rejectX32 then 2 else 0) + 2 * |denied|
  {
    var tail := [SockFilter(BPF_RET_K, 0, 0, ALLOW)];
    DenyAllClosed(denied);
    assert WellFormed(tail);
    ClosedBeforeWellFormed(DenyAll(denied), tail);
    ClosedBeforeWellFormed(Prologue(auditArch, rejectX32), DenyAll(denied) + tail);
  }

  // ---------------------------------------------------------------- the generator

  method DenyEach(instructions: seq<SockFilter>, numbers: seq<word>) returns (r: seq<SockFilter>)
    ensures r == instructions + DenyAll(numbers)
  {
    r := instructions;
    var i := 0;
    while i < |numbers|
      invariant 0 <= i <= |numbers|
      invariant r + DenyAll(numbers[i..]) == instructions + DenyAll(numbers)
    {
      assert numbers[i..][1..] == numbers[i + 1..];
      r := r + [SockFilter(BPF_JMP_JEQ_K, 0, 1, numbers[i])];
      r := r + [SockFilter(BPF_RET_K, 0, 0, DENY)];
      i := i + 1;
    }
    assert numbers[i..] == [];
  }

  method StartFilter(auditArch: word, rejectX32: bool) returns (r: seq<SockFilter>)
    ensures r == Prologue(auditArch, rejectX32)
  {
    r := [SockFilter(BPF_LD_W_ABS, 0, 0, ARCH_OFFSET),
          SockFilter(BPF_JMP_JEQ_K, 1, 0, auditArch),
          SockFilter(BPF_RET_K, 0, 0, DENY),
          SockFilter(BPF_LD_W_ABS, 0, 0, NR_OFFSET)];
    if rejectX32 {
      r := r + [SockFilter(BPF_JMP_JSET_K, 0, 1, X32_SYSCALL_BIT), SockFilter(BPF_RET_K, 0, 0, DENY)];
    }
  }

  /** `apply_network_seccomp_policy`, up to the installation: a well-formed program that returns, for every call, the
      verdict of the policy. */
  method BuildNetworkFilter(p: Profile) returns (instructions: seq<SockFilter>)
    ensures WellFormed(instructions)
    ensures forall d | CallData(d) :: Run(instructions, 0, 0, d) == Some(Verdict(NetworkAllows(p, d)))
  {
    instructions := StartFilter(p.auditArch, p.rejectX32);
    instructions := DenyEach(instructions, p.denied);
    var prlimitBlock := [
      SockFilter(BPF_LD_W_ABS, 0, 0, ARG0_OFFSET),
      SockFilter(BPF_JMP_JEQ_K, 1, 0, 0),
      SockFilter(BPF_RET_K, 0, 0, DENY),
      SockFilter(BPF_LD_W_ABS, 0, 0, NR_OFFSET)];
    instructions := instructions + [SockFilter(BPF_JMP_JEQ_K, 0, |prlimitBlock|, p.prlimit)];
    instructions := instructions + prlimitBlock;
    instructions := instructions + [
      SockFilter(BPF_JMP_JEQ_K, 0, 1, p.socket),
      SockFilter(BPF_RET_K, 0, 0, DENY),
      SockFilter(BPF_JMP_JEQ_K, 0, 1, p.connect),
      SockFilter(BPF_RET_K, 0, 0, DENY),
      SockFilter(BPF_JMP_JEQ_K, 0, 4, p.socketpair),
      SockFilter(BPF_LD_W_ABS, 0, 0, ARG0_OFFSET),
      SockFilter(BPF_JMP_JEQ_K, 0, 1, AF_UNIX),
      SockFilter(BPF_RET_K, 0, 0, ALLOW),
      SockFilter(BPF_RET_K, 0, 0, DENY),
      SockFilter(BPF_RET_K, 0, 0, ALLOW)];
    assert instructions == NetworkFilter(p);
    NetworkFilterWellFormed(p);
    forall d | CallData(d)
      ensures Run(instructions, 0, 0, d) == Some(Verdict(NetworkAllows(p, d)))
    {
      NetworkFilterMeans(p, d);
    }
  }

  /** `_apply_sensitive_host_handle_seccomp_policy`, up to the installation. */
  method BuildHandlesFilter(auditArch: word, rejectX32: bool, denied: seq<word>) returns (instructions: seq<SockFilter>)
    ensures WellFormed(instructions)
    ensures forall d :: Run(instructions, 0, 0, d) == Some(Verdict(HandlesAllows(auditArch, rejectX32, denied, d)))
  {
    instructions := StartFilter(auditArch, rejectX32);
    instructions := DenyEach(instructions, denied);
    instructions := instructions + [SockFilter(BPF_RET_K, 0, 0, ALLOW)];
    assert instructions == HandlesFilter(auditArch, rejectX32, denied);
    HandlesFilterWellFormed(auditArch, rejectX32, denied);
    forall d
      ensures Run(instructions, 0, 0, d) == Some(Verdict(HandlesAllows(auditArch, rejectX32, denied, d)))
    {
      HandlesFilterMeans(auditArch, rejectX32, denied, d);
    }
  }

  // ---------------------------------------------------------------- the stack of both

  /** The kernel runs every attached filter and keeps the result whose action has the highest precedence, the one
      with the least action value read as a signed number. */
  function Action(r: word): int {
    var upper := r / 0x1_0000;
    if upper < 0x8000 then upper else upper - 0x1_0000
  }

  function Stacked(first: word, second: word): word {
    if Action(second) < Action(first) then second else first
  }

  datatype Machine = X86_64 | Aarch64

  function NetworkProfile(m: Machine): Profile {
    match m
    case X86_64 =>
      Profile(0xC000_003E, true, [425, 426, 427, 424, 62, 200, 234, 129, 297, 101, 310, 311], 302, 41, 42, 53)
    case Aarch64 =>
      Profile(0xC000_00B7, false, [425, 426, 427, 424, 129, 130, 131, 138, 240, 117, 270, 271], 261, 198, 203, 199)
  }

  function HandlesDenied(m: Machine): seq<word> {
    match m
    case X86_64 => [434, 438, 248, 249, 250]
    case Aarch64 => [434, 438, 217, 218, 219]
  }

  /** With both filters attached, the calls allowed are exactly those both policies allow. */
  lemma StackAllowsIntersection(p: Profile, denied: seq<word>, d: Data)
    requires CallData(d)
    ensures var first := Run(NetworkFilter(p), 0, 0, d);
            var second := Run(HandlesFilter(p.auditArch, p.rejectX32, denied), 0, 0, d);
            && first.Some? && second.Some?
            && Stacked(first.value, second.value)
               == Verdict(NetworkAllows(p, d) && HandlesAllows(p.auditArch, p.rejectX32, denied, d))
  {
    NetworkFilterMeans(p, d);
    HandlesFilterMeans(p.auditArch, p.rejectX32, denied, d);
  }

  /** On both supported machines the kernel accepts the two programs. */
  lemma InstalledFiltersAccepted(m: Machine)
    ensures WellFormed(NetworkFilter(NetworkProfile(m))) && |NetworkFilter(NetworkProfile(m))| <= BPF_MAXINSNS
    ensures var p := NetworkProfile(m);
            var handles := HandlesFilter(p.auditArch, p.rejectX32, HandlesDenied(m));
            WellFormed(handles) && |handles| <= BPF_MAXINSNS
  {
    NetworkFilterWellFormed(NetworkProfile(m));
    HandlesFilterWellFormed(NetworkProfile(m).auditArch, NetworkProfile(m).rejectX32, HandlesDenied(m));
  }

  function PowerOfTwo(n: nat): nat {
    if n == 0 then 1 else 2 * PowerOfTwo(n - 1)
  }

  function Bit(a: nat, n: nat): nat {
    if n == 0 then a % 2 else Bit(a / 2, n - 1)
  }

  /** Conjunction with one bit tests that bit. */
  lemma {:induction false} BitTest(a: nat, n: nat)
    ensures And(a, PowerOfTwo(n)) != 0 <==> Bit(a, n) == 1
  {
    if n > 0 {
      BitTest(a / 2, n - 1);
      assert PowerOfTwo(n) % 2 == 0 && PowerOfTwo(n) / 2 == PowerOfTwo(n - 1);
      if a == 0 {
        ZeroBits(n);
      }
    } else {
      assert And(a / 2, 0) == 0;
    }
  }

  lemma {:induction false} ZeroBits(n: nat)
    ensures Bit(0, n) == 0 && PowerOfTwo(n) > 0
  {
    if n > 0 {
      ZeroBits(n - 1);
    }
  }

  /** The x32 test of the programs looks at bit 30 of the call number. */
  lemma X32Bit(nr: word)
    ensures And(nr, X32_SYSCALL_BIT) != 0 <==> Bit(nr, 30) == 1
  {
    assert PowerOfTwo(10) == 0x400;
    assert PowerOfTwo(20) == 0x10_0000;
    assert PowerOfTwo(30) == X32_SYSCALL_BIT;
    BitTest(nr, 30);
  }
}
