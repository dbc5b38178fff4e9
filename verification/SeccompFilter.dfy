/** The launcher's seccomp filters: a classic-BPF evaluator, the block layout all
    three filters share, and what an assembled filter means for every list of
    blocks and every system call. */
module SeccompFilter {
  import opened Options

  /** The inspected part of `struct seccomp_data`. Argument 0 is 64 bits wide; a
      word load at its offset sees the low half on these little-endian targets. */
  datatype Data = Data(nr: bv32, arch: bv32, arg0Low: bv32, arg0High: bv32)

  const OFFSET_NR: nat := 0
  const OFFSET_ARCH: nat := 4
  const OFFSET_ARG0: nat := 16

  datatype Verdict = Allow | Errno(code: nat)

  datatype Insn =
    | Ld(offset: nat)
    | Jeq(k: bv32, jt: nat, jf: nat)
    | Jset(k: bv32, jt: nat, jf: nat)
    | Ret(verdict: Verdict)

  const EPERM: nat := 1
  const ENOSYS: nat := 38

  function Load(d: Data, offset: nat): bv32
  {
    if offset == OFFSET_NR then d.nr
    else if offset == OFFSET_ARCH then d.arch
    else if offset == OFFSET_ARG0 then d.arg0Low
    else 0
  }

  /** Evaluation of the code that is left, with accumulator a. Jumps count the
      instructions skipped after the jump itself; running off the end is None. */
  function Eval(code: seq<Insn>, a: bv32, d: Data): Option<Verdict>
    decreases |code|, 0
  {
    if code == [] then None
    else match code[0]
    case Ld(offset) => Eval(code[1..], Load(d, offset), d)
    case Jeq(k, jt, jf) => Skip(code[1..], if a == k then jt else jf, a, d)
    case Jset(k, jt, jf) => Skip(code[1..], if a & k != 0 then jt else jf, a, d)
    case Ret(v) => Some(v)
  }

  function Skip(code: seq<Insn>, n: nat, a: bv32, d: Data): Option<Verdict>
    decreases |code|, 1
  {
    if n > |code| then None else Eval(code[n..], a, d)
  }

  // --------------------------------------------------------------- assembling

  datatype Test = Always | ArgHas(mask: bv32) | ArgIs(value: bv32)

  /** Deny system call `nr`, when the test on argument 0 holds, with `errno`. */
  datatype Block = Block(nr: bv32, test: Test, errno: nat)

  function BlockCode(b: Block): seq<Insn>
  {
    match b.test
    case Always => [Jeq(b.nr, 0, 1), Ret(Errno(b.errno))]
    case ArgHas(mask) => [Jeq(b.nr, 0, 3), Ld(OFFSET_ARG0), Jset(mask, 0, 1), Ret(Errno(b.errno))]
    case ArgIs(value) => [Jeq(b.nr, 0, 3), Ld(OFFSET_ARG0), Jeq(value, 0, 1), Ret(Errno(b.errno))]
  }

  function Code(b: Option<Block>): seq<Insn>
  {
    if b.Some? then BlockCode(b.value) else []
  }

  /** Each position reloads the system call number; a block that was not compiled
      in leaves only the reload. */
  function Body(blocks: seq<Option<Block>>): seq<Insn>
  {
    if blocks == [] then [Ret(Allow)]
    else [Ld(OFFSET_NR)] + Code(blocks[0]) + Body(blocks[1..])
  }

  function Assemble(arch: bv32, blocks: seq<Option<Block>>): seq<Insn>
  {
    [Ld(OFFSET_ARCH), Jeq(arch, 1, 0), Ret(Allow)] + Body(blocks)
  }

  // ------------------------------------------------------------------ meaning

  predicate Matches(b: Block, d: Data)
  {
    d.nr == b.nr &&
    match b.test
    case Always => true
    case ArgHas(mask) => d.arg0Low & mask != 0
    case ArgIs(value) => d.arg0Low == value
  }

  /** The errno of the first matching block. */
  function FirstMatch(blocks: seq<Option<Block>>, d: Data): Verdict
  {
    if blocks == [] then Allow
    else if blocks[0].Some? && Matches(blocks[0].value, d) then Errno(blocks[0].value.errno)
    else FirstMatch(blocks[1..], d)
  }

  function Meaning(arch: bv32, blocks: seq<Option<Block>>, d: Data): Verdict
  {
    if d.arch == arch then FirstMatch(blocks, d) else Allow
  }

  lemma AlwaysEval(b: Block, rest: seq<Insn>, d: Data)
    requires b.test.Always?
    ensures Eval(BlockCode(b) + rest, d.nr, d) == if Matches(b, d) then Some(Errno(b.errno)) else Eval(rest, d.nr, d)
  {
    var code := BlockCode(b) + rest;
    var tail := code[1..];
    assert tail[0..] == tail && tail[1..] == rest;
    assert Eval(code, d.nr, d) == Skip(tail, if d.nr == b.nr then 0 else 1, d.nr, d);
    assert Eval(tail, d.nr, d) == Some(Errno(b.errno));
  }

  lemma TestEval(b: Block, test: Insn, rest: seq<Insn>, d: Data)
    requires match b.test
             case Always => false
             case ArgHas(mask) => test == Jset(mask, 0, 1)
             case ArgIs(value) => test == Jeq(value, 0, 1)
    requires d.nr == b.nr
    ensures Eval([test, Ret(Errno(b.errno))] + rest, d.arg0Low, d) ==
            if Matches(b, d) then Some(Errno(b.errno)) else Eval(rest, d.arg0Low, d)
  {
    var code := [test, Ret(Errno(b.errno))] + rest;
    var after := code[1..];
    assert after[0..] == after && after[1..] == rest;
    assert Eval(code, d.arg0Low, d) == Skip(after, if Matches(b, d) then 0 else 1, d.arg0Low, d);
    assert Eval(after, d.arg0Low, d) == Some(Errno(b.errno));
  }

  lemma ArgEval(b: Block, rest: seq<Insn>, d: Data)
    requires !b.test.Always?
    ensures Eval(BlockCode(b) + rest, d.nr, d) ==
            if Matches(b, d) then Some(Errno(b.errno))
            else Eval(rest, if d.nr == b.nr then d.arg0Low else d.nr, d)
  {
    var code := BlockCode(b) + rest;
    var tail := code[1..];
    assert Eval(code, d.nr, d) == Skip(tail, if d.nr == b.nr then 0 else 3, d.nr, d);
    if d.nr == b.nr {
      assert tail[0..] == tail;
      assert Eval(tail, d.nr, d) == Eval(tail[1..], d.arg0Low, d);
      assert tail[1..] == [code[2], Ret(Errno(b.errno))] + rest;
      TestEval(b, code[2], rest, d);
    } else {
      assert tail[3..] == rest;
    }
  }

  /** One block in front of any code: it returns its errno on a match and falls
      through to exactly that code, with some accumulator, otherwise. */
  lemma BlockEval(b: Block, rest: seq<Insn>, d: Data) returns (a: bv32)
    ensures Eval(BlockCode(b) + rest, d.nr, d) == if Matches(b, d) then Some(Errno(b.errno)) else Eval(rest, a, d)
  {
    if b.test.Always? {
      AlwaysEval(b, rest, d);
      a := d.nr;
    } else {
      ArgEval(b, rest, d);
      a := if d.nr == b.nr then d.arg0Low else d.nr;
    }
  }

  lemma {:induction false} BodyEval(blocks: seq<Option<Block>>, a: bv32, d: Data)
    ensures Eval(Body(blocks), a, d) == Some(FirstMatch(blocks, d))
    decreases |blocks|
  {
    if blocks != [] {
      var code, rest := Body(blocks), Body(blocks[1..]);
      if blocks[0].None? {
        assert code[1..] == rest;
        BodyEval(blocks[1..], d.nr, d);
      } else {
        var b := blocks[0].value;
        assert code[1..] == BlockCode(b) + rest;
        var a' := BlockEval(b, rest, d);
        BodyEval(blocks[1..], a', d);
      }
    }
  }

  /** The assembled relative-jump program computes the meaning, for every list of
      blocks, every subset of them compiled in, and every system call. */
  lemma AssembledMeaning(arch: bv32, blocks: seq<Option<Block>>, a: bv32, d: Data)
    ensures Eval(Assemble(arch, blocks), a, d) == Some(Meaning(arch, blocks, d))
  {
    var code := Assemble(arch, blocks);
    var jump := code[1..];
    var after := jump[1..];
    assert Eval(code, a, d) == Eval(jump, d.arch, d) == Skip(after, if d.arch == arch then 1 else 0, d.arch, d);
    assert after[0..] == after && after[1..] == Body(blocks);
    assert Eval(after, d.arch, d) == Some(Allow);
    BodyEval(blocks, d.arch, d);
  }

  // ------------------------------------------------------- the three programs

  const CLONE_NEWIPC: bv32 := 0x0800_0000
  const KEYCTL_JOIN_SESSION_KEYRING: bv32 := 1

  function Compiled<T>(there: bool, part: seq<T>): seq<T>
  {
    if there then part else []
  }

  /** System call numbers of one target; a missing number is not compiled in. */
  datatype Target = Target(arch: bv32, unshare: Option<bv32>, clone: Option<bv32>, clone3: Option<bv32>)

  function OrZero(nr: Option<bv32>): bv32
  {
    if nr.Some? then nr.value else 0
  }

  /** The array of `block_ipc_namespace_creation`, with its conditional parts. */
  function IpcProgram(t: Target): seq<Insn>
  {
    [Ld(OFFSET_ARCH), Jeq(t.arch, 1, 0), Ret(Allow), Ld(OFFSET_NR)]
    + Compiled(t.unshare.Some?,
               [Jeq(OrZero(t.unshare), 0, 3), Ld(OFFSET_ARG0), Jset(CLONE_NEWIPC, 0, 1), Ret(Errno(EPERM))])
    + [Ld(OFFSET_NR)]
    + Compiled(t.clone.Some?,
               [Jeq(OrZero(t.clone), 0, 3), Ld(OFFSET_ARG0), Jset(CLONE_NEWIPC, 0, 1), Ret(Errno(EPERM))])
    + [Ld(OFFSET_NR)]
    + Compiled(t.clone3.Some?, [Jeq(OrZero(t.clone3), 0, 1), Ret(Errno(ENOSYS))])
    + [Ret(Allow)]
  }

  function CloseRangeProgram(arch: bv32, closeRange: bv32): seq<Insn>
  {
    [Ld(OFFSET_ARCH), Jeq(arch, 1, 0), Ret(Allow), Ld(OFFSET_NR),
     Jeq(closeRange, 0, 1), Ret(Errno(ENOSYS)), Ret(Allow)]
  }

  function KeyctlProgram(arch: bv32, keyctl: bv32): seq<Insn>
  {
    [Ld(OFFSET_ARCH), Jeq(arch, 1, 0), Ret(Allow), Ld(OFFSET_NR),
     Jeq(keyctl, 0, 3), Ld(OFFSET_ARG0), Jeq(KEYCTL_JOIN_SESSION_KEYRING, 0, 1), Ret(Errno(ENOSYS)), Ret(Allow)]
  }

  function Optionally(nr: Option<bv32>, test: Test, errno: nat): Option<Block>
  {
    if nr.Some? then Some(Block(nr.value, test, errno)) else None
  }

  function IpcBlocks(t: Target): seq<Option<Block>>
  {
    [Optionally(t.unshare, ArgHas(CLONE_NEWIPC), EPERM),
     Optionally(t.clone, ArgHas(CLONE_NEWIPC), EPERM),
     Optionally(t.clone3, Always, ENOSYS)]
  }

  lemma BodyOne(b: Option<Block>)
    ensures Body([b]) == [Ld(OFFSET_NR)] + Code(b) + [Ret(Allow)]
  {
    assert [b][1..] == [];
  }

  lemma BodyThree(a: Option<Block>, b: Option<Block>, c: Option<Block>)
    ensures Body([a, b, c]) ==
            [Ld(OFFSET_NR)] + Code(a) + [Ld(OFFSET_NR)] + Code(b) + [Ld(OFFSET_NR)] + Code(c) + [Ret(Allow)]
  {
    assert [a, b, c][1..] == [b, c] && [b, c][1..] == [c];
    BodyOne(c);
    assert Body([b, c]) == [Ld(OFFSET_NR)] + Code(b) + Body([c]);
    assert Body([a, b, c]) == [Ld(OFFSET_NR)] + Code(a) + Body([b, c]);
  }

  lemma Regroup(head: seq<Insn>, ld: seq<Insn>, a: seq<Insn>, b: seq<Insn>, c: seq<Insn>, end: seq<Insn>)
    ensures head + ld + a + ld + b + ld + c + end == head + (ld + a + ld + b + ld + c + end)
  {
  }

  lemma IpcIsAssembled(t: Target)
    ensures IpcProgram(t) == Assemble(t.arch, IpcBlocks(t))
  {
    var bs := IpcBlocks(t);
    BodyThree(bs[0], bs[1], bs[2]);
    var ld, end := [Ld(OFFSET_NR)], [Ret(Allow)];
    var head := [Ld(OFFSET_ARCH), Jeq(t.arch, 1, 0), Ret(Allow)];
    var full := [Ld(OFFSET_ARCH), Jeq(t.arch, 1, 0), Ret(Allow), Ld(OFFSET_NR)];
    assert full == head + ld;
    Regroup(head, ld, Code(bs[0]), Code(bs[1]), Code(bs[2]), end);
  }

  lemma FirstOfOne(b: Block, d: Data)
    ensures FirstMatch([Some(b)], d) == if Matches(b, d) then Errno(b.errno) else Allow
  {
    assert [Some(b)][1..] == [];
  }

  lemma FirstOfThree(a: Option<Block>, b: Option<Block>, c: Option<Block>, d: Data)
    ensures FirstMatch([a, b, c], d) ==
            if a.Some? && Matches(a.value, d) then Errno(a.value.errno)
            else if b.Some? && Matches(b.value, d) then Errno(b.value.errno)
            else if c.Some? && Matches(c.value, d) then Errno(c.value.errno) else Allow
  {
    assert [a, b, c][1..] == [b, c] && [b, c][1..] == [c] && [c][1..] == [];
    assert FirstMatch([c], d) == if c.Some? && Matches(c.value, d) then Errno(c.value.errno) else Allow;
    assert FirstMatch([b, c], d) ==
           if b.Some? && Matches(b.value, d) then Errno(b.value.errno) else FirstMatch([c], d);
  }

  /** A call that asks for a new IPC namespace. */
  predicate NewIpc(t: Target, d: Data)
  {
    (Some(d.nr) == t.unshare || Some(d.nr) == t.clone) && d.arg0Low & CLONE_NEWIPC != 0
  }

  lemma IpcFirstMatch(t: Target, d: Data)
    ensures FirstMatch(IpcBlocks(t), d) ==
            if NewIpc(t, d) then Errno(EPERM) else if Some(d.nr) == t.clone3 then Errno(ENOSYS) else Allow
  {
    var u := Optionally(t.unshare, ArgHas(CLONE_NEWIPC), EPERM);
    var c := Optionally(t.clone, ArgHas(CLONE_NEWIPC), EPERM);
    var c3 := Optionally(t.clone3, Always, ENOSYS);
    FirstOfThree(u, c, c3, d);
    MatchesNumber(t.unshare, ArgHas(CLONE_NEWIPC), EPERM, d);
    MatchesNumber(t.clone, ArgHas(CLONE_NEWIPC), EPERM, d);
    MatchesNumber(t.clone3, Always, ENOSYS, d);
  }

  lemma {:induction false} MatchesNumber(nr: Option<bv32>, test: Test, errno: nat, d: Data)
    ensures var b := Optionally(nr, test, errno);
            (b.Some? && Matches(b.value, d) <==> Some(d.nr) == nr && Matches(Block(d.nr, test, errno), d))
            && (b.Some? ==> b.value.errno == errno)
  {
  }

  /** The IPC filter denies exactly the calls that would create an IPC namespace,
      and clone3, which it cannot inspect; missing numbers match nothing. */
  lemma IpcFilterMeaning(t: Target, a: bv32, d: Data)
    ensures Eval(IpcProgram(t), a, d) ==
            Some(if d.arch != t.arch then Allow
                 else if NewIpc(t, d) then Errno(EPERM)
                 else if Some(d.nr) == t.clone3 then Errno(ENOSYS)
                 else Allow)
  {
    IpcIsAssembled(t);
    AssembledMeaning(t.arch, IpcBlocks(t), a, d);
    IpcFirstMatch(t, d);
  }

  lemma CloseRangeFilterMeaning(arch: bv32, closeRange: bv32, a: bv32, d: Data)
    ensures Eval(CloseRangeProgram(arch, closeRange), a, d) ==
            Some(if d.arch == arch && d.nr == closeRange then Errno(ENOSYS) else Allow)
  {
    var bs := [Some(Block(closeRange, Always, ENOSYS))];
    BodyOne(bs[0]);
    assert CloseRangeProgram(arch, closeRange) == Assemble(arch, bs);
    AssembledMeaning(arch, bs, a, d);
    FirstOfOne(bs[0].value, d);
  }

  lemma KeyctlFilterMeaning(arch: bv32, keyctl: bv32, a: bv32, d: Data)
    ensures Eval(KeyctlProgram(arch, keyctl), a, d) ==
            Some(if d.arch == arch && d.nr == keyctl && d.arg0Low == KEYCTL_JOIN_SESSION_KEYRING
                 then Errno(ENOSYS) else Allow)
  {
    var bs := [Some(Block(keyctl, ArgIs(KEYCTL_JOIN_SESSION_KEYRING), ENOSYS))];
    BodyOne(bs[0]);
    assert KeyctlProgram(arch, keyctl) == Assemble(arch, bs);
    AssembledMeaning(arch, bs, a, d);
    FirstOfOne(bs[0].value, d);
  }

  // ------------------------------------------------------------ stacked filters

  /** The kernel runs every installed filter, newest first, and keeps the most
      restrictive action; on a tie the earlier result stays. */
  function Stacked(filters: seq<seq<Insn>>, d: Data, soFar: Verdict): Option<Verdict>
    decreases |filters|
  {
    if filters == [] then Some(soFar)
    else
      var v := Eval(filters[0], 0, d);
      if v.None? then None
      else Stacked(filters[1..], d, if soFar.Allow? then v.value else soFar)
  }

  datatype Filter = Filter(arch: bv32, blocks: seq<Option<Block>>)

  function Programs(fs: seq<Filter>): (r: seq<seq<Insn>>)
    ensures |r| == |fs|
    ensures forall i :: 0 <= i < |fs| ==> r[i] == Assemble(fs[i].arch, fs[i].blocks)
  {
    seq(|fs|, i requires 0 <= i < |fs| => Assemble(fs[i].arch, fs[i].blocks))
  }

  ghost predicate Denies(f: Filter, d: Data)
  {
    f.arch == d.arch && exists i :: 0 <= i < |f.blocks| && f.blocks[i].Some? && Matches(f.blocks[i].value, d)
  }

  lemma {:induction false} DenialIsAMatch(blocks: seq<Option<Block>>, d: Data)
    ensures FirstMatch(blocks, d) != Allow <==>
            exists i :: 0 <= i < |blocks| && blocks[i].Some? && Matches(blocks[i].value, d)
    decreases |blocks|
  {
    if blocks != [] {
      var rest := blocks[1..];
      DenialIsAMatch(rest, d);
      if FirstMatch(rest, d) != Allow {
        var i :| 0 <= i < |rest| && rest[i].Some? && Matches(rest[i].value, d);
        assert blocks[i + 1] == rest[i];
      }
      if i :| 0 <= i < |blocks| && blocks[i].Some? && Matches(blocks[i].value, d) {
        if i > 0 { assert rest[i - 1] == blocks[i]; }
      }
    }
  }

  /** A stack of any number of filters always reaches a verdict, and denies a call
      exactly when one of its filters does: the denials are the union. */
  lemma {:induction false} StackDeniesUnion(fs: seq<Filter>, d: Data, soFar: Verdict)
    ensures Stacked(Programs(fs), d, soFar).Some?
    ensures Stacked(Programs(fs), d, soFar).value != Allow <==>
            soFar != Allow || exists i :: 0 <= i < |fs| && Denies(fs[i], d)
    decreases |fs|
  {
    if fs != [] {
      AssembledMeaning(fs[0].arch, fs[0].blocks, 0, d);
      DenialIsAMatch(fs[0].blocks, d);
      var v := Meaning(fs[0].arch, fs[0].blocks, d);
      assert Denies(fs[0], d) <==> v != Allow;
      assert Programs(fs)[1..] == Programs(fs[1..]);
      StackDeniesUnion(fs[1..], d, if soFar.Allow? then v else soFar);
      assert forall i :: 0 < i < |fs| ==> fs[i] == fs[1..][i - 1];
      if i :| 0 <= i < |fs[1..]| && Denies(fs[1..][i], d) {
        assert Denies(fs[i + 1], d);
      }
    }
  }
}
