/** Calls: from the caller's `call` to the return behind it. */
module X86Entry {
  import opened Words
  import opened Ir
  import opened Semantics
  import opened X86
  import opened X86Select
  import opened X86Frame
  import opened X86Correct
  import opened X86Functions
  import R = X86Run

  // --- the state at a call ---

  /** Where the caller puts argument `i`: the first six in rdi, rsi, rdx, rcx, r8
      and r9, by their numbers in the encoding; the others on the stack. */
  predicate ArgAt(m: Machine, f: nat, i: nat, v: Word) {
    if i == 0 then m.regs[7] == v
    else if i == 1 then m.regs[6] == v
    else if i == 2 then m.regs[2] == v
    else if i == 3 then m.regs[1] == v
    else if i == 4 then m.regs[8] == v
    else if i == 5 then m.regs[9] == v
    else f + 16 + 8 * (i - 6) in m.mem && m.mem[f + 16 + 8 * (i - 6)] == v && f + 16 + 8 * (i - 6) < TWO63
  }

  /** System V: the return address is on top of the stack, the arguments are in
      registers and above it; there is room for the frame. Register 4 is rsp. */
  ghost predicate Calls(fn: Fn, f: nat, args: seq<Word>, m: Machine) {
    && Mapped(fn, f, m.mem) && FrameSize(fn) <= f && f + 16 < TWO63
    && m.regs[4] == f + 8
    && forall i {:trigger args[i]} :: 0 <= i < |args| ==> ArgAt(m, f, i, args[i])
  }

  /** The same, with as many arguments as the function has. */
  ghost predicate CalledWith(fn: Fn, f: nat, args: seq<Word>, m: Machine) {
    Calls(fn, f, args, m) && |args| == fn.argCount <= fn.localCount
  }

  // --- the prologue ---

  /** After the first `n` arguments have been moved; `was` is the machine of the call. */
  ghost predicate ArgsMoved(fn: Fn, f: nat, args: seq<Word>, was: Machine, n: nat, m: Machine) {
    && n <= |args| <= fn.localCount
    && InFrame(fn, f, m) && m.mem.Keys == was.mem.Keys && Mapped(fn, f, m.mem) && m.rip == was.rip
    && (forall r: R64 :: r != RAX && r != RBP && r != RSP ==> Get(m, r) == Get(was, r))
    && m.mem[f] == Get(was, RBP)
    && (forall a: nat :: a in m.mem && a > f ==> m.mem[a] == was.mem[a])
    && (forall l: nat {:trigger SlotAddr(f, l)} :: l < fn.localCount ==>
          SlotAddr(f, l) in m.mem && SlotAddr(f, l) in was.mem
          && m.mem[SlotAddr(f, l)] == if l < n then args[l] else was.mem[SlotAddr(f, l)])
  }

  lemma MappedLocals(fn: Fn, f: nat, mem: map<nat, Word>)
    requires Mapped(fn, f, mem)
    ensures forall l: nat {:trigger SlotAddr(f, l)} :: l < fn.localCount ==> SlotAddr(f, l) in mem
  {
    SlotsFit(fn);
  }

  /** `push rbp; mov rbp, rsp; sub rsp, size` */
  lemma OpenFrame(fn: Fn, f: nat, args: seq<Word>, m: Machine) returns (m': Machine)
    requires CalledWith(fn, f, args, m)
    ensures R.ExecList([Push(RBP), MovReg(RBP, RSP)] + Reserve(fn), m) == Some(m')
    ensures ArgsMoved(fn, f, args, m, 0, m')
  {
    MappedLocals(fn, f, m.mem);
    DoPush(m, RBP, f);
    var m1 := m.(regs := m.regs[RSP := f], mem := m.mem[f := Get(m, RBP)]);
    var m2 := Set(m1, RBP, f);
    assert Execute(MovReg(RBP, RSP), m1) == Some(m2);
    var first := [Push(RBP), MovReg(RBP, RSP)];
    TwoSteps(Push(RBP), MovReg(RBP, RSP), m, m1);
    R.ListAppend(first, Reserve(fn), m);
    MappedSame(fn, f, m.mem, m1.mem);
    if FrameSize(fn) > 0 {
      m' := ReserveStep(fn, f, m2);
    } else {
      m' := m2;
    }
  }

  lemma ReserveStep(fn: Fn, f: nat, m: Machine) returns (m': Machine)
    requires Get(m, RSP) == f < TWO63 && FrameSize(fn) <= f && FrameSize(fn) > 0
    ensures R.ExecList(Reserve(fn), m) == Some(m')
    ensures m' == Set(m, RSP, f - FrameSize(fn)).(flags := None)
  {
    hide FrameSize;
    m' := Set(m, RSP, f - FrameSize(fn)).(flags := None);
    assert Execute(SubRsp(FrameSize(fn)), m) == Some(m');
    OneStep(SubRsp(FrameSize(fn)), m);
  }

  /** Argument `n` is moved to its local. */
  lemma MoveOne(fn: Fn, f: nat, args: seq<Word>, was: Machine, n: nat, m: Machine) returns (m': Machine)
    requires n < |args| && ArgsMoved(fn, f, args, was, n, m) && ArgAt(was, f, n, args[n])
    ensures R.ExecList(MoveArg(n), m) == Some(m') && ArgsMoved(fn, f, args, was, n + 1, m')
  {
    hide FrameSize, Execute;
    SlotsFit(fn);
    assert SlotAddr(f, n) in m.mem;
    if n < 6 {
      StoreSlot(m, f, n, ArgReg(n));
      m' := m.(mem := m.mem[SlotAddr(f, n) := args[n]]);
      OneStep(Store(LocalSlot(n), ArgReg(n)), m);
    } else {
      var m1 := Set(m, RAX, args[n]);
      LoadArg(m, f, n);
      StoreSlot(m1, f, n, RAX);
      m' := m1.(mem := m1.mem[SlotAddr(f, n) := args[n]]);
      TwoSteps(Load(RAX, Mem(RBP, None, 1, 16 + (n - 6) * 8)), Store(LocalSlot(n), RAX), m, m1);
    }
    MovedNext(fn, f, args, was, n, m, m');
  }

  lemma LoadArg(m: Machine, f: nat, i: nat)
    requires i >= 6 && Get(m, RBP) == f && f + 16 + 8 * (i - 6) < TWO63 && f + 16 + 8 * (i - 6) in m.mem
    ensures Execute(Load(RAX, Mem(RBP, None, 1, 16 + (i - 6) * 8)), m) == Some(Set(m, RAX, m.mem[f + 16 + 8 * (i - 6)]))
  {
  }

  lemma MovedNext(fn: Fn, f: nat, args: seq<Word>, was: Machine, n: nat, m: Machine, m': Machine)
    requires n < |args| && ArgsMoved(fn, f, args, was, n, m)
    requires m'.rip == m.rip && m'.regs == m.regs[RAX := Get(m', RAX)] && SlotAddr(f, n) in m.mem
    requires m'.mem == m.mem[SlotAddr(f, n) := args[n]]
    ensures ArgsMoved(fn, f, args, was, n + 1, m')
  {
    hide FrameSize;
    MappedSame(fn, f, m.mem, m'.mem);
  }

  lemma {:induction false} MoveAll(fn: Fn, f: nat, args: seq<Word>, was: Machine, n: nat, m: Machine) returns (m': Machine)
    requires n <= |args| && ArgsMoved(fn, f, args, was, 0, m)
    requires forall i {:trigger args[i]} :: 0 <= i < |args| ==> ArgAt(was, f, i, args[i])
    ensures R.ExecList(MoveArgs(n), m) == Some(m') && ArgsMoved(fn, f, args, was, n, m')
  {
    hide Execute, ArgsMoved, ArgAt;
    m' := m;
    if n > 0 {
      var m1 := MoveAll(fn, f, args, was, n - 1, m);
      assert ArgAt(was, f, n - 1, args[n - 1]);
      m' := MoveOne(fn, f, args, was, n - 1, m1);
      R.ListAppend(MoveArgs(n - 1), MoveArg(n - 1), m);
    }
  }

  /** The prologue opens the frame and moves every argument to its local. */
  lemma PrologueRuns(fn: Fn, f: nat, args: seq<Word>, m: Machine) returns (m': Machine)
    requires CalledWith(fn, f, args, m)
    ensures R.ExecList(Prologue(fn), m) == Some(m') && ArgsMoved(fn, f, args, m, fn.argCount, m')
  {
    hide Execute, ArgsMoved, ArgAt, Reserve, Mapped;
    var open := [Push(RBP), MovReg(RBP, RSP)] + Reserve(fn);
    var m1 := OpenFrame(fn, f, args, m);
    m' := MoveAll(fn, f, args, m, fn.argCount, m1);
    R.ListAppend(open, MoveArgs(fn.argCount), m);
  }

  lemma PrologueStraight(fn: Fn)
    ensures R.AllStraight(Prologue(fn))
  {
    MoveArgsStraight(fn.argCount);
  }

  lemma {:induction false} MoveArgsStraight(n: nat)
    ensures R.AllStraight(MoveArgs(n))
  {
    if n > 0 {
      MoveArgsStraight(n - 1);
    }
  }

  // --- whole calls ---

  /** The locals that are no arguments hold what the environment says an
      uninitialised local holds. */
  ghost predicate RestAgrees(env: Env, fn: Fn, f: nat, args: seq<Word>, m: Machine, h: History) {
    forall l: nat {:trigger SlotAddr(f, l)} :: |args| <= l < fn.localCount ==>
      SlotAddr(f, l) in m.mem && m.mem[SlotAddr(f, l)] == InitLocals(env, fn, args, h)[l]
  }

  /** After the prologue the locals of the IR are in their slots. */
  lemma EntryHolds(env: Env, fn: Fn, f: nat, args: seq<Word>, h: History, was: Machine, m: Machine)
    requires CalledWith(fn, f, args, was) && ArgsMoved(fn, f, args, was, fn.argCount, m)
    requires RestAgrees(env, fn, f, args, was, h + [Enter(fn.name, args)])
    ensures Rel(fn, f, Entry(env, fn, args, h), m)
    ensures AboveKept(f, was.mem[f := Get(was, RBP)], m.mem)
  {
    hide FrameSize;
    var s := Entry(env, fn, args, h);
    forall l: Local {:trigger LocalHolds(fn, f, s, m, l)}
      ensures LocalHolds(fn, f, s, m, l)
    {
      if l < fn.localCount {
        assert SlotAddr(f, l) in m.mem;
      }
    }
    forall r: Reg {:trigger RegHolds(fn, f, s, m, r)}
      ensures RegHolds(fn, f, s, m, r)
    {
    }
  }

  /** A call has ended: the result is in rax (register 0), control is behind the
      call, rsp (4) has dropped the return address, rbp (5) and everything above
      are as they were. */
  ghost predicate CameBack(f: nat, m: Machine, v: Word, m': Machine) {
    && f + 8 in m.mem && m'.rip == m.mem[f + 8] && m'.regs[0] == v
    && m.regs[4] == f + 8 && m'.regs[4] == f + 16 && m'.regs[5] == m.regs[5]
    && forall a {:trigger a in m.mem} :: a in m.mem && a >= f + 8 ==> a in m'.mem && m'.mem[a] == m.mem[a]
  }

  /** The whole call, for every function of the fragment: when the IR function
      returns, so does the code; while it runs, the code runs. */
  lemma FnRuns(env: Env, p: Program, g: nat, c: Place, f: nat, args: seq<Word>, h: History, m: Machine, n: nat)
    returns (m': Machine, k: nat)
    requires g < |p.functions| && p.functions[g] == c.fn && !c.fn.isExtern && Placed(c)
    requires FrameAddresses(env, c.fn, f) && forall l :: !InMemory(env, c.fn.name, l)
    requires m.rip == c.addr && CalledWith(c.fn, f, args, m)
    requires RestAgrees(env, c.fn, f, args, m, h + [Enter(c.fn.name, args)])
    ensures var r := RunFn(env, p, g, args, h, n);
      && (r.Done? ==> R.Leads(c.image, m, m', k) && CameBack(f, m, r.value, m'))
      && (r.Running? ==> R.Leads(c.image, m, m', k) && k >= n)
  {
    hide FrameAddresses, Placed, Rel, AboveKept, InstAddr, R.Leads, Mapped, RestAgrees, Prologue, ArgsMoved, R.CodeAt, Exec, Returned, RestAsm, ArgAt, Entry;
    var m1 := PrologueRuns(c.fn, f, args, m);
    EntryHolds(env, c.fn, f, args, h, m, m1);
    var m2 := EnterBody(c, m, m1);
    var s := Entry(env, c.fn, args, h);
    RelRip(c.fn, f, s, m1, m2.rip);
    var mem0 := m.mem[f := Get(m, RBP)];
    FrameTop(c.fn, f, m);
    m', k := BodyRuns(env, p, g, c, f, 0, s, m2, mem0, n);
    FollowsAfter(c.image, f, mem0, Exec(env, p, g, 0, s, n), n, n, m, m2, |Prologue(c.fn)|, m', k);
    k := |Prologue(c.fn)| + k;
    if RunFn(env, p, g, args, h, n).Done? {
      BackFrom(f, m, mem0, RunFn(env, p, g, args, h, n).value, m');
    }
  }

  lemma FrameTop(fn: Fn, f: nat, m: Machine)
    requires Mapped(fn, f, m.mem)
    ensures f in m.mem && f + 8 in m.mem
  {
  }

  lemma BackFrom(f: nat, m: Machine, mem0: map<nat, Word>, v: Word, m': Machine)
    requires f in m.mem && f + 8 in m.mem && mem0 == m.mem[f := Get(m, RBP)] && Get(m, RSP) == f + 8
    requires Returned(f, mem0, v, m')
    ensures CameBack(f, m, v, m')
  {
    forall a {:trigger a in m.mem} | a in m.mem && a >= f + 8
      ensures a in m'.mem && m'.mem[a] == m.mem[a]
    {
      assert a in mem0 && mem0[a] == m.mem[a];
      assert a in m'.mem;
    }
  }

  /** From the entry point to the first instruction of the body. */
  lemma EnterBody(c: Place, m: Machine, m1: Machine) returns (m': Machine)
    requires Placed(c) && m.rip == c.addr && R.ExecList(Prologue(c.fn), m) == Some(m1)
    ensures AllSelectable(c.fn.body) && m'.rip == InstAddr(c, 0)
    ensures m' == m1.(rip := m'.rip) && R.Leads(c.image, m, m', |Prologue(c.fn)|)
  {
    hide Prologue, R.CodeAt, R.Leads, R.ExecList, RestAsm;
    FnSplit(c.fn, 0);
    PrologueStraight(c.fn);
    assert BodyAsm(c.fn, 0) + RestAsm(c.fn, 0) == RestAsm(c.fn, 0);
    m' := R.DoList(c.image, m, Prologue(c.fn), RestAsm(c.fn, 0), c.labelPos);
    EmptyBody(c);
  }

  lemma EmptyBody(c: Place)
    requires AllSelectable(c.fn.body)
    ensures InstAddr(c, 0) == c.addr + Size(Plain(Prologue(c.fn)))
  {
    hide Prologue, Plain;
    assert BodyAsm(c.fn, 0) == [];
    assert Size([]) == 0;
  }
}
