/** Functions that are too long for 512 sweeps: a store, a number of labels, and the
    read behind the last one. */
module SweepCap {
  import opened Words
  import opened Ir
  import opened Semantics
  import opened WellFormed
  import opened Compaction
  import opened Liveness
  import opened NearReads
  import opened DeadStorePass
  import opened LoweringRuns

  function Labels(n: nat): (out: seq<Inst>)
    ensures |out| == n && forall i :: 0 <= i < n ==> out[i] == LabelMark(i)
  {
    seq(n, i requires 0 <= i < n => LabelMark(i))
  }

  /** `local 0 := 7`, `n` labels, and `return local 0`: `n + 1` blocks. */
  function Chain(n: nat): (out: seq<Inst>)
    ensures |out| == n + 4
    ensures out[0] == LoadConst(0, 7) && out[1] == StoreLocal(0, 0) && out[n + 2] == LoadLocal(1, 0) && out[n + 3] == Return(1)
    ensures forall i :: 2 <= i < n + 2 ==> out[i] == LabelMark(i - 2)
  {
    [LoadConst(0, 7), StoreLocal(0, 0)] + Labels(n) + [LoadLocal(1, 0), Return(1)]
  }

  lemma ChainWf(n: nat)
    requires n > 0
    ensures WfBody(Chain(n)) && AddrTaken(Chain(n)) == {} && BlockCount(Chain(n)) == n + 1
  {
    hide Chain, LabelCount, UniqueLabels;
    var body := Chain(n);
    ChainUses(n);
    ChainUnique(n);
    ChainLabels(n, n + 2);
    CountSame(body, n + 2);
    CountSame(body, n + 3);
  }

  lemma ChainUses(n: nat)
    requires n > 0
    ensures LocalUses(Chain(n))
  {
    var body := Chain(n);
    FlowBoth(body, n);
    hide Chain, Flow;
    forall i, r | 0 <= i < |body| && r in Uses(body[i])
      ensures r in Flow(body, i)
    {
      assert i == 1 || i == n + 3;
    }
  }

  lemma ChainUnique(n: nat)
    ensures UniqueLabels(Chain(n))
  {
    hide Chain;
  }

  lemma FlowBoth(body: seq<Inst>, n: nat)
    requires n > 0 && body == Chain(n)
    ensures 0 in Flow(body, 1) && 1 in Flow(body, n + 3)
  {
  }

  lemma CountSame(body: seq<Inst>, n: nat)
    requires n < |body| && !body[n].LabelMark?
    ensures LabelCount(body, n + 1) == LabelCount(body, n)
  {
  }

  lemma {:induction false} ChainLabels(n: nat, m: nat)
    requires m <= n + 2
    ensures LabelCount(Chain(n), m) == if m < 2 then 0 else m - 2
    decreases m
  {
    hide Chain;
    if m > 0 {
      ChainLabels(n, m - 1);
    }
  }

  // --- what the pass finds ---

  /** From label `i` the read is `n - 1 - i` more labels away. */
  lemma {:induction false} NearLabel(n: nat, i: nat, f: nat, k: nat)
    requires i < n
    ensures NearFrom(Chain(n), [false], 2 + i, 0, 2 + i, f, k) <==> f + i + 1 >= n && k + i >= n + 1
    decreases n - i
  {
    hide Chain;
    var body, pc := Chain(n), 2 + i;
    assert forall q: nat :: Succ(body, pc, q) <==> q == pc + 1;
    if k > 0 {
      NextOnly(body, [false], pc, 0, pc, f, k - 1);
      if i + 1 < n {
        if f > 0 {
          NearLabel(n, i + 1, f - 1, k - 1);
        }
      } else {
        assert Marks(body[pc + 1], 0);
      }
    }
  }

  /** An instruction that leads to the next one only. */
  lemma NextOnly(body: seq<Inst>, escaped: seq<bool>, pc: nat, l: Local, start: nat, f: nat, k: nat)
    requires pc + 1 < |body| && forall q: nat :: Succ(body, pc, q) <==> q == pc + 1
    ensures NearAfter(body, escaped, pc, l, start, f, k) <==> NearStep(body, escaped, pc + 1, l, start, f, k)
  {
    hide NearStep;
    assert Succ(body, pc, pc + 1);
  }

  lemma NoEscape(n: nat)
    requires n > 0
    ensures EscapedOf(Chain(n), 1) == [false]
  {
    ChainWf(n);
  }

  /** The store is live in each of these functions; the pass erases it exactly if
      there are more than 512 labels. Blocks are one more, so 513 are still fine. */
  lemma ChainErased(n: nat)
    requires n > 0
    ensures PrivateStore(Chain(n), 1, 1) && LiveBehind(Chain(n), 1, 1)
    ensures Erased(Chain(n), 1, 1) <==> n > 512
    ensures Timely(Chain(n), 1) <==> n <= 512
  {
    ChainWf(n);
    NoEscape(n);
    hide Chain, NearFrom;
    var body := Chain(n);
    NearLabel(n, 0, n, n + 1);
    NearIsRead(body, [false], 2, 0, 2, n, n + 1);
    assert forall q: nat :: Succ(body, 1, q) <==> q == 2;
    forall k: nat
      ensures NearAfter(body, [false], 1, 0, |body|, 511, k) <==> n <= 512 && k >= n + 1
    {
      NextOnly(body, [false], 1, 0, |body|, 511, k);
      NearLabel(n, 0, 511, k);
    }
    if n <= 512 {
      assert NearAfter(body, [false], 1, 0, |body|, 511, n + 1);
    }
    assert forall i :: 0 <= i < |body| && PrivateStore(body, 1, i) ==> i == 1;
  }

  // --- what it does to a run ---

  function ChainFn(n: nat): Fn {
    Fn(0, "main", 0, 1, 2, 0, Chain(n), false, true, -1, "", "")
  }

  /** What the pass leaves of it. */
  ghost function Swept512(n: nat): Fn {
    ChainFn(n).(body := Compact(Chain(n), ErasedStores(Chain(n), 1)))
  }

  lemma {:induction false} KeptWithout(xs: seq<Inst>, dead: seq<bool>, m: nat)
    requires 2 <= m <= |xs| == |dead| && forall i :: 0 <= i < |dead| ==> (dead[i] <==> i == 1)
    ensures Kept(xs, dead, m) == [xs[0]] + xs[2..m]
  {
    if m == 2 {
      assert Kept(xs, dead, 0) == [] && Kept(xs, dead, 1) == [xs[0]];
    } else {
      KeptWithout(xs, dead, m - 1);
      assert xs[2..m] == xs[2..m - 1] + [xs[m - 1]];
    }
  }

  /** More than 512 labels: everything but the store. */
  lemma StoreGone(n: nat)
    requires n > 512
    ensures Swept512(n).body == [LoadConst(0, 7)] + Labels(n) + [LoadLocal(1, 0), Return(1)]
  {
    ChainErased(n);
    hide Erased, Timely, LiveBehind;
    var body, dead := Chain(n), ErasedStores(Chain(n), 1);
    forall i | 0 <= i < |dead|
      ensures dead[i] <==> i == 1
    {
      if Erased(body, 1, i) {
        OnlyOneStore(n, i);
      }
    }
    KeptWithout(body, dead, |body|);
  }

  lemma OnlyOneStore(n: nat, i: nat)
    requires n > 0 && i < |Chain(n)| && Erased(Chain(n), 1, i)
    ensures i == 1
  {
    hide Chain;
  }

  /** Labels do nothing. */
  lemma {:induction false} PassLabels(c: Ctx, pc: nat, m: nat, s: State)
    requires CtxOk(c) && pc + m <= |Code(c)| && forall i :: pc <= i < pc + m ==> Code(c)[i].LabelMark?
    ensures Reaches(c, pc, s, pc + m, s, 0)
  {
    hide Reaches, CtxOk, Code;
    if m == 0 {
      ReachesSelf(c, pc, s);
    } else {
      PassLabels(c, pc, m - 1, s);
      DoLabel(c, pc + m - 1, s);
      ReachesTrans(c, pc, s, pc + m - 1, s, 0, pc + m, s, 0);
    }
  }

  /** Behind the constant, labels, and the read and return of the local. */
  lemma LabelsThenReturn(c: Ctx, pc: nat, m: nat, s: State)
    requires CtxOk(c) && pc + m + 2 == |Code(c)| && forall i :: pc <= i < pc + m ==> Code(c)[i].LabelMark?
    requires Code(c)[pc + m] == LoadLocal(1, 0) && Code(c)[pc + m + 1] == Return(1) && 0 in s.locals
    ensures Returns(c, pc, s, s.locals[0], 0)
  {
    hide Reaches, Returns, CtxOk, Code;
    PassLabels(c, pc, m, s);
    DoLoad(c, pc + m, s, 1, 0);
    var t := s.(regs := s.regs[1 := s.locals[0]]);
    DoReturn(c, pc + m + 1, t, 1);
    ReachesTrans(c, pc, s, pc + m, s, 0, pc + m + 1, t, 0);
    ReturnsTrans(c, pc, s, pc + m + 1, t, 0, s.locals[0], 0);
  }

  /** The function as it is returns 7. */
  lemma ChainReturns(c: Ctx, n: nat, s: State)
    requires n > 0 && CtxOk(c) && Code(c) == Chain(n) && 0 in s.locals
    ensures Returns(c, 0, s, 7, 0)
  {
    hide Reaches, Returns, CtxOk, Code, Chain;
    DoConst(c, 0, s, 0, 7);
    var s1 := s.(regs := s.regs[0 := 7]);
    DoStore(c, 1, s1, 0, 0);
    var s2 := s1.(locals := s1.locals[0 := 7]);
    LabelsThenReturn(c, 2, n, s2);
    ReachesTrans(c, 0, s, 1, s1, 0, 2, s2, 0);
    ReturnsTrans(c, 0, s, 2, s2, 0, 7, 0);
  }

  /** Without the store it returns what the local held before. */
  lemma CutReturns(c: Ctx, n: nat, s: State)
    requires CtxOk(c) && Code(c) == [LoadConst(0, 7)] + Labels(n) + [LoadLocal(1, 0), Return(1)] && 0 in s.locals
    ensures Returns(c, 0, s, s.locals[0], 0)
  {
    hide Reaches, Returns, CtxOk;
    DoConst(c, 0, s, 0, 7);
    var s1 := s.(regs := s.regs[0 := 7]);
    LabelsThenReturn(c, 1, n, s1);
    ReturnsTrans(c, 0, s, 1, s1, 0, s.locals[0], 0);
  }

  lemma CutUnique(n: nat)
    ensures UniqueLabels([LoadConst(0, 7)] + Labels(n) + [LoadLocal(1, 0), Return(1)])
  {
  }

  lemma RunOf(c: Ctx, s: State, v: Word, n: nat)
    requires Returns(c, 0, s, v, 0)
    ensures Run(c, 0, s, n) == Done(v, s.h + [Leave(v)])
  {
  }

  /** Called, the function returns 7 before the pass; after it, it still does with
      at most 512 labels, and with more it returns what the local held at its start. */
  lemma ChainBreaks(env: Env, n: nat, h: History, k: nat)
    requires n > 0 && forall l :: !InMemory(env, "main", l)
    ensures RunFn(env, Program([ChainFn(n)], [], []), 0, [], h, k) == Done(7, h + [Enter("main", [])] + [Leave(7)])
    ensures var s := Entry(env, ChainFn(n), [], h); var v := if n <= 512 then 7 else s.locals[0];
      RunFn(env, Program([Swept512(n)], [], []), 0, [], h, k) == Done(v, s.h + [Leave(v)])
  {
    ChainWf(n);
    var s := Entry(env, ChainFn(n), [], h);
    var c := Ctx(env, Program([ChainFn(n)], [], []), 0);
    ChainReturns(c, n, s);
    RunOf(c, s, 7, k);
    if n > 512 {
      StoreGone(n);
      CutUnique(n);
      var c' := Ctx(env, Program([Swept512(n)], [], []), 0);
      CutReturns(c', n, s);
      RunOf(c', s, s.locals[0], k);
    } else {
      StoreStays(n);
    }
  }

  lemma StoreStays(n: nat)
    requires 0 < n <= 512
    ensures Swept512(n) == ChainFn(n)
  {
    ChainErased(n);
    hide Erased, Timely, LiveBehind;
    var body, dead := Chain(n), ErasedStores(Chain(n), 1);
    forall i | 0 <= i < |dead|
      ensures !dead[i]
    {
      if Erased(body, 1, i) {
        OnlyOneStore(n, i);
      }
    }
    NothingDead(body, dead, |body|);
  }
}
