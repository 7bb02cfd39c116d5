/** Removing stores to locals nobody reads again: `remove_dead_locals`. */
module DeadStorePass {
  import opened Words
  import opened Ir
  import opened IrObjects
  import opened WellFormed
  import opened Compaction
  import opened Simulation
  import opened Rewriting
  import opened Liveness
  import opened NearReads
  import opened BlockScan
  import opened LivenessSolver

  ghost function EscapedOf(body: seq<Inst>, localCount: nat): (e: seq<bool>)
    ensures |e| == localCount
    ensures forall l :: 0 <= l < localCount ==> (e[l] <==> l in AddrTaken(body))
  {
    seq(localCount, l => l in AddrTaken(body))
  }

  /** A store to a local whose address is not taken. */
  ghost predicate PrivateStore(body: seq<Inst>, localCount: nat, i: nat)
    requires i < |body|
  {
    body[i].StoreLocal? && body[i].local < localCount && body[i].local !in AddrTaken(body)
  }

  ghost predicate LiveBehind(body: seq<Inst>, localCount: nat, i: nat)
    requires i < |body| && body[i].StoreLocal?
  {
    Live(body, EscapedOf(body, localCount), i + 1, body[i].local)
  }

  /** A private store that no path reads again. */
  ghost predicate DeadStore(body: seq<Inst>, localCount: nat, i: nat)
    requires i < |body|
  {
    PrivateStore(body, localCount, i) && !LiveBehind(body, localCount, i)
  }

  ghost function DeadStores(body: seq<Inst>, localCount: nat): (dead: seq<bool>)
    ensures |dead| == |body|
    ensures forall i :: 0 <= i < |body| ==> (dead[i] <==> DeadStore(body, localCount, i))
  {
    seq(|body|, i requires 0 <= i < |body| => DeadStore(body, localCount, i))
  }

  // --- what 512 sweeps leave ---

  /** A read is found in time: on a path that, behind the block of the store and
      the next one, enters at most 511 blocks not in front of the one it comes from. */
  ghost predicate InTime(body: seq<Inst>, localCount: nat, i: nat)
    requires i < |body| && body[i].StoreLocal?
  {
    exists k: nat :: NearAfter(body, EscapedOf(body, localCount), i, body[i].local, |body|, 511, k)
  }

  /** A private store of which no read is found in time. */
  ghost predicate Erased(body: seq<Inst>, localCount: nat, i: nat)
    requires i < |body|
  {
    PrivateStore(body, localCount, i) && !InTime(body, localCount, i)
  }

  ghost function ErasedStores(body: seq<Inst>, localCount: nat): (out: seq<bool>)
    ensures |out| == |body|
    ensures forall i :: 0 <= i < |body| ==> (out[i] <==> Erased(body, localCount, i))
  {
    seq(|body|, i requires 0 <= i < |body| => Erased(body, localCount, i))
  }

  /** Every read of a private store that there is, is found in time. */
  ghost predicate Timely(body: seq<Inst>, localCount: nat) {
    forall i :: 0 <= i < |body| && PrivateStore(body, localCount, i) && LiveBehind(body, localCount, i) ==> InTime(body, localCount, i)
  }

  lemma InTimeLive(body: seq<Inst>, localCount: nat, i: nat)
    requires i < |body| && body[i].StoreLocal? && InTime(body, localCount, i)
    ensures LiveBehind(body, localCount, i)
  {
    hide NearFrom;
    var escaped, l := EscapedOf(body, localCount), body[i].local;
    var k: nat :| NearAfter(body, escaped, i, l, |body|, 511, k);
    var q: nat :| Succ(body, i, q) && q < |body| && NearStep(body, escaped, q, l, |body|, 511, k);
    NearIsRead(body, escaped, q, l, if body[q].LabelMark? then q else |body|, 511, k);
  }

  /** Dead stores are always erased. Only they are, if and only if reads are found
      in time. */
  lemma ErasesOnlyDead(body: seq<Inst>, localCount: nat)
    ensures forall i :: 0 <= i < |body| && DeadStore(body, localCount, i) ==> Erased(body, localCount, i)
    ensures ErasedStores(body, localCount) == DeadStores(body, localCount) <==> Timely(body, localCount)
  {
    hide InTime, LiveBehind, PrivateStore;
    forall i | 0 <= i < |body| && PrivateStore(body, localCount, i)
      ensures body[i].StoreLocal? && (InTime(body, localCount, i) ==> LiveBehind(body, localCount, i))
    {
      StoreIsLocal(body, localCount, i);
      if InTime(body, localCount, i) {
        InTimeLive(body, localCount, i);
      }
    }
    var erased, dead := ErasedStores(body, localCount), DeadStores(body, localCount);
    if erased == dead {
      forall i | 0 <= i < |body| && PrivateStore(body, localCount, i) && LiveBehind(body, localCount, i)
        ensures InTime(body, localCount, i)
      {
        assert erased[i] <==> dead[i];
      }
    }
  }

  lemma StoreIsLocal(body: seq<Inst>, localCount: nat, i: nat)
    requires i < |body| && PrivateStore(body, localCount, i)
    ensures body[i].StoreLocal?
  {
  }

  // --- erasing dead stores is safe ---

  ghost function LocalsMarked(body: seq<Inst>): (out: set<Local>)
    ensures forall i, l :: 0 <= i < |body| && Marks(body[i], l) ==> l in out
  {
    LocalsRead(body) + AddrTaken(body)
  }

  lemma {:induction false} LiveIsMarked(body: seq<Inst>, escaped: seq<bool>, pc: nat, l: Local, k: nat)
    requires ReadWithin(body, escaped, pc, l, k)
    ensures l in LocalsMarked(body)
    decreases k
  {
    if !Marks(body[pc], l) {
      var q: nat :| Succ(body, pc, q) && ReadWithin(body, escaped, q, l, k - 1);
      LiveIsMarked(body, escaped, q, l, k - 1);
    }
  }

  ghost function LiveLocals(body: seq<Inst>, escaped: seq<bool>): (out: seq<set<Local>>)
    ensures |out| == |body| + 1
    ensures forall i, l :: 0 <= i <= |body| ==> (l in out[i] <==> Live(body, escaped, i, l))
  {
    forall i, l: Local, k: nat | 0 <= i <= |body| && ReadWithin(body, escaped, i, l, k)
      ensures l in LocalsMarked(body)
    {
      LiveIsMarked(body, escaped, i, l, k);
    }
    seq(|body| + 1, i requires 0 <= i <= |body| =>
      set l | l in LocalsMarked(body) && Live(body, escaped, i, l))
  }

  lemma DeadStoreCert(body: seq<Inst>, localCount: nat) returns (c: Cert)
    requires WfBody(body)
    ensures c.newBody == body && c.dead == DeadStores(body, localCount)
    ensures CertOk(body, c) && KeepsLabels(body, c)
  {
    var escaped := EscapedOf(body, localCount);
    c := Cert(body, DeadStores(body, localCount), map[], map[], AvailAll(body), LiveLocals(body, escaped));
    forall pc | 0 <= pc < |body|
      ensures StepOk(body, c, pc)
    {
      RenameNothing(body[pc]);
      LiveStep(body, escaped, pc, 0);
      forall q: nat | Succ(body, pc, q)
        ensures FlowOk(body, c, pc, q)
      {
        forall r ensures r in Avail(body, q) ==> r in Avail(body, pc) || Def(body[pc]) == Some(r) {
          AvailFlows(body, pc, q, r);
        }
        forall l | l in c.locals[q]
          ensures l in c.locals[pc] || (body[pc].StoreLocal? && body[pc].local == l && l !in AddrTaken(body))
        {
          LiveStep(body, escaped, pc, l);
        }
      }
      if LocalRead(body[pc]).Some? {
        LiveStep(body, escaped, pc, LocalRead(body[pc]).value);
      }
      if c.dead[pc] {
        assert DeadOk(body, c, pc);
      } else {
        assert KeptOk(body, c, pc);
      }
    }
  }

  // --- the pass ---

  /** With an exact table, what one block's scan reports is exactly its dead stores. */
  lemma ScanFindsDead(g: Cfg, t: Table, b: nat, out: seq<bool>, i: nat)
    requires CfgOk(g) && TableOk(g, t) && Exact(g, t) && b < |g.leaders|
    requires g.escaped == EscapedOf(g.body, |g.escaped|)
    requires |out| == |g.escaped| && forall l: nat :: l < |out| ==> (out[l] <==> OutBit(g, t, b, l))
    requires g.leaders[b] <= i < End(g, b) <= |g.body|
    ensures DeadStoreAt(g, b, out, i) <==> DeadStore(g.body, |g.escaped|, i)
  {
    hide CfgOk, Exact;
    if g.body[i].StoreLocal? && g.body[i].local < |g.escaped| {
      var l := g.body[i].local;
      if i + 1 < End(g, b) {
        ScanExact(g, t, b, i + 1, l);
      } else {
        OutIsLive(g, t, b, i, l);
      }
    }
  }

  /** After the last instruction of a block that falls through. */
  lemma OutIsLive(g: Cfg, t: Table, b: nat, last: nat, l: Local)
    requires CfgOk(g) && TableOk(g, t) && Exact(g, t) && b < |g.leaders| && l < |g.escaped|
    requires last + 1 == End(g, b) <= |g.body| && !IsTerminator(g.body[last])
    ensures OutBit(g, t, b, l) <==> Live(g.body, g.escaped, last + 1, l)
  {
    hide CfgOk;
    BlockEdges(g, b);
    if Live(g.body, g.escaped, last + 1, l) {
      assert last + 1 < |g.body| && Succ(g.body, last, last + 1);
      var c := EdgeTo(g, b, last + 1);
      assert t[c][l];
    }
  }

  /** Behind every block the flags of all successors have been swept 512 times. */
  lemma OutAtEnd(g: Cfg, t: Table, b: nat, l: Local)
    requires CfgOk(g) && TableOk(g, t) && IsSwept(g, t, 512) && b < |g.leaders| && l < |g.escaped|
    ensures OutBit(g, t, b, l) <==> SweptOut(g, 512, |g.leaders|, b, l)
  {
    hide CfgOk, Swept, SweptOut;
    forall c: nat, m: nat {:trigger SweptAt(g, 512, |g.leaders|, c, m)} | c < |t| && m < |g.escaped|
      ensures t[c][m] <==> SweptAt(g, 512, |g.leaders|, c, m)
    {
    }
    OutSwept(g, t, 511, |g.leaders|, b, l);
  }

  /** With the table of 512 sweeps it is exactly the stores without a read in time. */
  lemma ScanFindsErased(g: Cfg, t: Table, b: nat, out: seq<bool>, i: nat)
    requires CfgOk(g) && TableOk(g, t) && IsSwept(g, t, 512) && b < |g.leaders|
    requires g.escaped == EscapedOf(g.body, |g.escaped|)
    requires |out| == |g.escaped| && forall l: nat :: l < |out| ==> (out[l] <==> OutBit(g, t, b, l))
    requires g.leaders[b] <= i < End(g, b) <= |g.body|
    ensures DeadStoreAt(g, b, out, i) <==> Erased(g.body, |g.escaped|, i)
  {
    hide CfgOk, IsSwept, InTime;
    if g.body[i].StoreLocal? && g.body[i].local < |g.escaped| {
      OutAtEnd(g, t, b, g.body[i].local);
      if i + 1 < End(g, b) {
        InsideInTime(g, b, i);
      } else {
        LastInTime(g, b, i);
      }
    }
  }

  lemma InsideInTime(g: Cfg, b: nat, i: nat)
    requires CfgOk(g) && b < |g.leaders| && g.escaped == EscapedOf(g.body, |g.escaped|)
    requires g.leaders[b] <= i && i + 1 < End(g, b) <= |g.body|
    requires g.body[i].StoreLocal? && g.body[i].local < |g.escaped|
    ensures ScanBit(g, i + 1, End(g, b), g.body[i].local, SweptOut(g, 512, |g.leaders|, b, g.body[i].local))
       <==> InTime(g.body, |g.escaped|, i)
  {
    hide CfgOk, SweptOut, NearFrom;
    var l, n := g.body[i].local, |g.leaders|;
    BlockBounds(g, b);
    if ScanBit(g, i + 1, End(g, b), l, SweptOut(g, 512, n, b, l)) {
      var k := SweptNear(g, 512, n, b, i + 1, l);
      assert Succ(g.body, i, i + 1) && NearStep(g.body, g.escaped, i + 1, l, |g.body|, 511, k);
      assert NearAfter(g.body, g.escaped, i, l, |g.body|, 511, k);
    }
    if InTime(g.body, |g.escaped|, i) {
      var k: nat :| NearAfter(g.body, g.escaped, i, l, |g.body|, 511, k);
      var q: nat :| Succ(g.body, i, q) && q < |g.body| && NearStep(g.body, g.escaped, q, l, |g.body|, 511, k);
      assert q == i + 1;
      NearSwept(g, 512, n, b, i + 1, l, k);
    }
  }

  lemma LastInTime(g: Cfg, b: nat, i: nat)
    requires CfgOk(g) && b < |g.leaders| && g.escaped == EscapedOf(g.body, |g.escaped|)
    requires g.leaders[b] <= i && i + 1 == End(g, b) <= |g.body|
    requires g.body[i].StoreLocal? && g.body[i].local < |g.escaped|
    ensures SweptOut(g, 512, |g.leaders|, b, g.body[i].local) <==> InTime(g.body, |g.escaped|, i)
  {
    hide CfgOk, Swept, SweptOut, NearFrom;
    var l, n := g.body[i].local, |g.leaders|;
    if SweptOut(g, 512, n, b, l) {
      var c := SweptEdge(g, 512, n, b, l);
      SweptIs(g, 512, c, l);
      var k := SweptNear(g, 512, c, c, g.leaders[c], l);
      StartIs(g, c);
      assert NearStep(g.body, g.escaped, g.leaders[c], l, |g.body|, 511, k);
      assert NearAfter(g.body, g.escaped, i, l, |g.body|, 511, k);
    }
    if InTime(g.body, |g.escaped|, i) {
      var k: nat :| NearAfter(g.body, g.escaped, i, l, |g.body|, 511, k);
      var q: nat :| Succ(g.body, i, q) && q < |g.body| && NearStep(g.body, g.escaped, q, l, |g.body|, 511, k);
      var c := EntersBlock(g, b, q);
      BlockBounds(g, c);
      StartIs(g, c);
      NearSwept(g, 512, c, c, q, l, k);
      SweptIs(g, 512, c, l);
      EdgeSwept(g, 512, n, b, c, l);
    }
  }

  /** The last loop of the pass: collect the stores of every block. */
  method CollectDead(g: Cfg, liveIn: Table) returns (dead: seq<bool>)
    requires CfgOk(g) && TableOk(g, liveIn) && IsSwept(g, liveIn, 512)
    requires g.escaped == EscapedOf(g.body, |g.escaped|)
    ensures dead == ErasedStores(g.body, |g.escaped|)
    ensures Exact(g, liveIn) ==> dead == DeadStores(g.body, |g.escaped|)
  {
    hide CfgOk, Exact, IsSwept, DeadStore, Erased;
    dead := seq(|g.body|, _ => false);
    var b := 0;
    LeadersCover(g);
    while b < |g.leaders|
      invariant b <= |g.leaders| && |dead| == |g.body|
      invariant forall i :: 0 <= i < Start(g, b) <= |g.body| ==> (dead[i] <==> Erased(g.body, |g.escaped|, i))
      invariant Exact(g, liveIn) ==>
                  forall i :: 0 <= i < Start(g, b) <= |g.body| ==> (dead[i] <==> DeadStore(g.body, |g.escaped|, i))
      invariant forall i :: Start(g, b) <= i < |dead| ==> !dead[i]
    {
      BlockBounds(g, b);
      var out := LiveOut(g, liveIn, b);
      var _, deadIndices := ScanBlock(g, b, out);
      ghost var before := dead;
      dead := MarkAll(dead, deadIndices);
      forall i | g.leaders[b] <= i < End(g, b)
        ensures dead[i] <==> Erased(g.body, |g.escaped|, i)
        ensures Exact(g, liveIn) ==> (dead[i] <==> DeadStore(g.body, |g.escaped|, i))
      {
        ScanFindsErased(g, liveIn, b, out, i);
        if Exact(g, liveIn) {
          ScanFindsDead(g, liveIn, b, out, i);
        }
      }
      b := b + 1;
    }
  }

  lemma LeadersCover(g: Cfg)
    requires CfgOk(g)
    ensures |g.leaders| > 0 && Start(g, 0) == 0
    ensures forall b :: 0 <= b < |g.leaders| ==> End(g, b) == Start(g, b + 1)
    ensures forall b :: 0 <= b <= |g.leaders| ==> Start(g, b) <= |g.body|
  {
  }

  method MarkAll(dead: seq<bool>, indices: seq<nat>) returns (r: seq<bool>)
    requires forall i :: i in indices ==> i < |dead|
    ensures |r| == |dead| && forall i :: 0 <= i < |dead| ==> (r[i] <==> dead[i] || i in indices)
  {
    r := dead;
    for k := 0 to |indices|
      invariant |r| == |dead| && forall i :: 0 <= i < |dead| ==> (r[i] <==> dead[i] || i in indices[..k])
    {
      assert indices[k] in indices;
      r := r[indices[k] := true];
      assert indices[..k + 1] == indices[..k] + [indices[k]];
    }
    assert indices[..|indices|] == indices;
  }

  /** `remove_dead_locals`: erases the private stores without a read in time. If
      all reads are found in time, as in at most 512 blocks, these are exactly the
      dead ones. */
  method RemoveDeadLocals(fn: IrFunction) returns (changed: bool)
    requires WfBody(fn.body)
    modifies fn`body
    ensures fn.View() == old(fn.View()).(body := Compact(old(fn.body), ErasedStores(old(fn.body), fn.localCount)))
    ensures !changed ==> fn.View() == old(fn.View())
    ensures Timely(old(fn.body), fn.localCount) ==>
              ErasedStores(old(fn.body), fn.localCount) == DeadStores(old(fn.body), fn.localCount)
              && FnStep(old(fn.View()), fn.View())
    ensures BlockCount(old(fn.body)) <= 512 ==> Timely(old(fn.body), fn.localCount)
  {
    hide Exact, IsSwept, Timely;
    ghost var body := fn.body;
    ghost var c := DeadStoreCert(body, fn.localCount);
    ghost var erased := ErasedStores(body, fn.localCount);
    ErasesOnlyDead(body, fn.localCount);
    changed := false;
    if |fn.body| == 0 || fn.localCount == 0 {
      assert forall i :: 0 <= i < |body| ==> !erased[i] && !DeadStore(body, fn.localCount, i);
      assert erased == DeadStores(body, fn.localCount);
      NothingDead(body, erased, |body|);
      assert Timely(body, fn.localCount) ==> Certified(old(fn.View()), fn.View(), c);
      return;
    }
    var g := BuildCfg(fn.body, fn.localCount);
    assert g.escaped == EscapedOf(body, fn.localCount);
    var liveIn := SolveLiveness(g);
    var dead := CollectDead(g, liveIn);
    if true !in dead {
      NothingDead(body, dead, |body|);
    } else {
      changed := true;
      CompactBody(fn, dead);
    }
    assert Timely(body, fn.localCount) ==> Certified(old(fn.View()), fn.View(), c);
  }
}
