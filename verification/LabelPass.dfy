/** Removing labels no jump names: `compact_labels`. */
module LabelPass {
  import opened Words
  import opened Ir
  import opened IrObjects
  import opened WellFormed
  import opened Compaction
  import opened Simulation
  import opened Rewriting
  import opened Refinement

  ghost predicate Targeted(body: seq<Inst>, n: nat, l: Label)
    requires n <= |body|
  {
    exists i :: 0 <= i < n && Targets(body[i], l)
  }

  ghost function UnusedLabels(body: seq<Inst>): (dead: seq<bool>)
    ensures |dead| == |body|
    ensures forall i :: 0 <= i < |body| ==>
              (dead[i] <==> body[i].LabelMark? && !Targeted(body, |body|, body[i].id))
  {
    seq(|body|, i requires 0 <= i < |body| => body[i].LabelMark? && !Targeted(body, |body|, body[i].id))
  }

  /** A label goes exactly if no jump and no branch names it. */
  lemma UnusedMeans(body: seq<Inst>, i: nat)
    requires i < |body|
    ensures UnusedLabels(body)[i]
       <==> body[i].LabelMark?
            && forall j :: 0 <= j < |body| ==>
                             && body[j] != Jump(body[i].id)
                             && !(body[j].Branch? && (body[j].thenLabel == body[i].id || body[j].elseLabel == body[i].id))
  {
    if body[i].LabelMark? {
      forall j | 0 <= j < |body|
        ensures Targets(body[j], body[i].id)
           <==> body[j] == Jump(body[i].id)
                || (body[j].Branch? && (body[j].thenLabel == body[i].id || body[j].elseLabel == body[i].id))
      {
      }
    }
  }

  ghost function WithoutLabels(f: Fn): Fn {
    f.(body := Compact(f.body, UnusedLabels(f.body)))
  }

  lemma LabelCert(f: Fn) returns (c: Cert)
    requires WfBody(f.body)
    ensures Certified(f, WithoutLabels(f), c)
  {
    var body := f.body;
    var dead := UnusedLabels(body);
    c := Cert(body, dead, map[], map[], AvailAll(body), SameLocals(body));
    forall pc | 0 <= pc < |body|
      ensures StepOk(body, c, pc)
    {
      RenameNothing(body[pc]);
      forall q: nat | Succ(body, pc, q)
        ensures FlowOk(body, c, pc, q)
      {
        forall r ensures r in Avail(body, q) ==> r in Avail(body, pc) || Def(body[pc]) == Some(r) {
          AvailFlows(body, pc, q, r);
        }
      }
      if dead[pc] {
        assert DeadOk(body, c, pc);
      } else {
        assert KeptOk(body, c, pc);
      }
    }
  }

  lemma LabelShell(f: Fn)
    ensures SameShell(f, WithoutLabels(f))
  {
    var f' := WithoutLabels(f);
    var dead := UnusedLabels(f.body);
    forall l | l in AddrTaken(f'.body)
      ensures l in AddrTaken(f.body)
    {
      var k :| 0 <= k < |f'.body| && f'.body[k].AddrOf? && f'.body[k].local == l;
      var i := KeptOrigin(f.body, dead, |f.body|, k);
    }
    forall g | g in CallsOf(f'.body)
      ensures g in CallsOf(f.body)
    {
      var k :| 0 <= k < |f'.body| && f'.body[k].Call? && f'.body[k].funcId == g;
      var i := KeptOrigin(f.body, dead, |f.body|, k);
    }
    forall g | g in CallsOf(f.body)
      ensures g in CallsOf(f'.body)
    {
      var i :| 0 <= i < |f.body| && f.body[i].Call? && f.body[i].funcId == g;
      CompactAt(f.body, dead, i);
      assert f'.body[Pos(dead, i)] == f.body[i];
    }
  }

  ghost function LabelsCompacted(p: Program): (p': Program)
    ensures |p'.functions| == |p.functions| && p'.strings == p.strings && p'.globals == p.globals
    ensures forall g :: 0 <= g < |p.functions| ==> p'.functions[g] == WithoutLabels(p.functions[g])
  {
    p.(functions := seq(|p.functions|, g requires 0 <= g < |p.functions| => WithoutLabels(p.functions[g])))
  }

  /** Merging blocks by dropping unused labels changes no run. */
  lemma LabelsRefine(p: Program)
    requires WfProgram(p)
    ensures Refines(p, LabelsCompacted(p))
  {
    hide CertOk, WithoutLabels;
    var p' := LabelsCompacted(p);
    var certs: seq<Cert> := [];
    while |certs| < |p.functions|
      invariant |certs| <= |p.functions|
      invariant forall k :: 0 <= k < |certs| ==> Certified(p.functions[k], p'.functions[k], certs[k])
    {
      assert WfFn(p.functions[|certs|]);
      var c := LabelCert(p.functions[|certs|]);
      certs := certs + [c];
    }
    forall g | 0 <= g < |p.functions|
      ensures SameShell(p.functions[g], p'.functions[g])
    {
      LabelShell(p.functions[g]);
    }
    CertifiedRefines(p, p', certs);
  }

  // --- the pass ---

  predicate HasFlag(v: seq<bool>, i: nat) {
    i < |v| && v[i]
  }

  /** The labels the jumps of a body name, as a growing vector of flags. */
  method FindReferenced(body: seq<Inst>) returns (referenced: seq<bool>)
    ensures forall l: Label :: HasFlag(referenced, l) <==> Targeted(body, |body|, l)
  {
    referenced := [];
    for i := 0 to |body|
      invariant forall l: Label :: HasFlag(referenced, l) <==> Targeted(body, i, l)
    {
      forall l: Label
        ensures Targeted(body, i + 1, l) <==> Targeted(body, i, l) || Targets(body[i], l)
      {
      }
      if body[i].Jump? {
        referenced := SetFlag(referenced, body[i].target);
      } else if body[i].Branch? {
        referenced := SetFlag(referenced, body[i].thenLabel);
        referenced := SetFlag(referenced, body[i].elseLabel);
      }
    }
  }

  /** The flag of label `i` is set, the vector growing if it is too short. */
  function SetFlag(v: seq<bool>, i: nat): (r: seq<bool>)
    ensures |r| >= |v| && i < |r|
    ensures forall l: nat :: HasFlag(r, l) <==> HasFlag(v, l) || l == i
  {
    var w := if i >= |v| then v + seq(i + 1 - |v|, _ => false) else v;
    w[i := true]
  }

  method CompactFnLabels(fn: IrFunction)
    modifies fn`body
    ensures fn.View() == WithoutLabels(old(fn.View()))
  {
    var referenced := FindReferenced(fn.body);
    var dead: seq<bool> := [];
    var dropped := false;
    while |dead| < |fn.body|
      invariant |dead| <= |fn.body| && fn.body == old(fn.body)
      invariant dead == UnusedLabels(fn.body)[..|dead|]
      invariant dropped <==> true in dead
    {
      var i := |dead|;
      var inst := fn.body[i];
      var drop := inst.LabelMark? && !HasFlag(referenced, inst.id);
      assert drop == UnusedLabels(fn.body)[i];
      dead := dead + [drop];
      dropped := dropped || drop;
    }
    assert dead == UnusedLabels(fn.body);
    if dropped {
      CompactBody(fn, dead);
    } else {
      forall i | 0 <= i < |dead| ensures !dead[i] {
        assert dead[i] in dead;
      }
      NothingDead(fn.body, dead, |dead|);
    }
  }

  /** `compact_labels`. */
  method CompactLabels(p: IrProgram)
    requires Distinct(p.functions)
    modifies p.functions
    ensures p.functions == old(p.functions)
    ensures p.View() == LabelsCompacted(old(p.View()))
  {
    hide WithoutLabels;
    ghost var p0 := p.View();
    var k := 0;
    while k < |p.functions|
      invariant k <= |p.functions| && p.functions == old(p.functions)
      invariant p.strings == p0.strings && p.globals == p0.globals
      invariant forall j :: 0 <= j < k ==> p.functions[j].View() == WithoutLabels(p0.functions[j])
      invariant forall j :: k <= j < |p.functions| ==> p.functions[j].View() == p0.functions[j]
    {
      CompactFnLabels(p.functions[k]);
      k := k + 1;
    }
  }
}
