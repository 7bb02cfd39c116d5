/** The optimizer keeps programs fit for the back end: instructions of the
    fragment with operands in the frame, and every jump with its label. */
module MachineFit {
  import opened Words
  import opened Ir
  import opened WellFormed
  import opened Compaction
  import opened Simulation
  import opened Rewriting
  import opened Refinement
  import opened Relabeling
  import opened Pruning
  import opened Tables
  import opened LabelPass
  import opened Optimizer
  import opened X86Select
  import opened X86Layout
  import C = X86Correct

  /** Well formed and fit for the back end. */
  ghost predicate Good(f: Fn) {
    WfFn(f) && Emittable(f) && !f.isExtern
  }

  /** Every label of `f'` is one of `f`. */
  ghost predicate MarksFrom(f: Fn, f': Fn) {
    forall l {:trigger HasMark(f'.body, l)} :: HasMark(f'.body, l) ==> HasMark(f.body, l)
  }

  /** No label is in two functions. */
  ghost predicate Separate(p: Program) {
    forall g, h, l {:trigger HasMark(p.functions[g].body, l), HasMark(p.functions[h].body, l)} ::
      0 <= g < |p.functions| && 0 <= h < |p.functions| && HasMark(p.functions[g].body, l) && HasMark(p.functions[h].body, l) ==> g == h
  }

  ghost predicate GoodProgram(p: Program) {
    && (forall g {:trigger p.functions[g]} :: 0 <= g < |p.functions| ==> Good(p.functions[g]))
    && Separate(p)
  }

  // --- one pass ---

  /** What a kept instruction has become. */
  lemma KeptInst(f: Fn, c: Cert, i: nat)
    requires CertOk(f.body, c) && i < |f.body| && !c.dead[i]
    ensures var a, b := f.body[i], c.newBody[i];
      && Def(b) == Def(a)
      && (Selectable(a) ==> Selectable(b))
      && (forall l :: Targets(b, l) ==> Targets(a, l))
      && (forall l :: a == LabelMark(l) <==> b == LabelMark(l))
      && (b.LoadLocal? || b.StoreLocal? ==> (a.LoadLocal? || a.StoreLocal?) && a.local == b.local)
      && (b.AddrOf? || b.Alloca? ==> a == b)
  {
    hide FoldsTo, Uses, LocalRead, FlowOk;
    assert StepOk(f.body, c, i) && KeptOk(f.body, c, i);
  }

  lemma StepSelectable(f: Fn, f': Fn, c: Cert)
    requires Certified(f, f', c) && AllSelectable(f.body)
    ensures AllSelectable(f'.body)
  {
    hide Certified, CertOk, Selectable;
    forall k | 0 <= k < |f'.body|
      ensures Selectable(f'.body[k])
    {
      CertifiedOk(f, f', c);
      var i := NewInst(f, f', c, k);
      KeptInst(f, c, i);
    }
  }

  lemma CertifiedOk(f: Fn, f': Fn, c: Cert)
    requires Certified(f, f', c)
    ensures CertOk(f.body, c) && |c.dead| == |c.newBody| == |f.body|
    ensures f'.localCount == f.localCount && f'.tempCount == f.tempCount && f'.extraStack == f.extraStack && f'.argCount == f.argCount && f'.isExtern == f.isExtern
  {
  }

  /** Definitions and locals stay within the frame; so do the uses, as each has
      a definition. */
  lemma StepLocals(f: Fn, f': Fn, c: Cert)
    requires Certified(f, f', c) && LocalsFit(f) && WfBody(f'.body)
    ensures LocalsFit(f')
  {
    hide Certified, CertOk, SingleDef, UniqueLabels, TerminatorsLast, C.InstBounded;
    CertifiedOk(f, f', c);
    forall k | 0 <= k < |f'.body|
      ensures C.InstBounded(f', f'.body[k])
    {
      var i := NewInst(f, f', c, k);
      KeptInst(f, c, i);
      forall r | r in Uses(f'.body[k])
        ensures r < f.tempCount
      {
        var j := FlowDef(f'.body, k, r);
        var i1 := NewInst(f, f', c, j);
        KeptInst(f, c, i1);
        DefBelow(f, i1);
      }
      BoundsMove(f, f', f.body[i], f'.body[k]);
    }
  }

  lemma DefBelow(f: Fn, i: nat)
    requires LocalsFit(f) && i < |f.body| && Def(f.body[i]).Some?
    ensures Def(f.body[i]).value < f.tempCount
  {
  }

  lemma BoundsMove(f: Fn, f': Fn, a: Inst, b: Inst)
    requires C.InstBounded(f, a) && f'.localCount == f.localCount && f'.tempCount == f.tempCount && f'.extraStack == f.extraStack
    requires Def(b) == Def(a) && (forall r :: r in Uses(b) ==> r < f.tempCount)
    requires b.LoadLocal? || b.StoreLocal? ==> (a.LoadLocal? || a.StoreLocal?) && a.local == b.local
    requires b.AddrOf? || b.Alloca? ==> a == b
    ensures C.InstBounded(f', b)
  {
  }

  lemma StepMarks(f: Fn, f': Fn, c: Cert)
    requires Certified(f, f', c)
    ensures MarksFrom(f, f')
  {
    hide Certified, CertOk;
    CertifiedOk(f, f', c);
    forall l {:trigger HasMark(f'.body, l)} | HasMark(f'.body, l)
      ensures HasMark(f.body, l)
    {
      var k :| 0 <= k < |f'.body| && f'.body[k] == LabelMark(l);
      var i := NewInst(f, f', c, k);
      KeptInst(f, c, i);
      assert f.body[i] == LabelMark(l);
    }
  }

  /** A label that is jumped to stays. */
  lemma TargetStays(f: Fn, f': Fn, c: Cert, i: nat, l: Label)
    requires Certified(f, f', c) && TargetsHere(f.body) && i < |f.body| && Targets(f.body[i], l)
    ensures HasMark(f'.body, l)
  {
    hide KeptOk, FlowOk, Kept;
    assert HasMark(f.body, l);
    var q :| 0 <= q < |f.body| && f.body[q] == LabelMark(l);
    assert StepOk(f.body, c, q);
    assert !c.dead[q];
    KeptInst(f, c, q);
    CompactAt(c.newBody, c.dead, q);
    assert f'.body[Pos(c.dead, q)] == LabelMark(l);
  }

  lemma StepTargets(f: Fn, f': Fn, c: Cert)
    requires Certified(f, f', c) && TargetsHere(f.body)
    ensures TargetsHere(f'.body)
  {
    hide Certified, CertOk, TargetsHere, HasMark;
    CertifiedOk(f, f', c);
    forall k, l | 0 <= k < |f'.body| && Targets(f'.body[k], l)
      ensures HasMark(f'.body, l)
    {
      var i := NewInst(f, f', c, k);
      KeptInst(f, c, i);
      TargetStays(f, f', c, i, l);
    }
    TargetsEach(f'.body);
  }

  lemma TargetsEach(body: seq<Inst>)
    requires forall k, l :: 0 <= k < |body| && Targets(body[k], l) ==> HasMark(body, l)
    ensures TargetsHere(body)
  {
    hide HasMark;
  }

  /** A pass over one function. */
  lemma StepGood(f: Fn, f': Fn)
    requires Good(f) && FnStep(f, f')
    ensures Good(f') && MarksFrom(f, f')
  {
    hide WfFn, FnStep, Certified, AllSelectable, LocalsFit, TargetsHere, MarksFrom;
    StepKeepsShape(f, f');
    var c := StepCert(f, f');
    CertifiedOk(f, f', c);
    WfFnBody(f');
    StepSelectable(f, f', c);
    StepLocals(f, f', c);
    StepTargets(f, f', c);
    StepMarks(f, f', c);
  }

  lemma WfFnBody(f: Fn)
    requires WfFn(f)
    ensures WfBody(f.body)
  {
  }

  lemma MarksFromSelf(f: Fn)
    ensures MarksFrom(f, f)
  {
  }

  lemma MarksFromTrans(f: Fn, f': Fn, f'': Fn)
    requires MarksFrom(f, f') && MarksFrom(f', f'')
    ensures MarksFrom(f, f'')
  {
  }

  lemma TurnGood(f: Fn, f': Fn)
    requires Good(f) && (f' == f || FnStep(f, f'))
    ensures Good(f') && MarksFrom(f, f')
  {
    hide Good, FnStep, MarksFrom;
    if f' == f {
      MarksFromSelf(f);
    } else {
      StepGood(f, f');
    }
  }

  /** The passes of a round over one function. */
  lemma RoundGood(f: Fn, f': Fn, skip: Skips)
    requires Good(f) && FnRounded(f, f', skip)
    ensures Good(f') && MarksFrom(f, f')
  {
    hide Good, FnStep, MarksFrom;
    if f.isExtern || f.body == [] {
      MarksFromSelf(f);
    } else {
      var a, b, c :| FoldTurn(f, a, skip) && DeadTurn(a, b, skip) && StoreTurn(b, c, skip) && DeadTurn(c, f', skip);
      TurnGood(f, a);
      TurnGood(a, b);
      TurnGood(b, c);
      TurnGood(c, f');
      MarksFromTrans(f, a, b);
      MarksFromTrans(f, b, c);
      MarksFromTrans(f, c, f');
    }
  }

  // --- whole programs ---

  lemma RoundedGood(p: Program, p': Program, skip: Skips)
    requires GoodProgram(p) && Rounded(p, p', skip)
    ensures GoodProgram(p')
  {
    hide Good, FnRounded, HasMark;
    forall g {:trigger p'.functions[g]} | 0 <= g < |p'.functions|
      ensures Good(p'.functions[g]) && MarksFrom(p.functions[g], p'.functions[g])
    {
      RoundGood(p.functions[g], p'.functions[g], skip);
    }
  }

  lemma {:induction false} RoundsGood(ps: seq<Program>, skip: Skips, k: nat)
    requires Trace(ps, skip) && k < |ps| && GoodProgram(ps[0])
    ensures GoodProgram(ps[k])
  {
    hide GoodProgram, Rounded;
    if k > 0 {
      RoundsGood(ps, skip, k - 1);
      RoundedGood(ps[k - 1], ps[k], skip);
    }
  }

  /** Code of the fragment names no function, string or global. */
  lemma RelabelNothing(m: Remap, body: seq<Inst>)
    requires AllSelectable(body)
    ensures RelabelBody(m, body) == body
  {
    forall i | 0 <= i < |body|
      ensures RelabelBody(m, body)[i] == body[i]
    {
      assert Selectable(body[i]);
    }
  }

  lemma GoodSelectable(f: Fn)
    requires Good(f)
    ensures AllSelectable(f.body)
  {
  }

  lemma GoodId(f: Fn, id: nat)
    requires Good(f)
    ensures Good(f.(id := id))
  {
    hide WfBody, AllSelectable, TargetsHere, FrameSize;
    var f' := f.(id := id);
    assert FrameSize(f') == FrameSize(f) by { SameFrame(f, f'); }
    forall i | 0 <= i < |f'.body|
      ensures C.InstBounded(f', f'.body[i])
    {
      assert C.InstBounded(f, f.body[i]);
    }
  }

  lemma SameFrame(f: Fn, f': Fn)
    requires f'.localCount == f.localCount && f'.tempCount == f.tempCount && f'.extraStack == f.extraStack
    ensures FrameSize(f') == FrameSize(f)
  {
  }

  lemma PrunedGood(p: Program)
    requires GoodProgram(p)
    ensures GoodProgram(Pruned(p))
  {
    hide Good, Kept, RelabelBody, HasMark, Reachable;
    var dead := Unreached(p);
    var p' := Pruned(p);
    if true in dead {
      var fs := Renumbered(p.functions, dead);
      forall k {:trigger p'.functions[k]} | 0 <= k < |p'.functions|
        ensures Good(p'.functions[k])
      {
        var g := KeptOrigin(fs, dead, |fs|, k);
        GoodSelectable(p.functions[g]);
        RelabelNothing(PruneMap(dead), p.functions[g].body);
        GoodId(p.functions[g], Pos(dead, g));
      }
      forall k, h, l {:trigger HasMark(p'.functions[k].body, l), HasMark(p'.functions[h].body, l)}
        | 0 <= k < |p'.functions| && 0 <= h < |p'.functions| && HasMark(p'.functions[k].body, l) && HasMark(p'.functions[h].body, l)
        ensures k == h
      {
        var g := KeptOrigin(fs, dead, |fs|, k);
        var g' := KeptOrigin(fs, dead, |fs|, h);
        GoodSelectable(p.functions[g]);
        GoodSelectable(p.functions[g']);
        RelabelNothing(PruneMap(dead), p.functions[g].body);
        RelabelNothing(PruneMap(dead), p.functions[g'].body);
      }
    }
  }

  lemma RelabelAllNothing(m: Remap, p: Program)
    requires GoodProgram(p)
    ensures RelabelAll(m, p.functions) == p.functions
  {
    hide Good, RelabelBody;
    forall g | 0 <= g < |p.functions|
      ensures RelabelAll(m, p.functions)[g] == p.functions[g]
    {
      GoodSelectable(p.functions[g]);
      RelabelNothing(m, p.functions[g].body);
    }
  }

  lemma SameFunctionsGood(p: Program, p': Program)
    requires GoodProgram(p) && p'.functions == p.functions
    ensures GoodProgram(p')
  {
    hide Good, HasMark;
  }

  lemma TablesGood(p: Program)
    requires GoodProgram(p)
    ensures GoodProgram(StringsCompacted(p)) && GoodProgram(GlobalsCompacted(p))
  {
    hide GoodProgram, Compact, RelabelAll, RenumberStrings, Mentioned;
    RelabelAllNothing(TableMap(Unmentioned(p, |p.strings|, true), true), p);
    RelabelAllNothing(TableMap(Unmentioned(p, |p.globals|, false), false), p);
    SameFunctionsGood(p, StringsCompacted(p));
    SameFunctionsGood(p, GlobalsCompacted(p));
  }

  // --- labels ---

  lemma WithoutLabelsFits(f: Fn)
    requires Good(f)
    ensures Emittable(WithoutLabels(f)) && UniqueLabels(WithoutLabels(f).body) && MarksFrom(f, WithoutLabels(f))
    ensures !WithoutLabels(f).isExtern
  {
    hide WithoutLabels, Certified, CertOk, AllSelectable, LocalsFit, TargetsHere, MarksFrom, FrameSize, UniqueLabels;
    var f' := WithoutLabels(f);
    WfFnBody(f);
    var c := LabelCert(f);
    CertifiedOk(f, f', c);
    StepSelectable(f, f', c);
    StepTargets(f, f', c);
    StepMarks(f, f', c);
    SubsetFits(f);
    SubsetUnique(f);
    SameFrame(f, f');
  }

  lemma SubsetFits(f: Fn)
    requires LocalsFit(f)
    ensures LocalsFit(WithoutLabels(f))
  {
    hide Kept, Targeted;
    var f' := WithoutLabels(f);
    var dead := UnusedLabels(f.body);
    forall k | 0 <= k < |f'.body|
      ensures C.InstBounded(f', f'.body[k])
    {
      var i := KeptOrigin(f.body, dead, |f.body|, k);
      assert C.InstBounded(f, f.body[i]);
    }
  }

  lemma SubsetUnique(f: Fn)
    requires UniqueLabels(f.body)
    ensures UniqueLabels(WithoutLabels(f).body)
  {
    hide Kept, Targeted;
    var f' := WithoutLabels(f);
    var dead := UnusedLabels(f.body);
    forall j, k | 0 <= j < k < |f'.body| && f'.body[j].LabelMark? && f'.body[k].LabelMark?
      ensures f'.body[j] != f'.body[k]
    {
      var i := KeptOrigin(f.body, dead, |f.body|, j);
      var i' := KeptOrigin(f.body, dead, |f.body|, k);
      if i >= i' {
        PosMonotone(dead, i', i);
      }
    }
  }

  lemma MarkHere(body: seq<Inst>, i: nat)
    requires i < |body| && body[i].LabelMark?
    ensures HasMark(body, body[i].id)
  {
    assert body[i] == LabelMark(body[i].id);
  }

  lemma UniqueAt(body: seq<Inst>, i: nat, j: nat)
    requires UniqueLabels(body) && i < |body| && j < |body| && body[i].LabelMark? && body[j] == body[i]
    ensures i == j
  {
  }

  /** Separate functions with unique labels share none. */
  lemma Apart(p: Program)
    requires Separate(p) && forall g {:trigger p.functions[g]} :: 0 <= g < |p.functions| ==> UniqueLabels(p.functions[g].body)
    ensures LabelsApart(p)
  {
    hide Separate, HasMark, UniqueLabels;
    forall g, i, h, j | 0 <= g < |p.functions| && 0 <= i < |p.functions[g].body|
                        && 0 <= h < |p.functions| && 0 <= j < |p.functions[h].body|
                        && p.functions[g].body[i].LabelMark? && p.functions[g].body[i] == p.functions[h].body[j]
      ensures g == h && i == j
    {
      MarkHere(p.functions[g].body, i);
      MarkHere(p.functions[h].body, j);
      SameFunction(p, g, h, p.functions[g].body[i].id);
      UniqueAt(p.functions[g].body, i, j);
    }
  }

  lemma SameFunction(p: Program, g: nat, h: nat, l: Label)
    requires Separate(p) && g < |p.functions| && h < |p.functions|
    requires HasMark(p.functions[g].body, l) && HasMark(p.functions[h].body, l)
    ensures g == h
  {
  }

  lemma GoodUnique(f: Fn)
    requires Good(f)
    ensures UniqueLabels(f.body) && Emittable(f) && !f.isExtern
  {
  }

  lemma GoodEmittable(p: Program)
    requires GoodProgram(p)
    ensures EmittableProgram(p)
  {
    hide Good, Emittable, UniqueLabels, Separate, LabelsApart;
    forall g {:trigger p.functions[g]} | 0 <= g < |p.functions|
      ensures UniqueLabels(p.functions[g].body) && Emittable(p.functions[g]) && !p.functions[g].isExtern
    {
      GoodUnique(p.functions[g]);
    }
    Apart(p);
  }

  lemma LabelsEmittable(p: Program)
    requires GoodProgram(p)
    ensures EmittableProgram(LabelsCompacted(p))
  {
    hide Good, Emittable, UniqueLabels, LabelsApart, WithoutLabels, HasMark;
    var p' := LabelsCompacted(p);
    forall g {:trigger p'.functions[g]} | 0 <= g < |p'.functions|
      ensures UniqueLabels(p'.functions[g].body) && Emittable(p'.functions[g]) && !p'.functions[g].isExtern
      ensures MarksFrom(p.functions[g], p'.functions[g])
    {
      WithoutLabelsFits(p.functions[g]);
    }
    Apart(p');
  }

  /** Whatever level and passes are chosen, the optimized program can be emitted. */
  lemma TrimmedEmittable(p: Program, keepAllFunctions: bool, skip: Skips)
    requires GoodProgram(p)
    ensures EmittableProgram(Trimmed(p, keepAllFunctions, skip))
  {
    hide GoodProgram, EmittableProgram, Pruned, StringsCompacted, GlobalsCompacted, LabelsCompacted;
    if skip.prune {
      GoodEmittable(p);
    } else {
      PrunedGood(p);
      var p1 := if keepAllFunctions then p else Pruned(p);
      TablesGood(p1);
      TablesGood(StringsCompacted(p1));
      LabelsEmittable(GlobalsCompacted(StringsCompacted(p1)));
    }
  }
}
