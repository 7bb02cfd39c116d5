/** Lifting a pass over one function to runs of the whole program. */
module Refinement {
  import opened Words
  import opened Ir
  import opened Semantics
  import opened WellFormed
  import opened Simulation
  import opened Rewriting

  /** A run of `p` that does not trap is the same run of `p'`, for every
      environment whose memory effects stay within the locals whose address
      `p'` still takes, and for every number of jumps and calls. */
  ghost predicate RunsRefine(p: Program, p': Program) {
    forall env: Env, ks: set<nat>, g: nat, args: seq<Word>, h: History, n: nat
      {:trigger RunFn(env, p', g, args, h, n), Closed(p, ks)} ::
      Closed(p, ks) && EnvFits(env, p', ks) && g in ks && RunFn(env, p, g, args, h, n) != Stuck ==>
        RunFn(env, p', g, args, h, n) == RunFn(env, p, g, args, h, n)
  }

  /** Function `g` keeps its identity and calls, and takes no new address. */
  ghost predicate SameShell(f: Fn, f': Fn) {
    && f' == f.(body := f'.body)
    && CallsOf(f'.body) == CallsOf(f.body)
    && AddrTaken(f'.body) <= AddrTaken(f.body)
  }

  ghost predicate Refines(p: Program, p': Program) {
    && |p.functions| == |p'.functions| && p.strings == p'.strings && p.globals == p'.globals
    && (forall g :: 0 <= g < |p.functions| ==> SameShell(p.functions[g], p'.functions[g]))
    && RunsRefine(p, p')
  }

  lemma RefinesSelf(p: Program)
    ensures Refines(p, p)
  {
  }

  lemma RefinesTrans(p: Program, p': Program, p'': Program)
    requires Refines(p, p') && Refines(p', p'')
    ensures Refines(p, p'')
  {
    forall env: Env, ks: set<nat>, g: nat, args: seq<Word>, h: History, n: nat
      | Closed(p, ks) && EnvFits(env, p'', ks) && g in ks && RunFn(env, p, g, args, h, n) != Stuck
      ensures RunFn(env, p'', g, args, h, n) == RunFn(env, p, g, args, h, n)
    {
      assert forall k :: k in ks ==> SameShell(p.functions[k], p'.functions[k]) && SameShell(p'.functions[k], p''.functions[k]);
      assert Closed(p', ks);
      assert EnvFits(env, p', ks);
      assert RunFn(env, p', g, args, h, n) == RunFn(env, p, g, args, h, n);
    }
    forall g | 0 <= g < |p.functions|
      ensures SameShell(p.functions[g], p''.functions[g])
    {
      assert SameShell(p.functions[g], p'.functions[g]) && SameShell(p'.functions[g], p''.functions[g]);
    }
  }

  /** Certified functions and unchanged shells are enough. */
  lemma CertifiedRefines(p: Program, p': Program, certs: seq<Cert>)
    requires ProgramPair(p, p', certs)
    requires forall g :: 0 <= g < |p.functions| ==> SameShell(p.functions[g], p'.functions[g])
    ensures Refines(p, p')
  {
    forall env: Env, ks: set<nat>, k: nat, args: seq<Word>, h: History, n: nat
      | Closed(p, ks) && EnvFits(env, p', ks) && k in ks && RunFn(env, p, k, args, h, n) != Stuck
      ensures RunFn(env, p', k, args, h, n) == RunFn(env, p, k, args, h, n)
    {
      assert forall g :: g in ks ==> SameShell(p.functions[g], p'.functions[g]);
      assert EnvFits(env, p, ks);
      RunSimulates(env, p, p', certs, ks, k, args, h, n);
    }
  }

  /** One pass over function `g`. */
  lemma PassRefines(p: Program, g: nat, f': Fn)
    requires WfProgram(p) && g < |p.functions| && FnStep(p.functions[g], f')
    ensures Refines(p, p.(functions := p.functions[g := f']))
    ensures WfProgram(p.(functions := p.functions[g := f']))
  {
    var p' := p.(functions := p.functions[g := f']);
    assert WfFn(p.functions[g]);
    StepKeepsShape(p.functions[g], f');
    StepKeepsIds(p.functions[g], f', p);
    var certs := PassCerts(p, g, f');
    CertifiedRefines(p, p', certs);
    forall k, i | 0 <= k < |p'.functions| && 0 <= i < |p'.functions[k].body|
      ensures IdsInRange(p', p'.functions[k].body[i])
    {
      assert IdsInRange(p, p'.functions[k].body[i]);
    }
  }

  lemma PassCerts(p: Program, g: nat, f': Fn) returns (certs: seq<Cert>)
    requires WfProgram(p) && g < |p.functions| && FnStep(p.functions[g], f')
    ensures ProgramPair(p, p.(functions := p.functions[g := f']), certs)
  {
    hide FnStep, Certified, KeepsLabels, WfBody, IdsInRange;
    certs := [];
    var fs := p.functions[g := f'];
    while |certs| < |fs|
      invariant |certs| <= |fs|
      invariant forall k :: 0 <= k < |certs| ==> Certified(p.functions[k], fs[k], certs[k])
    {
      var k := |certs|;
      var c;
      assert WfFn(p.functions[k]);
      if k == g {
        c := StepCert(p.functions[g], f');
      } else {
        c := IdentityCert(p.functions[k]);
      }
      certs := certs + [c];
    }
  }

  lemma StepCert(f: Fn, f': Fn) returns (c: Cert)
    requires FnStep(f, f')
    ensures Certified(f, f', c)
  {
    c :| Certified(f, f', c) && KeepsLabels(f.body, c);
  }
}
