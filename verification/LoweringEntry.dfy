/** Where a compiled program starts, and which of its functions are kept: said of
    the source functions. */
module LoweringEntry {
  import opened Words
  import opened Ir
  import opened Ast
  import opened Lowering
  import opened Pruning
  import opened Optimizer

  // --- the lowered functions ---

  /** Some export attribute names a symbol, and no later one takes it back. */
  ghost predicate Exported(attributes: seq<Attribute>) {
    exists i :: 0 <= i < |attributes| && attributes[i].ExportAttribute? && attributes[i].symbol != ""
                && forall j :: i < j < |attributes| ==> !attributes[j].ExportAttribute?
  }

  lemma {:induction false} EntryMark(attributes: seq<Attribute>)
    ensures MarkedEntry(attributes) <==> EntryAttribute in attributes
  {
    if attributes != [] {
      var front := attributes[..|attributes| - 1];
      EntryMark(front);
      assert attributes == front + [attributes[|attributes| - 1]];
    }
  }

  lemma {:induction false} ExportMark(attributes: seq<Attribute>)
    ensures ExportSymbol(attributes) != "" <==> Exported(attributes)
  {
    if attributes != [] {
      var last := |attributes| - 1;
      var front := attributes[..last];
      ExportMark(front);
      if attributes[last].ExportAttribute? {
        if Exported(attributes) {
          var i :| 0 <= i < |attributes| && attributes[i].ExportAttribute? && attributes[i].symbol != ""
                   && forall j :: i < j < |attributes| ==> !attributes[j].ExportAttribute?;
          assert i == last;
        }
      } else {
        LastPlain(attributes);
      }
    }
  }

  lemma LastPlain(attributes: seq<Attribute>)
    requires attributes != [] && !attributes[|attributes| - 1].ExportAttribute?
    ensures Exported(attributes) <==> Exported(attributes[..|attributes| - 1])
  {
    var front := attributes[..|attributes| - 1];
    if Exported(attributes) {
      var i :| 0 <= i < |attributes| && attributes[i].ExportAttribute? && attributes[i].symbol != ""
               && forall j :: i < j < |attributes| ==> !attributes[j].ExportAttribute?;
      assert front[i] == attributes[i];
    }
    if Exported(front) {
      var i :| 0 <= i < |front| && front[i].ExportAttribute? && front[i].symbol != ""
               && forall j :: i < j < |front| ==> !front[j].ExportAttribute?;
      assert attributes[i] == front[i];
    }
  }

  /** What the IR function says of the source function, apart from its code. */
  ghost predicate ShellOf(f: Func, fn: Fn) {
    && fn.name == f.name && fn.argCount == |f.args|
    && (fn.isEntry <==> EntryAttribute in f.attributes) && (fn.exportName != "" <==> Exported(f.attributes))
    && !fn.isExtern && fn.syscallNumber == -1 && fn.importDll == ""
  }

  lemma ShellLowered(f: Func, id: nat, firstLabel: nat)
    ensures ShellOf(f, Lowered(f, id, firstLabel)) && Lowered(f, id, firstLabel).id == id
  {
    hide GenFunc;
    EntryMark(f.attributes);
    ExportMark(f.attributes);
  }

  lemma LoweredIs(f: Func, id: nat, firstLabel: nat, fn: Fn)
    requires var g := GenFunc(f, firstLabel);
      fn == Fn(id, f.name, |f.args|, g.nextLocal, g.nextReg, 0, g.body, false, MarkedEntry(f.attributes), -1,
               ExportSymbol(f.attributes), "")
    ensures fn == Lowered(f, id, firstLabel) && ShellOf(f, fn)
  {
    hide GenFunc, ShellOf;
    ShellLowered(f, id, firstLabel);
  }

  /** All lowered functions look like their source; ids are indices. */
  lemma LoweredShell(fs: seq<Func>, g: nat)
    requires g < |fs|
    ensures ShellOf(fs[g], LowerProgram(fs).functions[g]) && LowerProgram(fs).functions[g].id == g
  {
    hide GenFunc, LowerAll, ShellOf;
    LowerAllAt(fs, 0, 0, g);
    ShellLowered(fs[g], g, FirstLabel(fs, g, 0));
  }

  // --- the entry ---

  /** The first function marked as the entry; if there is none, the last one with a
      name that ends in `main`. */
  ghost predicate StartsAt(fs: seq<Func>, e: nat) {
    && e < |fs|
    && if EntryAttribute in fs[e].attributes then forall i :: 0 <= i < e ==> EntryAttribute !in fs[i].attributes
       else
         && NamedMain(fs[e].name) && (forall i :: e < i < |fs| ==> !NamedMain(fs[i].name))
         && forall i :: 0 <= i < |fs| ==> EntryAttribute !in fs[i].attributes
  }

  ghost predicate NoStart(fs: seq<Func>) {
    forall i :: 0 <= i < |fs| ==> EntryAttribute !in fs[i].attributes && !NamedMain(fs[i].name)
  }

  /** The back end starts the compiled program where the source says. */
  ghost predicate StartKept(fs: seq<Func>, p': Program, m: map<nat, nat>) {
    && (forall e: nat :: StartsAt(fs, e) ==> e in m && FindEntry(p'.functions, 0, None) == Some(m[e]))
    && (NoStart(fs) ==> FindEntry(p'.functions, 0, None) == None)
    && ((exists e: nat :: StartsAt(fs, e)) || NoStart(fs))
  }

  lemma LoweredEntry(fs: seq<Func>)
    ensures var r := FindEntry(LowerProgram(fs).functions, 0, None);
      && (r.Some? ==> StartsAt(fs, r.value)) && (r.None? ==> NoStart(fs))
  {
    hide LowerProgram, Exported, NamedMain;
    var p := LowerProgram(fs);
    assert |p.functions| == |fs| by {
      ProgramSize(fs);
    }
    FindEntryMeaning(p.functions, 0, None);
    forall g {:trigger p.functions[g]} {:trigger fs[g]} | 0 <= g < |fs|
      ensures p.functions[g].name == fs[g].name && (p.functions[g].isEntry <==> EntryAttribute in fs[g].attributes)
    {
      LoweredShell(fs, g);
    }
  }

  lemma ProgramSize(fs: seq<Func>)
    ensures |LowerProgram(fs).functions| == |fs|
  {
  }

  lemma StartsOnce(fs: seq<Func>, e: nat, e': nat)
    requires StartsAt(fs, e) && StartsAt(fs, e')
    ensures e == e'
  {
  }

  lemma StartIsKept(fs: seq<Func>, p': Program, m: map<nat, nat>)
    requires Optimized(LowerProgram(fs), p', m)
    ensures StartKept(fs, p', m)
  {
    hide Optimized, LowerProgram, StartsAt, NoStart, FindEntry;
    LoweredEntry(fs);
    SameEntry(LowerProgram(fs), p', m);
    var r := FindEntry(LowerProgram(fs).functions, 0, None);
    forall e: nat | StartsAt(fs, e)
      ensures r == Some(e)
    {
      if r.Some? {
        StartsOnce(fs, e, r.value);
      } else {
        NotBoth(fs, e);
      }
    }
    if r.Some? && NoStart(fs) {
      NotBoth(fs, r.value);
    }
  }

  lemma NotBoth(fs: seq<Func>, e: nat)
    requires StartsAt(fs, e)
    ensures !NoStart(fs)
  {
  }

  // --- what is kept ---

  /** A chain of calls in the IR from a source function that is marked as the entry,
      exported or named like `main`. */
  ghost predicate SourceChain(fs: seq<Func>, path: seq<nat>) {
    && |path| > 0 && (forall i :: 0 <= i < |path| ==> path[i] < |fs|)
    && (EntryAttribute in fs[path[0]].attributes || Exported(fs[path[0]].attributes) || NamedMain(fs[path[0]].name))
    && |LowerProgram(fs).functions| == |fs|
    && forall i :: 0 <= i < |path| - 1 ==> path[i + 1] in CallsOf(LowerProgram(fs).functions[path[i]].body)
  }

  /** Exactly the functions at the ends of such chains are kept, or all. */
  ghost predicate KeptFunctions(fs: seq<Func>, m: map<nat, nat>, pruned: bool) {
    forall g: nat :: g in m <==> g < |fs| && (pruned ==> exists path :: |path| > 0 && SourceChain(fs, path) && path[|path| - 1] == g)
  }

  lemma SourceChains(fs: seq<Func>, path: seq<nat>)
    ensures SourceChain(fs, path) <==> CallChain(LowerProgram(fs), path)
  {
    hide LowerProgram, Exported, NamedMain;
    ProgramSize(fs);
    if |path| > 0 && path[0] < |fs| {
      LoweredShell(fs, path[0]);
    }
  }

  lemma FunctionsKept(fs: seq<Func>, m: map<nat, nat>, pruned: bool)
    requires KeptNumbers(LowerProgram(fs), m, pruned)
    ensures KeptFunctions(fs, m, pruned)
  {
    hide LowerProgram, CallChain, SourceChain;
    ProgramSize(fs);
    forall path
      ensures SourceChain(fs, path) <==> CallChain(LowerProgram(fs), path)
    {
      SourceChains(fs, path);
    }
  }
}
