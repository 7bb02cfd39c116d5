/** Compaction of the string and global tables: `compact_strings`, `compact_globals`. */
module Tables {
  import opened Words
  import opened Ir
  import opened IrObjects
  import opened WellFormed
  import opened Compaction
  import opened Relabeling
  import opened Pruning

  /** The table entry an instruction mentions. */
  function StringOf(inst: Inst): Option<nat> {
    if inst.LoadString? then Some(inst.stringId) else None
  }

  function GlobalOf(inst: Inst): Option<nat> {
    if inst.LoadGlobal? || inst.StoreGlobal? || inst.LoadGlobalAddr? then Some(inst.globalId) else None
  }

  /** The entries, of a table of `size` entries, that no instruction mentions. */
  ghost function Unmentioned(p: Program, size: nat, strings: bool): (dead: seq<bool>)
    ensures |dead| == size
    ensures forall s :: 0 <= s < size ==> (dead[s] <==> !Mentioned(p, s, strings))
  {
    seq(size, s requires 0 <= s < size => !Mentioned(p, s, strings))
  }

  function EntryOf(inst: Inst, strings: bool): Option<nat> {
    if strings then StringOf(inst) else GlobalOf(inst)
  }

  ghost predicate MentionedIn(body: seq<Inst>, n: nat, s: nat, strings: bool)
    requires n <= |body|
  {
    exists i :: 0 <= i < n && EntryOf(body[i], strings) == Some(s)
  }

  ghost predicate Mentioned(p: Program, s: nat, strings: bool) {
    exists g :: 0 <= g < |p.functions| && MentionedIn(p.functions[g].body, |p.functions[g].body|, s, strings)
  }

  /** A string stays exactly if some instruction loads it, a global exactly if some
      instruction reads, writes or takes the address of it. */
  lemma MentionedMeans(p: Program, s: nat)
    ensures Mentioned(p, s, true)
       <==> exists g, i :: 0 <= g < |p.functions| && 0 <= i < |p.functions[g].body|
                           && var inst := p.functions[g].body[i]; inst.LoadString? && inst.stringId == s
    ensures Mentioned(p, s, false)
       <==> exists g, i :: 0 <= g < |p.functions| && 0 <= i < |p.functions[g].body|
                           && var inst := p.functions[g].body[i];
                              (inst.LoadGlobal? || inst.StoreGlobal? || inst.LoadGlobalAddr?) && inst.globalId == s
  {
    if Mentioned(p, s, true) {
      var g :| 0 <= g < |p.functions| && MentionedIn(p.functions[g].body, |p.functions[g].body|, s, true);
      var i :| 0 <= i < |p.functions[g].body| && EntryOf(p.functions[g].body[i], true) == Some(s);
    }
    if Mentioned(p, s, false) {
      var g :| 0 <= g < |p.functions| && MentionedIn(p.functions[g].body, |p.functions[g].body|, s, false);
      var i :| 0 <= i < |p.functions[g].body| && EntryOf(p.functions[g].body[i], false) == Some(s);
    }
    if g, i :| 0 <= g < |p.functions| && 0 <= i < |p.functions[g].body|
               && p.functions[g].body[i].LoadString? && p.functions[g].body[i].stringId == s {
      MentionedAt(p, g, i, true);
    }
    if g, i :| 0 <= g < |p.functions| && 0 <= i < |p.functions[g].body|
               && (p.functions[g].body[i].LoadGlobal? || p.functions[g].body[i].StoreGlobal? || p.functions[g].body[i].LoadGlobalAddr?)
               && p.functions[g].body[i].globalId == s {
      MentionedAt(p, g, i, false);
    }
  }

  function TableMap(dead: seq<bool>, strings: bool): Remap {
    if strings then Remap(map[], NewNumbers(dead), map[]) else Remap(map[], map[], NewNumbers(dead))
  }

  function RelabelAll(m: Remap, fs: seq<Fn>): (out: seq<Fn>)
    ensures |out| == |fs|
    ensures forall g :: 0 <= g < |fs| ==> out[g] == fs[g].(body := RelabelBody(m, fs[g].body))
  {
    seq(|fs|, g requires 0 <= g < |fs| => fs[g].(body := RelabelBody(m, fs[g].body)))
  }

  function RenumberStrings(ss: seq<IrString>, dead: seq<bool>): (out: seq<IrString>)
    requires |ss| == |dead|
    ensures |out| == |ss|
    ensures forall i :: 0 <= i < |ss| ==> out[i] == IrString(Pos(dead, i), ss[i].text)
  {
    seq(|ss|, i requires 0 <= i < |ss| => IrString(Pos(dead, i), ss[i].text))
  }

  /** The program with only the strings it mentions. */
  ghost function StringsCompacted(p: Program): Program {
    var dead := Unmentioned(p, |p.strings|, true);
    if true !in dead then p
    else Program(RelabelAll(TableMap(dead, true), p.functions), Compact(RenumberStrings(p.strings, dead), dead), p.globals)
  }

  /** The program with only the globals it mentions. */
  ghost function GlobalsCompacted(p: Program): Program {
    var dead := Unmentioned(p, |p.globals|, false);
    if true !in dead then p
    else Program(RelabelAll(TableMap(dead, false), p.functions), p.strings, Compact(p.globals, dead))
  }

  predicate IsFn(p: Program, g: nat) {
    g < |p.functions|
  }

  ghost function AllFns(p: Program): (ks: set<nat>)
    ensures forall g: nat :: g in ks <==> g < |p.functions|
  {
    set g: nat | g < |p.functions| && IsFn(p, g)
  }

  lemma IdsAt(p: Program, g: nat, i: nat)
    requires WfProgram(p) && g < |p.functions| && i < |p.functions[g].body|
    ensures IdsInRange(p, p.functions[g].body[i])
  {
  }

  lemma MentionedAt(p: Program, g: nat, i: nat, strings: bool)
    requires g < |p.functions| && i < |p.functions[g].body| && EntryOf(p.functions[g].body[i], strings).Some?
    ensures Mentioned(p, EntryOf(p.functions[g].body[i], strings).value, strings)
  {
    var body := p.functions[g].body;
    assert MentionedIn(body, |body|, EntryOf(body[i], strings).value, strings);
  }

  lemma StringAgrees(p: Program, g: nat, i: nat)
    requires WfProgram(p) && g < |p.functions| && i < |p.functions[g].body|
    requires true in Unmentioned(p, |p.strings|, true)
    ensures Agrees(p, StringsCompacted(p), TableMap(Unmentioned(p, |p.strings|, true), true), AllFns(p),
                   p.functions[g].body[i])
  {
    hide WfProgram, Mentioned, Pos, Kept, Def, Uses;
    IdsAt(p, g, i);
    var dead := Unmentioned(p, |p.strings|, true);
    var body := p.functions[g].body;
    if body[i].LoadString? {
      MentionedAt(p, g, i, true);
      CompactAt(RenumberStrings(p.strings, dead), dead, body[i].stringId);
    }
  }

  lemma GlobalAgrees(p: Program, g: nat, i: nat)
    requires WfProgram(p) && g < |p.functions| && i < |p.functions[g].body|
    requires true in Unmentioned(p, |p.globals|, false)
    ensures Agrees(p, GlobalsCompacted(p), TableMap(Unmentioned(p, |p.globals|, false), false), AllFns(p),
                   p.functions[g].body[i])
  {
    hide WfProgram, Mentioned, Pos, Kept, Def, Uses;
    IdsAt(p, g, i);
    var dead := Unmentioned(p, |p.globals|, false);
    var body := p.functions[g].body;
    if GlobalOf(body[i]).Some? {
      var s := GlobalOf(body[i]).value;
      MentionedAt(p, g, i, false);
      CompactAt(p.globals, dead, s);
    }
  }

  lemma AllRelabeled(p: Program, p': Program, m: Remap)
    requires p'.functions == RelabelAll(m, p.functions) && m.fns == map[]
    requires forall g, i :: 0 <= g < |p.functions| && 0 <= i < |p.functions[g].body| ==>
               Agrees(p, p', m, AllFns(p), p.functions[g].body[i])
    ensures Relabeled(p, p', m, AllFns(p))
  {
    hide Agrees, RelabelBody;
  }

  /** After compaction every instruction still names the same string. */
  lemma StringsAgree(p: Program)
    requires WfProgram(p)
    ensures true in Unmentioned(p, |p.strings|, true) ==>
              Relabeled(p, StringsCompacted(p), TableMap(Unmentioned(p, |p.strings|, true), true), AllFns(p))
  {
    hide WfProgram, Agrees, Mentioned, Kept, RelabelBody, Relabeled, Unmentioned;
    var dead := Unmentioned(p, |p.strings|, true);
    if true in dead {
      forall g, i | 0 <= g < |p.functions| && 0 <= i < |p.functions[g].body|
        ensures Agrees(p, StringsCompacted(p), TableMap(dead, true), AllFns(p), p.functions[g].body[i])
      {
        StringAgrees(p, g, i);
      }
      AllRelabeled(p, StringsCompacted(p), TableMap(dead, true));
    }
  }

  /** After compaction every instruction still names the same global. */
  lemma GlobalsAgree(p: Program)
    requires WfProgram(p)
    ensures true in Unmentioned(p, |p.globals|, false) ==>
              Relabeled(p, GlobalsCompacted(p), TableMap(Unmentioned(p, |p.globals|, false), false), AllFns(p))
  {
    hide WfProgram, Agrees, Mentioned, Kept, RelabelBody, Relabeled, Unmentioned;
    var dead := Unmentioned(p, |p.globals|, false);
    if true in dead {
      forall g, i | 0 <= g < |p.functions| && 0 <= i < |p.functions[g].body|
        ensures Agrees(p, GlobalsCompacted(p), TableMap(dead, false), AllFns(p), p.functions[g].body[i])
      {
        GlobalAgrees(p, g, i);
      }
      AllRelabeled(p, GlobalsCompacted(p), TableMap(dead, false));
    }
  }

  // --- the passes ---

  ghost predicate MentionedBefore(fs: seq<Fn>, n: nat, s: nat, strings: bool)
    requires n <= |fs|
  {
    exists g :: 0 <= g < n && MentionedIn(fs[g].body, |fs[g].body|, s, strings)
  }

  /** The `used` flags of one table. */
  method MarkMentioned(p: Program, size: nat, strings: bool) returns (used: seq<bool>)
    ensures |used| == size && forall s :: 0 <= s < size ==> (used[s] <==> Mentioned(p, s, strings))
  {
    used := seq(size, _ => false);
    for g := 0 to |p.functions|
      invariant |used| == size
      invariant forall s :: 0 <= s < size ==> (used[s] <==> MentionedBefore(p.functions, g, s, strings))
    {
      ghost var before := used;
      var body := p.functions[g].body;
      for i := 0 to |body|
        invariant |used| == size
        invariant forall s :: 0 <= s < size ==> (used[s] <==> before[s] || MentionedIn(body, i, s, strings))
      {
        var e := EntryOf(body[i], strings);
        if e.Some? && e.value < size {
          used := used[e.value := true];
        }
      }
    }
  }

  /** `remap[id]` in place of `id` over one function. */
  method RelabelEntries(fn: IrFunction, remap: seq<nat>, strings: bool, ghost m: Remap, ghost dead: seq<bool>)
    requires m == TableMap(dead, strings) && |remap| == |dead|
    requires forall s :: 0 <= s < |dead| && !dead[s] ==> remap[s] == Pos(dead, s)
    requires forall i :: 0 <= i < |fn.body| && EntryOf(fn.body[i], strings).Some? ==>
               EntryOf(fn.body[i], strings).value < |dead| && !dead[EntryOf(fn.body[i], strings).value]
    modifies fn`body
    ensures fn.body == RelabelBody(m, old(fn.body))
  {
    hide Pos;
    var k := 0;
    while k < |fn.body|
      invariant k <= |fn.body| == |old(fn.body)|
      invariant forall i :: 0 <= i < k ==> fn.body[i] == RelabelInst(m, old(fn.body)[i])
      invariant forall i :: k <= i < |fn.body| ==> fn.body[i] == old(fn.body)[i]
    {
      var inst := fn.body[k];
      if strings && inst.LoadString? {
        fn.body := fn.body[k := inst.(stringId := remap[inst.stringId])];
      } else if !strings && (inst.LoadGlobal? || inst.StoreGlobal? || inst.LoadGlobalAddr?) {
        fn.body := fn.body[k := inst.(globalId := remap[inst.globalId])];
      }
      k := k + 1;
    }
  }

  lemma EntriesKept(p: Program, dead: seq<bool>, strings: bool, g: nat)
    requires WfProgram(p) && g < |p.functions|
    requires |dead| == if strings then |p.strings| else |p.globals|
    requires dead == Unmentioned(p, |dead|, strings)
    ensures forall i :: 0 <= i < |p.functions[g].body| && EntryOf(p.functions[g].body[i], strings).Some? ==>
              EntryOf(p.functions[g].body[i], strings).value < |dead| &&
              !dead[EntryOf(p.functions[g].body[i], strings).value]
  {
    hide WfProgram, Mentioned;
    forall i | 0 <= i < |p.functions[g].body| && EntryOf(p.functions[g].body[i], strings).Some?
      ensures EntryOf(p.functions[g].body[i], strings).value < |dead|
      ensures !dead[EntryOf(p.functions[g].body[i], strings).value]
    {
      IdsAt(p, g, i);
      MentionedAt(p, g, i, strings);
    }
  }

  function After(m: Remap, f: Fn): Fn {
    f.(body := RelabelBody(m, f.body))
  }

  /** The last loop of both passes. */
  method RelabelFunctions(fs: seq<IrFunction>, remap: seq<nat>, strings: bool, ghost p: Program, ghost dead: seq<bool>)
    requires Distinct(fs) && WfProgram(p) && Views(fs) == p.functions && |remap| == |dead|
    requires |dead| == if strings then |p.strings| else |p.globals|
    requires dead == Unmentioned(p, |dead|, strings)
    requires forall s :: 0 <= s < |dead| && !dead[s] ==> remap[s] == Pos(dead, s)
    modifies fs
    ensures Views(fs) == RelabelAll(TableMap(dead, strings), p.functions)
  {
    hide WfProgram, Unmentioned, Pos, RelabelBody, TableMap;
    ghost var m := TableMap(dead, strings);
    var k := 0;
    while k < |fs|
      invariant k <= |fs|
      invariant forall j :: 0 <= j < k ==> fs[j].View() == After(m, p.functions[j])
      invariant forall j :: k <= j < |fs| ==> fs[j].View() == p.functions[j]
    {
      RelabelFunction(fs[k], remap, strings, p, dead, k);
      k := k + 1;
    }
  }

  method RelabelFunction(fn: IrFunction, remap: seq<nat>, strings: bool, ghost p: Program, ghost dead: seq<bool>, ghost k: nat)
    requires WfProgram(p) && k < |p.functions| && fn.View() == p.functions[k] && |remap| == |dead|
    requires |dead| == if strings then |p.strings| else |p.globals|
    requires dead == Unmentioned(p, |dead|, strings)
    requires forall s :: 0 <= s < |dead| && !dead[s] ==> remap[s] == Pos(dead, s)
    modifies fn`body
    ensures fn.View() == After(TableMap(dead, strings), p.functions[k])
  {
    hide WfProgram, Unmentioned, Pos, RelabelBody, TableMap, EntryOf;
    EntriesKept(p, dead, strings, k);
    RelabelEntries(fn, remap, strings, TableMap(dead, strings), dead);
  }

  lemma NothingUnmentioned(p: Program, used: seq<bool>, strings: bool)
    requires forall s :: 0 <= s < |used| ==> (used[s] <==> Mentioned(p, s, strings))
    ensures forall s :: 0 <= s < |used| ==> used[s] == !Unmentioned(p, |used|, strings)[s]
    ensures false !in used <==> true !in Unmentioned(p, |used|, strings)
  {
    hide Mentioned;
    var dead := Unmentioned(p, |used|, strings);
    if false in used {
      var s :| 0 <= s < |used| && !used[s];
      assert dead[s] in dead;
    }
    if true in dead {
      var s :| 0 <= s < |dead| && dead[s];
      assert used[s] in used;
    }
  }

  method NumberStrings(table: seq<IrString>, used: seq<bool>, ghost dead: seq<bool>)
    returns (strings: seq<IrString>, remap: seq<nat>)
    requires |used| == |dead| == |table| && forall s :: 0 <= s < |used| ==> used[s] == !dead[s]
    ensures strings == Compact(RenumberStrings(table, dead), dead) && |remap| == |dead|
    ensures forall s :: 0 <= s < |dead| && !dead[s] ==> remap[s] == Pos(dead, s)
  {
    hide Kept, Pos;
    remap, strings := seq(|used|, _ => 0), [];
    ghost var all := RenumberStrings(table, dead);
    KeptNone(all, dead);
    for i := 0 to |used|
      invariant |used| == |remap|
      invariant strings == Kept(all, dead, i)
      invariant forall s :: 0 <= s < i && !dead[s] ==> remap[s] == Pos(dead, s)
    {
      KeptNext(all, dead, i);
      if used[i] {
        remap := remap[i := |strings|];
        strings := strings + [IrString(remap[i], table[i].text)];
      }
    }
  }

  method NumberGlobals(table: seq<IrGlobal>, used: seq<bool>, ghost dead: seq<bool>)
    returns (globals: seq<IrGlobal>, remap: seq<nat>)
    requires |used| == |dead| == |table| && forall s :: 0 <= s < |used| ==> used[s] == !dead[s]
    ensures globals == Compact(table, dead) && |remap| == |dead|
    ensures forall s :: 0 <= s < |dead| && !dead[s] ==> remap[s] == Pos(dead, s)
  {
    hide Kept, Pos;
    remap, globals := seq(|used|, _ => 0), [];
    KeptNone(table, dead);
    for i := 0 to |used|
      invariant |used| == |remap|
      invariant globals == Kept(table, dead, i)
      invariant forall s :: 0 <= s < i && !dead[s] ==> remap[s] == Pos(dead, s)
    {
      KeptNext(table, dead, i);
      if used[i] {
        remap := remap[i := |globals|];
        globals := globals + [table[i]];
      }
    }
  }

  /** `compact_strings`. */
  method CompactStrings(p: IrProgram)
    requires Distinct(p.functions) && WfProgram(p.View())
    modifies p`strings, p.functions
    ensures p.functions == old(p.functions) && p.View() == StringsCompacted(old(p.View()))
  {
    hide WfProgram, Unmentioned, Kept, Pos, RelabelAll;
    ghost var p0 := p.View();
    var used := MarkMentioned(p.View(), |p.strings|, true);
    NothingUnmentioned(p0, used, true);
    if false !in used {
      return;
    }
    var strings, remap := NumberStrings(p.strings, used, Unmentioned(p0, |used|, true));
    RelabelFunctions(p.functions, remap, true, p0, Unmentioned(p0, |used|, true));
    p.strings := strings;
  }

  /** `compact_globals`. */
  method CompactGlobals(p: IrProgram)
    requires Distinct(p.functions) && WfProgram(p.View())
    modifies p`globals, p.functions
    ensures p.functions == old(p.functions) && p.View() == GlobalsCompacted(old(p.View()))
  {
    hide WfProgram, Unmentioned, Kept, Pos, RelabelAll;
    ghost var p0 := p.View();
    var used := MarkMentioned(p.View(), |p.globals|, false);
    NothingUnmentioned(p0, used, false);
    if false !in used {
      return;
    }
    var globals, remap := NumberGlobals(p.globals, used, Unmentioned(p0, |used|, false));
    RelabelFunctions(p.functions, remap, false, p0, Unmentioned(p0, |used|, false));
    p.globals := globals;
  }
}
