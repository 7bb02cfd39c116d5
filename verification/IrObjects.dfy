/** The mutable IR that the optimizer rewrites in place. */
module IrObjects {
  import opened Words
  import opened Ir
  import Compaction

  class IrFunction {
    var id: nat
    const name: string
    const argCount: nat
    const localCount: nat
    const tempCount: nat
    const extraStack: nat
    var body: seq<Inst>
    const isExtern: bool
    const isEntry: bool
    const syscallNumber: int
    const exportName: string
    const importDll: string

    constructor (f: Fn)
      ensures View() == f
    {
      id, name, argCount, localCount, tempCount := f.id, f.name, f.argCount, f.localCount, f.tempCount;
      extraStack := f.extraStack;
      body, isExtern, isEntry := f.body, f.isExtern, f.isEntry;
      syscallNumber, exportName, importDll := f.syscallNumber, f.exportName, f.importDll;
    }

    /** The function as a value. */
    function View(): (f: Fn)
      reads this
      ensures f.body == body && f.isExtern == isExtern && f.name == name
    {
      Fn(id, name, argCount, localCount, tempCount, extraStack, body, isExtern, isEntry, syscallNumber, exportName, importDll)
    }
  }

  function Views(fs: seq<IrFunction>): (out: seq<Fn>)
    reads fs
    ensures |out| == |fs|
    ensures forall i :: 0 <= i < |fs| ==> out[i] == fs[i].View()
  {
    seq(|fs|, i requires 0 <= i < |fs| reads fs => fs[i].View())
  }

  predicate Distinct(fs: seq<IrFunction>) {
    forall i, j :: 0 <= i < j < |fs| ==> fs[i] != fs[j]
  }

  class IrProgram {
    var functions: seq<IrFunction>
    var strings: seq<IrString>
    var globals: seq<IrGlobal>

    constructor (fs: seq<IrFunction>)
      ensures functions == fs && strings == [] && globals == []
    {
      functions, strings, globals := fs, [], [];
    }

    /** The program as a value. */
    function View(): Program
      reads this, functions
    {
      Program(Views(functions), strings, globals)
    }
  }

  /** Erase the marked instructions in place, as `compact_body` does. */
  method CompactBody(fn: IrFunction, dead: seq<bool>)
    requires |fn.body| == |dead|
    modifies fn`body
    ensures fn.body == Compaction.Compact(old(fn.body), dead)
  {
    var write, read := 0, 0;
    ghost var was := fn.body;
    while read < |fn.body|
      invariant 0 <= write <= read <= |fn.body| == |was|
      invariant fn.body[..write] == Compaction.Kept(was, dead, read)
      invariant fn.body[read..] == was[read..]
    {
      if !dead[read] {
        assert fn.body[read] == fn.body[read..][0] == was[read];
        if write != read {
          fn.body := fn.body[write := fn.body[read]];
        }
        write := write + 1;
      }
      read := read + 1;
    }
    fn.body := fn.body[..write];
  }
}
