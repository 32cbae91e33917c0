/** The compiler's symbol table: a chain of tables, each a dictionary from
    names to symbols, a list of captured free symbols and a counter of
    definitions. Resolving a name walks outward through the chain; a local
    or free symbol found in an enclosing table is captured as a free symbol
    of every table it passes through on the way back. */
module Symbols {
  import opened Wrappers

  /** The `Scopes` constants. */
  datatype Scope = Global | Local | Builtin | Free | Function

  /** The string each scope constant holds. */
  function ScopeName(s: Scope): string {
    match s
    case Global => "GLOBAL"
    case Local => "LOCAL"
    case Builtin => "BUILTIN"
    case Free => "FREE"
    case Function => "FUNCTION"
  }

  /** `record Symbol(string Name, string Scope, int Index)`. */
  datatype Symbol = Symbol(name: string, scope: Scope, index: int)

  /** The contents of one table: `_store`, `_freeSymbols` and `_numDefinitions`. */
  datatype TableState = TableState(store: map<string, Symbol>, freeSymbols: seq<Symbol>, numDefinitions: nat)

  const Empty := TableState(map[], [], 0)

  /** Every binding is stored under its own symbol's name. */
  ghost predicate WellNamed(t: TableState) {
    forall n | n in t.store :: t.store[n].name == n
  }

  // ------------------------------------------------------------ definitions

  /** `Define`: a Global symbol in the outermost table, a Local one in an
      enclosed table, numbered by the definitions made in this table so far.
      The binding replaces any earlier one of that name. */
  function DefineIn(t: TableState, enclosed: bool, name: string): (Symbol, TableState) {
    var symbol := Symbol(name, if enclosed then Local else Global, t.numDefinitions);
    (symbol, t.(store := t.store[name := symbol], numDefinitions := t.numDefinitions + 1))
  }

  /** `DefineBuiltin`: a Builtin symbol with the given index; the counter stays. */
  function DefineBuiltinIn(t: TableState, index: int, name: string): (Symbol, TableState) {
    var symbol := Symbol(name, Builtin, index);
    (symbol, t.(store := t.store[name := symbol]))
  }

  /** `DefineFunctionName`: a Function symbol with index 0; the counter stays. */
  function DefineFunctionNameIn(t: TableState, name: string): (Symbol, TableState) {
    var symbol := Symbol(name, Function, 0);
    (symbol, t.(store := t.store[name := symbol]))
  }

  /** `DefineFree`: the original symbol goes to the end of the free list, and
      a Free symbol whose index is its position there is bound to its name. */
  function DefineFreeIn(t: TableState, original: Symbol): (Symbol, TableState) {
    var symbol := original.(scope := Free, index := |t.freeSymbols|);
    (symbol, t.(store := t.store[original.name := symbol], freeSymbols := t.freeSymbols + [original]))
  }

  /** Defining each name in turn. */
  function DefineAll(t: TableState, enclosed: bool, names: seq<string>): (r: (seq<Symbol>, TableState))
    ensures |r.0| == |names|
    decreases |names|
  {
    if names == [] then ([], t)
    else
      var (first, t1) := DefineIn(t, enclosed, names[0]);
      var (rest, t2) := DefineAll(t1, enclosed, names[1..]);
      ([first] + rest, t2)
  }

  // ------------------------------------------------------------ resolution

  /** `Resolve` over the states of a chain of tables, innermost first: the
      symbol found (None for C# null) and the states afterwards. */
  function ResolveIn(chain: seq<TableState>, name: string): (Option<Symbol>, seq<TableState>)
    requires chain != []
    decreases |chain|
  {
    var t := chain[0];
    if name in t.store then (Some(t.store[name]), chain)
    else if |chain| == 1 then (None, chain)
    else
      var (found, outer) := ResolveIn(chain[1..], name);
      if found.None? then (None, [t] + outer)
      else if found.value.scope == Global || found.value.scope == Builtin then (found, [t] + outer)
      else
        var (free, t1) := DefineFreeIn(t, found.value);
        (Some(free), [t1] + outer)
  }

  /** Whether some table of the chain binds the name. */
  ghost predicate BoundIn(chain: seq<TableState>, name: string) {
    exists i | 0 <= i < |chain| :: name in chain[i].store
  }

  // ------------------------------------------------------------ the tables

  /** `class SymbolTable`. The enclosing table is fixed at construction;
      `Repr` is this table and every table it is enclosed in. */
  class SymbolTable {
    const outer: SymbolTable?
    var store: map<string, Symbol>
    var freeSymbols: seq<Symbol>
    var numDefinitions: nat
    ghost const Repr: set<object>
    ghost const depth: nat

    /** The chain shape: each table is enclosed in a table of smaller depth
        whose footprint excludes it. It depends on constant fields only. */
    ghost predicate Valid()
      decreases depth
    {
      this in Repr
      && (outer == null ==> depth == 0 && Repr == {this})
      && (outer != null ==>
            depth == outer.depth + 1 && Repr == {this} + outer.Repr && this !in outer.Repr && outer.Valid())
    }

    function State(): TableState
      reads this
    {
      TableState(store, freeSymbols, numDefinitions)
    }

    /** The states of this table and of the tables it is enclosed in, innermost first. */
    ghost function States(): (s: seq<TableState>)
      requires Valid()
      reads Repr
      ensures |s| == depth + 1 && s[0] == State()
      decreases depth
    {
      [State()] + (if outer == null then [] else outer.States())
    }

    /** `new SymbolTable()`: an outermost table. */
    constructor ()
      ensures Valid() && fresh(Repr) && outer == null && State() == Empty
    {
      outer := null;
      store := map[];
      freeSymbols := [];
      numDefinitions := 0;
      Repr := {this};
      depth := 0;
    }

    /** The private constructor: an empty table enclosed in another. */
    constructor Enclosed(enclosing: SymbolTable)
      requires enclosing.Valid()
      ensures Valid() && outer == enclosing && State() == Empty
      ensures Repr == {this} + enclosing.Repr && depth == enclosing.depth + 1
    {
      outer := enclosing;
      store := map[];
      freeSymbols := [];
      numDefinitions := 0;
      Repr := {this} + enclosing.Repr;
      depth := enclosing.depth + 1;
    }

    /** `NumberOfDefinitions`: the number of bound names (`_store.Count`). */
    function NumberOfDefinitions(): nat
      reads this
    {
      |store|
    }

    /** `FreeSymbols`: the captured originals, in capture order. */
    function FreeSymbols(): seq<Symbol>
      reads this
    {
      freeSymbols
    }

    method Define(name: string) returns (s: Symbol)
      modifies this
      ensures (s, State()) == DefineIn(old(State()), outer != null, name)
      ensures NumberOfDefinitions() == old(NumberOfDefinitions()) + (if name in old(store) then 0 else 1)
    {
      s := Symbol(name, if outer == null then Global else Local, numDefinitions);
      store := store[name := s];
      numDefinitions := numDefinitions + 1;
    }

    method DefineBuiltin(index: int, name: string) returns (s: Symbol)
      modifies this
      ensures (s, State()) == DefineBuiltinIn(old(State()), index, name)
      ensures NumberOfDefinitions() == old(NumberOfDefinitions()) + (if name in old(store) then 0 else 1)
    {
      s := Symbol(name, Builtin, index);
      store := store[name := s];
    }

    method DefineFunctionName(name: string) returns (s: Symbol)
      modifies this
      ensures (s, State()) == DefineFunctionNameIn(old(State()), name)
      ensures NumberOfDefinitions() == old(NumberOfDefinitions()) + (if name in old(store) then 0 else 1)
    {
      s := Symbol(name, Function, 0);
      store := store[name := s];
    }

    method DefineFree(original: Symbol) returns (s: Symbol)
      modifies this
      ensures (s, State()) == DefineFreeIn(old(State()), original)
      ensures FreeSymbols() == old(FreeSymbols()) + [original] && s.index == |old(FreeSymbols())|
    {
      freeSymbols := freeSymbols + [original];
      s := original.(scope := Free, index := |freeSymbols| - 1);
      store := store[s.name := s];
    }

    /** `Resolve`: this table's own binding, or the enclosing table's answer,
        captured as a free symbol unless it is Global or Builtin. */
    method Resolve(name: string) returns (r: Option<Symbol>)
      requires Valid()
      modifies Repr
      ensures (r, States()) == ResolveIn(old(States()), name)
      ensures FreeSymbols() == old(FreeSymbols())
        || (FreeSymbols()[..|old(FreeSymbols())|] == old(FreeSymbols()) && |FreeSymbols()| == |old(FreeSymbols())| + 1
            && r.Some? && r.value.scope == Free && r.value.index == |old(FreeSymbols())|)
      decreases depth
    {
      ResolveFreeSymbols(States(), name);
      if name in store {
        return Some(store[name]);
      }
      if outer == null {
        return None;
      }
      var found := outer.Resolve(name);
      if found.None? {
        return None;
      }
      if found.value.scope == Global || found.value.scope == Builtin {
        return found;
      }
      var free := DefineFree(found.value);
      return Some(free);
    }

    /** `NewEnclosedTable`: a fresh empty table enclosed in this one. */
    method NewEnclosedTable() returns (t: SymbolTable)
      requires Valid()
      ensures fresh(t) && t.Valid() && t.outer == this && t.State() == Empty
      ensures t.Repr == {t} + Repr
    {
      t := new SymbolTable.Enclosed(this);
    }
  }

  // ------------------------------------------------------------ properties

  /** Successive definitions in one table are numbered from the counter on,
      in order, and each advances it by one. */
  lemma {:induction false} DefineAllNumbers(t: TableState, enclosed: bool, names: seq<string>)
    ensures var (symbols, t2) := DefineAll(t, enclosed, names);
      |symbols| == |names| && t2.numDefinitions == t.numDefinitions + |names|
      && forall i | 0 <= i < |names| ::
           symbols[i] == Symbol(names[i], if enclosed then Local else Global, t.numDefinitions + i)
    decreases |names|
  {
    if names != [] {
      var (first, t1) := DefineIn(t, enclosed, names[0]);
      DefineAllNumbers(t1, enclosed, names[1..]);
    }
  }

  /** Every enclosed table starts from an empty state, so two sibling tables
      number their locals independently, each from 0. */
  lemma SiblingsNumberFromZero(names1: seq<string>, names2: seq<string>)
    ensures forall i | 0 <= i < |names1| :: DefineAll(Empty, true, names1).0[i] == Symbol(names1[i], Local, i)
    ensures forall i | 0 <= i < |names2| :: DefineAll(Empty, true, names2).0[i] == Symbol(names2[i], Local, i)
  {
    DefineAllNumbers(Empty, true, names1);
    DefineAllNumbers(Empty, true, names2);
  }

  /** Defining a name twice: the second symbol replaces the first, the
      counter advances twice, and the number of bound names does not grow. */
  lemma RedefineLastWins(t: TableState, enclosed: bool, name: string)
    ensures var (first, t1) := DefineIn(t, enclosed, name);
      var (second, t2) := DefineIn(t1, enclosed, name);
      second.index == first.index + 1 && t2.store[name] == second
      && t2.numDefinitions == t.numDefinitions + 2 && |t2.store| == |t1.store|
  {
  }

  /** A name just defined, by any of the three definitions, resolves in that
      table to the symbol the definition returned, and resolving changes
      nothing. `DefineBuiltin` and `DefineFunctionName` leave the counter as it was. */
  lemma DefineThenResolve(t: TableState, outer: seq<TableState>, enclosed: bool, index: int, name: string)
    ensures var (s, t1) := DefineIn(t, enclosed, name);
      ResolveIn([t1] + outer, name) == (Some(s), [t1] + outer)
    ensures var (s, t1) := DefineBuiltinIn(t, index, name);
      ResolveIn([t1] + outer, name) == (Some(s), [t1] + outer) && t1.numDefinitions == t.numDefinitions
    ensures var (s, t1) := DefineFunctionNameIn(t, name);
      ResolveIn([t1] + outer, name) == (Some(s), [t1] + outer) && t1.numDefinitions == t.numDefinitions
  {
  }

  /** `NumberOfDefinitions` is the number of bound names, not the `Define`
      counter: every one of the four definitions adds one exactly when the
      name was not bound yet, and a redefinition adds nothing. */
  lemma BindingCounts(t: TableState, enclosed: bool, index: int, name: string, original: Symbol)
    ensures |DefineIn(t, enclosed, name).1.store| == |t.store| + (if name in t.store then 0 else 1)
    ensures |DefineBuiltinIn(t, index, name).1.store| == |t.store| + (if name in t.store then 0 else 1)
    ensures |DefineFunctionNameIn(t, name).1.store| == |t.store| + (if name in t.store then 0 else 1)
    ensures |DefineFreeIn(t, original).1.store| == |t.store| + (if original.name in t.store then 0 else 1)
  {
  }

  /** What `FreeSymbols` of the innermost table holds after a resolution:
      either the list is unchanged, or the found symbol of the enclosing
      tables was appended and the result is the Free symbol at its position. */
  lemma ResolveFreeSymbols(chain: seq<TableState>, name: string)
    requires chain != []
    ensures var (r, after) := ResolveIn(chain, name);
      after[0].freeSymbols == chain[0].freeSymbols
      || (|chain| >= 2 && name !in chain[0].store && ResolveIn(chain[1..], name).0.Some?
          && after[0].freeSymbols == chain[0].freeSymbols + [ResolveIn(chain[1..], name).0.value]
          && r.Some? && r.value.scope == Free && r.value.index == |chain[0].freeSymbols|)
  {
  }

  /** A name a table binds itself resolves to that binding, unchanged, and
      nothing is captured. */
  lemma ResolveOwnBinding(chain: seq<TableState>, name: string)
    requires chain != [] && name in chain[0].store
    ensures ResolveIn(chain, name) == (Some(chain[0].store[name]), chain)
  {
  }

  /** Resolution finds a symbol exactly when some table of the chain binds
      the name; otherwise the result is null. */
  lemma {:induction false} ResolveFindsBound(chain: seq<TableState>, name: string)
    requires chain != []
    ensures ResolveIn(chain, name).0.Some? <==> BoundIn(chain, name)
    decreases |chain|
  {
    if name in chain[0].store {
      assert BoundIn(chain, name);
    } else if |chain| > 1 {
      ResolveFindsBound(chain[1..], name);
      if BoundIn(chain[1..], name) {
        var i :| 0 <= i < |chain[1..]| && name in chain[1..][i].store;
        assert name in chain[i + 1].store;
      }
      if BoundIn(chain, name) {
        var i :| 0 <= i < |chain| && name in chain[i].store;
        assert i > 0 && name in chain[1..][i - 1].store;
      }
    }
  }

  /** A Global or Builtin symbol from an enclosing table is returned as it is,
      and this table is left unchanged: no free symbol is recorded. */
  lemma ResolveGlobalOrBuiltin(chain: seq<TableState>, name: string)
    requires |chain| >= 2 && name !in chain[0].store
    requires var found := ResolveIn(chain[1..], name).0;
      found.Some? && (found.value.scope == Global || found.value.scope == Builtin)
    ensures ResolveIn(chain, name).0 == ResolveIn(chain[1..], name).0
    ensures ResolveIn(chain, name).1 == [chain[0]] + ResolveIn(chain[1..], name).1
  {
  }

  /** Any other symbol from an enclosing table is captured: the original is
      appended to this table's free symbols, and the result is a Free symbol
      whose index is the original's position in that list, now bound here. */
  lemma ResolveCaptures(chain: seq<TableState>, name: string)
    requires |chain| >= 2 && name !in chain[0].store
    requires forall i | 0 <= i < |chain| :: WellNamed(chain[i])
    requires var found := ResolveIn(chain[1..], name).0;
      found.Some? && found.value.scope != Global && found.value.scope != Builtin
    ensures var original := ResolveIn(chain[1..], name).0.value;
      var (r, after) := ResolveIn(chain, name);
      r == Some(Symbol(name, Free, |chain[0].freeSymbols|))
      && after[0].freeSymbols == chain[0].freeSymbols + [original]
      && after[0].store == chain[0].store[name := r.value]
      && after[1..] == ResolveIn(chain[1..], name).1
  {
    ResolveKeepsNames(chain[1..], name);
  }

  /** Resolution keeps every binding under its own name, and what it finds
      is named as asked. */
  lemma {:induction false} ResolveKeepsNames(chain: seq<TableState>, name: string)
    requires chain != []
    requires forall i | 0 <= i < |chain| :: WellNamed(chain[i])
    ensures var (r, after) := ResolveIn(chain, name);
      |after| == |chain| && (r.Some? ==> r.value.name == name)
      && forall i | 0 <= i < |after| :: WellNamed(after[i])
    decreases |chain|
  {
    if name !in chain[0].store && |chain| > 1 {
      ResolveKeepsNames(chain[1..], name);
      var (found, outer) := ResolveIn(chain[1..], name);
      var after := ResolveIn(chain, name).1;
      assert after[1..] == outer;
      forall i | 0 <= i < |after| ensures WellNamed(after[i]) {
        if i > 0 {
          assert after[i] == outer[i - 1];
        }
      }
    }
  }

  /** Resolution changes nothing but free-symbol bookkeeping: no counter
      moves, free lists only grow at the end, and no binding of another name
      changes. */
  lemma {:induction false} ResolveOnlyCaptures(chain: seq<TableState>, name: string)
    requires chain != []
    requires forall i | 0 <= i < |chain| :: WellNamed(chain[i])
    ensures var after := ResolveIn(chain, name).1;
      |after| == |chain|
      && forall i | 0 <= i < |chain| ::
           after[i].numDefinitions == chain[i].numDefinitions
           && chain[i].freeSymbols <= after[i].freeSymbols
           && (forall n | n != name :: (n in after[i].store <==> n in chain[i].store))
           && (forall n | n != name && n in chain[i].store :: after[i].store[n] == chain[i].store[n])
    decreases |chain|
  {
    if name !in chain[0].store && |chain| > 1 {
      ResolveKeepsNames(chain[1..], name);
      ResolveOnlyCaptures(chain[1..], name);
      var outer := ResolveIn(chain[1..], name).1;
      var after := ResolveIn(chain, name).1;
      forall i | 0 < i < |chain|
        ensures after[i] == outer[i - 1] && chain[i] == chain[1..][i - 1]
      {
      }
    }
  }

  /** Resolving a name again gives the same symbol and changes nothing more:
      a captured name is now bound as Free in the table, so it is not
      appended to the free symbols twice. */
  lemma {:induction false} ResolveTwice(chain: seq<TableState>, name: string)
    requires chain != []
    requires forall i | 0 <= i < |chain| :: WellNamed(chain[i])
    ensures var (r, after) := ResolveIn(chain, name);
      ResolveIn(after, name) == (r, after)
    decreases |chain|
  {
    if name !in chain[0].store && |chain| > 1 {
      ResolveKeepsNames(chain[1..], name);
      ResolveTwice(chain[1..], name);
      var (found, outer) := ResolveIn(chain[1..], name);
      var after := ResolveIn(chain, name).1;
      assert after[1..] == outer;
    }
  }

  /** Globals a, b, a table enclosed in it with c, d, and one enclosed in
      that with e, f: from the innermost table a resolves to the Global
      symbol 0, e to its own Local 0, and c, a Local of the middle table, is
      captured as this table's Free symbol 0. */
  lemma NestedResolution()
    ensures var global := DefineAll(Empty, false, ["a", "b"]).1;
      var first := DefineAll(Empty, true, ["c", "d"]).1;
      var second := DefineAll(Empty, true, ["e", "f"]).1;
      var chain := [second, first, global];
      ResolveIn(chain, "a").0 == Some(Symbol("a", Global, 0))
      && ResolveIn(chain, "e").0 == Some(Symbol("e", Local, 0))
      && ResolveIn(chain, "c").0 == Some(Symbol("c", Free, 0))
      && ResolveIn(chain, "c").1[0].freeSymbols == [Symbol("c", Local, 0)]
  {
    var global := DefineAll(Empty, false, ["a", "b"]).1;
    var first := DefineAll(Empty, true, ["c", "d"]).1;
    var second := DefineAll(Empty, true, ["e", "f"]).1;
    assert global.store == map["a" := Symbol("a", Global, 0), "b" := Symbol("b", Global, 1)];
    assert first.store == map["c" := Symbol("c", Local, 0), "d" := Symbol("d", Local, 1)];
    assert second.store == map["e" := Symbol("e", Local, 0), "f" := Symbol("f", Local, 1)];
    var chain := [second, first, global];
    assert chain[1..] == [first, global] && chain[1..][1..] == [global];
    assert "a" !in second.store && "a" !in first.store && "a" in global.store;
    assert ResolveIn([first, global], "a").0 == Some(Symbol("a", Global, 0));
  }
}
