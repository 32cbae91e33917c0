/** The macro definition pass: every `let name = macro(...) { ... };` of a
    program is bound in the environment and taken out of the program; the
    other statements stay, in their order. */
module MacroDefinition {
  import opened Wrappers
  import opened Runtime
  import opened Ast
  import opened Objects

  /** A `let` whose value is a macro literal: the bound name and the literal's
      parameters and body. */
  datatype Definition = Definition(name: Identifier, parameters: seq<Identifier>, body: Block)

  /** `TryGetMacroDefinition`: only a `let` of a macro literal defines one. */
  function TryGetMacroDefinition(s: Statement): (r: Option<Definition>)
    ensures r.Some? <==> s.LetStatement? && s.value.MacroLiteral?
    ensures r.Some? ==> r.value == Definition(s.name, s.value.parameters, s.value.body)
  {
    match s
    case LetStatement(_, name, MacroLiteral(parameters, body)) => Some(Definition(name, parameters, body))
    case _ => None
  }

  /** The definitions of a statement list, in order. */
  function Definitions(statements: seq<Statement>): (r: seq<Definition>)
    ensures |r| <= |statements|
  {
    if statements == [] then []
    else
      var rest := Definitions(statements[1..]);
      match TryGetMacroDefinition(statements[0])
      case Some(d) => [d] + rest
      case None => rest
  }

  /** The statements that are not macro definitions, in order. */
  function Remaining(statements: seq<Statement>): (r: seq<Statement>)
  {
    if statements == [] then []
    else
      var rest := Remaining(statements[1..]);
      if TryGetMacroDefinition(statements[0]).Some? then rest else [statements[0]] + rest
  }

  /** The outcome of binding a list of definitions one after another: the
      store they leave, and whether one of them hit a name already bound (the
      bindings made before it stay). */
  datatype Binding = Binding(store: map<string, Obj>, clashed: bool)

  /** `AddMacro` for each definition in turn, stopping at the first clash. */
  function BindAll(store: map<string, Obj>, definitions: seq<Definition>, env: Environment): (r: Binding)
    decreases |definitions|
  {
    if definitions == [] then Binding(store, false)
    else
      var d := definitions[0];
      if d.name.value in store then Binding(store, true)
      else BindAll(store[d.name.value := Macro(d.parameters, d.body, env)], definitions[1..], env)
  }

  /** The names the definitions bind, none repeated and none already bound. */
  predicate FreshNames(store: map<string, Obj>, definitions: seq<Definition>) {
    (forall i | 0 <= i < |definitions| :: definitions[i].name.value !in store)
    && (forall i, j | 0 <= i < j < |definitions| :: definitions[i].name.value != definitions[j].name.value)
  }

  // ------------------------------------------------------------- properties

  /** The program left over keeps exactly the statements that do not define
      a macro: none of them defines one, each comes from the program, and
      together with the definitions they account for every statement. */
  lemma {:induction false} RemainingIsTheRest(statements: seq<Statement>)
    ensures forall s <- Remaining(statements) :: TryGetMacroDefinition(s).None? && s in statements
    ensures forall s <- statements :: TryGetMacroDefinition(s).None? ==> s in Remaining(statements)
    ensures |Remaining(statements)| + |Definitions(statements)| == |statements|
  {
    if statements != [] {
      RemainingIsTheRest(statements[1..]);
      assert forall s <- statements :: s == statements[0] || s in statements[1..];
    }
  }

  /** Each definition comes from a `let` of a macro literal in the program,
      and a program without one is left as it is. */
  lemma {:induction false} DefinitionsComeFromLets(statements: seq<Statement>)
    ensures forall d <- Definitions(statements) ::
      exists s <- statements :: TryGetMacroDefinition(s) == Some(d)
    ensures Definitions(statements) == [] ==> Remaining(statements) == statements
  {
    if statements != [] {
      DefinitionsComeFromLets(statements[1..]);
      var rest := statements[1..];
      assert forall s <- rest :: s in statements;
      if Definitions(statements) == [] {
        assert TryGetMacroDefinition(statements[0]).None?;
        assert [statements[0]] + rest == statements;
      }
    }
  }

  /** Order is kept across a split: the pass over `a + b` is the pass over
      `a` followed by the pass over `b`. */
  lemma {:induction false} PassSplits(a: seq<Statement>, b: seq<Statement>)
    ensures Remaining(a + b) == Remaining(a) + Remaining(b)
    ensures Definitions(a + b) == Definitions(a) + Definitions(b)
  {
    if a != [] {
      assert (a + b)[0] == a[0] && (a + b)[1..] == a[1..] + b;
      PassSplits(a[1..], b);
    } else {
      assert a + b == b;
    }
  }

  /** The bindings succeed exactly when the names are fresh: none already
      bound, none defined twice. */
  lemma {:induction false} BindAllSucceeds(store: map<string, Obj>, definitions: seq<Definition>, env: Environment)
    ensures !BindAll(store, definitions, env).clashed <==> FreshNames(store, definitions)
    decreases |definitions|
  {
    if definitions != [] {
      var d := definitions[0];
      var rest := definitions[1..];
      if d.name.value !in store {
        var next := store[d.name.value := Macro(d.parameters, d.body, env)];
        BindAllSucceeds(next, rest, env);
        if FreshNames(store, definitions) {
          assert FreshNames(next, rest) by {
            forall i | 0 <= i < |rest| ensures rest[i].name.value !in next {
              assert rest[i] == definitions[i + 1];
            }
            forall i, j | 0 <= i < j < |rest| ensures rest[i].name.value != rest[j].name.value {
              assert rest[i] == definitions[i + 1] && rest[j] == definitions[j + 1];
            }
          }
        }
        if FreshNames(next, rest) {
          assert FreshNames(store, definitions) by {
            forall i | 0 <= i < |definitions| ensures definitions[i].name.value !in store {
              if i > 0 { assert definitions[i] == rest[i - 1]; }
            }
            forall i, j | 0 <= i < j < |definitions| ensures definitions[i].name.value != definitions[j].name.value {
              assert definitions[j] == rest[j - 1];
              if i > 0 { assert definitions[i] == rest[i - 1]; }
            }
          }
        }
      } else {
        assert !FreshNames(store, definitions) by {
          assert definitions[0].name.value in store;
        }
      }
    }
  }

  /** Names bound before keep their binding, and every new name is one the
      definitions bind. */
  lemma {:induction false} BindAllKeeps(store: map<string, Obj>, definitions: seq<Definition>, env: Environment)
    ensures forall n | n in store :: n in BindAll(store, definitions, env).store && BindAll(store, definitions, env).store[n] == store[n]
    ensures forall n | n in BindAll(store, definitions, env).store && n !in store ::
      exists d <- definitions :: d.name.value == n
    decreases |definitions|
  {
    if definitions != [] {
      var d := definitions[0];
      var rest := definitions[1..];
      if d.name.value !in store {
        BindAllKeeps(store[d.name.value := Macro(d.parameters, d.body, env)], rest, env);
        assert forall e <- rest :: e in definitions;
      }
    }
  }

  /** When nothing clashes, each name is bound to its macro, closed over the
      environment. */
  lemma {:induction false} BindAllBinds(store: map<string, Obj>, definitions: seq<Definition>, env: Environment)
    requires !BindAll(store, definitions, env).clashed
    ensures forall d <- definitions ::
              d.name.value in BindAll(store, definitions, env).store
              && BindAll(store, definitions, env).store[d.name.value] == Macro(d.parameters, d.body, env)
    decreases |definitions|
  {
    if definitions != [] {
      var d := definitions[0];
      var rest := definitions[1..];
      var next := store[d.name.value := Macro(d.parameters, d.body, env)];
      BindAllBinds(next, rest, env);
      BindAllKeeps(next, rest, env);
      assert forall e <- definitions :: e == d || e in rest;
    }
  }

  // ------------------------------------------------------------ the pass

  /** `AddMacro`: binds the name to a macro closed over the environment;
      `Environment.Set` throws if the name is already bound. */
  method AddMacro(d: Definition, environment: Environment) returns (r: Result<Obj, Exception>)
    modifies environment
    ensures old(d.name.value in environment.store) ==>
      r == Failure(DuplicateKey) && environment.store == old(environment.store)
    ensures old(d.name.value !in environment.store) ==>
      r.Success? && environment.store == old(environment.store)[d.name.value := Macro(d.parameters, d.body, environment)]
  {
    r := environment.Set(d.name.value, Macro(d.parameters, d.body, environment));
  }

  /** `DefineMacros`: binds each definition in program order and returns the
      program without them; a clash throws out of the pass with the earlier
      bindings made. */
  method DefineMacros(program: Program, environment: Environment) returns (r: Result<Program, Exception>)
    modifies environment
    ensures var b := BindAll(old(environment.store), Definitions(program.statements), environment);
      environment.store == b.store
      && (b.clashed ==> r == Failure(DuplicateKey))
      && (!b.clashed ==> r == Success(Program(Remaining(program.statements))))
  {
    var statements := program.statements;
    var i := 0;
    while i < |statements|
      invariant 0 <= i <= |statements|
      invariant BindAll(environment.store, Definitions(statements[i..]), environment)
             == BindAll(old(environment.store), Definitions(statements), environment)
    {
      assert statements[i..][1..] == statements[i + 1..];
      var definition := TryGetMacroDefinition(statements[i]);
      if definition.Some? {
        var added := AddMacro(definition.value, environment);
        if added.Failure? {
          return Failure(added.error);
        }
      }
      i := i + 1;
    }
    assert statements[i..] == [];
    return Success(Program(Remaining(statements)));
  }
}
