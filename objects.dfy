/** Runtime values: the object records the evaluator, the builtins and the VM
    pass around, their type tags and printed forms, the hashable keys, and the
    evaluator's name-to-value environment. Object.cs shows Integer, Boolean,
    Null, ReturnValue and Error; String, Array, Hash, Builtin and Macro are
    used by the other files and are given the fields those files read. */
module Objects {
  import opened Wrappers
  import opened Runtime
  import opened Ast
  import Formatting

  /** `enum ObjectType`, extended with the tags of the records that Object.cs
      does not show. */
  datatype ObjectType =
    | ErrorType | NullType | IntegerType | BooleanType | ReturnValueType
    | StringType | ArrayType | HashType | BuiltinType | MacroType

  /** The name `ObjectType.ToString()` prints in error messages. */
  function TypeName(t: ObjectType): string {
    match t
    case ErrorType => "Error"
    case NullType => "Null"
    case IntegerType => "Integer"
    case BooleanType => "Boolean"
    case ReturnValueType => "ReturnValue"
    case StringType => "String"
    case ArrayType => "Array"
    case HashType => "Hash"
    case BuiltinType => "Builtin"
    case MacroType => "Macro"
  }

  /** The hashable objects (`IHashable`) as dictionary keys: integers,
      booleans and strings, compared by value as records are. */
  datatype HashKey = IntegerKey(i: int64) | BooleanKey(b: bool) | StringKey(s: string)

  /** The builtin functions a `Builtin` object wraps. */
  datatype BuiltinFn = Len | First | Last | Rest | Push | Keys | Puts

  datatype Obj =
    | Integer(intValue: int64)
    | Boolean(boolValue: bool)
    | Null
    | ReturnValue(inner: Obj)
    | Error(message: string)
    | String(chars: string)
    | Array(elements: seq<Obj>)
    | Hash(pairs: map<HashKey, Obj>)
    | Builtin(fn: BuiltinFn)
    | Macro(parameters: seq<Identifier>, body: Block, env: Environment)

  /** `GetObjectType()`: each record reports its own tag, and the tag's
      name is the record's own class name. */
  function TypeOf(o: Obj): (t: ObjectType)
    ensures t == IntegerType <==> o.Integer?
    ensures t == BooleanType <==> o.Boolean?
    ensures t == NullType <==> o.Null?
    ensures t == StringType <==> o.String?
    ensures t == ReturnValueType <==> o.ReturnValue?
    ensures t == ErrorType <==> o.Error?
    ensures ClassName(o) == "Monkey.Object." + TypeName(t)
  {
    match o
    case Integer(_) => IntegerType
    case Boolean(_) => BooleanType
    case Null => NullType
    case ReturnValue(_) => ReturnValueType
    case Error(_) => ErrorType
    case String(_) => StringType
    case Array(_) => ArrayType
    case Hash(_) => HashType
    case Builtin(_) => BuiltinType
    case Macro(_, _, _) => MacroType
  }

  /** Distinct tags print differently, so an error message names the type. */
  lemma TypeNameInjective(s: ObjectType, t: ObjectType)
    requires TypeName(s) == TypeName(t)
    ensures s == t
  {
  }

  /** `GetType()` as the VM's messages print it: the record's full .NET type name. */
  function ClassName(o: Obj): string {
    "Monkey.Object." + match o
      case Integer(_) => "Integer"
      case Boolean(_) => "Boolean"
      case Null => "Null"
      case ReturnValue(_) => "ReturnValue"
      case Error(_) => "Error"
      case String(_) => "String"
      case Array(_) => "Array"
      case Hash(_) => "Hash"
      case Builtin(_) => "Builtin"
      case Macro(_, _, _) => "Macro"
  }

  /** `Inspect()` of the five records Object.cs defines; None for the others,
      whose text this model does not include. */
  function Inspect(o: Obj): (r: Option<string>)
    ensures (o.Integer? || o.Boolean? || o.Null? || o.Error?) ==> r.Some?
    ensures o.Boolean? ==> (r == Some("true") || r == Some("false")) && (r == Some("true") <==> o.boolValue)
    ensures o.Null? ==> r == Some("null")
    ensures o.Error? ==> r.Some? && |r.value| == 7 + |o.message| && r.value[..7] == "ERROR: " && r.value[7..] == o.message
  {
    match o
    case Integer(v) => Some(Formatting.IntToString(v))
    case Boolean(b) => Some(if b then "true" else "false")
    case Null => Some("null")
    case ReturnValue(v) => Inspect(v)
    case Error(m) => Some("ERROR: " + m)
    case _ => None
  }

  /** The object inside any number of ReturnValue wrappers. */
  function Unwrapped(o: Obj): (r: Obj)
    ensures !r.ReturnValue?
  {
    if o.ReturnValue? then Unwrapped(o.inner) else o
  }

  /** A ReturnValue prints as what it carries, however deeply nested. */
  lemma {:induction false} InspectUnwrapped(o: Obj)
    ensures Inspect(o) == Inspect(Unwrapped(o))
  {
    if o.ReturnValue? {
      InspectUnwrapped(o.inner);
    }
  }

  /** An Integer prints as its decimal numeral: a minus sign exactly for a
      negative value, then digits that read back as the magnitude. */
  lemma InspectInteger(v: int64)
    ensures Inspect(Integer(v)).Some?
    ensures var s := Inspect(Integer(v)).value;
      var digits := if v < 0 then s[1..] else s;
      (s[0] == '-' <==> v < 0) && Formatting.AllDigits(digits) && Formatting.DigitsValue(digits) == Abs(v)
  {
    var s := Formatting.IntToString(v);
    if v < 0 {
      assert s[1..] == Formatting.NatToString(-(v as int));
      Formatting.NatToStringRoundTrip(-(v as int));
    } else {
      Formatting.NatToStringRoundTrip(v);
    }
  }

  /** `key is IHashable`: the key of an integer, boolean or string object. */
  function KeyOf(o: Obj): (r: Option<HashKey>)
    ensures r.Some? <==> (o.Integer? || o.Boolean? || o.String?)
  {
    match o
    case Integer(v) => Some(IntegerKey(v))
    case Boolean(b) => Some(BooleanKey(b))
    case String(s) => Some(StringKey(s))
    case _ => None
  }

  /** The object a key stands for, as `keys` returns it. */
  function KeyObject(k: HashKey): Obj {
    match k
    case IntegerKey(v) => Integer(v)
    case BooleanKey(b) => Boolean(b)
    case StringKey(s) => String(s)
  }

  /** KeyOf and KeyObject are inverse: a key is the key of exactly one object. */
  lemma KeyRoundTrip(o: Obj, k: HashKey)
    ensures KeyOf(KeyObject(k)) == Some(k)
    ensures KeyOf(o) == Some(k) <==> o == KeyObject(k)
  {
  }

  /** `class Environment`: the evaluator's bindings, a dictionary that the
      object updates in place. */
  class Environment {
    var store: map<string, Obj>

    constructor ()
      ensures store == map[]
    {
      store := map[];
    }

    /** `Get`: the bound object, or None (C# null) for an unbound name. */
    function Get(name: string): (r: Option<Obj>)
      reads this
      ensures r.Some? <==> name in store
      ensures r.Some? ==> r.value == store[name]
    {
      if name in store then Some(store[name]) else None
    }

    /** `Set`: `Dictionary.Add` binds a new name and returns the value; a
        name already bound makes it throw, so there is no rebinding. */
    method Set(name: string, value: Obj) returns (r: Result<Obj, Exception>)
      modifies this
      ensures old(name in store) ==> r == Failure(DuplicateKey) && store == old(store)
      ensures old(name !in store) ==> r == Success(value) && store == old(store)[name := value]
      ensures old(name !in store) ==> Get(name) == Some(value)
      ensures forall n | n != name :: Get(n) == old(Get(n))
      ensures r.Success? <==> old(Get(name)).None?
    {
      if name in store {
        return Failure(DuplicateKey);
      }
      store := store[name := value];
      return Success(value);
    }
  }
}
