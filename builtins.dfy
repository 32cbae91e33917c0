/** The builtin functions: `len`, `first`, `last`, `rest`, `push`, `keys` and
    `puts`, each a switch over the shape of its argument list that returns a
    new object or an Error object with a fixed message. */
module Builtins {
  import opened Wrappers
  import opened Runtime
  import opened Objects
  import Formatting

  /** The name each builtin is registered under. */
  function Name(fn: BuiltinFn): string {
    match fn
    case Len => "len"
    case First => "first"
    case Last => "last"
    case Rest => "rest"
    case Push => "push"
    case Keys => "keys"
    case Puts => "puts"
  }

  /** `Builtins.Get`: the builtin registered under a name, or None (C# null). */
  function Get(name: string): (r: Option<BuiltinFn>)
    ensures r.Some? ==> Name(r.value) == name
  {
    if name == "len" then Some(Len)
    else if name == "first" then Some(First)
    else if name == "last" then Some(Last)
    else if name == "rest" then Some(Rest)
    else if name == "push" then Some(Push)
    else if name == "keys" then Some(Keys)
    else if name == "puts" then Some(Puts)
    else None
  }

  /** Get and Name are inverse: exactly the seven registered names find a builtin. */
  lemma GetName(name: string, fn: BuiltinFn)
    ensures Get(Name(fn)) == Some(fn)
    ensures Get(name) == Some(fn) <==> Name(fn) == name
  {
  }

  /** `wrong number of arguments. got=N, want=M`. */
  function WrongArity(got: nat, want: nat): Obj {
    Error("wrong number of arguments. got=" + Formatting.NatToString(got) + ", want=" + Formatting.NatToString(want))
  }

  /** `TypeName(TypeOf(o))`: the type an error message reports. */
  function TypeText(o: Obj): string {
    TypeName(TypeOf(o))
  }

  /** A .NET count as a `long`; counts never exceed int.MaxValue, where the
      conversion is exact. */
  function Count(n: nat): int64 {
    Wrap64(n)
  }

  /** The length .NET's `String.Length` reports: the number of UTF-16 code
      units, two for each character beyond the Basic Multilingual Plane. */
  function Utf16Length(s: string): (n: nat)
    ensures |s| <= n <= 2 * |s|
  {
    if s == [] then 0
    else (if s[0] as int >= 0x1_0000 then 2 else 1) + Utf16Length(s[1..])
  }

  /** A string of Basic Multilingual Plane characters has one code unit per
      character. */
  lemma {:induction false} Utf16LengthOfPlane(s: string)
    requires forall i | 0 <= i < |s| :: s[i] as int < 0x1_0000
    ensures Utf16Length(s) == |s|
  {
    if s != [] {
      Utf16LengthOfPlane(s[1..]);
    }
  }

  /** The code units of a concatenation are those of its parts, so a
      character beyond the plane adds two wherever it stands. */
  lemma {:induction false} Utf16LengthAppend(a: string, b: string)
    ensures Utf16Length(a + b) == Utf16Length(a) + Utf16Length(b)
  {
    if a != [] {
      assert (a + b)[0] == a[0] && (a + b)[1..] == a[1..] + b;
      Utf16LengthAppend(a[1..], b);
    } else {
      assert a + b == b;
    }
  }

  /** `len`: the length of a string, an array or a hash. */
  function LenOf(args: seq<Obj>): (r: Obj)
    ensures |args| != 1 ==> r == WrongArity(|args|, 1)
    ensures r.Integer? <==> |args| == 1 && (args[0].String? || args[0].Array? || args[0].Hash?)
    ensures |args| == 1 && args[0].String? && Utf16Length(args[0].chars) <= MaxInt64 ==>
      r == Integer(Utf16Length(args[0].chars))
    ensures |args| == 1 && args[0].Array? && |args[0].elements| <= MaxInt64 ==> r == Integer(|args[0].elements|)
    ensures |args| == 1 && args[0].Hash? && |args[0].pairs| <= MaxInt64 ==> r == Integer(|args[0].pairs|)
    ensures |args| == 1 && !(args[0].String? || args[0].Array? || args[0].Hash?) ==>
      r == Error("argument to `len` not supported, got " + TypeName(TypeOf(args[0])))
  {
    if |args| != 1 then WrongArity(|args|, 1)
    else match args[0]
      case String(s) => Integer(Count(Utf16Length(s)))
      case Array(elements) => Integer(Count(|elements|))
      case Hash(pairs) => Integer(Count(|pairs|))
      case arg => Error("argument to `len` not supported, got " + TypeText(arg))
  }

  /** `first`: element 0 of a non-empty array, Null for an empty one. */
  function FirstOf(args: seq<Obj>): (r: Obj)
    ensures |args| != 1 ==> r == WrongArity(|args|, 1)
    ensures |args| == 1 && args[0].Array? && args[0].elements != [] ==> r == args[0].elements[0]
    ensures |args| == 1 && !args[0].Array? ==>
      r == Error("argument to `first` must be Array, got " + TypeName(TypeOf(args[0])))
  {
    if |args| != 1 then WrongArity(|args|, 1)
    else match args[0]
      case Array(elements) => if elements != [] then elements[0] else Null
      case arg => Error("argument to `first` must be Array, got " + TypeText(arg))
  }

  /** `last`: the final element of a non-empty array, Null for an empty one. */
  function LastOf(args: seq<Obj>): (r: Obj)
    ensures |args| != 1 ==> r == WrongArity(|args|, 1)
    ensures |args| == 1 && args[0].Array? && args[0].elements != [] ==> r == args[0].elements[|args[0].elements| - 1]
    ensures |args| == 1 && !args[0].Array? ==>
      r == Error("argument to `last` must be Array, got " + TypeName(TypeOf(args[0])))
  {
    if |args| != 1 then WrongArity(|args|, 1)
    else match args[0]
      case Array(elements) => if elements != [] then elements[|elements| - 1] else Null
      case arg => Error("argument to `last` must be Array, got " + TypeText(arg))
  }

  /** `rest`: a new array without element 0; the argument is left as it was. */
  function RestOf(args: seq<Obj>): (r: Obj)
    ensures |args| != 1 ==> r == WrongArity(|args|, 1)
    ensures |args| == 1 && !args[0].Array? ==>
      r == Error("argument to `rest` must be Array, got " + TypeName(TypeOf(args[0])))
    ensures r.Array? ==> |args| == 1 && |r.elements| == |args[0].elements| - 1
  {
    if |args| != 1 then WrongArity(|args|, 1)
    else match args[0]
      case Array(elements) => if elements != [] then Array(elements[1..]) else Null
      case arg => Error("argument to `rest` must be Array, got " + TypeText(arg))
  }

  /** `push`: a new array with the item appended, or a new hash with the pair
      added. `ImmutableDictionary.Add` of a key already present returns the
      dictionary unchanged when the value is equal and throws otherwise. */
  function PushOf(args: seq<Obj>): (r: Result<Obj, Exception>)
    ensures r.Failure? ==> r.error == DuplicateKey
    ensures r.Failure? <==> (|args| == 3 && args[0].Hash? && KeyOf(args[1]).Some?
      && KeyOf(args[1]).value in args[0].pairs && args[0].pairs[KeyOf(args[1]).value] != args[2])
    ensures args == [] ==> r == Success(Error("no arguments provided for `push`"))
    ensures args != [] && !args[0].Array? && !args[0].Hash? ==>
      r == Success(Error("argument to `push` must be Array or Hash, got " + TypeName(TypeOf(args[0]))))
    ensures args != [] && args[0].Array? && |args| != 2 ==> r == Success(WrongArity(|args|, 2))
    ensures args != [] && args[0].Hash? && |args| != 3 ==> r == Success(WrongArity(|args|, 3))
    ensures |args| == 3 && args[0].Hash? && KeyOf(args[1]).None? ==>
      r == Success(Error("second argument to `push` must be hashable, got " + TypeName(TypeOf(args[1]))))
    ensures |args| == 3 && args[0].Hash? && KeyOf(args[1]).Some? && r.Success? ==>
      r.value == Hash(args[0].pairs[KeyOf(args[1]).value := args[2]])
  {
    if args == [] then Success(Error("no arguments provided for `push`"))
    else match args[0]
      case Array(elements) =>
        if |args| == 2 then Success(Array(elements + [args[1]]))
        else Success(WrongArity(|args|, 2))
      case Hash(pairs) =>
        if |args| == 3 then
          match KeyOf(args[1])
          case Some(key) =>
            if key !in pairs then Success(Hash(pairs[key := args[2]]))
            else if pairs[key] == args[2] then Success(Hash(pairs))
            else Failure(DuplicateKey)
          case None => Success(Error("second argument to `push` must be hashable, got " + TypeText(args[1])))
        else Success(WrongArity(|args|, 3))
      case arg => Success(Error("argument to `push` must be Array or Hash, got " + TypeText(arg)))
  }

  /** The keys of a dictionary in some order: `ImmutableDictionary` does not
      promise one, so any enumeration of the key set will do. */
  ghost function KeySeq(keys: set<HashKey>): (r: seq<HashKey>)
    ensures |r| == |keys|
    ensures forall k :: k in r <==> k in keys
    decreases |keys|
  {
    if keys == {} then []
    else
      var k :| k in keys;
      [k] + KeySeq(keys - {k})
  }

  /** `keys`: an array holding one key object per pair of the hash. */
  ghost function KeysOf(args: seq<Obj>): (r: Obj)
    ensures |args| != 1 ==> r == WrongArity(|args|, 1)
    ensures |args| == 1 && args[0].Hash? ==> r.Array? && |r.elements| == |args[0].pairs|
    ensures |args| == 1 && !args[0].Hash? ==>
      r == Error("argument to `keys` must be Hash, got " + TypeName(TypeOf(args[0])))
  {
    if |args| != 1 then WrongArity(|args|, 1)
    else match args[0]
      case Hash(pairs) =>
        var keys := KeySeq(pairs.Keys);
        Array(seq(|keys|, i requires 0 <= i < |keys| => KeyObject(keys[i])))
      case arg => Error("argument to `keys` must be Hash, got " + TypeText(arg))
  }

  /** The elements `keys` returns are exactly the key objects of the hash. */
  lemma KeysElements(pairs: map<HashKey, Obj>)
    ensures var r := KeysOf([Hash(pairs)]);
      (forall i | 0 <= i < |r.elements| :: KeyOf(r.elements[i]).Some? && KeyOf(r.elements[i]).value in pairs)
      && (forall k | k in pairs :: KeyObject(k) in r.elements)
  {
    var keys := KeySeq(pairs.Keys);
    var r := KeysOf([Hash(pairs)]);
    assert r.elements == seq(|keys|, i requires 0 <= i < |keys| => KeyObject(keys[i]));
    forall i | 0 <= i < |r.elements|
      ensures KeyOf(r.elements[i]).Some? && KeyOf(r.elements[i]).value in pairs
    {
      KeyRoundTrip(r.elements[i], keys[i]);
      assert keys[i] in keys;
    }
    forall k | k in pairs ensures KeyObject(k) in r.elements {
      assert k in keys;
      var i :| 0 <= i < |keys| && keys[i] == k;
      assert r.elements[i] == KeyObject(k);
    }
  }

  /** Calling a builtin on an argument list. `puts` writes each argument's
      text to the console, which is not modelled, and returns Null. */
  ghost function Apply(fn: BuiltinFn, args: seq<Obj>): (r: Result<Obj, Exception>)
    ensures r.Failure? ==> fn == Push
  {
    match fn
    case Len => Success(LenOf(args))
    case First => Success(FirstOf(args))
    case Last => Success(LastOf(args))
    case Rest => Success(RestOf(args))
    case Push => PushOf(args)
    case Keys => Success(KeysOf(args))
    case Puts => Success(Null)
  }

  /** `push` onto an array adds one to its `len`, and `last` of the result is
      the pushed item. */
  lemma PushArrayLaws(elements: seq<Obj>, item: Obj)
    ensures PushOf([Array(elements), item]) == Success(Array(elements + [item]))
    ensures LenOf([Array(elements + [item])]) == Integer(Count(|elements| + 1))
    ensures LastOf([Array(elements + [item])]) == item
  {
  }

  /** `first` and `rest` split a non-empty array: putting the first element
      back in front of the rest gives the original elements. */
  lemma FirstRestSplit(elements: seq<Obj>)
    requires elements != []
    ensures var rest := RestOf([Array(elements)]);
      rest.Array? && [FirstOf([Array(elements)])] + rest.elements == elements
  {
    assert [elements[0]] + elements[1..] == elements;
  }

  /** An empty array has no first, last or rest: each gives Null. */
  lemma EmptyArrayGivesNull()
    ensures FirstOf([Array([])]) == Null && LastOf([Array([])]) == Null && RestOf([Array([])]) == Null
  {
  }

  /** `keys` of a hash has the hash's `len`. */
  lemma KeysLen(pairs: map<HashKey, Obj>)
    ensures LenOf([KeysOf([Hash(pairs)])]) == LenOf([Hash(pairs)])
  {
    var keys := KeysOf([Hash(pairs)]);
    assert keys.Array? && |keys.elements| == |pairs|;
    assert LenOf([keys]) == Integer(Count(|keys.elements|));
    assert LenOf([Hash(pairs)]) == Integer(Count(|pairs|));
  }

  /** Pushing a pair with a new key onto a hash makes that key one of its keys. */
  lemma PushedKeyIsKey(pairs: map<HashKey, Obj>, key: Obj, value: Obj)
    requires KeyOf(key).Some? && KeyOf(key).value !in pairs
    ensures PushOf([Hash(pairs), key, value]) == Success(Hash(pairs[KeyOf(key).value := value]))
    ensures key in KeysOf([Hash(pairs[KeyOf(key).value := value])]).elements
  {
    var k := KeyOf(key).value;
    KeyRoundTrip(key, k);
    KeysElements(pairs[k := value]);
    assert k in pairs[k := value];
  }

  /** The arity messages count every argument: `push` on an array with one
      argument or with three reports got=1 or got=3 and want=2. */
  lemma PushArity(elements: seq<Obj>, extra: seq<Obj>)
    requires |extra| != 1
    ensures PushOf([Array(elements)] + extra) == Success(WrongArity(1 + |extra|, 2))
  {
  }
}
