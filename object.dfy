/** Model of object/object.go: the runtime values of Monkey, their type names, their printed form
    (Inspect) and the hash keys of the hashable ones. Go's nil Object is the value Absent; the
    evaluator produces it where the source returns nil. Error messages are kept as the format the
    source fills in together with its operands; Text renders them as fmt.Sprintf does. */
module Objects {
  import opened Wrappers
  import opened GoInt
  import opened Ast
  import opened Functools

  /** The ObjectType constants. */
  datatype ObjectType =
    | IntegerObj | BooleanObj | NullObj | ReturnValueObj | ErrorObj
    | FunctionObj | StringObj | BuiltinObj | ArrayObj | HashObj

  function TypeName(t: ObjectType): (s: string)
    ensures |s| > 0
  {
    match t
    case IntegerObj => "INTEGER"
    case BooleanObj => "BOOLEAN"
    case NullObj => "NULL"
    case ReturnValueObj => "RETURN_VALUE"
    case ErrorObj => "ERROR"
    case FunctionObj => "FUNCTION"
    case StringObj => "STRING"
    case BuiltinObj => "BUILTIN"
    case ArrayObj => "ARRAY"
    case HashObj => "HASH"
  }

  /** Distinct object types have distinct names, so messages tell them apart. */
  lemma TypeNameInjective(t: ObjectType, u: ObjectType)
    ensures TypeName(t) == TypeName(u) <==> t == u
  {
  }

  /** The function a Builtin object holds: one of the entries of the builtins table. */
  datatype BuiltinName = Len | First | Last | Rest | Push | Puts

  datatype HashKey = HashKey(keyType: ObjectType, value: Uint64)

  datatype Object =
    | Integer(intValue: Int64)
    | Boolean(boolValue: bool)
    | Null
    | ReturnValue(returned: Object)
    | Error(message: Message)
    | Function(parameters: seq<string>, body: BlockStatement, env: nat)
    | String(strValue: string)
    | Builtin(fn: BuiltinName)
    | Array(elements: seq<Object>)
    | Hash(pairs: map<HashKey, HashPair>)
    | Absent

  datatype HashPair = HashPair(key: Object, value: Object)

  /** The messages newError builds, one per format string of the source. */
  datatype Message =
    | IdentityNotFound(name: string)
    | NotAFunction(callee: ObjectType)
    | MissingParameters(expected: seq<string>, got: seq<Object>)
    | UnknownPrefixOperator(prefixOp: string, operand: ObjectType)
    | UnknownInfixOperator(leftType: ObjectType, infixOp: string, rightType: ObjectType)
    | TypeMismatch(mismatchLeft: ObjectType, mismatchOp: string, mismatchRight: ObjectType)
    | WrongArgumentCount(builtin: string, gotCount: nat, wantCount: nat)
    | ArgumentNotSupported(unsupportedIn: string, argType: ObjectType)

  /** Type(): calling it on nil is a nil dereference, so Absent has no type. */
  function Type(o: Object): (t: ObjectType)
    requires !o.Absent?
    ensures t == ErrorObj <==> o.Error?
    ensures t == ReturnValueObj <==> o.ReturnValue?
    ensures t == IntegerObj <==> o.Integer?
    ensures t == BooleanObj <==> o.Boolean?
  {
    match o
    case Integer(_) => IntegerObj
    case Boolean(_) => BooleanObj
    case Null => NullObj
    case ReturnValue(_) => ReturnValueObj
    case Error(_) => ErrorObj
    case Function(_, _, _) => FunctionObj
    case String(_) => StringObj
    case Builtin(_) => BuiltinObj
    case Array(_) => ArrayObj
    case Hash(_) => HashObj
  }

  /** strings.Join. */
  function Join(parts: seq<string>, sep: string): (s: string)
    ensures parts == [] ==> s == ""
    ensures |parts| == 1 ==> s == parts[0]
  {
    if parts == [] then ""
    else if |parts| == 1 then parts[0]
    else parts[0] + sep + Join(parts[1..], sep)
  }

  predicate AllPresent(xs: seq<Option<string>>) {
    forall i :: 0 <= i < |xs| ==> xs[i].Some?
  }

  function Values(xs: seq<Option<string>>): (vs: seq<string>)
    requires AllPresent(xs)
    ensures |vs| == |xs| && forall i :: 0 <= i < |xs| ==> vs[i] == xs[i].value
  {
    if xs == [] then [] else [xs[0].value] + Values(xs[1..])
  }

  /** Inspect(), or None where the model gives no text: on nil (a nil dereference, also inside a
      ReturnValue or an Array), for a Function (its text is the AST's String rendering) and for a
      Hash (its text depends on Go's map iteration order). */
  function Inspect(o: Object): (r: Option<string>)
    ensures o.Integer? ==> r == Some(IntToDecimal(o.intValue))
    ensures o.Boolean? ==> r == Some(if o.boolValue then "true" else "false")
    ensures o.Null? ==> r == Some("null")
    ensures o.String? ==> r == Some(o.strValue)
    ensures o.Absent? || o.Function? || o.Hash? ==> r.None?
    decreases o, 1
  {
    match o
    case Integer(v) => Some(IntToDecimal(v))
    case Boolean(b) => Some(if b then "true" else "false")
    case Null => Some("null")
    case ReturnValue(v) => Inspect(v)
    case Error(m) =>
      (match Text(m)
       case Some(t) => Some("ERROR: " + t)
       case None => None)
    case Function(_, _, _) => None
    case String(s) => Some(s)
    case Builtin(_) => Some("builtin function")
    case Array(elements) =>
      var parts := InspectAll(elements);
      if AllPresent(parts) then Some("[" + Join(Values(parts), ", ") + "]") else None
    case Hash(_) => None
    case Absent => None
  }

  /** The Inspect text of every element, in order, as functools.Map computes it. */
  function InspectAll(os: seq<Object>): (r: seq<Option<string>>)
    ensures |r| == |os| && forall i :: 0 <= i < |os| ==> r[i] == Inspect(os[i])
    decreases os, 0
  {
    Mapped(os, (x: Object) requires x in os => Inspect(x))
  }

  /** fmt.Sprintf of each format the evaluator and the builtins use. The arity message of
      applyFunction prints the arguments by Inspect, so it has no text when an argument has none.
      It prints the parameters with ast.Identifier's String(), which is taken to be the
      identifier's name (that renderer is not part of this model). */
  function Text(m: Message): (r: Option<string>)
    ensures r.None? <==> m.MissingParameters? && !AllPresent(InspectAll(m.got))
    ensures r.Some? ==> |r.value| > 0
    decreases m, 2
  {
    match m
    case IdentityNotFound(name) => Some("identity not found: " + name)
    case NotAFunction(t) => Some("not a function: " + TypeName(t))
    case MissingParameters(expected, got) =>
      var parts := InspectAll(got);
      if AllPresent(parts)
      then Some("missing parameters:\n\texpected: " + Join(expected, ", ") + "\n\tgot: " + Join(Values(parts), ", "))
      else None
    case UnknownPrefixOperator(op, t) => Some("unknown operator: " + op + TypeName(t))
    case UnknownInfixOperator(l, op, r) => Some("unknown operator: " + TypeName(l) + " " + op + " " + TypeName(r))
    case TypeMismatch(l, op, r) => Some("type mismatch: " + TypeName(l) + " " + op + " " + TypeName(r))
    case WrongArgumentCount(name, got, want) =>
      Some("wrong number of arguments for " + name + ". got=" + IntToDecimal(got) + ", want=" + IntToDecimal(want))
    case ArgumentNotSupported(name, t) => Some("argument to `" + name + "` not supported, got=" + TypeName(t))
  }

  /** Error.Inspect is "ERROR: " followed by the message, and a ReturnValue prints as what it
      carries; an Array prints its elements' texts between brackets, separated by ", ". */
  lemma InspectWrappers(o: Object)
    ensures o.Error? && Text(o.message).Some? ==> Inspect(o) == Some("ERROR: " + Text(o.message).value)
    ensures o.ReturnValue? ==> Inspect(o) == Inspect(o.returned)
    ensures o.Array? && AllPresent(InspectAll(o.elements)) ==>
              Inspect(o) == Some("[" + Join(Values(InspectAll(o.elements)), ", ") + "]")
    ensures o.Array? && !AllPresent(InspectAll(o.elements)) ==> Inspect(o).None?
  {
  }

  /** The two-element array of 1 and true prints as "[1, true]". */
  lemma InspectArrayExample(a: Object)
    requires a == Array([Integer(1), Boolean(true)])
    ensures Inspect(a) == Some("[1, true]")
  {
    var parts := InspectAll(a.elements);
    assert IntToDecimal(1) == "1";
    assert parts[0] == Some("1") && parts[1] == Some("true");
    assert AllPresent(parts);
    var vs := Values(parts);
    assert vs[0] == "1" && vs[1] == "true" && vs[1..] == ["true"];
    assert Join(vs, ", ") == "1" + ", " + "true" == "1, true";
    assert Inspect(a) == Some("[" + Join(vs, ", ") + "]");
    assert "[" + "1, true" + "]" == "[1, true]";
  }

  /** The arity message of applyFunction starts with "missing parameters:" whenever it has a text. */
  lemma MissingParametersText(expected: seq<string>, got: seq<Object>)
    ensures var t := Text(MissingParameters(expected, got));
            t.Some? ==> |t.value| >= 19 && t.value[..19] == "missing parameters:"
  {
  }

  // Hash keys.

  const FNV_OFFSET_BASIS: bv64 := 0xcbf29ce484222325
  const FNV_PRIME: bv64 := 0x100000001b3

  /** A Go byte. */
  newtype Byte = x: int | 0 <= x < 256

  /** One round of FNV-1a: xor the byte in, then multiply by the prime modulo 2^64. */
  function Mix(h: bv64, b: Byte): bv64 {
    (h ^ (b as bv64)) * FNV_PRIME
  }

  /** 64-bit FNV-1a (hash/fnv's New64a): one round per byte, from the offset basis. */
  function Fnv1a(bytes: seq<Byte>): bv64 {
    if bytes == [] then FNV_OFFSET_BASIS else Mix(Fnv1a(bytes[..|bytes| - 1]), bytes[|bytes| - 1])
  }

  /** `[]byte(s)`. */
  function Bytes(s: string): (b: seq<Byte>)
    requires IsByteString(s)
    ensures |b| == |s| && forall i :: 0 <= i < |s| ==> b[i] as int == s[i] as int
  {
    seq(|s|, i requires 0 <= i < |s| => s[i] as Byte)
  }

  function IntegerHashKey(v: Int64): (k: HashKey)
    ensures k.keyType == IntegerObj
    ensures v >= 0 ==> k.value == v
    ensures v < 0 ==> k.value == v + TWO_64
  {
    HashKey(IntegerObj, ToUint64(v))
  }

  function BooleanHashKey(b: bool): (k: HashKey)
    ensures k.keyType == BooleanObj && (k.value == 1 <==> b) && (k.value == 0 <==> !b)
  {
    HashKey(BooleanObj, if b then 1 else 0)
  }

  function StringHashKey(s: string): (k: HashKey)
    requires IsByteString(s)
    ensures k.keyType == StringObj
  {
    HashKey(StringObj, Fnv1a(Bytes(s)) as int)
  }

  /** The Hashable interface: Integer, Boolean and String have a HashKey, nothing else does. */
  function HashKeyOf(o: Object): (k: Option<HashKey>)
    requires o.String? ==> IsByteString(o.strValue)
    ensures k.Some? <==> o.Integer? || o.Boolean? || o.String?
    ensures k.Some? ==> k.value.keyType == Type(o)
  {
    match o
    case Integer(v) => Some(IntegerHashKey(v))
    case Boolean(b) => Some(BooleanHashKey(b))
    case String(s) => Some(StringHashKey(s))
    case _ => None
  }

  /** Equal hashable values have equal keys; integer and boolean keys are equal only for equal
      values; and keys of objects of different types never compare equal. */
  lemma HashKeysSeparate(a: Object, b: Object)
    requires a.String? ==> IsByteString(a.strValue)
    requires b.String? ==> IsByteString(b.strValue)
    requires HashKeyOf(a).Some? && HashKeyOf(b).Some?
    ensures a == b ==> HashKeyOf(a) == HashKeyOf(b)
    ensures Type(a) != Type(b) ==> HashKeyOf(a) != HashKeyOf(b)
    ensures !a.String? && !b.String? ==> (HashKeyOf(a) == HashKeyOf(b) <==> a == b)
  {
    if a.Integer? && b.Integer? {
      ToUint64Injective(a.intValue, b.intValue);
    }
  }

  /** One more byte is one more round: from the key of the first k bytes to that of k + 1. */
  lemma Fnv1aRound(b: seq<Byte>, k: nat, h: bv64, x: Byte)
    requires k < |b| && b[k] == x && Fnv1a(b[..k]) == h
    ensures Fnv1a(b[..k + 1]) == Mix(h, x)
  {
    assert b[..k + 1][..k] == b[..k];
  }

  /** The first six rounds of the key of "Hello World". */
  lemma HelloKeyPrefix(b: seq<Byte>)
    requires |b| == 11 && b[0] == 0x48 && b[1] == 0x65 && b[2] == 0x6c && b[3] == 0x6c && b[4] == 0x6f && b[5] == 0x20
    ensures Fnv1a(b[..6]) == 0x9224fde07c59fc71
  {
    assert b[..0] == [];
    Fnv1aRound(b, 0, FNV_OFFSET_BASIS, 0x48);
    assert Fnv1a(b[..1]) == 0xaf64054c86023237;
    Fnv1aRound(b, 1, 0xaf64054c86023237, 0x65);
    assert Fnv1a(b[..2]) == 0x09275307b5bb8156;
    Fnv1aRound(b, 2, 0x09275307b5bb8156, 0x6c);
    assert Fnv1a(b[..3]) == 0x49535019cd9c958e;
    Fnv1aRound(b, 3, 0x49535019cd9c958e, 0x6c);
    assert Fnv1a(b[..4]) == 0x3526fdd86112af06;
    Fnv1aRound(b, 4, 0x3526fdd86112af06, 0x6f);
    assert Fnv1a(b[..5]) == 0x63f0bfacf2c00f6b;
    Fnv1aRound(b, 5, 0x63f0bfacf2c00f6b, 0x20);
    assert Fnv1a(b[..6]) == 0x9224fde07c59fc71;
  }

  /** The key of "Hello World", round by round. */
  lemma HelloWorldKey(hello: string)
    requires |hello| == 11 && hello[0] == 'H' && hello[1] == 'e' && hello[2] == 'l' && hello[3] == 'l' && hello[4] == 'o' && hello[5] == ' ' && hello[6] == 'W' && hello[7] == 'o' && hello[8] == 'r' && hello[9] == 'l' && hello[10] == 'd'
    ensures IsByteString(hello) && StringHashKey(hello).value == 0x3d58dee72d4e0c27
  {
    var b := Bytes(hello);
    assert b[..11] == b;
    HelloKeyPrefix(b);
    Fnv1aRound(b, 6, 0x9224fde07c59fc71, 0x57);
    assert Fnv1a(b[..7]) == 0xaed78a734ce77492;
    Fnv1aRound(b, 7, 0xaed78a734ce77492, 0x6f);
    assert Fnv1a(b[..8]) == 0xffb53eebad4bc9e7;
    Fnv1aRound(b, 8, 0xffb53eebad4bc9e7, 0x72);
    assert Fnv1a(b[..9]) == 0xccc37f7777c7882f;
    Fnv1aRound(b, 9, 0xccc37f7777c7882f, 0x6c);
    assert Fnv1a(b[..10]) == 0xb7b9db00880c89d9;
    Fnv1aRound(b, 10, 0xb7b9db00880c89d9, 0x64);
    assert Fnv1a(b[..11]) == 0x3d58dee72d4e0c27;
  }

  /** The key of "brown fox", round by round. */
  lemma BrownFoxKey(fox: string)
    requires |fox| == 9 && fox[0] == 'b' && fox[1] == 'r' && fox[2] == 'o' && fox[3] == 'w' && fox[4] == 'n' && fox[5] == ' ' && fox[6] == 'f' && fox[7] == 'o' && fox[8] == 'x'
    ensures IsByteString(fox) && StringHashKey(fox).value == 0x8ec6301b79a48e16
  {
    var b := Bytes(fox);
    assert b[..0] == [] && b[..9] == b;
    Fnv1aRound(b, 0, FNV_OFFSET_BASIS, 0x62);
    assert Fnv1a(b[..1]) == 0xaf63df4c8601f1a5;
    Fnv1aRound(b, 1, 0xaf63df4c8601f1a5, 0x72);
    assert Fnv1a(b[..2]) == 0x08a64607b54df055;
    Fnv1aRound(b, 2, 0x08a64607b54df055, 0x6f);
    assert Fnv1a(b[..3]) == 0x00793919136f328e;
    Fnv1aRound(b, 3, 0x00793919136f328e, 0x77);
    assert Fnv1a(b[..4]) == 0x3d2efe9c05f39d1b;
    Fnv1aRound(b, 4, 0x3d2efe9c05f39d1b, 0x6e);
    assert Fnv1a(b[..5]) == 0xea78181e1cf48dcf;
    Fnv1aRound(b, 5, 0xea78181e1cf48dcf, 0x20);
    assert Fnv1a(b[..6]) == 0x5e9eea2b338d2d1d;
    Fnv1aRound(b, 6, 0x5e9eea2b338d2d1d, 0x66);
    assert Fnv1a(b[..7]) == 0x5535626898e44801;
    Fnv1aRound(b, 7, 0x5535626898e44801, 0x6f);
    assert Fnv1a(b[..8]) == 0xadfea5bbcbe712ea;
    Fnv1aRound(b, 8, 0xadfea5bbcbe712ea, 0x78);
    assert Fnv1a(b[..9]) == 0x8ec6301b79a48e16;
  }

  /** The keys of the two strings of the source's test: "Hello World" and "brown fox" differ. */
  lemma StringHashKeysOfTest(hello: string, fox: string)
    requires hello == "Hello World" && fox == "brown fox"
    ensures IsByteString(hello) && IsByteString(fox)
    ensures StringHashKey(hello) != StringHashKey(fox)
  {
    HelloWorldKey(hello);
    BrownFoxKey(fox);
  }
}
