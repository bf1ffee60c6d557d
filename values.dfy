/** The runtime values a paused Ruby program hands to the variable inspector.

    Ruby reflection (`class`, `instance_variables`, `respond_to?(:debug_representation)`,
    `ancestors`, `Module#name`) is replaced by fields of these records: every value
    carries the descriptor of its exact class, its instance variables in definition
    order and, when its class implements the hook, its debug representation. */
module Values {

  datatype Option<+T> = None | Some(value: T)

  /** A Ruby exception: its message and the frames of its backtrace. */
  datatype Exception = Exception(message: string, backtrace: seq<string>)

  /** The outcome of a Ruby call: it returns a value or raises an exception. */
  datatype Call<+T> = Returns(value: T) | Raises(exception: Exception)

  /** The identity of a class or module: a constant path, or an anonymous
      class such as `Class.new(String)`. */
  datatype ClassId = Named(path: string) | Anonymous(serial: nat)

  datatype Kind = IsClass | IsModule

  /** A class or module. `ancestors` is what `Module#ancestors` returns, the
      class itself written as `Itself`. `name` is what `Module#name` does when
      called on it (a name, nil for an anonymous class, or an exception), and
      `toS` is what its `to_s` does. */
  datatype ClassDesc = ClassDesc(
    id: ClassId,
    kind: Kind,
    ancestors: seq<Ancestor>,
    name: Call<Option<string>>,
    toS: Call<string>)

  datatype Ancestor = Itself | Other(desc: ClassDesc)

  /** A label a Variable can carry: a String or a Symbol. `text` is its `to_s`. */
  datatype Name = Text(text: string) | Symbol(text: string)

  /** An inspected value: its exact class, its shape (what `===` against the
      core's classes sees, so instances of subclasses keep their parent's shape),
      its instance variables in definition order, and the value its
      `debug_representation` hook returns when it has one. */
  datatype Value = Value(cls: ClassDesc, shape: Shape, ivars: seq<IVar>, debugRepr: Option<Value>)

  datatype IVar = IVar(name: string, value: Value)

  /** A member of a Struct, by declared name. */
  datatype Field = Field(name: string, value: Value)

  /** One entry of a Hash, in insertion order. */
  datatype Pair = Pair(key: Value, value: Value)

  datatype Shape =
    | Plain                                           // nil, true, false, Float, any other object
    | SymbolObject(symbol: string)                    // a Symbol such as :a
    | Integer(n: int)
    | String(chars: string, encoding: string)
    | Array(elements: seq<Value>)
    | Hash(entries: seq<Pair>)
    | Struct(members: seq<Field>)
    | Range(first: Value, last: Value, excludeEnd: bool)  // nil bounds are NIL
    | Module(desc: ClassDesc)                         // a Class or Module object
    | Encoding(encodingName: string)
    | NaiveString(str: Value)                         // VariableInspector::NaiveString

  /** The class descriptors of the core classes, with the ancestor lists a bare
      interpreter reports for them. */
  function CoreClass(path: string, kind: Kind, above: seq<Ancestor>): ClassDesc
  {
    ClassDesc(Named(path), kind, [Itself] + above, Returns(Some(path)), Returns(path))
  }

  const BASIC_OBJECT := CoreClass("BasicObject", IsClass, [])
  const KERNEL := CoreClass("Kernel", IsModule, [])
  const OBJECT := CoreClass("Object", IsClass, [Other(KERNEL), Other(BASIC_OBJECT)])
  const ABOVE_OBJECT := [Other(OBJECT), Other(KERNEL), Other(BASIC_OBJECT)]
  const MODULE := CoreClass("Module", IsClass, ABOVE_OBJECT)
  const CLASS := CoreClass("Class", IsClass, [Other(MODULE)] + ABOVE_OBJECT)
  const COMPARABLE := CoreClass("Comparable", IsModule, [])
  const ENUMERABLE := CoreClass("Enumerable", IsModule, [])
  const NUMERIC := CoreClass("Numeric", IsClass, [Other(COMPARABLE)] + ABOVE_OBJECT)
  const INTEGER := CoreClass("Integer", IsClass, [Other(NUMERIC), Other(COMPARABLE)] + ABOVE_OBJECT)
  const ARRAY := CoreClass("Array", IsClass, [Other(ENUMERABLE)] + ABOVE_OBJECT)
  const NIL_CLASS := CoreClass("NilClass", IsClass, ABOVE_OBJECT)
  const ENCODING := CoreClass("Encoding", IsClass, ABOVE_OBJECT)
  const NAIVE_STRING := CoreClass("DEBUGGER__::VariableInspector::NaiveString", IsClass, ABOVE_OBJECT)

  const NIL := Value(NIL_CLASS, Plain, [], None)

  function IntegerValue(n: int): Value {
    Value(INTEGER, Integer(n), [], None)
  }

  function ArrayValue(elements: seq<Value>): Value {
    Value(ARRAY, Array(elements), [], None)
  }

  function EncodingValue(encodingName: string): Value {
    Value(ENCODING, Encoding(encodingName), [], None)
  }

  /** `NaiveString.new(str)`. */
  function NaiveStringValue(str: Value): Value {
    Value(NAIVE_STRING, NaiveString(str), [], None)
  }

  /** The Class or Module object that `d` describes. The instance variables of
      class objects are not part of this model. */
  function ClassObject(d: ClassDesc): Value
  {
    Value(if d.kind == IsClass then CLASS else MODULE, Module(d), [], None)
  }

  /** `obj.class`: the class object of a value's exact class. */
  function ClassOf(v: Value): Value {
    ClassObject(v.cls)
  }

  /** `NaiveString#==`: `other` must be an instance of exactly the receiver's
      class, and the wrapped strings must be equal. */
  function NaiveStringEquals(self: Value, other: Value): (b: bool)
    requires self.shape.NaiveString?
    ensures other == self ==> b
    ensures other.cls.id != self.cls.id || !other.shape.NaiveString? ==> !b
  {
    other.cls.id == self.cls.id && other.shape.NaiveString? && self.shape.str == other.shape.str
  }

  /** Ruby's `==` between inspected values: the core's own `NaiveString#==`,
      and equality of the value records for every other class. */
  predicate RubyEquals(a: Value, b: Value) {
    if a.shape.NaiveString? then NaiveStringEquals(a, b) else a == b
  }

  /** `==` on inspected values is symmetric. */
  lemma RubyEqualsSymmetric(a: Value, b: Value)
    requires RubyEquals(a, b)
    ensures RubyEquals(b, a)
  {
    if a.shape.NaiveString? {
      assert b.shape.NaiveString? && NaiveStringEquals(b, a);
    }
  }

  /** The implication form of `RubyEqualsSymmetric`, for use inside definitions. */
  lemma RubyEqualsConverse(a: Value, b: Value)
    ensures RubyEquals(a, b) ==> RubyEquals(b, a)
  {
    if RubyEquals(a, b) {
      RubyEqualsSymmetric(a, b);
    }
  }
}
