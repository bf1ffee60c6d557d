/** `DEBUGGER__::Variable`: one named slot of an inspected value, with its
    memoised display text and its type name. */
module Variables {
  import opened Values
  import opened Text
  import opened Display

  /** What `Variable#==` compares: the label, the value and the internal flag. */
  datatype Member = Member(name: Name, value: Value, internal: bool)

  /** The RuntimeError `Variable.new` raises on purpose. Its backtrace is not
      part of this model. */
  const BOOM := Exception("Boom! 1", [])

  /** The deliberate crash rule of `Variable.new`: a name whose `to_s` is
      `this_crashes`, bare or in double quotes, paired with an even Integer. */
  function Crashes(name: Name, value: Value): (b: bool)
    ensures b ==> |name.text| >= 12 && (name.text[0] == 't' || name.text[0] == '"')
  {
    (name.text == "this_crashes" || name.text == "\"this_crashes\"")
    && value.shape.Integer? && value.shape.n % 2 == 0
  }

  /** A name that starts with '@', as every name `instance_variables` yields
      does, never triggers the crash rule. */
  lemma AtSignNeverCrashes(name: Name, value: Value)
    requires |name.text| >= 1 && name.text[0] == '@'
    ensures !Crashes(name, value)
  {
    assert "this_crashes"[0] == 't' && "\"this_crashes\""[0] == '"';
  }

  /** A name that starts with a digit or a minus sign never triggers the crash rule. */
  lemma NumeralNeverCrashes(name: Name, value: Value)
    requires |name.text| >= 1 && (IsDigit(name.text[0]) || name.text[0] == '-')
    ensures !Crashes(name, value)
  {
    assert "this_crashes"[0] == 't' && "\"this_crashes\""[0] == '"';
  }

  /** The right-hand side of `Variable#==`: a Variable, or any other object. */
  datatype Operand = AVariable(v: Variable) | NotAVariable(value: Value)

  class Variable {
    const name: Name
    const value: Value
    const isInternal: bool          // `internal?`
    var inspectValueCache: Option<string>   // `@inspect_value`, nil until first asked

    /** The field assignments of `initialize`, once the crash rule has let the
        arguments through. */
    constructor Init(name: Name, value: Value, internal: bool)
      requires !Crashes(name, value)
      ensures this.name == name && this.value == value && isInternal == internal
      ensures inspectValueCache == None
    {
      this.name := name;
      this.value := value;
      this.isInternal := internal;
      this.inspectValueCache := None;
    }

    /** `Variable.new(name:, value:, internal: false)`: raises exactly when the
        crash rule holds; otherwise the new Variable holds the arguments as given. */
    static method New(name: Name, value: Value, internal: bool := false) returns (r: Call<Variable>)
      ensures r.Raises? <==> Crashes(name, value)
      ensures r.Raises? ==> r.exception == BOOM
      ensures r.Returns? ==> r.value.View() == Member(name, value, internal)
      ensures r.Returns? ==> r.value.inspectValueCache == None
    {
      if Crashes(name, value) {
        return Raises(BOOM);
      }
      var v := new Variable.Init(name, value, internal);
      return Returns(v);
    }

    /** `Variable.internal(name:, value:)`: `new` with the internal flag set,
        under the same crash rule. */
    static method Internal(name: Name, value: Value) returns (r: Call<Variable>)
      ensures r.Raises? <==> Crashes(name, value)
      ensures r.Raises? ==> r.exception == BOOM
      ensures r.Returns? ==> r.value.View() == Member(name, value, true)
      ensures r.Returns? ==> r.value.inspectValueCache == None
    {
      r := New(name, value, true);
    }

    function View(): Member {
      Member(name, value, isInternal)
    }

    /** `Variable#==`. */
    function Equals(other: Operand): (b: bool)
      ensures b ==> other.AVariable? && other.v.name == name && other.v.isInternal == isInternal
      ensures b ==> RubyEquals(other.v.value, value)
    {
      match other
      case NotAVariable(_) => false
      case AVariable(v) =>
        RubyEqualsConverse(value, v.value);
        name == v.name && RubyEquals(value, v.value) && isInternal == v.isInternal
    }

    /** `inspect_value`: computed on the first call and cached; every later
        call returns the cached text unchanged. */
    method InspectValue(h: Host) returns (s: string)
      modifies this`inspectValueCache
      ensures inspectValueCache == Some(s)
      ensures old(inspectValueCache).None? ==> s == DisplayText(h, value)
      ensures old(inspectValueCache).Some? ==> s == old(inspectValueCache).value
    {
      if inspectValueCache.None? {
        inspectValueCache := Some(DisplayText(h, value));
      }
      s := inspectValueCache.value;
    }

    /** `value_type_name`. */
    function ValueTypeName(): (r: string)
      ensures value.cls.name.Returns? && value.cls.name.value.Some? ==> r == value.cls.name.value.value
      ensures value.cls.name == Returns(None) && value.cls.toS.Returns? ==> r == value.cls.toS.value
      ensures value.cls.name.Raises? || (value.cls.name == Returns(None) && value.cls.toS.Raises?) ==>
                |r| >= 8 && r[..8] == "<Error: "
    {
      TypeName(value.cls)
    }
  }

  /** `==` holds between a Variable and itself. */
  lemma EqualsReflexive(a: Variable)
    ensures a.Equals(AVariable(a))
  {
  }

  /** `==` between Variables is symmetric. */
  lemma EqualsSymmetric(a: Variable, b: Variable)
    requires a.Equals(AVariable(b))
    ensures b.Equals(AVariable(a))
  {
    RubyEqualsSymmetric(a.value, b.value);
  }

  /** A Variable is never `==` to an object that is not a Variable, whatever
      its value (a String naming the same member, say). */
  lemma NeverEqualsOtherObjects(a: Variable, x: Value)
    ensures !a.Equals(NotAVariable(x))
  {
  }

  /** Away from NaiveStrings, `==` is equality of the three compared fields. */
  lemma EqualsIsSameMember(a: Variable, b: Variable)
    requires !a.value.shape.NaiveString?
    ensures a.Equals(AVariable(b)) <==> a.View() == b.View()
  {
  }

  /** Variables holding different Symbols are not `==`, whatever their names. */
  lemma DifferentSymbolsNotEqual(a: Variable, b: Variable)
    requires a.value.shape.SymbolObject? && b.value.shape.SymbolObject?
    requires a.value.shape.symbol != b.value.shape.symbol
    ensures !a.Equals(AVariable(b))
  {
  }

  /** What `inspect_value` computes: a NaiveString's wrapped string in full,
      through `String#dump`; any other value through `value_inspect`, so at most
      MAX_LENGTH characters. */
  function DisplayText(h: Host, v: Value): (r: string)
    ensures v.shape.NaiveString? ==> r == h.dump(v.shape.str)
    ensures !v.shape.NaiveString? ==> r == ValueInspect(h, v) && |r| <= MAX_LENGTH
  {
    if v.shape.NaiveString? then h.dump(v.shape.str) else ValueInspect(h, v)
  }

  /** `M_NAME.bind_call(klass) || klass.to_s`: the class's name, or its `to_s`
      when it has none; either call may raise. */
  function ResolveName(c: ClassDesc): Call<string> {
    match c.name
    case Raises(e) => Raises(e)
    case Returns(Some(n)) => Returns(n)
    case Returns(None) => c.toS
  }

  /** The placeholder for a failed name lookup: the message and the first
      backtrace frame (empty when there is none). */
  function ErrorText(e: Exception): (r: string)
    ensures |r| >= 8 + |e.message| && r[..8] == "<Error: "
    ensures r[8..8 + |e.message|] == e.message
  {
    "<Error: " + e.message + " (" + (if e.backtrace == [] then "" else e.backtrace[0]) + ">"
  }

  /** The type name of a value of class `c`: the resolved name, and the
      placeholder instead of any exception the resolution raises. */
  function TypeName(c: ClassDesc): (r: string)
    ensures c.name.Returns? && c.name.value.Some? ==> r == c.name.value.value
    ensures c.name == Returns(None) && c.toS.Returns? ==> r == c.toS.value
    ensures c.name.Raises? ==> r == ErrorText(c.name.exception)
    ensures c.name == Returns(None) && c.toS.Raises? ==> r == ErrorText(c.toS.exception)
  {
    match ResolveName(c)
    case Returns(n) => n
    case Raises(e) => ErrorText(e)
  }

  function Views(vs: seq<Variable>): (ms: seq<Member>)
    ensures |ms| == |vs|
  {
    seq(|vs|, i requires 0 <= i < |vs| => vs[i].View())
  }

  function ViewsOf(r: Call<seq<Variable>>): Call<seq<Member>> {
    match r
    case Returns(vs) => Returns(Views(vs))
    case Raises(e) => Raises(e)
  }

  /** Building one Variable per triple, in order: the list itself, or BOOM as
      soon as one triple meets the crash rule. */
  function ConstructAll(specs: seq<Member>): Call<seq<Member>>
  {
    if exists k :: 0 <= k < |specs| && Crashes(specs[k].name, specs[k].value) then Raises(BOOM)
    else Returns(specs)
  }

  /** `specs.map { |m| Variable.new(...) }`. */
  method NewAll(specs: seq<Member>) returns (r: Call<seq<Variable>>)
    ensures r.Raises? <==> exists k :: 0 <= k < |specs| && Crashes(specs[k].name, specs[k].value)
    ensures r.Raises? ==> r.exception == BOOM
    ensures r.Returns? ==> Views(r.value) == specs
    ensures ViewsOf(r) == ConstructAll(specs)
  {
    var built: seq<Variable> := [];
    var i := 0;
    while i < |specs|
      invariant 0 <= i <= |specs|
      invariant Views(built) == specs[..i]
      invariant forall k :: 0 <= k < i ==> !Crashes(specs[k].name, specs[k].value)
    {
      var v := Variable.New(specs[i].name, specs[i].value, specs[i].internal);
      if v.Raises? {
        return Raises(v.exception);
      }
      assert Views(built + [v.value]) == Views(built) + [v.value.View()];
      built := built + [v.value];
      i := i + 1;
    }
    assert specs[..i] == specs;
    return Returns(built);
  }
}
