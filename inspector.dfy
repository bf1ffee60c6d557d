/** `DEBUGGER__::VariableInspector`: the members a debugger shows for a value. */
module Inspector {
  import opened Values
  import opened Text
  import opened Display
  import opened Variables

  /** The exact classes whose values need no `#class` member. */
  const SIMPLE_VALUE_TYPES: seq<ClassId> := [
    Named("NilClass"), Named("FalseClass"), Named("TrueClass"), Named("Symbol"),
    Named("String"), Named("Integer"), Named("Float"), Named("Class"),
    Named("Module"), Named("Array"), Named("Hash")]

  /** `simple_value?`: the value is an instance of exactly one of
      SIMPLE_VALUE_TYPES (`instance_of?`, so instances of subclasses are not). */
  function SimpleValue(o: Value): (b: bool)
    ensures o.cls.id.Anonymous? ==> !b
  {
    o.cls.id in SIMPLE_VALUE_TYPES
  }

  /** Instances of exactly Integer, Array, nil's class, Class or Module are
      simple; the NaiveString marker is not. */
  lemma CoreClassesSimple(o: Value)
    ensures o.cls == INTEGER || o.cls == ARRAY || o.cls == NIL_CLASS || o.cls == CLASS || o.cls == MODULE ==> SimpleValue(o)
    ensures o.cls == NAIVE_STRING ==> !SimpleValue(o)
  {
  }

  const CLASS_NAME := Text("#class")

  /** The internal `#class` member: the class object of the value's exact class. */
  function ClassMember(o: Value): Member {
    Member(CLASS_NAME, ClassOf(o), true)
  }

  /** `Array#[]` with an Integer index: negative indices count from the end,
      and an index outside the array gives nil. */
  function At(obj: seq<Value>, i: int): Value {
    if 0 <= i < |obj| then obj[i]
    else if -|obj| <= i < 0 then obj[|obj| + i]
    else NIL
  }

  /** `[count, obj.length - start].min`. */
  function CappedCount(obj: seq<Value>, start: int, count: int): int {
    if count < |obj| - start then count else |obj| - start
  }

  /** What `indexed_members_of(obj, start:, count:)` returns: nothing when
      `start` is past the last index, otherwise one plain member per index of
      `start...(start + capped)`, named by the index's numeral. */
  function IndexedMembers(obj: seq<Value>, start: int, count: int): seq<Member> {
    if start > |obj| - 1 then []
    else
      var capped := CappedCount(obj, start, count);
      seq(if capped < 0 then 0 else capped,
          k => Member(Text(IntToString(start + k)), At(obj, start + k), false))
  }

  /** `indexed_members_of`. Element names are numerals, so no element can
      meet the crash rule and the call never raises. */
  method IndexedMembersOf(obj: seq<Value>, start: int, count: int) returns (r: seq<Variable>)
    ensures Views(r) == IndexedMembers(obj, start, count)
  {
    if start > |obj| - 1 {
      return [];
    }
    var capped := CappedCount(obj, start, count);
    ghost var spec := IndexedMembers(obj, start, count);
    r := [];
    var i := start;
    while i < start + capped
      invariant start <= i && i - start <= |spec|
      invariant Views(r) == spec[..i - start]
    {
      var name := Text(IntToString(i));
      NumeralNeverCrashes(name, At(obj, i));
      var v := Variable.New(name, At(obj, i));
      assert Views(r + [v.value]) == Views(r) + [v.value.View()];
      r := r + [v.value];
      i := i + 1;
    }
    assert spec[..i - start] == spec;
  }

  /** Hash entries in iteration order, each named by its key's display text. */
  function HashMembers(h: Host, entries: seq<Pair>): seq<Member> {
    seq(|entries|, i requires 0 <= i < |entries| =>
      Member(Text(ValueInspect(h, entries[i].key)), entries[i].value, false))
  }

  /** Struct members in declaration order, each named by its Symbol. */
  function StructMembers(fields: seq<Field>): seq<Member> {
    seq(|fields|, i requires 0 <= i < |fields| =>
      Member(Symbol(fields[i].name), fields[i].value, false))
  }

  /** `#length` and `#encoding`, and `#dump` wrapping the string itself when
      its display text ends in an ellipsis. */
  function StringMembers(h: Host, o: Value): seq<Member>
    requires o.shape.String?
  {
    [Member(Text("#length"), IntegerValue(|o.shape.chars|), true),
     Member(Text("#encoding"), EncodingValue(o.shape.encoding), true)]
    + (if Abridged(ValueInspect(h, o)) then [Member(Text("#dump"), NaiveStringValue(o), true)] else [])
  }

  function AncestorObject(d: ClassDesc, a: Ancestor): Value {
    match a
    case Itself => ClassObject(d)
    case Other(m) => ClassObject(m)
  }

  /** `ancestors[1..]` of the class or module `d`: an Array of every ancestor
      after the first, or nil when the list is empty. */
  function AncestorsAbove(d: ClassDesc): Value {
    if |d.ancestors| == 0 then NIL
    else ArrayValue(seq(|d.ancestors| - 1, i requires 0 <= i < |d.ancestors| - 1 =>
                          AncestorObject(d, d.ancestors[i + 1])))
  }

  /** The type-directed members: the first of Hash, Struct, String,
      Class/Module and Range that the value is an instance of decides them. */
  function TypeMembers(h: Host, o: Value): seq<Member> {
    match o.shape
    case Hash(entries) => HashMembers(h, entries)
    case Struct(fields) => StructMembers(fields)
    case String(_, _) => StringMembers(h, o)
    case Module(d) => [Member(Text("%ancestors"), AncestorsAbove(d), true)]
    case Range(first, last, _) => [Member(Text("#begin"), first, true), Member(Text("#end"), last, true)]
    case _ => []
  }

  function IVarNames(ivars: seq<IVar>): seq<string>
  {
    seq(|ivars|, i requires 0 <= i < |ivars| => ivars[i].name)
  }

  /** `instance_variable_get(name)`: the value of the first instance variable
      so named, nil when there is none. */
  function IVarGet(ivars: seq<IVar>, name: string): Value {
    if ivars == [] then NIL
    else if ivars[0].name == name then ivars[0].value
    else IVarGet(ivars[1..], name)
  }

  /** One plain member per instance variable, in ascending order of name. */
  function IVarMembers(o: Value): seq<Member> {
    var names := Sort(IVarNames(o.ivars));
    seq(|names|, i requires 0 <= i < |names| =>
      Member(Symbol(names[i]), IVarGet(o.ivars, names[i]), false))
  }

  /** `members.delete_if { |m| m.name == '#class' }`, order kept. */
  function WithoutClass(ms: seq<Member>): (r: seq<Member>)
  {
    if ms == [] then []
    else
      var last := ms[|ms| - 1];
      assert ms == ms[..|ms| - 1] + [last];
      WithoutClass(ms[..|ms| - 1]) + (if last.name == CLASS_NAME then [] else [last])
  }

  /** The members of a value without a debug representation: type-directed
      members, then instance variables, after `#class` unless the value is simple. */
  function OwnMembers(h: Host, o: Value): Call<seq<Member>> {
    match ConstructAll(TypeMembers(h, o) + IVarMembers(o))
    case Raises(e) => Raises(e)
    case Returns(ms) => Returns(if SimpleValue(o) then ms else [ClassMember(o)] + ms)
  }

  /** What `named_members_of(obj)` returns, or the exception it raises. */
  function NamedMembers(h: Host, o: Value): Call<seq<Member>>
    decreases o
  {
    if o.shape.NaiveString? then Returns([])
    else if o.debugRepr.Some? then
      match NamedMembers(h, o.debugRepr.value)
      case Raises(e) => Raises(e)
      case Returns(ms) => Returns([ClassMember(o)] + WithoutClass(ms))
    else OwnMembers(h, o)
  }

  /** `members.delete_if { |m| m.name == '#class' }`. */
  method DeleteClassMembers(members: seq<Variable>) returns (kept: seq<Variable>)
    ensures Views(kept) == WithoutClass(Views(members))
  {
    kept := [];
    var i := 0;
    while i < |members|
      invariant 0 <= i <= |members|
      invariant Views(kept) == WithoutClass(Views(members[..i]))
    {
      assert Views(members[..i + 1]) == Views(members[..i]) + [members[i].View()];
      if members[i].name != CLASS_NAME {
        assert Views(kept + [members[i]]) == Views(kept) + [members[i].View()];
        kept := kept + [members[i]];
      }
      i := i + 1;
    }
    assert members[..i] == members;
  }

  /** The `case obj when Hash ... end` expression of `named_members_of`. */
  method TypeMembersOf(h: Host, o: Value) returns (r: Call<seq<Variable>>)
    ensures ViewsOf(r) == ConstructAll(TypeMembers(h, o))
  {
    var members: seq<Variable>;
    match o.shape {
      case Hash(entries) =>
        var made := NewAll(HashMembers(h, entries));
        if made.Raises? {
          return Raises(made.exception);
        }
        members := made.value;
      case Struct(fields) =>
        var made := NewAll(StructMembers(fields));
        if made.Raises? {
          return Raises(made.exception);
        }
        members := made.value;
      case String(chars, encoding) =>
        var length := Variable.Internal(Text("#length"), IntegerValue(|chars|));
        var enc := Variable.Internal(Text("#encoding"), EncodingValue(encoding));
        members := [length.value, enc.value];
        var printed := ValueInspect(h, o);
        if Abridged(printed) {
          var dump := Variable.Internal(Text("#dump"), NaiveStringValue(o));
          members := members + [dump.value];
        }
      case Module(d) =>
        var ancestors := Variable.Internal(Text("%ancestors"), AncestorsAbove(d));
        members := [ancestors.value];
      case Range(first, last, _) =>
        var b := Variable.Internal(Text("#begin"), first);
        var e := Variable.Internal(Text("#end"), last);
        members := [b.value, e.value];
      case _ =>
        members := [];
    }
    assert Views(members) == TypeMembers(h, o);
    return Returns(members);
  }

  /** The `debug_representation` branch of `named_members_of`: the
      representation's members without their `#class`, after the real
      `#class` of `o`. */
  method RepresentationMembersOf(h: Host, o: Value) returns (r: Call<seq<Variable>>)
    requires !o.shape.NaiveString? && o.debugRepr.Some?
    ensures ViewsOf(r) == NamedMembers(h, o)
    decreases o, 0
  {
    var inner := NamedMembersOf(h, o.debugRepr.value);
    if inner.Raises? {
      return Raises(inner.exception);
    }
    var members := DeleteClassMembers(inner.value);
    var cls := Variable.Internal(CLASS_NAME, ClassOf(o));
    assert Views([cls.value] + members) == [cls.value.View()] + Views(members);
    members := [cls.value] + members;
    return Returns(members);
  }

  /** `named_members_of`: builds the member list step by step. */
  method NamedMembersOf(h: Host, o: Value) returns (r: Call<seq<Variable>>)
    ensures ViewsOf(r) == NamedMembers(h, o)
    decreases o, 1
  {
    if o.shape.NaiveString? {
      return Returns([]);
    }

    if o.debugRepr.Some? {
      r := RepresentationMembersOf(h, o);
      return;
    }

    r := OwnMembersOf(h, o);
  }

  /** The rest of `named_members_of`: the type-directed members, then the
      sorted instance variables, then `#class` in front unless the value is simple. */
  method OwnMembersOf(h: Host, o: Value) returns (r: Call<seq<Variable>>)
    ensures ViewsOf(r) == OwnMembers(h, o)
  {
    ConstructAllAppend(TypeMembers(h, o), IVarMembers(o));
    var typed := TypeMembersOf(h, o);
    if typed.Raises? {
      return Raises(typed.exception);
    }
    var ivarsMembers := NewAll(IVarMembers(o));
    if ivarsMembers.Raises? {
      return Raises(ivarsMembers.exception);
    }
    ghost var all := TypeMembers(h, o) + IVarMembers(o);
    assert ConstructAll(all) == Returns(all);
    var members := typed.value;
    assert Views(members + ivarsMembers.value) == Views(members) + Views(ivarsMembers.value);
    members := members + ivarsMembers.value;

    if !SimpleValue(o) {
      var cls := Variable.Internal(CLASS_NAME, ClassOf(o));
      assert Views([cls.value] + members) == [cls.value.View()] + Views(members);
      members := [cls.value] + members;
    }
    return Returns(members);
  }

  /** Building the members of `a + b` raises exactly when building those of
      `a` or those of `b` does. */
  lemma ConstructAllAppend(a: seq<Member>, b: seq<Member>)
    ensures ConstructAll(a + b).Raises? <==> ConstructAll(a).Raises? || ConstructAll(b).Raises?
    ensures ConstructAll(a + b).Raises? ==> ConstructAll(a + b).exception == BOOM
  {
    var ab := a + b;
    if ConstructAll(a).Raises? {
      var k :| 0 <= k < |a| && Crashes(a[k].name, a[k].value);
      assert ab[k] == a[k];
    } else if ConstructAll(b).Raises? {
      var k :| 0 <= k < |b| && Crashes(b[k].name, b[k].value);
      assert ab[|a| + k] == b[k];
    } else {
      forall k | 0 <= k < |ab|
        ensures !Crashes(ab[k].name, ab[k].value)
      {
        if k < |a| {
          assert ab[k] == a[k];
        } else {
          assert ab[k] == b[k - |a|];
        }
      }
    }
  }
}
