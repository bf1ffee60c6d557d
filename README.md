# Variable inspection in the Ruby debugger

This project models the part of the Ruby debugger (`DEBUGGER__`) that lists
the members of an inspected value. It covers two classes.

- `VariableInspector` pages through the elements of an Array
  (`indexed_members_of`). It also lists the named members of any object
  (`named_members_of`):
  - a Hash lists its entries, named by the display text of their keys;
  - a Struct lists its fields;
  - a String lists `#length`, `#encoding` and, when its display text is cut short, `#dump`;
  - a Class or Module lists its `%ancestors`;
  - a Range lists `#begin` and `#end`;
  - every value then lists its instance variables, sorted by name;
  - an internal `#class` member comes first unless the value's exact class is one of the "simple" classes;
  - an object that answers `debug_representation` is shown through that representation, but under its own `#class`;
  - the `NaiveString` marker has no members.
- `Variable` is one member: a name, a value and an internal flag.
  - It refuses, on purpose, to be built from the name `this_crashes` (bare or in double quotes) paired with an even Integer.
  - It caches its display text.
  - It renders its value's type name, or an error placeholder when the name lookup raises.
  - It compares with `==`.

Modules:

- `Values` (values.dfy): the inspected Ruby values. A value is a record of
  - its exact class;
  - the shape that `case ... when` sees;
  - its instance variables;
  - the value its `debug_representation` returns, if it has that hook.

  Ruby exceptions are a `Call` result, `Returns(value)` or `Raises(exception)`.
- `Text` (text.dfy): `Integer#to_s` and its inverse, the character order that `sort` uses, and `end_with?`.
- `Display` (display.dfy): `value_inspect` over a stringifier, which is given as a parameter.
- `Variables` (variable.dfy): the `Variable` class and the crash rule.
- `Inspector` (inspector.dfy): specification functions, and the methods that build the lists of `Variable` objects step by step against them.
- `InspectorProperties` (inspector_properties.dfy): what the two listings promise.

## Model

| member | source | states |
|---|---|---|
| Inspector.IndexedMembersOf | lib/debug/variable_inspector.rb:8-16 | the Variables built by the loop carry exactly the members of `IndexedMembers`; no element can trip the crash rule |
| InspectorProperties.IndexedMembersWindow | lib/debug/variable_inspector.rb:9-14 | from a start inside the array, the page has `min(count, length - start)` members (none for a negative count); member k holds element `start + k`, is plain, and its name is `(start + k).to_s`: digits with no leading zero that parse back to `start + k`; from a start at or past the end the page is empty |
| InspectorProperties.IndexedMemberNamesDistinct | lib/debug/variable_inspector.rb:13-14 | no two members of a page share a name |
| InspectorProperties.IndexedMembersNegativeStart | lib/debug/variable_inspector.rb:11-14 | a negative start counts from the end as `Array#[]` does, so the first members hold the last elements under negative names |
| Inspector.NamedMembersOf | lib/debug/variable_inspector.rb:18-66 | the Variables built, or the exception raised, match `NamedMembers` exactly |
| Inspector.RepresentationMembersOf | lib/debug/variable_inspector.rb:21-32 | the hook branch, built recursively: it matches `NamedMembers` |
| Inspector.DeleteClassMembers | lib/debug/variable_inspector.rb:26 | the loop keeps exactly the Variables whose members `WithoutClass` keeps, in order |
| Inspector.TypeMembersOf | lib/debug/variable_inspector.rb:34-53 | the Variables built for each shape, or the exception raised, match `TypeMembers` |
| Inspector.OwnMembersOf | lib/debug/variable_inspector.rb:34-65 | type-directed members, then instance variables, then `#class` put in front unless the value is simple; the result matches `OwnMembers` |
| Inspector.ConstructAllAppend | lib/debug/variable_inspector.rb:59 | building `a + b` raises iff building `a` or building `b` raises, and then raises BOOM |
| InspectorProperties.NaiveStringHasNoMembers | lib/debug/variable_inspector.rb:19 | a NaiveString has no members, whatever hook or instance variables it has |
| InspectorProperties.WithoutClassKeeps | lib/debug/variable_inspector.rb:26 | `delete_if` keeps a member iff it was in the list and is not named "#class" |
| InspectorProperties.RepresentationClassFirst | lib/debug/variable_inspector.rb:21-31 | with the hook, the value's own `#class` comes first and is the only member named "#class"; the rest are the representation's members without theirs, in order |
| InspectorProperties.NamedMembersRaisesOnlyBoom | lib/debug/variable_inspector.rb:18-66 | the only exception `named_members_of` raises, through any chain of hooks, is the crash rule's, given that the accessors it calls on the value are the core classes' own and never raise |
| InspectorProperties.OwnMembersLayout | lib/debug/variable_inspector.rb:34-65 | without the hook: raises iff a type-directed or instance-variable member meets the crash rule; otherwise `#class` (unless simple), then the type-directed members, then the instance variables |
| InspectorProperties.TypeMembersNeverClass | lib/debug/variable_inspector.rb:34-53 | no type-directed member is an internal "#class"; away from Hashes none is even named "#class" |
| InspectorProperties.IVarMembersArePlainSymbols | lib/debug/variable_inspector.rb:55-57 | instance-variable members are plain and named by Symbols |
| InspectorProperties.ClassMemberIffNotSimple | lib/debug/variable_inspector.rb:61-63 | an internal `#class` member appears iff the exact class is not simple; it is then the first member, and the only one |
| InspectorProperties.ClassNameUniqueOutsideHashes | lib/debug/variable_inspector.rb:34-63 | for a value that is not a Hash, a member is named "#class" iff it is the first one and the value is not simple |
| Inspector.SimpleValue | lib/debug/variable_inspector.rb:70-76 | `simple_value?` is false for an instance of any anonymous class |
| Inspector.CoreClassesSimple | lib/debug/variable_inspector.rb:70-76 | instances of exactly Integer, Array, NilClass, Class or Module are simple; the NaiveString marker is not |
| InspectorProperties.NotSimpleShowsClassFirst | lib/debug/variable_inspector.rb:18-76 | for any value whose exact class is none of the simple classes (a named or anonymous subclass of String, Array or Hash included, since the test is `instance_of?`), `named_members_of` puts its `#class` first whenever it returns, with or without the hook |
| InspectorProperties.HashMembersFollowEntries | lib/debug/variable_inspector.rb:35 | one plain member per entry, in iteration order, named by its key's display text |
| InspectorProperties.StructMembersFollowFields | lib/debug/variable_inspector.rb:36 | one plain member per field, in declaration order, named by its Symbol |
| InspectorProperties.StringMembersDumpWhenAbridged | lib/debug/variable_inspector.rb:37-46 | a String shows `#length` and `#encoding`; it also shows `#dump`, wrapping itself in a NaiveString, iff its display text ends in "..." |
| InspectorProperties.ModuleMembersAreAncestorsAbove | lib/debug/variable_inspector.rb:47 | a Class or Module shows one internal `%ancestors`: an Array of its ancestors after the first, in order |
| InspectorProperties.RangeMembers | lib/debug/variable_inspector.rb:48-51 | a plain Range shows exactly `#class`, `#begin` and `#end` |
| InspectorProperties.IVarGetFinds | lib/debug/variable_inspector.rb:56 | `instance_variable_get` of a present name returns the value of an instance variable of that name |
| InspectorProperties.IVarMembersSortedByName | lib/debug/variable_inspector.rb:55-57 | one plain member per instance variable; the names are in ascending order and are the instance-variable names exactly (as a multiset); each member holds the value of an instance variable of that name |
| Text.Sort | lib/debug/variable_inspector.rb:55 | `sort` returns an ascending permutation of its input |
| Text.NatToString | lib/debug/variable_inspector.rb:14 | `Integer#to_s` of a non-negative integer is a non-empty string of digits with no leading zero |
| Text.IntToString | lib/debug/variable_inspector.rb:14 | `Integer#to_s` starts with a digit or a minus sign |
| Text.ParseIntToString | lib/debug/variable_inspector.rb:14 | the numeral `i.to_s` reads back as `i` |
| Text.IntToStringInjective | lib/debug/variable_inspector.rb:14 | distinct indices get distinct names |
| Text.NotAfterTotal | lib/debug/variable_inspector.rb:55 | the string order used by `sort` is total |
| Display.ValueInspect | lib/debug/variable_inspector.rb:78-93 | the display text is at most MAX_LENGTH = 180 characters |
| Variables.AtSignNeverCrashes | lib/debug/variable.rb:10 | a name starting with '@', as every instance-variable name does, never meets the crash rule |
| Variables.NumeralNeverCrashes | lib/debug/variable.rb:10 | a name starting with a digit or '-' never meets the crash rule |
| Variables.Crashes | lib/debug/variable.rb:10 | the crash rule only fires for a name of at least 12 characters that starts with 't' or '"' (`this_crashes`, bare or quoted) |
| Variables.Variable.Equals | lib/debug/variable.rb:45-50 | `==` holds only against a Variable with the same name and internal flag, whose value is equal in the other direction too |
| Variables.Variable.ValueTypeName | lib/debug/variable.rb:35-43 | the type name of the value's exact class: its name when the name call returns one, its `to_s` when the name is nil, and an "<Error: " placeholder when either call raises |
| Variables.Variable.New | lib/debug/variable.rb:9-17 | raises iff the crash rule holds, and then raises "Boom! 1"; otherwise the Variable holds the name, value and flag given, with no cached text |
| Variables.Variable.Internal | lib/debug/variable.rb:23-25 | `new` with the internal flag set, under the same crash rule |
| Variables.Variable.InspectValue | lib/debug/variable.rb:27-33 | the first call computes `DisplayText` and caches it; every later call returns the cached text |
| Variables.DisplayText | lib/debug/variable.rb:28-32 | a NaiveString displays as the dump of the string it wraps; any other value displays through `value_inspect`, within MAX_LENGTH |
| Variables.ErrorText | lib/debug/variable.rb:41 | the placeholder starts with "<Error: " followed by the exception's message |
| Variables.TypeName | lib/debug/variable.rb:35-43 | four cases over the class: its name when the name call returns one; its `to_s` when the name call returns nil and `to_s` returns; the error placeholder of the name call's exception when that raises; the placeholder of `to_s`'s exception when the name is nil and `to_s` raises |
| Variables.EqualsReflexive | lib/debug/variable.rb:45-50 | `==` holds between a Variable and itself |
| Variables.EqualsSymmetric | lib/debug/variable.rb:45-50 | `==` between Variables is symmetric |
| Variables.DifferentSymbolsNotEqual | lib/debug/variable.rb:48 | Variables holding different Symbols are never `==` |
| Variables.NeverEqualsOtherObjects | lib/debug/variable.rb:46 | a Variable is never `==` to an object that is not a Variable |
| Variables.EqualsIsSameMember | lib/debug/variable.rb:45-50 | away from NaiveString values, `==` holds iff name, value and internal flag are equal |
| Variables.NewAll | lib/debug/variable_inspector.rb:55-57 | the `map { Variable.new(...) }` over instance variables, also used for Hash entries (line 35) and Struct fields (line 36): the loop raises iff some triple meets the crash rule, and then raises BOOM; otherwise it returns one Variable per triple, in order, holding exactly that triple |
| Values.NaiveStringEquals | lib/debug/variable_inspector.rb:109-111 | `NaiveString#==` holds between a NaiveString and itself, and never against an object of another exact class or one that is not a NaiveString |
| Values.RubyEqualsConverse | lib/debug/variable_inspector.rb:109-111 | equality of inspected values, written as an implication, is symmetric |
| Values.RubyEqualsSymmetric | lib/debug/variable_inspector.rb:109-111 | `NaiveString#==`, and the equality of other values, is symmetric |

## Left out

- `LimitedPP.safe_inspect` is not part of this model. The stringifier is a parameter (`Host.safeInspect`). Its only assumed property is that it never returns more characters than the maximum it is given.
- Display.ValueInspect: states only the MAX_LENGTH bound. The text itself comes from the stringifier parameter.
- The re-encoding step of `value_inspect` (`scrub`, `encode`) is the identity here. Strings are sequences of characters, so there are no invalid bytes to replace.
- `String#dump` is a parameter (`Host.dump`).
- `Variable#inspect` (lib/debug/variable.rb:52-54) is left out. It is a debugging aid built from Ruby's own `inspect` of name and value, which is not modelled.
- Variables.Variable.New: the raised exception has an empty backtrace, because backtraces come from the interpreter. Only the message is modelled.
- Value equality (`Values.RubyEquals`) is modelled as equality of the value records, except that `NaiveString#==` is checked for the exact class first. Ruby's own classes do not compare this way:
  - `Hash#==` ignores insertion order;
  - `1 == 1.0` is true;
  - `String#==`, `Array#==` and `Hash#==` ignore the exact class and any instance variables, so an instance of a String subclass can equal a plain String;
  - `NaiveString#==` compares the wrapped strings with `String#==`, where this model compares their records;
  - user-defined `==` methods are not modelled.

  So `Variables.EqualsIsSameMember`, `Variables.EqualsSymmetric`, `Variables.Variable.Equals` and `Values.NaiveStringEquals` hold for record equality only. For example, two Variables holding `{a: 1, b: 2}` and `{b: 2, a: 1}` are `==` in Ruby but not in this model.
- The `debug_representation` hook's result is part of the value record. So it is a smaller value, and chains of hooks end. A hook that returns its own receiver, which recurses forever in Ruby, cannot be written down.
- A hook that raises, and `debug_representation` defined through `method_missing`, are not modelled.
- `M_CLASS`, `M_INSTANCE_VARIABLES`, `M_INSTANCE_VARIABLE_GET`, `M_INSTANCE_OF` and `M_RESPOND_TO` cannot fail here. They are bound from `Kernel`, so user code cannot override them.
- The instance variables of class objects and of the values the inspector builds (Integers, Arrays, Encodings) are empty.
- A NaiveString's own `@str` is left out of its record. It is never observable, because `named_members_of` returns before it reads instance variables.
- Instance-variable names are not required to start with '@'. Ruby's always do, so by `Variables.AtSignNeverCrashes` the instance-variable part of `OwnMembersLayout`'s raise condition never applies to values Ruby produces.
- The calls `named_members_of` makes on the value itself are taken as the core classes' own accessors, never overridden and never raising. These are `map` on a Hash, `members` and `[]` on a Struct, `length` and `encoding` on a String, `ancestors`, and `begin` and `end` on a Range. The same holds for `respond_to_missing?`, which `respond_to?` consults. A subclass that overrides one of them to return something else or to raise is not modelled. So `InspectorProperties.NamedMembersRaisesOnlyBoom` holds only under this assumption.
- Floats are a class tag only: every Float, NaN included, is the same value here. So `Variables.EqualsReflexive` and `Variables.EqualsIsSameMember` hold for Floats only in this model; Ruby's `==` is false for NaN even against itself. nil, true and false carry no payload either, which matches Ruby, since each is a single object.
- The ancestor lists of the core classes are those of a bare interpreter, with nothing prepended or included.
- `indexed_members_of` takes the receiver as a sequence of values. Receivers other than Arrays that answer `length` and `[]` are not modelled.
- Concurrency and the debugger protocol that calls these methods are outside this model.
