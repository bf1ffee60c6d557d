/** What `indexed_members_of` and `named_members_of` promise their callers. */
module InspectorProperties {
  import opened Values
  import opened Text
  import opened Display
  import opened Variables
  import opened Inspector

  // ---------------------------------------------------------------------
  // indexed_members_of

  /** From a start inside the array, the page holds `min(count, length - start)`
      elements (none for a negative count). Element k is the array's element
      `start + k`, it is not internal, and its name is the canonical numeral of
      `start + k`: digits without a leading zero that read back as `start + k`.
      From a start at or past the end the page is empty. */
  lemma IndexedMembersWindow(obj: seq<Value>, start: int, count: int)
    requires 0 <= start
    ensures var r := IndexedMembers(obj, start, count);
      && (start >= |obj| ==> r == [])
      && (start < |obj| ==> |r| == if count < 0 then 0 else if count < |obj| - start then count else |obj| - start)
      && forall k :: 0 <= k < |r| ==>
           && start + k < |obj|
           && r[k].value == obj[start + k]
           && !r[k].internal
           && r[k].name.Text?
           && |r[k].name.text| >= 1 && IsDigit(r[k].name.text[0])
           && (|r[k].name.text| > 1 ==> r[k].name.text[0] != '0')
           && (forall i :: 0 <= i < |r[k].name.text| ==> IsDigit(r[k].name.text[i]))
           && ParseInt(r[k].name.text) == start + k
  {
    var r := IndexedMembers(obj, start, count);
    forall k | 0 <= k < |r|
      ensures start + k < |obj| && r[k].value == obj[start + k]
      ensures r[k].name == Text(NatToString(start + k)) && !r[k].internal
      ensures ParseInt(r[k].name.text) == start + k
    {
      assert r[k] == Member(Text(IntToString(start + k)), At(obj, start + k), false);
      ParseIntToString(start + k);
    }
  }

  /** No two members of a page share a name. */
  lemma IndexedMemberNamesDistinct(obj: seq<Value>, start: int, count: int, j: int, k: int)
    requires var r := IndexedMembers(obj, start, count); 0 <= j < |r| && 0 <= k < |r|
    requires IndexedMembers(obj, start, count)[j].name == IndexedMembers(obj, start, count)[k].name
    ensures j == k
  {
    IntToStringInjective(start + j, start + k);
  }

  /** A negative start counts from the end, as `Array#[]` does: the first
      members repeat the array's last elements, named by negative numerals. */
  lemma IndexedMembersNegativeStart(obj: seq<Value>, start: int, count: int, k: int)
    requires -|obj| <= start < 0
    requires 0 <= k < |IndexedMembers(obj, start, count)| && start + k < 0
    ensures IndexedMembers(obj, start, count)[k].value == obj[|obj| + start + k]
    ensures IndexedMembers(obj, start, count)[k].name.text[0] == '-'
  {
    var r := IndexedMembers(obj, start, count);
    assert r[k] == Member(Text(IntToString(start + k)), At(obj, start + k), false);
    assert IntToString(start + k) == "-" + NatToString(-(start + k));
  }

  // ---------------------------------------------------------------------
  // named_members_of: the NaiveString marker and the debug_representation hook

  /** A NaiveString has no members, whatever hook or instance variables it has. */
  lemma NaiveStringHasNoMembers(h: Host, o: Value)
    requires o.shape.NaiveString?
    ensures NamedMembers(h, o) == Returns([])
  {
  }

  /** `delete_if` keeps exactly the members not named "#class". */
  lemma {:induction false} WithoutClassKeeps(ms: seq<Member>)
    ensures forall m :: m in WithoutClass(ms) ==> m in ms && m.name != CLASS_NAME
    ensures forall m :: m in ms && m.name != CLASS_NAME ==> m in WithoutClass(ms)
  {
    if ms != [] {
      var init := ms[..|ms| - 1];
      WithoutClassKeeps(init);
      assert ms == init + [ms[|ms| - 1]];
    }
  }

  /** With the hook, the value's own `#class` comes first and is the only
      member named "#class"; the rest are the representation's members
      without theirs, in their order. */
  lemma RepresentationClassFirst(h: Host, o: Value)
    requires !o.shape.NaiveString? && o.debugRepr.Some?
    requires NamedMembers(h, o).Returns?
    ensures NamedMembers(h, o.debugRepr.value).Returns?
    ensures var ms := NamedMembers(h, o).value;
      && |ms| >= 1
      && ms[0] == ClassMember(o)
      && ms[1..] == WithoutClass(NamedMembers(h, o.debugRepr.value).value)
      && forall i :: 0 <= i < |ms| ==> (ms[i].name == CLASS_NAME <==> i == 0)
  {
    var inner := NamedMembers(h, o.debugRepr.value).value;
    var ms := NamedMembers(h, o).value;
    WithoutClassKeeps(inner);
    assert ms == [ClassMember(o)] + WithoutClass(inner);
    forall i | 1 <= i < |ms|
      ensures ms[i].name != CLASS_NAME
    {
      assert ms[i] in WithoutClass(inner);
    }
  }

  /** The only exception `named_members_of` raises is the crash rule's. */
  lemma {:induction false} NamedMembersRaisesOnlyBoom(h: Host, o: Value)
    requires NamedMembers(h, o).Raises?
    ensures NamedMembers(h, o).exception == BOOM
    decreases o
  {
    if !o.shape.NaiveString? && o.debugRepr.Some? {
      NamedMembersRaisesOnlyBoom(h, o.debugRepr.value);
    }
  }

  // ---------------------------------------------------------------------
  // named_members_of without the hook

  /** Without the hook, the list is `#class` (unless the value is simple),
      then the type-directed members, then the instance variables; it raises
      exactly when one of those members meets the crash rule. */
  lemma OwnMembersLayout(h: Host, o: Value)
    requires !o.shape.NaiveString? && o.debugRepr.None?
    ensures var all := TypeMembers(h, o) + IVarMembers(o);
      && (NamedMembers(h, o).Raises? <==> exists k :: 0 <= k < |all| && Crashes(all[k].name, all[k].value))
      && (NamedMembers(h, o).Returns? ==>
            NamedMembers(h, o).value == (if SimpleValue(o) then [] else [ClassMember(o)]) + all)
  {
  }

  /** The type-directed members: plain for Hash and Struct entries; for the
      other shapes internal, and none of them named "#class". */
  lemma TypeMembersNeverClass(h: Host, o: Value)
    ensures forall m :: m in TypeMembers(h, o) ==> !(m.internal && m.name == CLASS_NAME)
    ensures !o.shape.Hash? ==> forall m :: m in TypeMembers(h, o) ==> m.name != CLASS_NAME
  {
    match o.shape
    case Hash(entries) =>
      forall m | m in TypeMembers(h, o) ensures !m.internal {
        var i :| 0 <= i < |entries| && TypeMembers(h, o)[i] == m;
      }
    case Struct(fields) =>
      forall m | m in TypeMembers(h, o) ensures m.name.Symbol? {
        var i :| 0 <= i < |fields| && TypeMembers(h, o)[i] == m;
      }
    case _ =>
  }

  /** Instance-variable members are plain and named by Symbols. */
  lemma IVarMembersArePlainSymbols(o: Value)
    ensures forall m :: m in IVarMembers(o) ==> !m.internal && m.name.Symbol?
  {
    forall m | m in IVarMembers(o) ensures !m.internal && m.name.Symbol? {
      var i :| 0 <= i < |IVarMembers(o)| && IVarMembers(o)[i] == m;
    }
  }

  /** An internal `#class` member is present exactly when the value's exact
      class is not simple, and then it is the first member and the only one. */
  lemma ClassMemberIffNotSimple(h: Host, o: Value)
    requires !o.shape.NaiveString? && o.debugRepr.None?
    requires NamedMembers(h, o).Returns?
    ensures var ms := NamedMembers(h, o).value;
      && (!SimpleValue(o) ==> |ms| >= 1 && ms[0] == ClassMember(o))
      && forall i :: 0 <= i < |ms| ==>
           (ms[i].internal && ms[i].name == CLASS_NAME <==> i == 0 && !SimpleValue(o))
  {
    var ms := NamedMembers(h, o).value;
    var all := TypeMembers(h, o) + IVarMembers(o);
    TypeMembersNeverClass(h, o);
    IVarMembersArePlainSymbols(o);
    var prefix := if SimpleValue(o) then [] else [ClassMember(o)];
    assert ms == prefix + all;
    forall i | |prefix| <= i < |ms|
      ensures !(ms[i].internal && ms[i].name == CLASS_NAME)
    {
      var j := i - |prefix|;
      assert ms[i] == all[j];
      if j < |TypeMembers(h, o)| {
        assert all[j] in TypeMembers(h, o);
      } else {
        assert all[j] == IVarMembers(o)[j - |TypeMembers(h, o)|];
        assert all[j] in IVarMembers(o);
      }
    }
  }

  /** Away from Hashes, whose keys may display as anything, no other member
      is even named "#class". */
  lemma ClassNameUniqueOutsideHashes(h: Host, o: Value)
    requires !o.shape.NaiveString? && o.debugRepr.None? && !o.shape.Hash?
    requires NamedMembers(h, o).Returns?
    ensures var ms := NamedMembers(h, o).value;
      forall i :: 0 <= i < |ms| ==> (ms[i].name == CLASS_NAME <==> i == 0 && !SimpleValue(o))
  {
    var ms := NamedMembers(h, o).value;
    var all := TypeMembers(h, o) + IVarMembers(o);
    TypeMembersNeverClass(h, o);
    IVarMembersArePlainSymbols(o);
    var prefix := if SimpleValue(o) then [] else [ClassMember(o)];
    assert ms == prefix + all;
    forall i | |prefix| <= i < |ms|
      ensures ms[i].name != CLASS_NAME
    {
      var j := i - |prefix|;
      assert ms[i] == all[j];
      if j < |TypeMembers(h, o)| {
        assert all[j] in TypeMembers(h, o);
      } else {
        assert all[j] == IVarMembers(o)[j - |TypeMembers(h, o)|];
        assert all[j] in IVarMembers(o);
      }
    }
  }

  /** A value whose exact class is none of the simple classes (any user
      class, a subclass of String, Array or Hash included, named or anonymous)
      shows its `#class` first, with or without the hook. */
  lemma NotSimpleShowsClassFirst(h: Host, o: Value)
    requires !o.shape.NaiveString? && o.cls.id !in SIMPLE_VALUE_TYPES
    requires NamedMembers(h, o).Returns?
    ensures |NamedMembers(h, o).value| >= 1 && NamedMembers(h, o).value[0] == ClassMember(o)
  {
    if o.debugRepr.Some? {
      RepresentationClassFirst(h, o);
    } else {
      ClassMemberIffNotSimple(h, o);
    }
  }

  // ---------------------------------------------------------------------
  // The type-directed members, shape by shape

  /** Hash entries in iteration order, named by their keys' display texts. */
  lemma HashMembersFollowEntries(h: Host, o: Value)
    requires o.shape.Hash?
    ensures var r := TypeMembers(h, o); var es := o.shape.entries;
      && |r| == |es|
      && forall i :: 0 <= i < |es| ==>
           r[i] == Member(Text(ValueInspect(h, es[i].key)), es[i].value, false)
  {
  }

  /** Struct members in declaration order, named by their Symbols. */
  lemma StructMembersFollowFields(o: Value, h: Host)
    requires o.shape.Struct?
    ensures var r := TypeMembers(h, o); var fs := o.shape.members;
      && |r| == |fs|
      && forall i :: 0 <= i < |fs| ==> r[i] == Member(Symbol(fs[i].name), fs[i].value, false)
  {
  }

  /** A String shows `#length` and `#encoding`, and `#dump` wrapping the
      string itself exactly when its display text ends in "...". */
  lemma StringMembersDumpWhenAbridged(h: Host, o: Value)
    requires o.shape.String?
    ensures var r := TypeMembers(h, o);
      && 2 <= |r| <= 3
      && r[0] == Member(Text("#length"), IntegerValue(|o.shape.chars|), true)
      && r[1] == Member(Text("#encoding"), EncodingValue(o.shape.encoding), true)
      && (|r| == 3 <==> EndsWith(ValueInspect(h, o), "..."))
      && (|r| == 3 ==> r[2] == Member(Text("#dump"), NaiveStringValue(o), true))
  {
  }

  /** A Class or Module shows `%ancestors`: its ancestors after the first. */
  lemma ModuleMembersAreAncestorsAbove(h: Host, o: Value)
    requires o.shape.Module? && |o.shape.desc.ancestors| >= 1
    ensures var r := TypeMembers(h, o); var anc := o.shape.desc.ancestors;
      && |r| == 1 && r[0].name == Text("%ancestors") && r[0].internal
      && r[0].value.shape.Array?
      && |r[0].value.shape.elements| == |anc| - 1
      && forall i :: 0 < i < |anc| ==>
           r[0].value.shape.elements[i - 1] == AncestorObject(o.shape.desc, anc[i])
  {
  }

  /** A Range of the exact class Range, with no hook and no instance
      variables, shows `#class`, `#begin` and `#end`, whichever bounds are nil. */
  lemma RangeMembers(h: Host, o: Value)
    requires o.shape.Range? && o.cls.id == Named("Range") && o.debugRepr.None? && o.ivars == []
    ensures NamedMembers(h, o) == Returns([
      ClassMember(o),
      Member(Text("#begin"), o.shape.first, true),
      Member(Text("#end"), o.shape.last, true)])
  {
    assert !SimpleValue(o);
    assert IVarMembers(o) == [];
    var all := TypeMembers(h, o) + IVarMembers(o);
    assert all == [Member(Text("#begin"), o.shape.first, true), Member(Text("#end"), o.shape.last, true)];
    assert "#begin"[0] == '#' && "#end"[0] == '#';
    assert "this_crashes"[0] == 't' && "\"this_crashes\""[0] == '"';
    assert forall k :: 0 <= k < |all| ==> !Crashes(all[k].name, all[k].value);
    assert ConstructAll(all) == Returns(all);
    assert OwnMembers(h, o) == Returns([ClassMember(o)] + all);
    assert [ClassMember(o)] + all == [ClassMember(o), all[0], all[1]];
  }

  // ---------------------------------------------------------------------
  // Instance variables

  /** `instance_variable_get` finds the first instance variable of that name. */
  lemma {:induction false} IVarGetFinds(ivars: seq<IVar>, name: string)
    requires name in IVarNames(ivars)
    ensures exists j :: 0 <= j < |ivars| && ivars[j].name == name && IVarGet(ivars, name) == ivars[j].value
  {
    if ivars[0].name != name {
      assert IVarNames(ivars) == [ivars[0].name] + IVarNames(ivars[1..]);
      IVarGetFinds(ivars[1..], name);
      var j :| 0 <= j < |ivars[1..]| && ivars[1..][j].name == name && IVarGet(ivars[1..], name) == ivars[1..][j].value;
      assert ivars[j + 1].name == name;
    } else {
      assert ivars[0].name == name;
    }
  }

  /** The instance-variable members are plain, named by every instance
      variable's name once, in ascending order, each with that variable's value. */
  lemma IVarMembersSortedByName(o: Value)
    ensures var r := IVarMembers(o);
      && |r| == |o.ivars|
      && (forall i :: 0 <= i < |r| ==> !r[i].internal && r[i].name.Symbol?)
      && (forall i :: 0 < i < |r| ==> NotAfter(r[i - 1].name.text, r[i].name.text))
      && multiset(seq(|r|, i requires 0 <= i < |r| => r[i].name.text)) == multiset(IVarNames(o.ivars))
      && forall i :: 0 <= i < |r| ==>
           exists j :: 0 <= j < |o.ivars| && o.ivars[j].name == r[i].name.text && r[i].value == o.ivars[j].value
  {
    var names := Sort(IVarNames(o.ivars));
    var r := IVarMembers(o);
    assert |names| == |IVarNames(o.ivars)| by {
      assert |multiset(names)| == |multiset(IVarNames(o.ivars))|;
    }
    assert seq(|r|, i requires 0 <= i < |r| => r[i].name.text) == names;
    forall i | 0 <= i < |r|
      ensures exists j :: 0 <= j < |o.ivars| && o.ivars[j].name == r[i].name.text && r[i].value == o.ivars[j].value
    {
      assert names[i] in multiset(names);
      assert names[i] in IVarNames(o.ivars);
      IVarGetFinds(o.ivars, names[i]);
    }
  }
}
