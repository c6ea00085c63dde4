/** EpoxyProcessor: the annotation-processing round. Annotated fields are filtered
    (superficial validity, accessibility, JSON-valid kind), grouped into one binding per
    enclosing type in encounter order, and every binding is then linked to the binding of
    its nearest annotated ancestor class. */
module EpoxyProcessor {
  import opened Wrappers
  import opened Elements
  import opened EpoxyJsonBinding

  // ---------------------------------------------------------------------------
  // findParentType

  /** The strict superclass chain of t, nearest first. */
  function Ancestors(superOf: map<nat, nat>, t: nat): (chain: seq<nat>)
    requires ChainDescends(superOf)
    ensures forall i :: 0 <= i < |chain| ==> chain[i] < t
    decreases t
  {
    if t !in superOf then [] else [superOf[t]] + Ancestors(superOf, superOf[t])
  }

  /** The nearest strict ancestor of t that is in `parents`. */
  function NearestAncestor(superOf: map<nat, nat>, t: nat, parents: set<nat>): (r: Option<nat>)
    requires ChainDescends(superOf)
    ensures r.Some? ==> r.value in parents && r.value < t
    decreases t
  {
    if t !in superOf then None
    else if superOf[t] in parents then Some(superOf[t])
    else NearestAncestor(superOf, superOf[t], parents)
  }

  /** NearestAncestor answers the first ancestor in `parents`, and None exactly when the
      chain ends before reaching one. */
  lemma {:induction false} NearestAncestorIsFirst(superOf: map<nat, nat>, t: nat, parents: set<nat>)
    requires ChainDescends(superOf)
    ensures NearestAncestor(superOf, t, parents).None? <==>
            forall i :: 0 <= i < |Ancestors(superOf, t)| ==> Ancestors(superOf, t)[i] !in parents
    ensures NearestAncestor(superOf, t, parents).Some? ==>
            exists i :: 0 <= i < |Ancestors(superOf, t)| &&
                        Ancestors(superOf, t)[i] == NearestAncestor(superOf, t, parents).value &&
                        forall k :: 0 <= k < i ==> Ancestors(superOf, t)[k] !in parents
    decreases t
  {
    if t in superOf {
      var s := superOf[t];
      var chain := Ancestors(superOf, t);
      var rest := Ancestors(superOf, s);
      assert chain == [s] + rest;
      if s in parents {
        assert Ancestors(superOf, t)[0] == s && s in parents;
      } else {
        NearestAncestorIsFirst(superOf, s, parents);
        var r := NearestAncestor(superOf, s, parents);
        if r.None? {
          assert forall i :: 0 <= i < |Ancestors(superOf, s)| ==> Ancestors(superOf, s)[i] !in parents;
          forall i | 0 <= i < |chain| ensures chain[i] !in parents {
            if i == 0 {
              assert chain[0] == s;
            } else {
              assert chain[i] == rest[i - 1];
            }
          }
        } else {
          var i :| 0 <= i < |rest| && rest[i] == r.value &&
                   forall k :: 0 <= k < i ==> rest[k] !in parents;
          assert chain[i + 1] == r.value;
          forall k | 0 <= k < i + 1 ensures chain[k] !in parents {
            if k > 0 { assert chain[k] == rest[k - 1]; }
          }
        }
      }
    }
  }

  /** findParentType: climb the superclass chain until it ends or reaches a type in
      `parents`. */
  method FindParentType(superOf: map<nat, nat>, t: nat, parents: set<nat>) returns (r: Option<nat>)
    requires ChainDescends(superOf)
    ensures r == NearestAncestor(superOf, t, parents)
  {
    var cur := t;
    while true
      invariant NearestAncestor(superOf, cur, parents) == NearestAncestor(superOf, t, parents)
      decreases cur
    {
      if cur !in superOf {
        return None;
      }
      cur := superOf[cur];
      if cur in parents {
        return Some(cur);
      }
    }
  }

  // ---------------------------------------------------------------------------
  // getClassName

  function ReplaceDots(s: string): (r: string)
    ensures |r| == |s|
    ensures forall i :: 0 <= i < |s| ==> r[i] == (if s[i] == '.' then '$' else s[i])
  {
    if |s| == 0 then "" else [if s[0] == '.' then '$' else s[0]] + ReplaceDots(s[1..])
  }

  /** getClassName as written: skip the package name and one more character, then turn
      each remaining '.' into '$'. */
  function GetClassNameAsWritten(qualifiedName: string, packageName: string): string
    requires |packageName| + 1 <= |qualifiedName|
  {
    ReplaceDots(qualifiedName[|packageName| + 1..])
  }

  /** In the unnamed package the skipped character is the first letter of the class. */
  lemma GetClassNameAsWrittenDropsFirstLetter()
    ensures GetClassNameAsWritten("Foo", "") == "oo"
  {
    assert "Foo"[1..] == "oo";
    assert ReplaceDots("oo") == "oo";
  }

  /** getClassName with the unnamed package handled: there is no dot to skip. */
  function GetClassName(qualifiedName: string, packageName: string): string
    requires packageName == "" || |packageName| < |qualifiedName|
  {
    if packageName == "" then ReplaceDots(qualifiedName)
    else ReplaceDots(qualifiedName[|packageName| + 1..])
  }

  /** For p.Outer.Inner in package p the class name is Outer$Inner: the package and its
      dot are dropped and no dot is left. */
  lemma GetClassNameOfQualified(packageName: string, rest: string)
    ensures var r := GetClassName(if packageName == "" then rest else packageName + "." + rest, packageName);
            |r| == |rest| && '.' !in r &&
            forall i :: 0 <= i < |rest| ==> r[i] == (if rest[i] == '.' then '$' else rest[i])
  {
    if packageName != "" {
      assert (packageName + "." + rest)[|packageName| + 1..] == rest;
    }
  }

  /** Both agree on every type outside the unnamed package. */
  lemma GetClassNameAgreesInNamedPackage(qualifiedName: string, packageName: string)
    requires packageName != "" && |packageName| < |qualifiedName|
    ensures GetClassName(qualifiedName, packageName) == GetClassNameAsWritten(qualifiedName, packageName)
  {
  }

  // ---------------------------------------------------------------------------
  // Field validation

  /** isValidType: BYTE and CHAR fields are not valid JSON types. */
  function IsValidType(kind: TypeKind): (valid: bool)
  {
    match kind
    case Byte => false
    case Char => false
    case _ => true
  }

  /** Exactly BYTE and CHAR are rejected; byte[] and char[] fields pass this check and
      only fail later, in the BindingElement constructor. */
  lemma IsValidTypeExactly(e: FieldElement)
    ensures IsValidType(e.fieldType.kind) <==> e.fieldType.kind !in {Byte, Char}
    ensures e.fieldType.kind == Array && e.fieldType.componentKind in {Byte, Char} ==>
              IsValidType(e.fieldType.kind) && Classify(e) == Failure(InvalidArrayElement(e.fieldType.componentKind))
  {
  }

  /** The diagnostics isInaccessibleViaGeneratedCode reports, one per failed check. */
  datatype Diagnostic =
    | PrivateOrStaticField(field: string)
    | NotInClass(field: string)
    | InPrivateClass(field: string)

  predicate Inaccessible(e: FieldElement, enclosing: TypeInfo)
  {
    Static in e.modifiers || Private in e.modifiers ||
    enclosing.kind != ClassKind || Private in enclosing.modifiers
  }

  /** isInaccessibleViaGeneratedCode: all three checks run and each failure is reported. */
  method IsInaccessibleViaGeneratedCode(e: FieldElement, enclosing: TypeInfo)
    returns (hasError: bool, diagnostics: seq<Diagnostic>)
    ensures hasError <==> Inaccessible(e, enclosing)
    ensures hasError <==> |diagnostics| > 0
    ensures PrivateOrStaticField(e.simpleName) in diagnostics <==> (Static in e.modifiers || Private in e.modifiers)
    ensures NotInClass(e.simpleName) in diagnostics <==> enclosing.kind != ClassKind
    ensures InPrivateClass(e.simpleName) in diagnostics <==> Private in enclosing.modifiers
    ensures |diagnostics| <= 3
  {
    hasError := false;
    diagnostics := [];
    if Static in e.modifiers || Private in e.modifiers {
      diagnostics := diagnostics + [PrivateOrStaticField(e.simpleName)];
      hasError := true;
    }
    if enclosing.kind != ClassKind {
      diagnostics := diagnostics + [NotInClass(e.simpleName)];
      hasError := true;
    }
    if Private in enclosing.modifiers {
      diagnostics := diagnostics + [InPrivateClass(e.simpleName)];
      hasError := true;
    }
  }

  // ---------------------------------------------------------------------------
  // Specification of the grouping phase of process

  predicate FieldsEnclosed(h: Hierarchy, fields: seq<FieldElement>)
  {
    forall i :: 0 <= i < |fields| ==> fields[i].enclosing in h.info
  }

  /** Every enclosing type's qualified name is longer than its package name (a type has a
      simple name of its own, even in the unnamed package). */
  predicate NamesWellFormed(h: Hierarchy)
  {
    forall t :: t in h.info ==> |h.info[t].packageName| < |h.info[t].qualifiedName|
  }

  /** The three filters of the loop in process. */
  predicate Accepted(h: Hierarchy, e: FieldElement)
    requires e.enclosing in h.info
  {
    e.superficiallyValid && !Inaccessible(e, h.info[e.enclosing]) && IsValidType(e.fieldType.kind)
  }

  /** The elements that end up in the binding of type t: accepted, successfully built
      elements of fields enclosed by t, in encounter order. */
  function BoundElements(h: Hierarchy, fields: seq<FieldElement>, t: nat): seq<BindingElement>
    requires FieldsEnclosed(h, fields)
    decreases |fields|
  {
    if |fields| == 0 then []
    else
      var last := fields[|fields| - 1];
      BoundElements(h, fields[..|fields| - 1], t) +
        (if Accepted(h, last) && last.enclosing == t && Classify(last).Success?
         then [Classify(last).value] else [])
  }

  /** The types that get a binding: those enclosing at least one accepted field. */
  function EnclosingTypes(h: Hierarchy, fields: seq<FieldElement>): (types: set<nat>)
    requires FieldsEnclosed(h, fields)
    ensures forall t :: t in types ==> t in h.info
    decreases |fields|
  {
    if |fields| == 0 then {}
    else
      var last := fields[|fields| - 1];
      EnclosingTypes(h, fields[..|fields| - 1]) + (if Accepted(h, last) then {last.enclosing} else {})
  }

  /** The IllegalStateException of the first accepted field whose element cannot be built. */
  function FirstFailure(h: Hierarchy, fields: seq<FieldElement>): Option<ClassifyError>
    requires FieldsEnclosed(h, fields)
    decreases |fields|
  {
    if |fields| == 0 then None
    else
      var last := fields[|fields| - 1];
      var earlier := FirstFailure(h, fields[..|fields| - 1]);
      if earlier.Some? then earlier
      else if Accepted(h, last) && Classify(last).Failure? then Some(Classify(last).error)
      else None
  }

  /** A type has a binding exactly when one of its fields is accepted. */
  lemma {:induction false} EnclosingTypesExactly(h: Hierarchy, fields: seq<FieldElement>, t: nat)
    requires FieldsEnclosed(h, fields)
    ensures t in EnclosingTypes(h, fields) <==>
            exists i :: 0 <= i < |fields| && fields[i].enclosing == t && Accepted(h, fields[i])
    decreases |fields|
  {
    if |fields| > 0 {
      var pre := fields[..|fields| - 1];
      EnclosingTypesExactly(h, pre, t);
      if exists i :: 0 <= i < |pre| && pre[i].enclosing == t && Accepted(h, pre[i]) {
        var i :| 0 <= i < |pre| && pre[i].enclosing == t && Accepted(h, pre[i]);
        assert fields[i] == pre[i];
      }
      if exists i :: 0 <= i < |fields| && fields[i].enclosing == t && Accepted(h, fields[i]) {
        var i :| 0 <= i < |fields| && fields[i].enclosing == t && Accepted(h, fields[i]);
        if i < |pre| {
          assert pre[i] == fields[i];
        }
      }
    }
  }

  /** Grouping distributes over concatenation: the elements of a binding keep the order
      in which their fields were encountered. */
  lemma {:induction false} BoundElementsAppend(h: Hierarchy, f1: seq<FieldElement>, f2: seq<FieldElement>, t: nat)
    requires FieldsEnclosed(h, f1) && FieldsEnclosed(h, f2)
    ensures FieldsEnclosed(h, f1 + f2)
    ensures BoundElements(h, f1 + f2, t) == BoundElements(h, f1, t) + BoundElements(h, f2, t)
    decreases |f2|
  {
    if |f2| == 0 {
      assert f1 + f2 == f1;
    } else {
      var pre := f2[..|f2| - 1];
      assert (f1 + f2)[..|f1 + f2| - 1] == f1 + pre;
      BoundElementsAppend(h, f1, pre, t);
    }
  }

  /** An accepted field contributes its element to the binding of its own enclosing type,
      between the contributions of the fields before it and after it, and to no other. */
  lemma FieldBoundOnce(h: Hierarchy, fields: seq<FieldElement>, i: nat, t: nat)
    requires FieldsEnclosed(h, fields) && i < |fields|
    requires Accepted(h, fields[i]) && Classify(fields[i]).Success?
    ensures FieldsEnclosed(h, fields[..i]) && FieldsEnclosed(h, fields[i + 1..])
    ensures BoundElements(h, fields, t) ==
            BoundElements(h, fields[..i], t) +
            (if t == fields[i].enclosing then [Classify(fields[i]).value] else []) +
            BoundElements(h, fields[i + 1..], t)
  {
    assert fields == fields[..i] + [fields[i]] + fields[i + 1..];
    BoundElementsAppend(h, fields[..i], [fields[i]], t);
    BoundElementsAppend(h, fields[..i] + [fields[i]], fields[i + 1..], t);
    assert BoundElements(h, [fields[i]], t) ==
           (if t == fields[i].enclosing then [Classify(fields[i]).value] else []) by {
      assert [fields[i]][..0] == [];
    }
  }

  /** `fields` around its `i`th field, each part with its enclosing types known. */
  lemma AroundField(h: Hierarchy, fields: seq<FieldElement>, i: nat)
    requires FieldsEnclosed(h, fields) && i < |fields|
    ensures fields == fields[..i] + [fields[i]] + fields[i + 1..]
    ensures FieldsEnclosed(h, fields[..i]) && FieldsEnclosed(h, [fields[i]]) && FieldsEnclosed(h, fields[i + 1..])
  {
    assert fields == fields[..i] + [fields[i]] + fields[i + 1..];
  }

  /** A rejected field on its own binds nothing and fails nothing. */
  lemma RejectedAlone(h: Hierarchy, e: FieldElement, t: nat)
    requires e.enclosing in h.info && !Accepted(h, e)
    ensures FieldsEnclosed(h, [e])
    ensures BoundElements(h, [e], t) == [] && EnclosingTypes(h, [e]) == {} && FirstFailure(h, [e]) == None
  {
    assert [e][..0] == [];
  }

  /** A rejected field can be removed without changing any binding ... */
  lemma RejectedFieldNotBound(h: Hierarchy, fields: seq<FieldElement>, i: nat, t: nat)
    requires FieldsEnclosed(h, fields) && i < |fields|
    requires !Accepted(h, fields[i])
    ensures FieldsEnclosed(h, fields[..i] + fields[i + 1..])
    ensures BoundElements(h, fields, t) == BoundElements(h, fields[..i] + fields[i + 1..], t)
  {
    var pre := fields[..i];
    var x := [fields[i]];
    var post := fields[i + 1..];
    AroundField(h, fields, i);
    RejectedAlone(h, fields[i], t);
    BoundElementsAppend(h, pre, x, t);
    BoundElementsAppend(h, pre + x, post, t);
    BoundElementsAppend(h, pre, post, t);
    assert BoundElements(h, pre + x, t) == BoundElements(h, pre, t);
  }

  /** The bound types of a concatenation are those of both parts. */
  lemma {:induction false} EnclosingTypesAppend(h: Hierarchy, f1: seq<FieldElement>, f2: seq<FieldElement>)
    requires FieldsEnclosed(h, f1) && FieldsEnclosed(h, f2)
    ensures FieldsEnclosed(h, f1 + f2)
    ensures EnclosingTypes(h, f1 + f2) == EnclosingTypes(h, f1) + EnclosingTypes(h, f2)
    decreases |f2|
  {
    if |f2| == 0 {
      assert f1 + f2 == f1;
    } else {
      var pre := f2[..|f2| - 1];
      assert (f1 + f2)[..|f1 + f2| - 1] == f1 + pre;
      EnclosingTypesAppend(h, f1, pre);
    }
  }

  /** The first failure of a concatenation is that of the first part, if any. */
  lemma {:induction false} FirstFailureAppend(h: Hierarchy, f1: seq<FieldElement>, f2: seq<FieldElement>)
    requires FieldsEnclosed(h, f1) && FieldsEnclosed(h, f2)
    ensures FieldsEnclosed(h, f1 + f2)
    ensures FirstFailure(h, f1 + f2) ==
            if FirstFailure(h, f1).Some? then FirstFailure(h, f1) else FirstFailure(h, f2)
    decreases |f2|
  {
    if |f2| == 0 {
      assert f1 + f2 == f1;
    } else {
      var pre := f2[..|f2| - 1];
      assert (f1 + f2)[..|f1 + f2| - 1] == f1 + pre;
      FirstFailureAppend(h, f1, pre);
    }
  }

  /** ... nor the set of bound types, nor the outcome. */
  lemma RejectedFieldNoTypeNoFailure(h: Hierarchy, fields: seq<FieldElement>, i: nat)
    requires FieldsEnclosed(h, fields) && i < |fields|
    requires !Accepted(h, fields[i])
    ensures FieldsEnclosed(h, fields[..i] + fields[i + 1..])
    ensures EnclosingTypes(h, fields) == EnclosingTypes(h, fields[..i] + fields[i + 1..])
    ensures FirstFailure(h, fields) == FirstFailure(h, fields[..i] + fields[i + 1..])
  {
    var pre := fields[..i];
    var one := [fields[i]];
    var post := fields[i + 1..];
    AroundField(h, fields, i);
    RejectedAlone(h, fields[i], 0);
    EnclosingTypesAppend(h, pre, one);
    EnclosingTypesAppend(h, pre + one, post);
    EnclosingTypesAppend(h, pre, post);
    FirstFailureAppend(h, pre, one);
    FirstFailureAppend(h, pre + one, post);
    FirstFailureAppend(h, pre, post);
  }

  /** A type with no accepted field has nothing bound to it. */
  lemma {:induction false} UnboundTypeIsEmpty(h: Hierarchy, fields: seq<FieldElement>, t: nat)
    requires FieldsEnclosed(h, fields) && t !in EnclosingTypes(h, fields)
    ensures BoundElements(h, fields, t) == []
    decreases |fields|
  {
    if |fields| > 0 {
      UnboundTypeIsEmpty(h, fields[..|fields| - 1], t);
    }
  }

  lemma {:induction false} FirstFailureStays(h: Hierarchy, fields: seq<FieldElement>, n: nat)
    requires FieldsEnclosed(h, fields) && n <= |fields|
    requires FieldsEnclosed(h, fields[..n]) && FirstFailure(h, fields[..n]).Some?
    ensures FirstFailure(h, fields) == FirstFailure(h, fields[..n])
    decreases |fields| - n
  {
    if n < |fields| {
      assert fields[..n + 1][..n] == fields[..n];
      FirstFailureStays(h, fields, n + 1);
    } else {
      assert fields[..n] == fields;
    }
  }

  /** Skipping a rejected field leaves the grouping of the fields before it as it is. */
  lemma RejectedStep(h: Hierarchy, fields: seq<FieldElement>, i: nat)
    requires FieldsEnclosed(h, fields) && i < |fields| && !Accepted(h, fields[i])
    ensures FieldsEnclosed(h, fields[..i]) && FieldsEnclosed(h, fields[..i + 1])
    ensures FirstFailure(h, fields[..i + 1]) == FirstFailure(h, fields[..i])
    ensures EnclosingTypes(h, fields[..i + 1]) == EnclosingTypes(h, fields[..i])
    ensures forall t :: BoundElements(h, fields[..i + 1], t) == BoundElements(h, fields[..i], t)
  {
    assert fields[..i + 1][..i] == fields[..i];
  }

  /** The binding a linked binding of t points at: that of t's nearest bound ancestor. */
  function LinkedParent(superOf: map<nat, nat>, bindings: map<nat, Binding>, t: nat): Binding?
    requires ChainDescends(superOf)
  {
    var p := NearestAncestor(superOf, t, bindings.Keys);
    if p.Some? then bindings[p.value] else null
  }

  // ---------------------------------------------------------------------------
  // process

  /** `m` is the targetClassMap after the fields `fs`: one binding per type enclosing an
      accepted field, all distinct, each named after its type and holding the elements
      of that type's fields in encounter order, none linked yet. */
  ghost predicate Grouped(h: Hierarchy, fs: seq<FieldElement>, m: map<nat, Binding>)
    reads m.Values
  {
    && NamesWellFormed(h)
    && FieldsEnclosed(h, fs)
    && FirstFailure(h, fs) == None
    && m.Keys == EnclosingTypes(h, fs)
    && (forall a, b :: a in m && b in m && a != b ==> m[a] != m[b])
    && (forall t :: t in m ==>
          && m[t].packageName == h.info[t].packageName
          && m[t].className == GetClassNameAsWritten(h.info[t].qualifiedName, h.info[t].packageName)
          && m[t].elements == BoundElements(h, fs, t)
          && m[t].parentBinding == null
          && m[t].onCompleteMethod == None)
  }

  /** An accepted field adds its type to the bound types, its element to its type's
      binding, and its failure, if any, as the first failure. */
  lemma AcceptedStep(h: Hierarchy, fields: seq<FieldElement>, i: nat)
    requires FieldsEnclosed(h, fields) && i < |fields| && Accepted(h, fields[i])
    ensures FieldsEnclosed(h, fields[..i]) && FieldsEnclosed(h, fields[..i + 1])
    ensures EnclosingTypes(h, fields[..i + 1]) == EnclosingTypes(h, fields[..i]) + {fields[i].enclosing}
    ensures FirstFailure(h, fields[..i]) == None ==>
              FirstFailure(h, fields[..i + 1]) ==
                if Classify(fields[i]).Failure? then Some(Classify(fields[i]).error) else None
    ensures forall t :: BoundElements(h, fields[..i + 1], t) ==
              BoundElements(h, fields[..i], t) +
                (if t == fields[i].enclosing && Classify(fields[i]).Success? then [Classify(fields[i]).value] else [])
  {
    assert fields[..i + 1][..i] == fields[..i];
    assert fields[..i + 1][i] == fields[i];
  }

  /** A rejected field leaves the map as it is. */
  lemma GroupedSkip(h: Hierarchy, fields: seq<FieldElement>, i: nat, m: map<nat, Binding>)
    requires FieldsEnclosed(h, fields) && i < |fields| && !Accepted(h, fields[i])
    requires Grouped(h, fields[..i], m)
    ensures Grouped(h, fields[..i + 1], m)
  {
    RejectedStep(h, fields, i);
  }

  /** The loop of process that fills targetClassMap: one fresh binding per enclosing
      type of an accepted field, each field's element appended to its type's binding. An
      IllegalStateException from addElement aborts the loop. */
  method GroupFields(h: Hierarchy, fields: seq<FieldElement>)
    returns (res: Result<map<nat, Binding>, ClassifyError>)
    requires FieldsEnclosed(h, fields) && NamesWellFormed(h)
    ensures res.Failure? <==> FirstFailure(h, fields).Some?
    ensures res.Failure? ==> res.error == FirstFailure(h, fields).value
    ensures res.Success? ==> Grouped(h, fields, res.value)
    ensures res.Success? ==> forall t :: t in res.value ==> fresh(res.value[t])
  {
    var m: map<nat, Binding> := map[];
    for i := 0 to |fields|
      invariant Grouped(h, fields[..i], m)
      invariant forall t :: t in m ==> fresh(m[t])
    {
      var e := fields[i];
      if !Accepted(h, e) {
        GroupedSkip(h, fields, i, m);
      }
      if !e.superficiallyValid {
        continue;
      }
      var inaccessible, _ := IsInaccessibleViaGeneratedCode(e, h.info[e.enclosing]);
      if inaccessible {
        continue;
      }
      if !IsValidType(e.fieldType.kind) {
        continue;
      }
      var added;
      m, added := BindField(h, fields, i, m);
      if added.Failure? {
        FirstFailureStays(h, fields, i + 1);
        return Failure(added.error);
      }
    }
    assert fields[..|fields|] == fields;
    res := Success(m);
  }

  /** The rest of the loop body for an accepted field: the binding of its enclosing type,
      created and put into the map on first use, gets the field's element. */
  method BindField(h: Hierarchy, fields: seq<FieldElement>, i: nat, m: map<nat, Binding>)
    returns (m': map<nat, Binding>, added: Result<(), ClassifyError>)
    requires FieldsEnclosed(h, fields) && NamesWellFormed(h) && i < |fields| && Accepted(h, fields[i])
    requires Grouped(h, fields[..i], m)
    modifies m.Values
    ensures added.Failure? ==> FieldsEnclosed(h, fields[..i + 1]) && FirstFailure(h, fields[..i + 1]) == Some(added.error)
    ensures added.Success? ==> Grouped(h, fields[..i + 1], m')
    ensures forall t :: t in m ==> t in m' && m'[t] == m[t]
    ensures forall t :: t in m' && t !in m ==> fresh(m'[t])
  {
    m' := BindingFor(h, fields, i, m);
    added := AddTo(h, fields, i, m');
  }

  /** The binding of the field's enclosing type: the one in the map, or a new one with no
      elements, put into the map. */
  method BindingFor(h: Hierarchy, fields: seq<FieldElement>, i: nat, m: map<nat, Binding>)
    returns (m': map<nat, Binding>)
    requires FieldsEnclosed(h, fields) && NamesWellFormed(h) && i < |fields| && Accepted(h, fields[i])
    requires Grouped(h, fields[..i], m)
    ensures Prepared(h, fields, i, m')
    ensures forall t :: t in m ==> t in m' && m'[t] == m[t]
    ensures forall t :: t in m' && t !in m ==> fresh(m'[t])
  {
    var e := fields[i];
    AcceptedStep(h, fields, i);
    if e.enclosing in m {
      m' := m;
    } else {
      UnboundTypeIsEmpty(h, fields[..i], e.enclosing);
      var enclosing := h.info[e.enclosing];
      var className := GetClassNameAsWritten(enclosing.qualifiedName, enclosing.packageName);
      var binding := new Binding(enclosing.packageName, className);
      m' := m[e.enclosing := binding];
    }
  }

  /** What the loop body needs before adding the field at `i`: the fields before it are
      grouped by `m`, which also holds the binding of the field's own type. */
  ghost predicate Prepared(h: Hierarchy, fields: seq<FieldElement>, i: nat, m: map<nat, Binding>)
    reads m.Values
  {
    && NamesWellFormed(h)
    && i < |fields|
    && fields[i].enclosing in m
    && FieldsEnclosed(h, fields[..i]) && FirstFailure(h, fields[..i]) == None
    && m.Keys == EnclosingTypes(h, fields[..i]) + {fields[i].enclosing}
    && (forall a, b :: a in m && b in m && a != b ==> m[a] != m[b])
    && (forall t :: t in m ==>
          && t in h.info
          && m[t].packageName == h.info[t].packageName
          && m[t].className == GetClassNameAsWritten(h.info[t].qualifiedName, h.info[t].packageName)
          && m[t].elements == BoundElements(h, fields[..i], t)
          && m[t].parentBinding == null
          && m[t].onCompleteMethod == None)
  }

  /** binding.addElement(element) on the binding of the field's type, which holds the
      elements of the fields before it. */
  method AddTo(h: Hierarchy, fields: seq<FieldElement>, i: nat, m: map<nat, Binding>)
    returns (added: Result<(), ClassifyError>)
    requires FieldsEnclosed(h, fields) && NamesWellFormed(h) && i < |fields| && Accepted(h, fields[i])
    requires Prepared(h, fields, i, m)
    modifies m[fields[i].enclosing]
    ensures added.Failure? ==> FieldsEnclosed(h, fields[..i + 1]) && FirstFailure(h, fields[..i + 1]) == Some(added.error)
    ensures added.Success? ==> Grouped(h, fields[..i + 1], m)
  {
    var e := fields[i];
    AcceptedStep(h, fields, i);
    var binding := m[e.enclosing];
    added := binding.AddElement(e);
    if added.Success? {
      forall t | t in m
        ensures m[t].elements == BoundElements(h, fields[..i + 1], t)
      {
        if t != e.enclosing {
          assert m[t] != binding;
        }
      }
    }
  }

  /** The linking loop of process: each binding whose type has a bound ancestor gets that
      ancestor's binding as its parent; the others keep none. */
  method LinkParents(superOf: map<nat, nat>, bindings: map<nat, Binding>)
    requires ChainDescends(superOf)
    requires forall a, b :: a in bindings && b in bindings && a != b ==> bindings[a] != bindings[b]
    requires forall t :: t in bindings ==> bindings[t].parentBinding == null
    modifies bindings.Values
    ensures forall t :: t in bindings ==>
              bindings[t].parentBinding == LinkedParent(superOf, bindings, t)
    ensures forall t :: t in bindings ==>
              bindings[t].elements == old(bindings[t].elements) &&
              bindings[t].onCompleteMethod == old(bindings[t].onCompleteMethod)
  {
    var todo := bindings.Keys;
    while todo != {}
      invariant todo <= bindings.Keys
      invariant forall t :: t in bindings ==>
                  && bindings[t].elements == old(bindings[t].elements)
                  && bindings[t].onCompleteMethod == old(bindings[t].onCompleteMethod)
                  && bindings[t].parentBinding ==
                     (if t in todo then null else LinkedParent(superOf, bindings, t))
      decreases |todo|
    {
      var t :| t in todo;
      var parentType := FindParentType(superOf, t, bindings.Keys);
      if parentType.Some? {
        bindings[t].SetParentBinding(bindings[parentType.value]);
      }
      todo := todo - {t};
    }
  }

  /** process: the grouping loop, then (when some binding exists) the linking loop, then
      one binder file per binding plus the EpoxyJson facade. `emitted` names the classes
      written. */
  method Process(h: Hierarchy, fields: seq<FieldElement>)
    returns (res: Result<map<nat, Binding>, ClassifyError>, emitted: set<ClassName>)
    requires ChainDescends(h.superOf) && FieldsEnclosed(h, fields) && NamesWellFormed(h)
    ensures res.Failure? <==> FirstFailure(h, fields).Some?
    ensures res.Failure? ==> res.error == FirstFailure(h, fields).value && emitted == {}
    ensures res.Success? ==> res.value.Keys == EnclosingTypes(h, fields)
    ensures res.Success? ==> forall a, b :: a in res.value && b in res.value && a != b ==>
                               res.value[a] != res.value[b]
    ensures res.Success? ==> forall t :: t in res.value ==>
              && fresh(res.value[t])
              && res.value[t].packageName == h.info[t].packageName
              && res.value[t].className == GetClassNameAsWritten(h.info[t].qualifiedName, h.info[t].packageName)
              && res.value[t].elements == BoundElements(h, fields, t)
              && res.value[t].onCompleteMethod == None
              && res.value[t].parentBinding == LinkedParent(h.superOf, res.value, t)
    ensures res.Success? ==> (emitted == {} <==> res.value == map[])
    ensures res.Success? && res.value != map[] ==>
              emitted == {EPOXY_JSON} + set t | t in res.value :: res.value[t].BindingClassName()
    ensures fields == [] ==> res == Success(map[]) && emitted == {}
  {
    res := GroupFields(h, fields);
    if res.Failure? {
      return res, {};
    }
    var m := res.value;
    if m == map[] {
      return res, {};
    }
    LinkParents(h.superOf, m);
    emitted := {EPOXY_JSON} + set t | t in m :: m[t].BindingClassName();
  }
}
