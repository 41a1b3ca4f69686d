/** The one pass over a model's data types: which are known, and which hold dynamic
    arrays, directly or through the types of their variables. */
module XModelValidates {
  import opened Digraph
  import AgentGraph

  datatype Variable = Variable(
    name: string, typ: string, isDynamicArray: bool, holdsDynamicArray: bool, hasADTType: bool,
    isStaticArray: bool, staticArraySize: int, constantSet: bool, constantString: string, constant: bool)

  datatype ADT = ADT(name: string, variables: seq<Variable>, holdsDynamicArray: bool)

  const ARRAY_SUFFIX := "_array"
  const FUNDAMENTAL_TYPES := ["int", "float", "double", "char"]

  predicate CharIsAllowed(c: char) {
    'a' <= c <= 'z' || 'A' <= c <= 'Z' || '0' <= c <= '9' || c == '_' || c == '-'
  }

  predicate NameIsAllowed(name: string) {
    forall i :: 0 <= i < |name| ==> CharIsAllowed(name[i])
  }

  predicate EndsInArray(typ: string) {
    |typ| > |ARRAY_SUFFIX| && typ[|typ| - |ARRAY_SUFFIX|..] == ARRAY_SUFFIX
  }

  // The suffix of a dynamic array's type becomes a mark; one suffix only.
  function WithoutSuffix(v: Variable): Variable {
    if EndsInArray(v.typ) then
      v.(typ := v.typ[..|v.typ| - |ARRAY_SUFFIX|], isDynamicArray := true, holdsDynamicArray := true)
    else v
  }

  // ---------------------------------------------------------- static arrays

  const INT_MAX: int := 0x7FFF_FFFF

  // The position of the first such character, or the length.
  function FirstOf(s: string, c: char): (i: nat)
    ensures i <= |s| && (i < |s| ==> s[i] == c) && forall j :: 0 <= j < i ==> s[j] != c
  {
    if s == [] || s[0] == c then 0 else 1 + FirstOf(s[1..], c)
  }

  // The name ends in brackets, the first of either kind.
  predicate Bracketed(name: string) {
    FirstOf(name, '[') < |name| && FirstOf(name, ']') == |name| - 1
  }

  function Between(name: string): string
    requires Bracketed(name)
  {
    name[FirstOf(name, '[') + 1..|name| - 1]
  }

  predicate AllDigits(s: string) {
    forall i :: 0 <= i < |s| ==> '0' <= s[i] <= '9'
  }

  function Value(s: string): nat
    requires AllDigits(s)
  {
    if s == [] then 0 else 10 * Value(s[..|s| - 1]) + (s[|s| - 1] - '0') as nat
  }

  predicate IsSigned(s: string) {
    s != [] && (s[0] == '+' || s[0] == '-')
  }

  // A number that fits an int of 32 bits, digits with a sign or without.
  predicate IsInt(s: string) {
    var digits := if IsSigned(s) then s[1..] else s;
    && digits != [] && AllDigits(digits)
    && Value(digits) <= INT_MAX + (if s[0] == '-' then 1 else 0)
  }

  function IntOf(s: string): int
    requires IsInt(s)
  {
    if s[0] == '-' then 0 - Value(s[1..]) else if s[0] == '+' then Value(s[1..]) else Value(s)
  }

  // The brackets of a static array's name become a size.
  function WithoutBrackets(v: Variable): Variable {
    if Bracketed(v.name) then
      v.(name := v.name[..FirstOf(v.name, '[')], isStaticArray := true,
         staticArraySize := if IsInt(Between(v.name)) then IntOf(Between(v.name)) else v.staticArraySize)
    else v
  }

  // The size of a static array is a number from one on.
  predicate SizeFits(v: Variable) {
    Bracketed(v.name) ==> IsInt(Between(v.name)) && IntOf(Between(v.name)) >= 1
  }

  predicate ConstantFits(v: Variable) {
    v.constantSet ==> v.constantString == "true" || v.constantString == "false"
  }

  // Nothing is wrong with how the variable is marked.
  predicate Fits(v: Variable) {
    SizeFits(v) && ConstantFits(v)
  }

  function WithConstant(v: Variable): Variable {
    if v.constantSet && v.constantString == "true" then v.(constant := true)
    else if v.constantSet && v.constantString == "false" then v.(constant := false)
    else v
  }

  // A variable as it is once its markings have been read.
  function Stripped(v: Variable): Variable {
    WithConstant(WithoutBrackets(WithoutSuffix(v)))
  }

  // Some data type of that name holds a dynamic array, as far as is known.
  predicate SomeHolds(adts: seq<ADT>, typ: string) {
    exists i :: 0 <= i < |adts| && adts[i].name == typ && adts[i].holdsDynamicArray
  }

  predicate SomeNamed(adts: seq<ADT>, typ: string) {
    exists i :: 0 <= i < |adts| && adts[i].name == typ
  }

  function Resolved(v: Variable, adts: seq<ADT>): Variable {
    v.(hasADTType := v.hasADTType || SomeNamed(adts, v.typ),
       holdsDynamicArray := v.holdsDynamicArray || SomeHolds(adts, v.typ))
  }

  function Processed(vs: seq<Variable>, adts: seq<ADT>): (r: seq<Variable>)
    ensures |r| == |vs| && forall i :: 0 <= i < |vs| ==> r[i] == Resolved(Stripped(vs[i]), adts)
  {
    seq(|vs|, i requires 0 <= i < |vs| => Resolved(Stripped(vs[i]), adts))
  }

  predicate NamedWell(vs: seq<Variable>, i: nat)
    requires i < |vs|
  {
    NameIsAllowed(vs[i].name) && forall j :: 0 <= j < |vs| && j != i ==> vs[j].name != vs[i].name
  }

  predicate TypedWell(v: Variable, allowed: seq<string>, allowDynamicArrays: bool) {
    v.typ in allowed && (allowDynamicArrays || !v.holdsDynamicArray)
  }

  predicate Acceptable(vs: seq<Variable>, allowed: seq<string>, allowDynamicArrays: bool) {
    forall i :: 0 <= i < |vs| ==> NamedWell(vs, i) && TypedWell(vs[i], allowed, allowDynamicArrays)
  }

  // As a model is read: nothing is marked yet.
  predicate Unmarked(vs: seq<Variable>) {
    forall i :: 0 <= i < |vs| ==> !vs[i].isDynamicArray && !vs[i].holdsDynamicArray
  }

  predicate Fresh(adts: seq<ADT>) {
    forall i :: 0 <= i < |adts| ==> !adts[i].holdsDynamicArray && Unmarked(adts[i].variables)
  }

  function TypeNames(adts: seq<ADT>): (r: seq<string>)
    ensures |r| == |adts| && forall i :: 0 <= i < |adts| ==> r[i] == adts[i].name
  {
    seq(|adts|, i requires 0 <= i < |adts| => adts[i].name)
  }

  // What passes: a new name, and variables of known types, its own included.
  predicate PassesAt(adts: seq<ADT>, i: nat)
    requires i < |adts|
  {
    var known := FUNDAMENTAL_TYPES + TypeNames(adts[..i]);
    && NameIsAllowed(adts[i].name) && adts[i].name !in known
    && (forall v :: v in adts[i].variables ==> Fits(v))
    && Acceptable(Processed(adts[i].variables, []), known + [adts[i].name], true)
  }

  class XModelValidate {
    var adts: seq<ADT>
    var allowedDataTypes: seq<string>

    constructor (adts: seq<ADT>)
      ensures this.adts == adts && allowedDataTypes == FUNDAMENTAL_TYPES
    {
      this.adts, allowedDataTypes := adts, FUNDAMENTAL_TYPES;
    }

    method ProcessVariableStaticArray(variable: Variable) returns (v: Variable, errors: nat)
      ensures v == WithoutBrackets(variable) && (errors == 0 <==> SizeFits(variable))
    {
      hide FirstOf, IsInt, IntOf;
      v, errors := variable, 0;
      var open, close := FirstOf(v.name, '['), FirstOf(v.name, ']');
      if open < |v.name| && close < |v.name| && close == |v.name| - 1 {
        v := v.(isStaticArray := true);
        var arraySizeString := v.name[open + 1..close];
        if IsInt(arraySizeString) {
          if IntOf(arraySizeString) < 1 {
            errors := errors + 1;
          }
          v := v.(staticArraySize := IntOf(arraySizeString));
        } else {
          errors := errors + 1;
        }
        v := v.(name := v.name[..open]);
      }
    }

    method ProcessConstant(variable: Variable) returns (v: Variable, errors: nat)
      ensures v == WithConstant(variable) && (errors == 0 <==> ConstantFits(variable))
    {
      v, errors := variable, 0;
      if v.constantSet {
        if v.constantString == "true" {
          v := v.(constant := true);
        } else if v.constantString == "false" {
          v := v.(constant := false);
        } else {
          errors := errors + 1;
        }
      }
    }

    // Marks the variable if it is of one of the types so far.
    method ProcessType(variable: Variable) returns (v: Variable)
      ensures v == Resolved(variable, adts)
    {
      v := variable;
      var k := 0;
      while k < |adts|
        invariant 0 <= k <= |adts| && v == Resolved(variable, adts[..k])
      {
        if v.typ == adts[k].name {
          v := v.(hasADTType := true);
          if adts[k].holdsDynamicArray {
            v := v.(holdsDynamicArray := true);
          }
        }
        ResolvedNext(variable, adts, k);
        k := k + 1;
      }
      assert adts[..k] == adts;
    }

    method ProcessVariable(variable: Variable) returns (v: Variable, errors: nat)
      ensures v == Resolved(Stripped(variable), adts) && (errors == 0 <==> Fits(variable))
      ensures forall t: string {:trigger t + "_array"} :: t != "" && variable.typ == t + "_array" ==>
                v.typ == t && v.isDynamicArray && v.holdsDynamicArray
      ensures (forall t: string {:trigger t + "_array"} :: t != "" ==> variable.typ != t + "_array") ==>
                v.typ == variable.typ && v.isDynamicArray == variable.isDynamicArray
      ensures v.hasADTType <==> variable.hasADTType || exists i :: 0 <= i < |adts| && adts[i].name == v.typ
    {
      hide *;
      v := WithoutSuffix(variable);
      var e, f;
      v, e := ProcessVariableStaticArray(v);
      v := ProcessType(v);
      v, f := ProcessConstant(v);
      ReadInTurn(variable, adts);
      TypeRead(variable);
      ResolvedKeeps(variable, adts);
      errors := e + f;
    }

    method ProcessVariables(variables: seq<Variable>) returns (vs: seq<Variable>, errors: nat)
      ensures vs == Processed(variables, adts)
      ensures errors == 0 <==> forall v :: v in variables ==> Fits(v)
    {
      hide Fits, Stripped, Resolved;
      vs, errors := [], 0;
      var k := 0;
      while k < |variables|
        invariant 0 <= k <= |variables| && vs == Processed(variables, adts)[..k]
        invariant errors == 0 <==> forall i :: 0 <= i < k ==> Fits(variables[i])
      {
        var v, e := ProcessVariable(variables[k]);
        vs, errors := vs + [v], errors + e;
        k := k + 1;
      }
    }

    // Counts the errors; there are none exactly if all markings fit and the variables,
    // once they have been read, are acceptable.
    method ValidateVariables(variables: seq<Variable>, allowDynamicArrays: bool) returns (vs: seq<Variable>, errors: nat)
      ensures vs == Processed(variables, adts)
      ensures errors == 0 <==> (forall v :: v in variables ==> Fits(v)) && Acceptable(vs, allowedDataTypes, allowDynamicArrays)
    {
      hide Fits;
      vs, errors := ProcessVariables(variables);
      var more := ValidateProcessed(vs, allowDynamicArrays);
      errors := errors + more;
    }

    method ValidateProcessed(vs: seq<Variable>, allowDynamicArrays: bool) returns (errors: nat)
      ensures errors == 0 <==> Acceptable(vs, allowedDataTypes, allowDynamicArrays)
    {
      errors := 0;
      var k := 0;
      while k < |vs|
        invariant 0 <= k <= |vs|
        invariant errors == 0 <==>
                  forall i :: 0 <= i < k ==> NamedWell(vs, i) && TypedWell(vs[i], allowedDataTypes, allowDynamicArrays)
      {
        var e := ValidateVariableName(vs, k);
        hide NamedWell;
        errors := errors + e;
        if vs[k].typ !in allowedDataTypes {
          errors := errors + 1;
        }
        if !allowDynamicArrays && vs[k].holdsDynamicArray {
          errors := errors + 1;
        }
        k := k + 1;
      }
    }

    method ValidateVariableName(vs: seq<Variable>, k: nat) returns (errors: nat)
      requires k < |vs|
      ensures errors == 0 <==> NamedWell(vs, k)
    {
      errors := if NameIsAllowed(vs[k].name) then 0 else 1;
      var j := 0;
      while j < |vs|
        invariant 0 <= j <= |vs|
        invariant errors == 0 <==>
                  NameIsAllowed(vs[k].name) && forall i :: 0 <= i < j && i != k ==> vs[i].name != vs[k].name
      {
        if j != k && vs[j].name == vs[k].name {
          errors := errors + 1;
        }
        j := j + 1;
      }
    }

    // Validates the k-th data type and, if its name will do, makes it known.
    method ValidateADT(k: nat) returns (errors: nat)
      requires k < |adts|
      modifies `adts, `allowedDataTypes
      ensures ghost var a := old(adts)[k];
              ghost var named := NameIsAllowed(a.name) && a.name !in old(allowedDataTypes);
              ghost var vs := Processed(a.variables, old(adts));
              && (if named then
                    && allowedDataTypes == old(allowedDataTypes) + [a.name]
                    && adts == old(adts)[k := ADT(a.name, vs, a.holdsDynamicArray || AnyHolds(vs))]
                    && (errors == 0 <==> (forall v :: v in a.variables ==> Fits(v)) && Acceptable(vs, allowedDataTypes, true))
                  else adts == old(adts) && allowedDataTypes == old(allowedDataTypes) && errors > 0)
    {
      var a := adts[k];
      var dataTypeNameIsValid := NameIsAllowed(a.name);
      errors := if dataTypeNameIsValid then 0 else 1;
      var d := 0;
      while d < |allowedDataTypes|
        invariant 0 <= d <= |allowedDataTypes|
        invariant dataTypeNameIsValid <==> NameIsAllowed(a.name) && a.name !in allowedDataTypes[..d]
        invariant dataTypeNameIsValid <==> errors == 0
      {
        if a.name == allowedDataTypes[d] {
          dataTypeNameIsValid := false;
          errors := errors + 1;
        }
        d := d + 1;
      }
      assert allowedDataTypes[..d] == allowedDataTypes;
      if dataTypeNameIsValid {
        allowedDataTypes := allowedDataTypes + [a.name];
        var vs, e := ValidateVariables(a.variables, true);
        errors := errors + e;
        var holds := MarkHolds(vs, a.holdsDynamicArray);
        adts := adts[k := ADT(a.name, vs, holds)];
      }
    }

    // One pass, in the order of the file.  There are no errors exactly if every
    // type passes on its own place; then each is settled for good.
    method ValidateADTs() returns (errors: nat)
      requires Fresh(adts) && allowedDataTypes == FUNDAMENTAL_TYPES
      modifies `adts, `allowedDataTypes
      ensures errors == 0 <==> forall i :: 0 <= i < |old(adts)| ==> PassesAt(old(adts), i)
      ensures errors == 0 ==> Checked(old(adts), adts, allowedDataTypes, |adts|)
    {
      errors := 0;
      ghost var adts0 := adts;
      var k := 0;
      CheckedAtFirst(adts0);
      while k < |adts|
        invariant 0 <= k <= |adts| == |adts0|
        invariant errors == 0 <==> forall i :: 0 <= i < k ==> PassesAt(adts0, i)
        invariant errors == 0 ==> Checked(adts0, adts, allowedDataTypes, k)
      {
        ghost var before, allowed := adts, allowedDataTypes;
        hide PassesAt, Checked, Fresh;
        var e := ValidateADT(k);
        if errors == 0 {
          CheckedNext(adts0, before, allowed, k, adts, allowedDataTypes, e);
        }
        errors := errors + e;
        k := k + 1;
      }
    }

    // Constants and the variables of messages must not hold dynamic arrays.
    method ValidateFixed(variables: seq<Variable>, ghost adts0: seq<ADT>) returns (vs: seq<Variable>, errors: nat)
      requires Checked(adts0, adts, allowedDataTypes, |adts|) && Unmarked(variables)
      ensures vs == Processed(variables, adts)
      ensures errors == 0 <==>
              && (forall v :: v in variables ==> Fits(v))
              && forall i :: 0 <= i < |vs| ==> NamedWell(vs, i) && vs[i].typ in allowedDataTypes && !ContainsArray(adts, vs[i])
    {
      vs, errors := ValidateVariables(variables, false);
      hide NamedWell;
      forall i | 0 <= i < |vs| ensures vs[i].holdsDynamicArray <==> ContainsArray(adts, vs[i]) {
        MarkedExactly(adts0, adts, allowedDataTypes, variables[i]);
      }
    }

    method MarkHolds(vs: seq<Variable>, already: bool) returns (holds: bool)
      ensures holds == (already || AnyHolds(vs))
    {
      holds := already;
      var j := 0;
      while j < |vs|
        invariant 0 <= j <= |vs|
        invariant holds == (already || exists i :: 0 <= i < j && vs[i].holdsDynamicArray)
      {
        if vs[j].holdsDynamicArray {
          holds := true;
        }
        j := j + 1;
      }
    }
  }

  predicate AnyHolds(vs: seq<Variable>) {
    exists i :: 0 <= i < |vs| && vs[i].holdsDynamicArray
  }

  lemma ResolvedNext(s: Variable, adts: seq<ADT>, k: nat)
    requires k < |adts|
    ensures SomeNamed(adts[..k + 1], s.typ) <==> SomeNamed(adts[..k], s.typ) || adts[k].name == s.typ
    ensures SomeHolds(adts[..k + 1], s.typ) <==>
            SomeHolds(adts[..k], s.typ) || (adts[k].name == s.typ && adts[k].holdsDynamicArray)
  {
    var a, b := adts[..k], adts[..k + 1];
    assert b == a + [adts[k]] && b[k] == adts[k];
    if i :| 0 <= i < |a| && a[i].name == s.typ { assert b[i] == a[i]; }
    if i :| 0 <= i < |a| && a[i].name == s.typ && a[i].holdsDynamicArray { assert b[i] == a[i]; }
  }

  // ---------------------------------------------------------------- the pass

  // It makes no difference that the types are looked up before the constant is read.
  lemma ReadInTurn(v: Variable, adts: seq<ADT>)
    ensures WithConstant(Resolved(WithoutBrackets(WithoutSuffix(v)), adts)) == Resolved(Stripped(v), adts)
    ensures ghost var read := Resolved(WithoutBrackets(WithoutSuffix(v)), adts);
            Fits(v) <==> SizeFits(WithoutSuffix(v)) && ConstantFits(read)
  {
    hide WithConstant, WithoutBrackets, WithoutSuffix, Resolved, SizeFits, ConstantFits;
    ConstantAfterType(WithoutBrackets(WithoutSuffix(v)), adts);
    SuffixKeeps(v);
    BracketsKeep(WithoutSuffix(v));
  }

  lemma ConstantAfterType(v: Variable, adts: seq<ADT>)
    ensures WithConstant(Resolved(v, adts)) == Resolved(WithConstant(v), adts)
    ensures ConstantFits(Resolved(v, adts)) <==> ConstantFits(v)
  {
    hide SomeHolds, SomeNamed;
  }

  lemma SuffixKeeps(v: Variable)
    ensures (SizeFits(WithoutSuffix(v)) <==> SizeFits(v)) && (ConstantFits(WithoutSuffix(v)) <==> ConstantFits(v))
  {
    hide Bracketed, Between, IsInt, IntOf, EndsInArray;
  }

  lemma BracketsKeep(v: Variable)
    ensures ConstantFits(WithoutBrackets(v)) <==> ConstantFits(v)
  {
    hide Bracketed, Between, IsInt, IntOf;
  }

  // A variable is marked by its own type and by what the given types hold.
  ghost predicate Marked(v0: Variable, v: Variable, before: seq<ADT>) {
    && v.typ == Stripped(v0).typ && v.isDynamicArray == Stripped(v0).isDynamicArray
    && (v.holdsDynamicArray <==> v.isDynamicArray || SomeHolds(before, v.typ))
  }

  // Type i as the pass leaves it: its variables are marked by what the types
  // before it hold, and it is marked by its variables.
  ghost predicate Settled(adts0: seq<ADT>, adts: seq<ADT>, i: nat)
    requires i < |adts| == |adts0|
  {
    && |adts[i].variables| == |adts0[i].variables|
    && (forall j :: 0 <= j < |adts[i].variables| ==> Marked(adts0[i].variables[j], adts[i].variables[j], adts[..i]))
    && (adts[i].holdsDynamicArray <==> AnyHolds(adts[i].variables))
  }

  ghost predicate Checked(adts0: seq<ADT>, adts: seq<ADT>, allowed: seq<string>, k: nat) {
    && k <= |adts| == |adts0| && Fresh(adts0)
    && allowed == FUNDAMENTAL_TYPES + TypeNames(adts0[..k])
    && (forall i :: 0 <= i < |adts| ==> adts[i].name == adts0[i].name)
    && (forall i :: k <= i < |adts| ==> adts[i] == adts0[i])
    && (forall i :: 0 <= i < k ==> PassesAt(adts0, i))
    && (forall i :: 0 <= i < k ==> Settled(adts0, adts, i))
  }

  lemma CheckedAtFirst(adts: seq<ADT>)
    requires Fresh(adts)
    ensures Checked(adts, adts, FUNDAMENTAL_TYPES, 0)
  {
  }

  lemma AcceptableAnyway(vs: seq<Variable>, adts: seq<ADT>, allowed: seq<string>)
    ensures Acceptable(Processed(vs, adts), allowed, true) <==> Acceptable(Processed(vs, []), allowed, true)
  {
    var a, b := Processed(vs, adts), Processed(vs, []);
    forall i | 0 <= i < |vs| ensures NamedWell(a, i) <==> NamedWell(b, i) {
      assert forall j :: 0 <= j < |vs| ==> a[j].name == b[j].name;
    }
    hide NamedWell;
    forall i | 0 <= i < |vs| ensures TypedWell(a[i], allowed, true) <==> TypedWell(b[i], allowed, true) {
    }
  }

  // Types that the pass has not come to yet hold nothing so far.
  lemma OnlyEarlierHold(adts0: seq<ADT>, adts: seq<ADT>, allowed: seq<string>, k: nat, typ: string)
    requires Checked(adts0, adts, allowed, k)
    ensures SomeHolds(adts, typ) <==> SomeHolds(adts[..k], typ)
  {
    hide Settled, PassesAt;
    if i :| 0 <= i < |adts| && adts[i].name == typ && adts[i].holdsDynamicArray {
      assert i < k;
      assert adts[..k][i] == adts[i];
    }
  }

  lemma CheckedNext(adts0: seq<ADT>, adts: seq<ADT>, allowed: seq<string>, k: nat,
                    adts': seq<ADT>, allowed': seq<string>, errors: nat)
    requires Checked(adts0, adts, allowed, k) && k < |adts|
    requires ghost var a := adts[k];
             ghost var vs := Processed(a.variables, adts);
             if NameIsAllowed(a.name) && a.name !in allowed then
               && allowed' == allowed + [a.name]
               && adts' == adts[k := ADT(a.name, vs, a.holdsDynamicArray || AnyHolds(vs))]
               && (errors == 0 <==> (forall v :: v in a.variables ==> Fits(v)) && Acceptable(vs, allowed', true))
             else adts' == adts && allowed' == allowed && errors > 0
    ensures errors == 0 <==> PassesAt(adts0, k)
    ensures errors == 0 ==> Checked(adts0, adts', allowed', k + 1)
  {
    hide *;
    NotYetMarked(adts0, adts, allowed, k);
    AcceptableAnyway(adts[k].variables, adts, allowed + [adts[k].name]);
    PassesIf(adts0, adts, allowed, k);
    if errors == 0 {
      SettledNow(adts0, adts, allowed, k, adts');
      OneMoreChecked(adts0, adts, allowed, k, adts');
    }
  }

  lemma PassesIf(adts0: seq<ADT>, adts: seq<ADT>, allowed: seq<string>, k: nat)
    requires Checked(adts0, adts, allowed, k) && k < |adts0|
    ensures ghost var a := adts0[k];
            PassesAt(adts0, k) <==>
              && NameIsAllowed(a.name) && a.name !in allowed && (forall v :: v in a.variables ==> Fits(v))
              && Acceptable(Processed(a.variables, []), allowed + [a.name], true)
  {
    hide NameIsAllowed, Fits, Acceptable, Fresh, Settled, Stripped;
  }

  lemma OneMoreChecked(adts0: seq<ADT>, adts: seq<ADT>, allowed: seq<string>, k: nat, adts': seq<ADT>)
    requires Checked(adts0, adts, allowed, k) && k < |adts| == |adts'| && PassesAt(adts0, k) && Settled(adts0, adts', k)
    requires adts'[k].name == adts[k].name && forall i :: 0 <= i < |adts| && i != k ==> adts'[i] == adts[i]
    ensures Checked(adts0, adts', allowed + [adts[k].name], k + 1)
  {
    hide PassesAt, Fresh;
    assert TypeNames(adts0[..k + 1]) == TypeNames(adts0[..k]) + [adts[k].name];
    forall i | 0 <= i < k ensures Settled(adts0, adts', i) {
      assert Settled(adts0, adts, i) && adts'[..i] == adts[..i];
    }
    hide Settled;
  }

  lemma SettledNow(adts0: seq<ADT>, adts: seq<ADT>, allowed: seq<string>, k: nat, adts': seq<ADT>)
    requires Checked(adts0, adts, allowed, k) && k < |adts|
    requires ghost var vs := Processed(adts[k].variables, adts);
             adts' == adts[k := ADT(adts[k].name, vs, adts[k].holdsDynamicArray || AnyHolds(vs))]
    ensures Settled(adts0, adts', k)
  {
    hide *;
    var vs := Processed(adts[k].variables, adts);
    NotYetMarked(adts0, adts, allowed, k);
    forall j | 0 <= j < |vs| ensures Marked(adts0[k].variables[j], vs[j], adts[..k]) {
      OnlyEarlierHold(adts0, adts, allowed, k, vs[j].typ);
      MarkedNow(adts0[k].variables[j], adts, adts[..k]);
    }
    assert adts'[..k] == adts[..k];
    IsSettled(adts0, adts', k);
  }

  lemma NotYetMarked(adts0: seq<ADT>, adts: seq<ADT>, allowed: seq<string>, k: nat)
    requires Checked(adts0, adts, allowed, k) && k < |adts|
    ensures |adts| == |adts0| && adts[k] == adts0[k] && !adts0[k].holdsDynamicArray
    ensures forall v :: v in adts0[k].variables ==> !v.isDynamicArray && !v.holdsDynamicArray
  {
    hide Settled, PassesAt;
  }

  lemma MarkedNow(v0: Variable, adts: seq<ADT>, before: seq<ADT>)
    requires !v0.isDynamicArray && !v0.holdsDynamicArray
    requires ghost var typ := Resolved(Stripped(v0), adts).typ; SomeHolds(adts, typ) <==> SomeHolds(before, typ)
    ensures Marked(v0, Resolved(Stripped(v0), adts), before)
  {
    MarkedBySuffix(v0);
    hide Stripped, SomeHolds, SomeNamed;
  }

  lemma MarkedBySuffix(v0: Variable)
    requires !v0.isDynamicArray && !v0.holdsDynamicArray
    ensures Stripped(v0).holdsDynamicArray == Stripped(v0).isDynamicArray
  {
    hide Bracketed, FirstOf, Between, IsInt, IntOf, EndsInArray;
  }

  lemma IsSettled(adts0: seq<ADT>, adts: seq<ADT>, k: nat)
    requires k < |adts| == |adts0| && |adts[k].variables| == |adts0[k].variables|
    requires forall j :: 0 <= j < |adts[k].variables| ==> Marked(adts0[k].variables[j], adts[k].variables[j], adts[..k])
    requires adts[k].holdsDynamicArray <==> AnyHolds(adts[k].variables)
    ensures Settled(adts0, adts, k)
  {
    hide Marked, AnyHolds;
  }

  // --------------------------------------------------- what the marks mean

  ghost predicate Refers(adts: seq<ADT>, i: Vertex, j: Vertex) {
    i < |adts| && j < |adts| && exists v :: v in adts[i].variables && v.typ == adts[j].name
  }

  ghost function TypeEdges(adts: seq<ADT>): Edges {
    set i: Vertex, j: Vertex | i < |adts| && j < |adts| && Refers(adts, i, j) :: (i, j)
  }

  ghost predicate Direct(adts: seq<ADT>, i: Vertex) {
    i < |adts| && exists v :: v in adts[i].variables && v.isDynamicArray
  }

  // A dynamic array is found in type i or in a type it leads to.
  ghost predicate HoldsArray(adts: seq<ADT>, i: Vertex) {
    Direct(adts, i) || exists j: Vertex :: Reaches(TypeEdges(adts), i, j) && Direct(adts, j)
  }

  // ... or in a variable of such a type.
  ghost predicate ContainsArray(adts: seq<ADT>, v: Variable) {
    v.isDynamicArray || exists i: Vertex :: i < |adts| && adts[i].name == v.typ && HoldsArray(adts, i)
  }

  // Types refer to earlier ones and to themselves only.
  lemma RefersBack(adts0: seq<ADT>, adts: seq<ADT>, allowed: seq<string>, i: Vertex, j: Vertex)
    requires Checked(adts0, adts, allowed, |adts|) && Refers(adts, i, j)
    ensures j <= i
  {
    var v :| v in adts[i].variables && v.typ == adts[j].name;
    var m :| 0 <= m < |adts[i].variables| && adts[i].variables[m] == v;
    assert Settled(adts0, adts, i) && Marked(adts0[i].variables[m], v, adts[..i]);
    assert PassesAt(adts0, i) && PassesAt(adts0, j);
    var known := FUNDAMENTAL_TYPES + TypeNames(adts0[..i]);
    assert TypedWell(Processed(adts0[i].variables, [])[m], known + [adts0[i].name], true);
    assert adts0[j].name in known + [adts0[i].name];
    if j > i {
      NamesBelow(adts0, i, j);
    }
  }

  lemma NamesBelow(adts: seq<ADT>, i: nat, j: nat)
    requires i < j < |adts|
    ensures forall x :: x in FUNDAMENTAL_TYPES + TypeNames(adts[..i]) + [adts[i].name] ==>
              x in FUNDAMENTAL_TYPES + TypeNames(adts[..j])
  {
    var a, b := TypeNames(adts[..i]), TypeNames(adts[..j]);
    forall x | x in a || x == adts[i].name ensures x in b {
      var k := if x == adts[i].name then i else var k :| 0 <= k < |a| && a[k] == x; k;
      assert b[k] == x;
    }
  }

  // Type i is marked exactly if it or an earlier type it refers to says so.
  lemma MarkedStep(adts0: seq<ADT>, adts: seq<ADT>, allowed: seq<string>, i: Vertex)
    requires Checked(adts0, adts, allowed, |adts|) && i < |adts|
    ensures adts[i].holdsDynamicArray <==>
            Direct(adts, i) || exists j: Vertex :: j < i && Refers(adts, i, j) && adts[j].holdsDynamicArray
  {
    hide *;
    var vs := adts[i].variables;
    AllSettled(adts0, adts, allowed, i);
    AnyHoldsIs(vs);
    MarksByRelation(adts, i);
  }

  lemma AllSettled(adts0: seq<ADT>, adts: seq<ADT>, allowed: seq<string>, i: nat)
    requires Checked(adts0, adts, allowed, |adts|) && i < |adts|
    ensures adts[i].holdsDynamicArray <==> AnyHolds(adts[i].variables)
    ensures forall v :: v in adts[i].variables ==> (v.holdsDynamicArray <==> v.isDynamicArray || SomeHolds(adts[..i], v.typ))
  {
    assert Settled(adts0, adts, i);
    hide Checked, SomeHolds, Stripped, AnyHolds;
    forall v | v in adts[i].variables ensures v.holdsDynamicArray <==> v.isDynamicArray || SomeHolds(adts[..i], v.typ) {
      var m :| 0 <= m < |adts[i].variables| && adts[i].variables[m] == v;
      assert Marked(adts0[i].variables[m], v, adts[..i]);
    }
  }

  lemma AnyHoldsIs(vs: seq<Variable>)
    ensures AnyHolds(vs) <==> exists v :: v in vs && v.holdsDynamicArray
  {
    if AnyHolds(vs) {
      var m :| 0 <= m < |vs| && vs[m].holdsDynamicArray;
      assert vs[m] in vs;
    }
  }

  lemma MarksByRelation(adts: seq<ADT>, i: Vertex)
    requires i < |adts|
    ensures ghost var vs := adts[i].variables;
            (exists v :: v in vs && (v.isDynamicArray || SomeHolds(adts[..i], v.typ))) <==>
            Direct(adts, i) || exists j: Vertex :: j < i && Refers(adts, i, j) && adts[j].holdsDynamicArray
  {
    var vs := adts[i].variables;
    if v :| v in vs && SomeHolds(adts[..i], v.typ) {
      var j :| 0 <= j < i && adts[..i][j].name == v.typ && adts[..i][j].holdsDynamicArray;
      assert Refers(adts, i, j) && adts[j].holdsDynamicArray;
    }
    if j: Vertex :| j < i && Refers(adts, i, j) && adts[j].holdsDynamicArray {
      var v :| v in vs && v.typ == adts[j].name;
      assert adts[..i][j] == adts[j];
      assert SomeHolds(adts[..i], v.typ);
    }
  }

  // One pass suffices: a type is marked exactly if a dynamic array can be found
  // in it, however deep.
  lemma {:induction false} MarksAreExact(adts0: seq<ADT>, adts: seq<ADT>, allowed: seq<string>, i: Vertex)
    requires Checked(adts0, adts, allowed, |adts|) && i < |adts|
    ensures adts[i].holdsDynamicArray <==> HoldsArray(adts, i)
    decreases i
  {
    var E := TypeEdges(adts);
    MarkedStep(adts0, adts, allowed, i);
    hide Checked, Refers, Reaches, Direct;
    if j: Vertex :| j < i && Refers(adts, i, j) && adts[j].holdsDynamicArray {
      MarksAreExact(adts0, adts, allowed, j);
      EdgeReaches(E, i, j);
      if k: Vertex :| Reaches(E, j, k) && Direct(adts, k) {
        Transitive(E, i, j, k);
      }
    }
    if k: Vertex :| Reaches(E, i, k) && Direct(adts, k) {
      if !Direct(adts, i) {
        var j := StepBack(adts0, adts, allowed, i, k);
        MarksAreExact(adts0, adts, allowed, j);
      }
    }
  }

  // From a type that holds nothing itself, the way to a dynamic array first
  // leads to an earlier type.
  lemma StepBack(adts0: seq<ADT>, adts: seq<ADT>, allowed: seq<string>, i: Vertex, k: Vertex) returns (j: Vertex)
    requires Checked(adts0, adts, allowed, |adts|) && i < |adts|
    requires Reaches(TypeEdges(adts), i, k) && Direct(adts, k) && !Direct(adts, i)
    ensures j < i && Refers(adts, i, j) && HoldsArray(adts, j)
  {
    var E := TypeEdges(adts);
    var p :| PathFromTo(E, p, i, k);
    var m := 0;
    assert p[|p| - 1] != i;
    while p[m + 1] == i
      invariant 0 <= m < |p| - 1 && p[m] == i
      decreases |p| - m
    {
      m := m + 1;
    }
    j := p[m + 1];
    assert Link(E, p, m);
    assert Refers(adts, i, j);
    RefersBack(adts0, adts, allowed, i, j);
    if m + 1 < |p| - 1 {
      Slice(E, p, m + 1, |p| - 1);
      assert Reaches(E, j, k);
    }
  }

  lemma MarkedExactly(adts0: seq<ADT>, adts: seq<ADT>, allowed: seq<string>, v0: Variable)
    requires Checked(adts0, adts, allowed, |adts|) && !v0.isDynamicArray && !v0.holdsDynamicArray
    ensures ghost var v := Resolved(Stripped(v0), adts); v.holdsDynamicArray <==> ContainsArray(adts, v)
  {
    hide Checked, HoldsArray, Stripped;
    MarkedBySuffix(v0);
    forall i: Vertex | i < |adts| ensures adts[i].holdsDynamicArray <==> HoldsArray(adts, i) {
      MarksAreExact(adts0, adts, allowed, i);
    }
  }

  // No two types that pass have the same name.
  lemma NamesDiffer(adts0: seq<ADT>, adts: seq<ADT>, allowed: seq<string>, i: nat, j: nat)
    requires Checked(adts0, adts, allowed, |adts|) && j < i < |adts|
    ensures adts[j].name != adts[i].name
  {
    hide Settled, Fresh, Acceptable, NameIsAllowed, Fits;
    assert PassesAt(adts0, i);
    assert TypeNames(adts0[..i])[j] == adts0[j].name;
  }

  // A variable of a type is marked as it should be, except where it has the type it
  // belongs to, is no dynamic array, and this type holds one.
  lemma OwnVariableMarkedExactly(adts0: seq<ADT>, adts: seq<ADT>, allowed: seq<string>, i: Vertex, v: Variable)
    requires Checked(adts0, adts, allowed, |adts|) && i < |adts| && v in adts[i].variables
    ensures (v.holdsDynamicArray <==> ContainsArray(adts, v)) <==>
            (v.typ == adts[i].name && !v.isDynamicArray ==> !adts[i].holdsDynamicArray)
  {
    hide Checked, HoldsArray, AnyHolds, Refers;
    AllSettled(adts0, adts, allowed, i);
    forall j: Vertex | j < |adts| ensures adts[j].holdsDynamicArray <==> HoldsArray(adts, j) {
      MarksAreExact(adts0, adts, allowed, j);
    }
    forall j: Vertex | j < |adts| && adts[j].name == v.typ ensures j <= i {
      RefersIs(adts, i, j, v);
      RefersBack(adts0, adts, allowed, i, j);
    }
    assert SomeHolds(adts[..i], v.typ) <==> exists j: Vertex :: j < i && adts[j].name == v.typ && adts[j].holdsDynamicArray by {
      HoldsBefore(adts, i, v.typ);
    }
    if v.typ == adts[i].name {
      forall j: Vertex | j < i ensures adts[j].name != v.typ {
        NamesDiffer(adts0, adts, allowed, i, j);
      }
    }
  }

  lemma RefersIs(adts: seq<ADT>, i: Vertex, j: Vertex, v: Variable)
    requires i < |adts| && j < |adts| && v in adts[i].variables && v.typ == adts[j].name
    ensures Refers(adts, i, j)
  {
  }

  lemma HoldsBefore(adts: seq<ADT>, i: nat, typ: string)
    requires i <= |adts|
    ensures SomeHolds(adts[..i], typ) <==> exists j: Vertex :: j < i && adts[j].name == typ && adts[j].holdsDynamicArray
  {
    if j: Vertex :| j < i && adts[j].name == typ && adts[j].holdsDynamicArray {
      assert adts[..i][j] == adts[j];
    }
  }

  // ----------------------------------------------------- how markings are read

  // A type that ends in _array, with something before it, is that of a dynamic array; no
  // other type is changed or marked.
  lemma {:induction false} TypeRead(v: Variable)
    ensures forall t: string {:trigger t + "_array"} :: t != "" && v.typ == t + "_array" ==>
              Stripped(v).typ == t && Stripped(v).isDynamicArray && Stripped(v).holdsDynamicArray
    ensures (forall t: string {:trigger t + "_array"} :: t != "" ==> v.typ != t + "_array") ==>
              Stripped(v).typ == v.typ && Stripped(v).isDynamicArray == v.isDynamicArray
              && Stripped(v).holdsDynamicArray == v.holdsDynamicArray
  {
    hide Stripped, WithoutSuffix, EndsInArray;
    MarkingsKeepType(v);
    SuffixRead(v);
  }

  lemma MarkingsKeepType(v: Variable)
    ensures ghost var w := WithoutSuffix(v);
            Stripped(v).typ == w.typ && Stripped(v).isDynamicArray == w.isDynamicArray && Stripped(v).holdsDynamicArray == w.holdsDynamicArray
            && Stripped(v).hasADTType == w.hasADTType
  {
    hide Bracketed, FirstOf, Between, IsInt, IntOf, WithoutSuffix;
  }

  lemma {:induction false} SuffixRead(v: Variable)
    ensures forall t: string {:trigger t + "_array"} :: t != "" && v.typ == t + "_array" ==>
              WithoutSuffix(v).typ == t && WithoutSuffix(v).isDynamicArray && WithoutSuffix(v).holdsDynamicArray
    ensures (forall t: string {:trigger t + "_array"} :: t != "" ==> v.typ != t + "_array") ==> WithoutSuffix(v) == v
  {
    var n := |v.typ| - 6;
    if n > 0 && v.typ[n..] == "_array" {
      assert v.typ == v.typ[..n] + "_array";
    }
    forall t: string {:trigger t + "_array"} | t != "" && v.typ == t + "_array"
      ensures WithoutSuffix(v).typ == t && WithoutSuffix(v).isDynamicArray && WithoutSuffix(v).holdsDynamicArray
    {
      assert |t| == n && v.typ[..n] == t && v.typ[n..] == "_array";
    }
  }

  lemma ResolvedKeeps(v0: Variable, adts: seq<ADT>)
    ensures ghost var v, r := Stripped(v0), Resolved(Stripped(v0), adts);
            && r.typ == v.typ && r.isDynamicArray == v.isDynamicArray && (v.holdsDynamicArray ==> r.holdsDynamicArray)
            && (r.hasADTType <==> v0.hasADTType || exists i :: 0 <= i < |adts| && adts[i].name == v.typ)
  {
    hide Stripped, WithoutSuffix, SomeHolds;
    MarkingsKeepType(v0);
    SuffixKeepsMark(v0);
  }

  lemma SuffixKeepsMark(v: Variable)
    ensures WithoutSuffix(v).hasADTType == v.hasADTType
  {
    hide EndsInArray;
  }

  // Letters, digits, underscore and hyphen may stand in a name, by their codes, and nothing
  // else.
  lemma AllowedNames(name: string)
    ensures NameIsAllowed(name) <==> forall i :: 0 <= i < |name| ==> ghost var n := name[i] as int;
              65 <= n <= 90 || 97 <= n <= 122 || 48 <= n <= 57 || n == 95 || n == 45
    ensures NameIsAllowed("myVar-2_x") && !NameIsAllowed("my var") && !NameIsAllowed("x[3]")
  {
    assert "my var"[2] == ' ' && "x[3]"[1] == '[';
  }

  // The types that need no declaration.
  lemma FundamentalTypes(typ: string)
    ensures typ in FUNDAMENTAL_TYPES <==> typ == "int" || typ == "float" || typ == "double" || typ == "char"
  {
    assert FUNDAMENTAL_TYPES[0] == "int" && FUNDAMENTAL_TYPES[1] == "float" && FUNDAMENTAL_TYPES[2] == "double" && FUNDAMENTAL_TYPES[3] == "char";
  }

  // As it is read from the file, with nothing said of constants.
  function Plain(name: string, typ: string): Variable {
    Variable(name, typ, false, false, false, false, 0, false, "", false)
  }

  lemma {:induction false} NoBrackets(name: string)
    requires NameIsAllowed(name)
    ensures FirstOf(name, '[') == FirstOf(name, ']') == |name| && !Bracketed(name)
  {
    assert forall i :: 0 <= i < |name| ==> name[i] != '[' && name[i] != ']';
  }

  lemma {:induction false} DecimalValue(n: nat)
    ensures AgentGraph.Decimal(n) != [] && AllDigits(AgentGraph.Decimal(n)) && Value(AgentGraph.Decimal(n)) == n
  {
    if n >= 10 {
      var init, last := AgentGraph.Decimal(n / 10), AgentGraph.Decimal(n % 10);
      DecimalValue(n / 10);
      OneDigit(n % 10);
      assert AgentGraph.Decimal(n) == init + last && (init + last)[..|init|] == init;
    } else {
      OneDigit(n);
    }
  }

  lemma OneDigit(n: nat)
    requires n < 10
    ensures ghost var d := AgentGraph.Decimal(n); |d| == 1 && '0' <= d[0] <= '9' && (d[0] - '0') as nat == n && Value(d) == n
  {
    var d := AgentGraph.Decimal(n);
    assert d == ["0123456789"[n]];
    assert d[..0] == [];
  }

  // A name with a size in brackets is read as a static array of that size and name.
  lemma {:induction false} StaticArrayRead(name: string, size: nat, typ: string)
    requires NameIsAllowed(name)
    ensures ghost var v := Plain(name + "[" + AgentGraph.Decimal(size) + "]", typ);
            && (Fits(v) <==> 1 <= size <= 2147483647) && Stripped(v).name == name && Stripped(v).isStaticArray
            && (Fits(v) ==> Stripped(v).staticArraySize == size)
  {
    hide FirstOf, Value, AllDigits, NameIsAllowed, EndsInArray;
    DecimalValue(size);
    BracketsFound(name, AgentGraph.Decimal(size));
  }

  // A name that does not end in the first closing bracket, or has no opening one, is kept.
  lemma {:induction false} OtherNamesKept(v: Variable)
    requires (forall i :: 0 <= i < |v.name| ==> v.name[i] != '[') || (exists i :: 0 <= i < |v.name| - 1 && v.name[i] == ']')
             || v.name == "" || v.name[|v.name| - 1] != ']'
    ensures Stripped(v).name == v.name && Stripped(v).isStaticArray == v.isStaticArray && SizeFits(v)
  {
    hide EndsInArray, Between, IsInt, IntOf, Bracketed;
    NoneBracketed(v.name);
  }

  lemma {:induction false} NoneBracketed(name: string)
    requires (forall i :: 0 <= i < |name| ==> name[i] != '[') || (exists i :: 0 <= i < |name| - 1 && name[i] == ']')
             || name == "" || name[|name| - 1] != ']'
    ensures !Bracketed(name)
  {
    hide FirstOf;
    assert FirstOf(name, '[') < |name| ==> name[FirstOf(name, '[')] == '[';
  }

  // What stands in the brackets must be a number, at most one sign and then digits.
  lemma {:induction false} NoNumberRefused(name: string, text: string, typ: string, i: nat)
    requires NameIsAllowed(name) && ']' !in text
    requires text == "" || text == "+" || text == "-" || (i < |text| && !('0' <= text[i] <= '9') && (i > 0 || (text[i] != '+' && text[i] != '-')))
    ensures !Fits(Plain(name + "[" + text + "]", typ)) && Stripped(Plain(name + "[" + text + "]", typ)).name == name
  {
    hide FirstOf, Value, NameIsAllowed, EndsInArray, CharIsAllowed;
    TextBetween(name, text);
    NotInt(text, i);
  }

  lemma NotInt(text: string, i: nat)
    requires text == "" || text == "+" || text == "-" || (i < |text| && !('0' <= text[i] <= '9') && (i > 0 || (text[i] != '+' && text[i] != '-')))
    ensures !IsInt(text)
  {
    hide Value;
    if IsSigned(text) && i > 0 && i < |text| { assert text[1..][i - 1] == text[i]; }
  }

  // A size below one is none.
  lemma {:induction false} NegativeRefused(name: string, n: nat, typ: string)
    requires NameIsAllowed(name)
    ensures !Fits(Plain(name + "[" + "-" + AgentGraph.Decimal(n) + "]", typ))
  {
    hide FirstOf, NameIsAllowed, EndsInArray, CharIsAllowed;
    DecimalValue(n);
    var text := "-" + AgentGraph.Decimal(n);
    assert text[1..] == AgentGraph.Decimal(n);
    assert name + "[" + "-" + AgentGraph.Decimal(n) + "]" == name + "[" + text + "]";
    TextBetween(name, text);
    hide Value, AllDigits;
  }

  // A flag says whether the variable is constant, and says so in one of two words.
  lemma ConstantRead(v: Variable)
    requires v.constantSet
    ensures Fits(v) ==> (v.constantString == "true" || v.constantString == "false")
                        && (Stripped(v).constant <==> v.constantString == "true")
    ensures v.constantString == "true" || v.constantString == "false" ==> (Fits(v) <==> SizeFits(v))
  {
    hide Bracketed, FirstOf, Between, IsInt, IntOf, EndsInArray, SizeFits;
    assert "true" != "false";
  }

  lemma {:induction false} BracketsFound(name: string, d: string)
    requires NameIsAllowed(name) && AllDigits(d) && d != []
    ensures ghost var whole := name + "[" + d + "]";
            Bracketed(whole) && FirstOf(whole, '[') == |name| && Between(whole) == d && whole[..|name|] == name
    ensures !IsSigned(d)
  {
    hide NameIsAllowed, FirstOf;
    TextBetween(name, d);
  }

  lemma {:induction false} TextBetween(name: string, d: string)
    requires NameIsAllowed(name) && ']' !in d
    ensures ghost var whole := name + "[" + d + "]";
            Bracketed(whole) && FirstOf(whole, '[') == |name| && Between(whole) == d && whole[..|name|] == name
  {
    var whole := name + "[" + d + "]";
    assert whole[|name|] == '[' && whole[|whole| - 1] == ']';
    forall i | 0 <= i < |whole| - 1 ensures whole[i] != ']' && (i < |name| ==> whole[i] != '[') {
      if i > |name| { assert whole[i] == d[i - |name| - 1]; }
    }
    hide FirstOf;
    assert FirstOf(whole, '[') == |name| && FirstOf(whole, ']') == |whole| - 1;
  }

  // A variable without markings in its name keeps all but the suffix of its type.
  lemma {:induction false} PlainRead(name: string, typ: string)
    requires NameIsAllowed(name)
    ensures Fits(Plain(name, typ)) && Stripped(Plain(name, typ)) == WithoutSuffix(Plain(name, typ))
  {
    NoBrackets(name);
    hide FirstOf, IsInt, IntOf;
  }

  // A variable of the type it is part of may stay unmarked although the type is
  // marked: the mark comes when the variables have been looked at.
  lemma OwnTypeUnmarked()
    ensures ghost var node, data := Plain("next", "list"), Plain("data", "int_array");
            ghost var adts := [ADT("list", [node, data], false)];
            ghost var vs := Processed(adts[0].variables, adts);
            PassesAt(adts, 0) && AnyHolds(vs) && !vs[0].holdsDynamicArray
  {
    hide Stripped, Fits, PassesAt, NameIsAllowed;
    var node, data := Plain("next", "list"), Plain("data", "int_array");
    var adts := [ADT("list", [node, data], false)];
    NextAndData();
    var vs, plain := Processed(adts[0].variables, adts), Processed(adts[0].variables, []);
    assert vs[1].holdsDynamicArray;
    OwnTypePasses(adts, plain);
  }

  lemma NextAndData()
    ensures ghost var node, data := Plain("next", "list"), Plain("data", "int_array");
            && Fits(node) && Stripped(node) == node
            && Fits(data) && Stripped(data) == data.(typ := "int", isDynamicArray := true, holdsDynamicArray := true)
  {
    hide Fits, Stripped;
    PlainRead("next", "list");
    PlainRead("data", "int_array");
    assert "int_array"[3..] == ARRAY_SUFFIX && "int_array"[..3] == "int";
  }

  lemma OwnTypePasses(adts: seq<ADT>, plain: seq<Variable>)
    requires |adts| == 1 && adts[0].name == "list" && plain == Processed(adts[0].variables, []) && |plain| == 2
    requires plain[0].name == "next" && plain[1].name == "data" && plain[0].typ == "list" && plain[1].typ == "int"
    requires forall v :: v in adts[0].variables ==> Fits(v)
    ensures PassesAt(adts, 0)
  {
    hide Fits, Stripped, Resolved;
    assert plain[0].name[0] != plain[1].name[0];
    assert NamedWell(plain, 0) && NamedWell(plain, 1);
    var known := FUNDAMENTAL_TYPES + TypeNames(adts[..0]);
    assert known == FUNDAMENTAL_TYPES;
    assert FUNDAMENTAL_TYPES[0] == "int" && (known + ["list"])[4] == "list";
    assert |"list"| == |"char"| && "list"[0] != "char"[0];
  }
}
