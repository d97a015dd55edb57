/** The tool-schema builder of grant_search/ai/extract_gpt_function.py. A function definition
    arrives already parsed: its argument names, which of its defaults are constants, the
    sections of its docstring and its evaluated type hints. Python type terms are the datatype
    PyType; the JSON-schema descriptors built from them are Descriptor. */
module GptFunction {
  import opened Wrappers
  import opened Strings

  /** A value inside typing.Literal[...]; only its Python type matters here. */
  datatype Lit = LStr(s: string) | LInt(i: int) | LBool(b: bool) | LNone

  /** A Python type term. `TUnion(args, false)` is typing.Union[...], so Optional[T] is
      TUnion([T, TNone], false); `TUnion(args, true)` is the `X | Y` form (types.UnionType).
      TGeneric is a builtin generic other than list[...] and dict[...], such as set[int].
      TNone is NoneType, which get_type_hints puts for an annotation `None` and which a Union
      holds; NoneValue is the value None itself, which `eval("None")` gives for a docstring type
      None and `type_hints.get("return")` gives for a function without a return annotation. */
  datatype PyType =
    | TStr | TInt | TFloat | TBool | TNone | TList | TDict
    | TUnion(args: seq<PyType>, pipe: bool)
    | TListOf(item: PyType)
    | TDictOf(key: PyType, value: PyType)
    | TGeneric(origin: string, params: seq<PyType>)
    | TLiteral(first: Lit, rest: seq<Lit>)
    | TOther(name: string)
    | NoneValue

  /** The "type" part of a property. For dict[str, V] the source stores under
      `patternProperties` the whole (descriptor, required) pair it computed for V, which is
      DObjectOf's two fields. */
  datatype Descriptor =
    | DString | DInteger | DNumber | DBoolean | DNull | DArray | DObject
    | DArrayOf(items: Descriptor)
    | DObjectOf(values: Descriptor, valuesRequired: bool)

  datatype SchemaError =
    | NonConstantDefault
    | NoDocstring
    | InvalidDocstring
    | NotAnArgument(name: string)
    | DescriptionIsNone(name: string)
    | OptionalWithoutDefault(name: string)
    | RequiredWithDefault(name: string)
    | TypeMismatch(name: string)
    | TypeUndescribed(name: string)
    | ParamUndescribed(name: string)
    | Undocumented(name: string)
    | DeclaresRaises
    | ReturnsUntyped
    | ReturnMismatch
    | FunctionUndescribed
    | NonStringKeys
    | IndefiniteLiteral
    | LiteralUnpacked
    | Unsupported

  /** Every error is a ValueError except three. A parameter whose description is None makes
      `.lower()` raise AttributeError, a Literal whose members share one type makes `{**pair}`
      unpack the (descriptor, required) tuple, and a Returns section without a type makes
      `eval(None)` raise; the last two raise TypeError. */
  predicate IsValueError(e: SchemaError) { !e.DescriptionIsNone? && !e.LiteralUnpacked? && !e.ReturnsUntyped? }

  /** typing.Optional[...] as get_type_descriptor recognises it: a typing.Union with None. */
  predicate IsOptional(t: PyType) { t.TUnion? && !t.pipe && |t.args| > 0 && TNone in t.args }

  /** `t == int | float`: union equality compares the sets of members. */
  predicate IsIntOrFloat(t: PyType) { t.TUnion? && (set a | a in t.args) == {TInt, TFloat} }

  function LitKind(l: Lit): nat {
    match l
    case LStr(_) => 0
    case LInt(_) => 1
    case LBool(_) => 2
    case LNone => 3
  }

  /** `type(l)` for a Literal member. */
  function LitType(l: Lit): PyType {
    match l
    case LStr(_) => TStr
    case LInt(_) => TInt
    case LBool(_) => TBool
    case LNone => TNone
  }

  function LitSet(first: Lit, rest: seq<Lit>): set<Lit> { {first} + set l | l in rest }

  /** Python's `==` on type terms. A typing.Union and an `X | Y` union are equal when they
      have the same members, in any order; Literals compare their sets of (value, type);
      list[...], dict[...] and other generics compare their arguments with the same `==`. */
  predicate SameType(a: PyType, b: PyType)
    decreases a
  {
    match a
    case TUnion(xs, _) =>
      && b.TUnion?
      && (forall x :: x in xs ==> exists y :: y in b.args && SameType(x, y))
      && (forall y :: y in b.args ==> exists x :: x in xs && SameType(x, y))
    case TListOf(item) => b.TListOf? && SameType(item, b.item)
    case TDictOf(key, value) => b.TDictOf? && SameType(key, b.key) && SameType(value, b.value)
    case TGeneric(origin, ps) =>
      && b.TGeneric? && origin == b.origin && |ps| == |b.params|
      && forall j :: 0 <= j < |ps| ==> SameType(ps[j], b.params[j])
    case TLiteral(first, rest) => b.TLiteral? && LitSet(first, rest) == LitSet(b.first, b.rest)
    case _ => a == b
  }

  lemma {:induction false} SameTypeReflexive(a: PyType)
    ensures SameType(a, a)
    decreases a
  {
    match a
    case TUnion(xs, _) =>
      forall x | x in xs ensures SameType(x, x) {
        SameTypeReflexive(x);
      }
      assert forall x :: x in xs ==> x in a.args && SameType(x, x);
    case TListOf(item) => SameTypeReflexive(item);
    case TDictOf(key, value) => SameTypeReflexive(key); SameTypeReflexive(value);
    case TGeneric(origin, ps) =>
      forall j | 0 <= j < |ps| ensures SameType(ps[j], ps[j]) {
        SameTypeReflexive(ps[j]);
      }
    case _ =>
  }

  /** Optional[int], Union[None, int] and `int | None` are one type to Python's `==`, while
      str is another. */
  lemma UnionSpellingsAgree()
    ensures SameType(TUnion([TInt, TNone], false), TUnion([TNone, TInt], true))
    ensures SameType(TUnion([TInt, TNone], false), TUnion([TNone, TInt], false))
    ensures !SameType(TUnion([TInt, TNone], false), TStr)
  {
    MembersAgree([TInt, TNone], [TNone, TInt]);
    MembersAgree([TInt, TNone], [TInt, TNone]);
  }

  /** Unions whose member lists hold the same types agree, whatever the order. */
  lemma MembersAgree(xs: seq<PyType>, ys: seq<PyType>)
    requires forall x :: x in xs <==> x in ys
    ensures forall x :: x in xs ==> exists y :: y in ys && SameType(x, y)
    ensures forall y :: y in ys ==> exists x :: x in xs && SameType(x, y)
  {
    forall x | x in xs ensures exists y :: y in ys && SameType(x, y) {
      SameTypeReflexive(x);
    }
    forall y | y in ys ensures exists x :: x in xs && SameType(x, y) {
      SameTypeReflexive(y);
    }
  }

  /** The errors get_type_descriptor raises. */
  predicate DescriptorError(e: SchemaError) {
    e.NonStringKeys? || e.IndefiniteLiteral? || e.LiteralUnpacked? || e.Unsupported?
  }

  /** get_type_descriptor: the descriptor of `t` and whether the parameter is required.
      Optional[T] is read as its first member, T, and is not required. */
  function TypeDescriptor(t: PyType): (r: Result<(Descriptor, bool), SchemaError>)
    ensures r.Success? ==> (r.value.1 <==> !IsOptional(t))
    ensures r.Failure? ==> DescriptorError(r.error)
    decreases t, 1
  {
    if IsOptional(t) then
      assert t.args[0] in t.args;
      BaseDescriptor(t.args[0], false)
    else BaseDescriptor(t, true)
  }

  /** The descriptor of a type once Optional has been taken off. */
  function BaseDescriptor(u: PyType, required: bool): (r: Result<(Descriptor, bool), SchemaError>)
    ensures r.Success? ==> r.value.1 == required
    ensures r.Failure? ==> DescriptorError(r.error)
    decreases u, 0
  {
    if u == TStr then Success((DString, required))
    else if u == TInt then Success((DInteger, required))
    else if u == TFloat || IsIntOrFloat(u) then Success((DNumber, required))
    else if u == TBool then Success((DBoolean, required))
    else if u == TNone then Success((DNull, required))
    else if u == TList then Success((DArray, required))
    else if u == TDict then Success((DObject, required))
    else match u
      case TListOf(item) =>
        (match TypeDescriptor(item)
         case Success(d) => Success((DArrayOf(d.0), required))
         case Failure(e) => Failure(e))
      case TDictOf(key, value) =>
        if key != TStr then Failure(NonStringKeys)
        else (match TypeDescriptor(value)
              case Success(d) => Success((DObjectOf(d.0, d.1), required))
              case Failure(e) => Failure(e))
      case TLiteral(first, rest) =>
        // The members' one type is str, int, bool or None, all of which have a descriptor
        // (LiteralTypesDescribed); unpacking that pair with `**` is what fails.
        if exists i :: 0 <= i < |rest| && LitKind(rest[i]) != LitKind(first)
        then Failure(IndefiniteLiteral)
        else Failure(LiteralUnpacked)
      case _ => Failure(Unsupported)
  }

  lemma BaseIgnoresRequired(u: PyType, a: bool, b: bool)
    ensures BaseDescriptor(u, a).Success? <==> BaseDescriptor(u, b).Success?
    ensures BaseDescriptor(u, a).Success? ==> BaseDescriptor(u, a).value.0 == BaseDescriptor(u, b).value.0
    ensures BaseDescriptor(u, a).Failure? ==> BaseDescriptor(u, a).error == BaseDescriptor(u, b).error
  {
  }

  /** The four scalar types map to their JSON-schema names and are required. */
  lemma ScalarTypes()
    ensures TypeDescriptor(TStr) == Success((DString, true))
    ensures TypeDescriptor(TInt) == Success((DInteger, true))
    ensures TypeDescriptor(TFloat) == Success((DNumber, true))
    ensures TypeDescriptor(TBool) == Success((DBoolean, true))
  {
  }

  /** None, list and dict map to their JSON-schema names and are required. */
  lemma NoneAndContainerTypes()
    ensures TypeDescriptor(TNone) == Success((DNull, true))
    ensures TypeDescriptor(TList) == Success((DArray, true))
    ensures TypeDescriptor(TDict) == Success((DObject, true))
  {
  }

  /** `int | float`, in either spelling, is a number. */
  lemma NumberUnion(pipe: bool)
    ensures TypeDescriptor(TUnion([TInt, TFloat], pipe)) == Success((DNumber, true))
  {
    assert (set a | a in [TInt, TFloat]) == {TInt, TFloat};
  }

  /** Optional[T] is described as T, and is not required. */
  lemma OptionalNotRequired(t: PyType)
    requires !IsOptional(t)
    ensures var r := TypeDescriptor(TUnion([t, TNone], false));
      && (r.Success? <==> TypeDescriptor(t).Success?)
      && (r.Success? ==> r.value == (TypeDescriptor(t).value.0, false))
      && (r.Failure? ==> r.error == TypeDescriptor(t).error)
  {
    assert TNone in [t, TNone];
    BaseIgnoresRequired(t, false, true);
  }

  /** Optional[int | float] flattens to Union[int, float, None], whose first member is int. */
  lemma OptionalNumberIsInteger()
    ensures TypeDescriptor(TUnion([TInt, TFloat, TNone], false)) == Success((DInteger, false))
  {
    assert TNone in [TInt, TFloat, TNone];
  }

  /** list[T] is an array whose items are T's descriptor; T's errors propagate. */
  lemma ListItems(t: PyType)
    ensures var r := TypeDescriptor(TListOf(t));
      && (r.Success? <==> TypeDescriptor(t).Success?)
      && (r.Success? ==> r.value == (DArrayOf(TypeDescriptor(t).value.0), true))
  {
  }

  /** JSON keys are strings: a dict with any other key type, a Literal mixing value types,
      or a type outside the supported ones is refused. */
  lemma RefusedTypes(key: PyType, value: PyType, first: Lit, rest: seq<Lit>, i: nat, name: string, origin: string, ps: seq<PyType>)
    requires key != TStr
    requires i < |rest| && LitKind(rest[i]) != LitKind(first)
    ensures TypeDescriptor(TDictOf(key, value)) == Failure(NonStringKeys)
    ensures TypeDescriptor(TLiteral(first, rest)) == Failure(IndefiniteLiteral)
    ensures TypeDescriptor(TOther(name)) == Failure(Unsupported)
    ensures TypeDescriptor(TGeneric(origin, ps)) == Failure(Unsupported)
  {
    assert exists j :: 0 <= j < |rest| && LitKind(rest[j]) != LitKind(first);
  }

  /** A Literal's members all have a type with a descriptor of its own. */
  lemma LiteralTypesDescribed(l: Lit)
    ensures TypeDescriptor(LitType(l)).Success?
  {
  }

  /** No Literal is ever described: mixed member types are a ValueError, and otherwise
      unpacking the member type's pair raises TypeError, which is not one. Optional[Literal]
      fares the same. */
  lemma LiteralNeverDescribed(first: Lit, rest: seq<Lit>)
    ensures TypeDescriptor(TLiteral(first, rest)).Failure?
    ensures TypeDescriptor(TUnion([TLiteral(first, rest), TNone], false)).Failure?
    ensures IsValueError(TypeDescriptor(TLiteral(first, rest)).error)
        <==> exists i :: 0 <= i < |rest| && LitKind(rest[i]) != LitKind(first)
  {
    assert TNone in [TLiteral(first, rest), TNone];
  }

  /** dict[str, V] is an object whose `patternProperties` hold V's descriptor and flag;
      V's errors propagate. */
  lemma DictValues(t: PyType)
    ensures var r := TypeDescriptor(TDictOf(TStr, t));
      && (r.Success? <==> TypeDescriptor(t).Success?)
      && (r.Success? ==> r.value == (DObjectOf(TypeDescriptor(t).value.0, TypeDescriptor(t).value.1), true))
      && (r.Failure? ==> r.error == TypeDescriptor(t).error)
  {
  }

  /** One section of the docstring's parameter list. `typeName` is the evaluated type. */
  datatype DocParam = DocParam(argName: string, typeName: Option<PyType>, description: Option<string>)

  /** A parsed `def`: argument names in order, one flag per default (true when it is a
      constant), the parsed docstring (when there is one and it parses), and the type hints.
      `returnsType` is the docstring's Returns section: None when there is none, Some(None)
      when it names no type, and otherwise the evaluated type it names. */
  datatype ParsedFunction = ParsedFunction(
    name: string, args: seq<string>, defaults: seq<bool>,
    hasDocstring: bool, docstringParses: bool,
    params: seq<DocParam>, raises: seq<Option<string>>, returnsType: Option<Option<PyType>>,
    shortDescription: Option<string>, hints: map<string, PyType>, returnHint: Option<PyType>)

  /** Python places the defaults on the last parameters, so there are never more of them. */
  predicate WellFormed(f: ParsedFunction) { |f.defaults| <= |f.args| }

  datatype Property = Property(description: string, descriptor: Descriptor)

  datatype FunctionSchema = FunctionSchema(
    name: string, description: string, properties: seq<(string, Property)>, required: seq<string>)

  function PropLookup(ps: seq<(string, Property)>, k: string): Option<Property> {
    if ps == [] then None else if ps[0].0 == k then Some(ps[0].1) else PropLookup(ps[1..], k)
  }

  /** Dictionary assignment: replaces the entry in place, or appends one. */
  function PropPut(ps: seq<(string, Property)>, k: string, v: Property): (r: seq<(string, Property)>)
    ensures PropLookup(r, k) == Some(v)
    ensures forall k' :: k' != k ==> PropLookup(r, k') == PropLookup(ps, k')
  {
    if ps == [] then [(k, v)]
    else if ps[0].0 == k then [(k, v)] + ps[1..]
    else [ps[0]] + PropPut(ps[1..], k, v)
  }

  /** `xs[1:]`. */
  function Tail<T>(s: seq<T>): seq<T> { if s == [] then [] else s[1..] }

  /** The names that receive the k defaults: the last k arguments. */
  function DefaultNames(args: seq<string>, defaults: seq<bool>): set<string>
    requires |defaults| <= |args|
  {
    set i | |args| - |defaults| <= i < |args| :: args[i]
  }

  /** The type a parameter is described with: the docstring's, otherwise the hint. */
  predicate Typed(p: DocParam, hints: map<string, PyType>) { p.typeName.Some? || p.argName in hints }

  function TypeOf(p: DocParam, hints: map<string, PyType>): PyType
    requires Typed(p, hints)
  {
    if p.typeName.Some? then p.typeName.value else hints[p.argName]
  }

  /** The checks on one documented parameter, in the order the source makes them. */
  function ParamError(p: DocParam, args: seq<string>, dflt: set<string>, hints: map<string, PyType>): (r: Option<SchemaError>)
    ensures r.None? <==>
      && p.argName in args
      && p.description.Some?
      && (Contains(Lower(p.description.value), "optional") ==> p.argName in dflt)
      && (Contains(Lower(p.description.value), "required") ==> p.argName !in dflt)
      && (p.typeName.Some? && p.argName in hints ==> SameType(p.typeName.value, hints[p.argName]))
      && Typed(p, hints)
      && !AllSpace(p.description.value)
  {
    var n := p.argName;
    if n !in args then Some(NotAnArgument(n))
    else if p.description.None? then Some(DescriptionIsNone(n))
    else if Contains(Lower(p.description.value), "optional") && n !in dflt then Some(OptionalWithoutDefault(n))
    else if Contains(Lower(p.description.value), "required") && n in dflt then Some(RequiredWithDefault(n))
    else if p.typeName.Some? && n in hints && !SameType(p.typeName.value, hints[n]) then Some(TypeMismatch(n))
    else if p.typeName.None? && n !in hints then Some(TypeUndescribed(n))
    else if AllSpace(p.description.value) then Some(ParamUndescribed(n))
    else None
  }

  /** The first failing check over the documented parameters, in order. */
  function FirstParamError(ps: seq<DocParam>, args: seq<string>, dflt: set<string>, hints: map<string, PyType>): (r: Option<SchemaError>)
    ensures r.None? <==> forall j :: 0 <= j < |ps| ==> ParamError(ps[j], args, dflt, hints).None?
    ensures r.Some? ==> exists j :: 0 <= j < |ps| && r == ParamError(ps[j], args, dflt, hints)
  {
    if ps == [] then None
    else if ParamError(ps[0], args, dflt, hints).Some? then ParamError(ps[0], args, dflt, hints)
    else FirstParamError(ps[1..], args, dflt, hints)
  }

  function DocNames(ps: seq<DocParam>): (r: seq<string>)
    ensures |r| == |ps| && forall j :: 0 <= j < |ps| ==> r[j] == ps[j].argName
  {
    if ps == [] then [] else [ps[0].argName] + DocNames(ps[1..])
  }

  /** The first argument the docstring does not mention. */
  function FirstUndocumented(args: seq<string>, names: seq<string>): (r: Option<string>)
    ensures r.None? <==> forall j :: 0 <= j < |args| ==> args[j] in names
    ensures r.Some? ==> r.value in args && r.value !in names
  {
    if args == [] then None
    else if args[0] !in names then Some(args[0])
    else FirstUndocumented(args[1..], names)
  }

  /** The docstring may declare no exception other than a single `None`. */
  predicate RaisesDeclared(raises: seq<Option<string>>) {
    |raises| > 0 && (|raises| != 1 || raises[0] != Some("None"))
  }

  /** `type_hints.get("return")`: the return hint, or the value None without one. */
  function ReturnHintValue(f: ParsedFunction): PyType {
    if f.returnHint.Some? then f.returnHint.value else NoneValue
  }

  /** The Returns section has no type, so `eval(None)` raises TypeError. */
  predicate ReturnsUntypedSection(f: ParsedFunction) { f.returnsType == Some(None) }

  /** The docstring's Returns type differs, by Python's `!=`, from `type_hints.get("return")`. */
  predicate ReturnMismatched(f: ParsedFunction) {
    f.returnsType.Some? && f.returnsType.value.Some? && !SameType(f.returnsType.value.value, ReturnHintValue(f))
  }

  predicate Described(ps: seq<DocParam>, hints: map<string, PyType>) {
    forall j :: 0 <= j < |ps| ==> Typed(ps[j], hints) && ps[j].description.Some?
  }

  /** The properties built from the documented parameters, in order, and the names of the
      parameters whose type is Optional. */
  function Properties(ps: seq<DocParam>, hints: map<string, PyType>): Result<(seq<(string, Property)>, set<string>), SchemaError>
    requires Described(ps, hints)
    decreases |ps|
  {
    if ps == [] then Success(([], {}))
    else
      var acc :- Properties(ps[..|ps| - 1], hints);
      var p := ps[|ps| - 1];
      var td :- TypeDescriptor(TypeOf(p, hints));
      Success((PropPut(acc.0, p.argName, Property(p.description.value, td.0)),
               if td.1 then acc.1 else acc.1 + {p.argName}))
  }

  /** The `required` list: the arguments, in order, that are not in `dflt`. */
  function Required(args: seq<string>, dflt: set<string>): (r: seq<string>)
    ensures forall a :: a in r <==> a in args && a !in dflt
  {
    if args == [] then []
    else (if args[0] in dflt then [] else [args[0]]) + Required(args[1..], dflt)
  }

  /** create_openai_function_description as a function of the parsed definition. */
  function Describe(f: ParsedFunction): Result<FunctionSchema, SchemaError>
    requires WellFormed(f)
  {
    if false in f.defaults then Failure(NonConstantDefault)
    else if !f.hasDocstring then Failure(NoDocstring)
    else if !f.docstringParses then Failure(InvalidDocstring)
    else DescribeParams(f, Tail(f.args), Tail(f.params), DefaultNames(f.args, f.defaults))
  }

  /** The checks once the docstring has parsed, over the arguments and the documented
      parameters after the first and the names bound to defaults. */
  function DescribeParams(f: ParsedFunction, args: seq<string>, ps: seq<DocParam>, dflt: set<string>)
    : Result<FunctionSchema, SchemaError>
  {
    match FirstParamError(ps, args, dflt, f.hints)
    case Some(e) => Failure(e)
    case None =>
      match FirstUndocumented(args, DocNames(ps))
      case Some(a) => Failure(Undocumented(a))
      case None => DescribeChecked(f, args, ps, dflt)
  }

  /** The checks on the docstring as a whole, then the properties and the `required` list. */
  function DescribeChecked(f: ParsedFunction, args: seq<string>, ps: seq<DocParam>, dflt: set<string>)
    : Result<FunctionSchema, SchemaError>
    requires Described(ps, f.hints)
  {
    if RaisesDeclared(f.raises) then Failure(DeclaresRaises)
    else if ReturnsUntypedSection(f) then Failure(ReturnsUntyped)
    else if ReturnMismatched(f) then Failure(ReturnMismatch)
    else if f.shortDescription.None? || AllSpace(f.shortDescription.value) then Failure(FunctionUndescribed)
    else
      var pr :- Properties(ps, f.hints);
      Success(FunctionSchema(f.name, f.shortDescription.value, pr.0, Required(args, dflt + pr.1)))
  }

  lemma {:induction false} PropertiesPrefixFailure(ps: seq<DocParam>, hints: map<string, PyType>, k: nat)
    requires Described(ps, hints) && k <= |ps|
    requires Properties(ps[..k], hints).Failure?
    ensures Properties(ps, hints) == Properties(ps[..k], hints)
    decreases |ps|
  {
    if k == |ps| {
      assert ps[..k] == ps;
    } else {
      var init := ps[..|ps| - 1];
      assert init[..k] == ps[..k];
      PropertiesPrefixFailure(init, hints, k);
    }
  }

  /** One documented parameter whose type has no descriptor makes the properties fail. */
  lemma {:induction false} PropertiesFailOnAny(ps: seq<DocParam>, hints: map<string, PyType>, j: nat)
    requires Described(ps, hints) && j < |ps|
    requires TypeDescriptor(TypeOf(ps[j], hints)).Failure?
    ensures Properties(ps, hints).Failure?
    decreases |ps|
  {
    if j < |ps| - 1 {
      var init := ps[..|ps| - 1];
      assert init[j] == ps[j];
      PropertiesFailOnAny(init, hints, j);
    }
  }

  /** A function with a documented Literal parameter (after the first) is never described. */
  lemma LiteralParamRefused(f: ParsedFunction, j: nat)
    requires WellFormed(f) && j < |Tail(f.params)|
    requires Typed(Tail(f.params)[j], f.hints) && TypeOf(Tail(f.params)[j], f.hints).TLiteral?
    ensures Describe(f).Failure?
  {
    var t := TypeOf(Tail(f.params)[j], f.hints);
    LiteralNeverDescribed(t.first, t.rest);
    if Describe(f).Success? {
      AcceptedSchema(f);
      PropertiesFailOnAny(Tail(f.params), f.hints, j);
      assert false;
    }
  }

  /** The defaults loop: from the last default backwards, each binds to the argument at the
      same distance from the end; a non-constant default stops it. */
  method BindDefaults(args: seq<string>, defaults: seq<bool>) returns (r: Option<set<string>>)
    requires |defaults| <= |args|
    ensures r.None? <==> false in defaults
    ensures r.Some? ==> r.value == DefaultNames(args, defaults)
  {
    var dflt: set<string> := {};
    var nd, na := |defaults|, |args|;
    for i := 0 to nd
      invariant forall j :: nd - i <= j < nd ==> defaults[j]
      invariant dflt == set j | na - i <= j < na :: args[j]
    {
      if !defaults[nd - 1 - i] {
        assert defaults[nd - 1 - i] == false;
        return None;
      }
      dflt := dflt + {args[na - 1 - i]};
    }
    assert false !in defaults by {
      assert forall j :: 0 <= j < nd ==> defaults[j];
    }
    r := Some(dflt);
  }

  lemma FirstParamErrorStep(ps: seq<DocParam>, k: nat, args: seq<string>, dflt: set<string>, hints: map<string, PyType>)
    requires k < |ps|
    ensures FirstParamError(ps[k..], args, dflt, hints)
         == if ParamError(ps[k], args, dflt, hints).Some? then ParamError(ps[k], args, dflt, hints)
            else FirstParamError(ps[k + 1..], args, dflt, hints)
  {
    assert ps[k..][1..] == ps[k + 1..];
  }

  /** The per-parameter checks, parameter by parameter. */
  method CheckParams(ps: seq<DocParam>, args: seq<string>, dflt: set<string>, hints: map<string, PyType>)
    returns (e: Option<SchemaError>)
    ensures e == FirstParamError(ps, args, dflt, hints)
  {
    for k := 0 to |ps|
      invariant FirstParamError(ps, args, dflt, hints) == FirstParamError(ps[k..], args, dflt, hints)
    {
      FirstParamErrorStep(ps, k, args, dflt, hints);
      e := ParamError(ps[k], args, dflt, hints);
      if e.Some? {
        return;
      }
    }
    assert ps[|ps|..] == [];
    e := None;
  }

  /** The scan for an argument missing from the docstring. */
  method CheckDocumented(args: seq<string>, names: seq<string>) returns (missing: Option<string>)
    ensures missing == FirstUndocumented(args, names)
  {
    for k := 0 to |args|
      invariant FirstUndocumented(args, names) == FirstUndocumented(args[k..], names)
    {
      assert args[k..][1..] == args[k + 1..];
      if args[k] !in names {
        return Some(args[k]);
      }
    }
    assert args[|args|..] == [];
    missing := None;
  }

  /** The properties loop: one descriptor per documented parameter, in order. */
  method BuildProperties(ps: seq<DocParam>, hints: map<string, PyType>)
    returns (r: Result<(seq<(string, Property)>, set<string>), SchemaError>)
    requires Described(ps, hints)
    ensures r == Properties(ps, hints)
  {
    var props: seq<(string, Property)> := [];
    var optional: set<string> := {};
    for k := 0 to |ps|
      invariant Properties(ps[..k], hints) == Success((props, optional))
    {
      assert ps[..k + 1][..k] == ps[..k];
      var p := ps[k];
      var td := TypeDescriptor(TypeOf(p, hints));
      if td.Failure? {
        PropertiesPrefixFailure(ps, hints, k + 1);
        return Failure(td.error);
      }
      props := PropPut(props, p.argName, Property(p.description.value, td.value.0));
      if !td.value.1 {
        optional := optional + {p.argName};
      }
    }
    assert ps[..|ps|] == ps;
    r := Success((props, optional));
  }

  /** create_openai_function_description: its checks in the source's order, then the schema. */
  method CreateFunctionDescription(f: ParsedFunction) returns (r: Result<FunctionSchema, SchemaError>)
    requires WellFormed(f)
    ensures r == Describe(f)
  {
    var bound := BindDefaults(f.args, f.defaults);
    if bound.None? {
      return Failure(NonConstantDefault);
    }
    var dflt := bound.value;
    if !f.hasDocstring {
      return Failure(NoDocstring);
    }
    if !f.docstringParses {
      return Failure(InvalidDocstring);
    }
    var args, ps := Tail(f.args), Tail(f.params);
    var e := CheckParams(ps, args, dflt, f.hints);
    if e.Some? {
      return Failure(e.value);
    }
    var missing := CheckDocumented(args, DocNames(ps));
    if missing.Some? {
      return Failure(Undocumented(missing.value));
    }
    if RaisesDeclared(f.raises) {
      return Failure(DeclaresRaises);
    }
    if ReturnsUntypedSection(f) {
      return Failure(ReturnsUntyped);
    }
    if ReturnMismatched(f) {
      return Failure(ReturnMismatch);
    }
    if f.shortDescription.None? || AllSpace(f.shortDescription.value) {
      return Failure(FunctionUndescribed);
    }
    var pr := BuildProperties(ps, f.hints);
    if pr.Failure? {
      return Failure(pr.error);
    }
    r := Success(FunctionSchema(f.name, f.shortDescription.value, pr.value.0, Required(args, dflt + pr.value.1)));
  }

  /** The Returns check compares by `!=` with `type_hints.get("return")`: "Returns: None"
      passes on a function without a return annotation (None equals None) and fails on one
      annotated `-> None` (None differs from NoneType); a Returns section without a type raises
      TypeError, which is not a ValueError. */
  lemma ReturnsSectionChecked(f: ParsedFunction, args: seq<string>, ps: seq<DocParam>, dflt: set<string>)
    requires Described(ps, f.hints) && !RaisesDeclared(f.raises)
    ensures f.returnsType == Some(None) ==>
      DescribeChecked(f, args, ps, dflt) == Failure(ReturnsUntyped) && !IsValueError(ReturnsUntyped)
    ensures f.returnsType == Some(Some(NoneValue)) && f.returnHint.None? ==>
      DescribeChecked(f, args, ps, dflt) != Failure(ReturnMismatch)
    ensures f.returnsType == Some(Some(NoneValue)) && f.returnHint == Some(TNone) ==>
      DescribeChecked(f, args, ps, dflt) == Failure(ReturnMismatch)
    ensures f.returnsType.None? ==> DescribeChecked(f, args, ps, dflt) !in {Failure(ReturnMismatch), Failure(ReturnsUntyped)}
  {
    if f.returnsType == Some(Some(NoneValue)) && f.returnHint.None? && f.shortDescription.Some? && !AllSpace(f.shortDescription.value) {
      PropertiesNeverMismatch(ps, f.hints);
    }
    if f.returnsType.None? && f.shortDescription.Some? && !AllSpace(f.shortDescription.value) {
      PropertiesNeverMismatch(ps, f.hints);
    }
  }

  /** The properties fail only with an error of get_type_descriptor. */
  lemma {:induction false} PropertiesNeverMismatch(ps: seq<DocParam>, hints: map<string, PyType>)
    requires Described(ps, hints)
    ensures Properties(ps, hints).Failure? ==> DescriptorError(Properties(ps, hints).error)
    decreases |ps|
  {
    if ps != [] {
      PropertiesNeverMismatch(ps[..|ps| - 1], hints);
    }
  }

  /** What an accepted definition satisfies: every documented parameter (after the first) is
      an argument and every argument is documented; "optional" only on defaulted parameters and
      "required" only on the others; no declared exception; a non-blank description. */
  lemma AcceptedIsConsistent(f: ParsedFunction)
    requires WellFormed(f) && Describe(f).Success?
    ensures false !in f.defaults && f.hasDocstring && f.docstringParses
    ensures var args, ps, dflt := Tail(f.args), Tail(f.params), DefaultNames(f.args, f.defaults);
      && (forall j :: 0 <= j < |ps| ==> ps[j].argName in args && ps[j].description.Some?)
      && (forall j :: 0 <= j < |ps| && Contains(Lower(ps[j].description.value), "optional") ==> ps[j].argName in dflt)
      && (forall j :: 0 <= j < |ps| && Contains(Lower(ps[j].description.value), "required") ==> ps[j].argName !in dflt)
      && (forall a :: a in args ==> a in DocNames(ps))
    ensures !RaisesDeclared(f.raises)
    ensures f.shortDescription.Some? && !AllSpace(f.shortDescription.value)
    ensures Describe(f).value.name == f.name && Describe(f).value.description == f.shortDescription.value
  {
    var args, ps, dflt := Tail(f.args), Tail(f.params), DefaultNames(f.args, f.defaults);
    assert FirstParamError(ps, args, dflt, f.hints).None?;
    assert FirstUndocumented(args, DocNames(ps)).None?;
  }

  /** The schema of an accepted definition, read off the checks it passed. */
  lemma AcceptedSchema(f: ParsedFunction)
    requires WellFormed(f) && Describe(f).Success?
    ensures var args, ps, dflt := Tail(f.args), Tail(f.params), DefaultNames(f.args, f.defaults);
      && Described(ps, f.hints) && Properties(ps, f.hints).Success? && f.shortDescription.Some?
      && Describe(f).value == FunctionSchema(f.name, f.shortDescription.value, Properties(ps, f.hints).value.0,
                                             Required(args, dflt + Properties(ps, f.hints).value.1))
  {
    var args, ps, dflt := Tail(f.args), Tail(f.params), DefaultNames(f.args, f.defaults);
    assert Describe(f) == DescribeParams(f, args, ps, dflt);
    assert FirstParamError(ps, args, dflt, f.hints).None?;
    assert FirstUndocumented(args, DocNames(ps)).None?;
    assert DescribeParams(f, args, ps, dflt) == DescribeChecked(f, args, ps, dflt);
    CheckedSchema(f, args, ps, dflt);
  }

  lemma CheckedSchema(f: ParsedFunction, args: seq<string>, ps: seq<DocParam>, dflt: set<string>)
    requires Described(ps, f.hints) && DescribeChecked(f, args, ps, dflt).Success?
    ensures Properties(ps, f.hints).Success? && f.shortDescription.Some?
    ensures DescribeChecked(f, args, ps, dflt).value
         == FunctionSchema(f.name, f.shortDescription.value, Properties(ps, f.hints).value.0,
                           Required(args, dflt + Properties(ps, f.hints).value.1))
  { }

  /** The `required` list of an accepted definition holds exactly the arguments after the
      first that have no default and whose type is not Optional. */
  lemma {:induction false} RequiredExactly(f: ParsedFunction, a: string)
    requires WellFormed(f) && Describe(f).Success?
    ensures var ps := Tail(f.params);
      Described(ps, f.hints) && Properties(ps, f.hints).Success? &&
      (a in Describe(f).value.required <==>
         a in Tail(f.args) && a !in DefaultNames(f.args, f.defaults) && a !in Properties(ps, f.hints).value.1)
  {
    AcceptedSchema(f);
  }

  /** A parameter lands in the Optional set only through an Optional type. */
  lemma {:induction false} OptionalNamesAreOptional(ps: seq<DocParam>, hints: map<string, PyType>, a: string)
    requires Described(ps, hints) && Properties(ps, hints).Success?
    requires a in Properties(ps, hints).value.1
    ensures exists j :: 0 <= j < |ps| && ps[j].argName == a && IsOptional(TypeOf(ps[j], hints))
    decreases |ps|
  {
    var init := ps[..|ps| - 1];
    var p := ps[|ps| - 1];
    var acc := Properties(init, hints).value;
    var td := TypeDescriptor(TypeOf(p, hints)).value;
    if a in acc.1 {
      OptionalNamesAreOptional(init, hints, a);
      var j :| 0 <= j < |init| && init[j].argName == a && IsOptional(TypeOf(init[j], hints));
      assert ps[j] == init[j];
    } else {
      assert a == p.argName && !td.1;
    }
  }

  /** Python forbids two parameters with one name. */
  predicate DistinctArgs(args: seq<string>) {
    forall i, j :: 0 <= i < j < |args| ==> args[i] != args[j]
  }

  lemma ParamErrorOnArgs(p: DocParam, args: seq<string>, d1: set<string>, d2: set<string>, hints: map<string, PyType>)
    requires forall a :: a in args ==> (a in d1 <==> a in d2)
    ensures ParamError(p, args, d1, hints) == ParamError(p, args, d2, hints)
  {
  }

  lemma {:induction false} FirstParamErrorOnArgs(ps: seq<DocParam>, args: seq<string>, d1: set<string>, d2: set<string>, hints: map<string, PyType>)
    requires forall a :: a in args ==> (a in d1 <==> a in d2)
    ensures FirstParamError(ps, args, d1, hints) == FirstParamError(ps, args, d2, hints)
    decreases |ps|
  {
    if ps != [] {
      ParamErrorOnArgs(ps[0], args, d1, d2, hints);
      FirstParamErrorOnArgs(ps[1..], args, d1, d2, hints);
    }
  }

  lemma {:induction false} RequiredOnArgs(args: seq<string>, d1: set<string>, d2: set<string>)
    requires forall a :: a in args ==> (a in d1 <==> a in d2)
    ensures Required(args, d1) == Required(args, d2)
    decreases |args|
  {
    if args != [] {
      RequiredOnArgs(args[1..], d1, d2);
    }
  }

  /** Away from the first argument, two argument lists with distinct names that agree
      after it bind the same defaults. */
  lemma DefaultsOnTail(a1: seq<string>, a2: seq<string>, defaults: seq<bool>, a: string)
    requires |defaults| <= |a1| && |a1| == |a2| > 0 && a1[1..] == a2[1..]
    requires DistinctArgs(a1) && DistinctArgs(a2)
    requires a in a1[1..]
    ensures a in DefaultNames(a1, defaults) <==> a in DefaultNames(a2, defaults)
  {
    var k :| 0 <= k < |a1| - 1 && a1[1..][k] == a;
    assert a1[k + 1] == a && a2[k + 1] == a;
    if a in DefaultNames(a1, defaults) {
      var i :| |a1| - |defaults| <= i < |a1| && a1[i] == a;
      assert i == k + 1;
    }
    if a in DefaultNames(a2, defaults) {
      var i :| |a2| - |defaults| <= i < |a2| && a2[i] == a;
      assert i == k + 1;
    }
  }

  lemma DistinctAfterSwap(args: seq<string>, arg0: string)
    requires |args| > 0 && DistinctArgs(args) && arg0 !in args[1..]
    ensures DistinctArgs([arg0] + args[1..])
  {
    var g := [arg0] + args[1..];
    forall i, j | 0 <= i < j < |g|
      ensures g[i] != g[j]
    {
      if i == 0 {
        assert g[j] == args[1..][j - 1];
      } else {
        assert g[i] == args[i] && g[j] == args[j];
      }
    }
  }

  /** Describe depends on the arguments and parameters only through their tails and the
      defaults bound among the tail. */
  lemma DescribeOnTails(f: ParsedFunction, g: ParsedFunction)
    requires WellFormed(f) && WellFormed(g)
    requires g == f.(args := g.args, params := g.params)
    requires Tail(f.args) == Tail(g.args) && Tail(f.params) == Tail(g.params)
    requires forall a :: a in Tail(f.args) ==>
      (a in DefaultNames(f.args, f.defaults) <==> a in DefaultNames(g.args, g.defaults))
    ensures Describe(g) == Describe(f)
  {
    var args, ps := Tail(f.args), Tail(f.params);
    var d1, d2 := DefaultNames(f.args, f.defaults), DefaultNames(g.args, g.defaults);
    FirstParamErrorOnArgs(ps, args, d1, d2, f.hints);
    if FirstParamError(ps, args, d1, f.hints).None? && FirstUndocumented(args, DocNames(ps)).None? {
      CheckedOnDefaults(f, g, args, ps, d1, d2);
    }
  }

  /** The whole-docstring checks and the schema agree for defaults that agree on the arguments. */
  lemma CheckedOnDefaults(f: ParsedFunction, g: ParsedFunction, args: seq<string>, ps: seq<DocParam>,
                          d1: set<string>, d2: set<string>)
    requires Described(ps, f.hints) && g == f.(args := g.args, params := g.params)
    requires forall a :: a in args ==> (a in d1 <==> a in d2)
    ensures DescribeChecked(g, args, ps, d2) == DescribeChecked(f, args, ps, d1)
  {
    if Properties(ps, f.hints).Success? {
      var opt := Properties(ps, f.hints).value.1;
      RequiredOnArgs(args, d1 + opt, d2 + opt);
    }
  }

  /** The first parameter and the first docstring parameter (the RunContext) take part in no
      check and in no output: replacing them leaves the result unchanged. */
  lemma FirstParameterIgnored(f: ParsedFunction, arg0: string, param0: DocParam)
    requires WellFormed(f) && |f.args| > 0 && |f.params| > 0
    requires DistinctArgs(f.args) && arg0 !in f.args[1..]
    ensures var g := f.(args := [arg0] + f.args[1..], params := [param0] + f.params[1..]);
      WellFormed(g) && Describe(g) == Describe(f)
  {
    var g := f.(args := [arg0] + f.args[1..], params := [param0] + f.params[1..]);
    assert g.args[1..] == f.args[1..];
    assert g.params[1..] == f.params[1..];
    DistinctAfterSwap(f.args, arg0);
    forall a | a in Tail(f.args)
      ensures a in DefaultNames(f.args, f.defaults) <==> a in DefaultNames(g.args, g.defaults)
    {
      DefaultsOnTail(f.args, g.args, f.defaults, a);
    }
    DescribeOnTails(f, g);
  }

  const InterpretationDescription := "A short <12 token description of what you are doing, formatted like 'Checking email...' or 'Creating calendar event...'"

  /** add_interpretation_args: a string property "interpretation", also appended to `required`. */
  function WithInterpretation(s: FunctionSchema): (r: FunctionSchema)
    ensures PropLookup(r.properties, "interpretation") == Some(Property(InterpretationDescription, DString))
    ensures forall n :: n != "interpretation" ==> PropLookup(r.properties, n) == PropLookup(s.properties, n)
    ensures r.required == s.required + ["interpretation"]
    ensures r.name == s.name && r.description == s.description
  {
    s.(properties := PropPut(s.properties, "interpretation", Property(InterpretationDescription, DString)),
       required := s.required + ["interpretation"])
  }

  /** A top-level statement of the module source. */
  datatype Stmt = FunctionDef(def: ParsedFunction) | OtherStmt

  /** A ValueError is re-raised naming the function; any other error passes through. */
  datatype ModuleError = InFunction(name: string, error: SchemaError) | Raised(error: SchemaError)

  predicate Public(f: ParsedFunction) { !StartsWith(f.name, "_") }

  predicate ModuleWellFormed(body: seq<Stmt>) {
    forall i :: 0 <= i < |body| && body[i].FunctionDef? ==> WellFormed(body[i].def)
  }

  /** The public functions of the module, in order. */
  function PublicFunctions(body: seq<Stmt>): (r: seq<ParsedFunction>)
    ensures forall f :: f in r ==> Public(f)
  {
    if body == [] then []
    else (if body[0].FunctionDef? && Public(body[0].def) then [body[0].def] else []) + PublicFunctions(body[1..])
  }

  /** The schemas of the public functions, before the interpretation argument is added; the
      first failure in module order stops the scan. */
  function ModuleSchemas(body: seq<Stmt>): Result<seq<FunctionSchema>, ModuleError>
    requires ModuleWellFormed(body)
    decreases |body|
  {
    if body == [] then Success([])
    else
      var init := ModuleSchemas(body[..|body| - 1]);
      var s := body[|body| - 1];
      if init.Failure? then init
      else if !s.FunctionDef? || !Public(s.def) then init
      else match Describe(s.def)
        case Success(schema) => Success(init.value + [schema])
        case Failure(e) => Failure(if IsValueError(e) then InFunction(s.def.name, e) else Raised(e))
  }

  lemma PublicFunctionsAppend(body: seq<Stmt>, s: Stmt)
    ensures PublicFunctions(body + [s]) ==
      PublicFunctions(body) + (if s.FunctionDef? && Public(s.def) then [s.def] else [])
  {
    if body != [] {
      assert (body + [s])[1..] == body[1..] + [s];
      PublicFunctionsAppend(body[1..], s);
    }
  }

  /** A module is accepted only when every public function is, and the schemas are then those
      of the public functions in module order; names starting with "_" are never described. */
  lemma {:induction false} ModuleSchemasArePublic(body: seq<Stmt>)
    requires ModuleWellFormed(body) && ModuleSchemas(body).Success?
    ensures var fs, pub := ModuleSchemas(body).value, PublicFunctions(body);
      |fs| == |pub| && forall k :: 0 <= k < |fs| ==> WellFormed(pub[k]) && Describe(pub[k]) == Success(fs[k])
    decreases |body|
  {
    if body != [] {
      var init := body[..|body| - 1];
      var s := body[|body| - 1];
      FrontLast(body);
      ModuleSchemasArePublic(init);
      PublicFunctionsAppend(init, s);
      assert s in body;
    }
  }

  lemma {:induction false} PublicListed(body: seq<Stmt>, i: nat)
    requires i < |body| && body[i].FunctionDef? && Public(body[i].def)
    ensures body[i].def in PublicFunctions(body)
    decreases |body|
  {
    if i > 0 {
      PublicListed(body[1..], i - 1);
    }
  }

  /** A module with a public function that cannot be described is refused as a whole: the
      tool list is never built, so a Literal parameter anywhere breaks every tool. */
  lemma ModuleRefusesFailing(body: seq<Stmt>, i: nat)
    requires ModuleWellFormed(body) && i < |body| && body[i].FunctionDef? && Public(body[i].def)
    requires Describe(body[i].def).Failure?
    ensures ModuleSchemas(body).Failure?
  {
    if ModuleSchemas(body).Success? {
      ModuleSchemasArePublic(body);
      PublicListed(body, i);
      assert false;
    }
  }

  /** parse_assistant_module_code: describe each public function, then add the
      interpretation argument to every schema. */
  method ParseModule(body: seq<Stmt>) returns (r: Result<seq<FunctionSchema>, ModuleError>)
    requires ModuleWellFormed(body)
    ensures r.Success? <==> ModuleSchemas(body).Success?
    ensures r.Success? ==> |r.value| == |ModuleSchemas(body).value|
    ensures r.Success? ==> forall k :: 0 <= k < |r.value| ==> r.value[k] == WithInterpretation(ModuleSchemas(body).value[k])
    ensures r.Failure? ==> r.error == ModuleSchemas(body).error
  {
    var schemas := DescribeModule(body);
    if schemas.Failure? {
      return Failure(schemas.error);
    }
    var out := AddInterpretation(schemas.value);
    r := Success(out);
  }

  /** The loop over the module body: the schemas of the public functions in order, or the
      error of the first one that is refused. */
  method DescribeModule(body: seq<Stmt>) returns (r: Result<seq<FunctionSchema>, ModuleError>)
    requires ModuleWellFormed(body)
    ensures r == ModuleSchemas(body)
  {
    var result: seq<FunctionSchema> := [];
    for i := 0 to |body|
      invariant ModuleSchemas(body[..i]) == Success(result)
    {
      assert body[..i + 1][..i] == body[..i];
      var s := body[i];
      if s.FunctionDef? && Public(s.def) {
        var d := CreateFunctionDescription(s.def);
        if d.Failure? {
          ModuleFailureStays(body, i + 1);
          return Failure(if IsValueError(d.error) then InFunction(s.def.name, d.error) else Raised(d.error));
        }
        result := result + [d.value];
      }
    }
    assert body[..|body|] == body;
    r := Success(result);
  }

  /** The loop adding the interpretation argument to each schema. */
  method AddInterpretation(schemas: seq<FunctionSchema>) returns (out: seq<FunctionSchema>)
    ensures |out| == |schemas|
    ensures forall k :: 0 <= k < |out| ==> out[k] == WithInterpretation(schemas[k])
  {
    out := [];
    for k := 0 to |schemas|
      invariant |out| == k
      invariant forall j :: 0 <= j < k ==> out[j] == WithInterpretation(schemas[j])
    {
      out := out + [WithInterpretation(schemas[k])];
    }
  }

  lemma {:induction false} ModuleFailureStays(body: seq<Stmt>, k: nat)
    requires ModuleWellFormed(body) && k <= |body|
    requires ModuleWellFormed(body[..k]) && ModuleSchemas(body[..k]).Failure?
    ensures ModuleSchemas(body) == ModuleSchemas(body[..k])
    decreases |body|
  {
    if k == |body| {
      assert body[..k] == body;
    } else {
      var init := body[..|body| - 1];
      assert init[..k] == body[..k];
      ModuleFailureStays(init, k);
    }
  }
}
