/**
 * The global-constructor scope: the symbol-table scope used while the code
 * generator lowers the initializers of a C translation unit's file-level
 * declarations into the module's one-time static initializer.
 *
 * The scope owns a private variable table and forwards other declarations to
 * the translation unit's field table. It has no parameters, locals, labels,
 * loop targets or switch context: asking for one either reports absence or
 * fails with an internal-assertion error.
 */
module Contexts {

  import opened Wrappers
  import opened Ir

  const CANNOT_ADD_VARIABLE := "Cannot add a variable into a global constructor scope"
  const CANNOT_RESOLVE_PARAMETER := "Cannot resolve parameter from the global constructor scope"
  const CANNOT_DEFINE_LABEL := "Cannot define label into a global constructor scope"

  // ---------------------------------------------------------------------------
  // The scope's state as values, and what AddVariable does to it
  // ---------------------------------------------------------------------------

  /**
   * `Dictionary<string, VariableInfo>.Add`: inserts an entry under a new key
   * and throws when the key is already present, leaving the table as it was.
   */
  function DictionaryAdd(table: map<string, VariableInfo>, key: string, entry: VariableInfo)
    : (r: Result<map<string, VariableInfo>, ScopeError>)
    ensures r.Success? <==> key !in table
    ensures r.Failure? ==> r.error == DuplicateKey(key)
    ensures r.Success? ==> r.value.Keys == table.Keys + {key} && r.value[key] == entry
    ensures r.Success? ==> forall k | k in table :: r.value[k] == table[k]
  {
    if key in table then Failure(DuplicateKey(key)) else Success(table[key := entry])
  }

  /** `Dictionary.GetValueOrDefault`: the entry under a key, or null. */
  function Lookup(table: map<string, VariableInfo>, identifier: string): (r: Option<VariableInfo>) {
    if identifier in table then Some(table[identifier]) else None
  }

  /** A declaration the scope keeps in its private table: it has a constant or is `static`. */
  predicate Recorded(v: VariableInfo) {
    v.constant.Some? || v.storageClass == Static
  }

  /** A declaration the scope forwards to the translation unit as a field: it has no constant. */
  predicate Forwarded(v: VariableInfo) {
    v.constant.None?
  }

  /**
   * The private table's invariant: every entry sits under its own identifier
   * and is one the scope records.
   */
  ghost predicate WellFormed(table: map<string, VariableInfo>) {
    forall k | k in table :: table[k].identifier == k && Recorded(table[k])
  }

  /**
   * What AddVariable touches: the scope's private table and the translation
   * unit's sequence of field declarations, in the order they were requested.
   */
  datatype ScopeState = ScopeState(variables: map<string, VariableInfo>, fields: seq<FieldDeclaration>)

  /**
   * The effect of `AddVariable(v.storageClass, v.identifier, v.variableType, v.constant)`.
   * With a constant: the entry goes into the private table only. Without one:
   * a `static` declaration goes into the private table and is also forwarded
   * as a field; any other is only forwarded. A duplicate key in the private
   * table throws before anything is forwarded.
   */
  function AddVariableStep(s: ScopeState, v: VariableInfo): (r: Result<ScopeState, ScopeError>)
    ensures r.Failure? <==> Recorded(v) && v.identifier in s.variables
    ensures r.Failure? ==> r.error == DuplicateKey(v.identifier)
    ensures r.Success? ==> forall k | k in s.variables :: k in r.value.variables && r.value.variables[k] == s.variables[k]
    ensures r.Success? ==> s.fields <= r.value.fields && |r.value.fields| <= |s.fields| + 1
    ensures r.Success? && WellFormed(s.variables) ==> WellFormed(r.value.variables)
  {
    if v.constant.Some? then
      match DictionaryAdd(s.variables, v.identifier, v)
      case Failure(e) => Failure(e)
      case Success(table) => Success(s.(variables := table))
    else
      var added := if v.storageClass == Static then DictionaryAdd(s.variables, v.identifier, v) else Success(s.variables);
      match added
      case Failure(e) => Failure(e)
      case Success(table) => Success(ScopeState(table, s.fields + [FieldOf(v)]))
  }

  /** A declaration with a constant is kept in the private table and nothing is forwarded. */
  lemma ConstantIsKeptPrivate(s: ScopeState, v: VariableInfo)
    requires v.constant.Some? && v.identifier !in s.variables
    ensures AddVariableStep(s, v).Success?
    ensures Lookup(AddVariableStep(s, v).value.variables, v.identifier) == Some(v)
    ensures AddVariableStep(s, v).value.fields == s.fields
  {
  }

  /**
   * A `static` declaration without a constant is registered twice: an entry
   * with no constant in the private table, and one forwarded field.
   */
  lemma StaticIsRecordedAndForwarded(s: ScopeState, v: VariableInfo)
    requires v.constant.None? && v.storageClass == Static && v.identifier !in s.variables
    ensures AddVariableStep(s, v).Success?
    ensures Lookup(AddVariableStep(s, v).value.variables, v.identifier) == Some(v)
    ensures Lookup(AddVariableStep(s, v).value.variables, v.identifier).value.constant.None?
    ensures AddVariableStep(s, v).value.fields == s.fields + [FieldDeclaration(Static, v.identifier, v.variableType)]
  {
  }

  /** Any other declaration without a constant leaves the private table alone and is forwarded once. */
  lemma OtherIsOnlyForwarded(s: ScopeState, v: VariableInfo)
    requires v.constant.None? && v.storageClass != Static
    ensures AddVariableStep(s, v).Success?
    ensures AddVariableStep(s, v).value.variables == s.variables
    ensures AddVariableStep(s, v).value.fields == s.fields + [FieldDeclaration(v.storageClass, v.identifier, v.variableType)]
  {
  }

  /**
   * GetVariable after a successful AddVariable: the declaration itself when
   * it was recorded, and for every other identifier what it was before.
   */
  lemma LookupAfterAddVariable(s: ScopeState, v: VariableInfo, identifier: string)
    requires AddVariableStep(s, v).Success?
    ensures Lookup(AddVariableStep(s, v).value.variables, identifier)
         == if identifier == v.identifier && Recorded(v) then Some(v) else Lookup(s.variables, identifier)
  {
  }

  // ---------------------------------------------------------------------------
  // The objects
  // ---------------------------------------------------------------------------

  /**
   * The part of the translation-unit context this scope writes to: its table
   * of translation-unit-level fields, seen as the sequence of declarations
   * requested so far.
   */
  class TranslationUnitContext {
    var fields: seq<FieldDeclaration>

    constructor ()
      ensures fields == []
    {
      fields := [];
    }

    method AddTranslationUnitLevelField(storageClass: StorageClass, identifier: string, fieldType: IType)
      modifies this
      ensures fields == old(fields) + [FieldDeclaration(storageClass, identifier, fieldType)]
    {
      fields := fields + [FieldDeclaration(storageClass, identifier, fieldType)];
    }
  }

  class GlobalConstructorScope {
    const context: TranslationUnitContext
    var cachedMethod: Option<MethodDefinition>
    var variables: map<string, VariableInfo>

    ghost predicate Valid()
      reads this
    {
      WellFormed(variables)
    }

    /** The private table together with the context's field table. */
    function State(): (s: ScopeState)
      reads this, context
    {
      ScopeState(variables, context.fields)
    }

    constructor (context: TranslationUnitContext)
      ensures Valid()
      ensures this.context == context && variables == map[] && cachedMethod == None
    {
      this.context := context;
      cachedMethod := None;
      variables := map[];
    }

    /**
     * The global initializer method, asked of the assembly context on first
     * use and cached from then on. `globalInitializer` is what the assembly
     * context's GetGlobalInitializer returns when asked.
     */
    method Method(globalInitializer: MethodDefinition) returns (m: MethodDefinition)
      modifies this`cachedMethod
      ensures old(cachedMethod).Some? ==> m == old(cachedMethod).value
      ensures old(cachedMethod).None? ==> m == globalInitializer
      ensures cachedMethod == Some(m)
    {
      if cachedMethod.None? {
        cachedMethod := Some(globalInitializer);
      }
      m := cachedMethod.value;
    }

    method AddVariable(storageClass: StorageClass, identifier: string, variableType: IType, constant: Option<IExpression>)
      returns (r: Outcome<ScopeError>)
      requires Valid()
      modifies this`variables, context
      ensures Valid()
      ensures match AddVariableStep(old(State()), VariableInfo(identifier, storageClass, variableType, constant))
              case Success(after) => r == Pass && State() == after
              case Failure(e) => r == Fail(e) && State() == old(State())
    {
      var entry := VariableInfo(identifier, storageClass, variableType, constant);
      if constant.Some? {
        var added := DictionaryAdd(variables, identifier, entry);
        if added.Failure? {
          return Fail(added.error);
        }
        variables := added.value;
        return Pass;
      }

      if storageClass == Static {
        var added := DictionaryAdd(variables, identifier, entry);
        if added.Failure? {
          return Fail(added.error);
        }
        variables := added.value;
      }

      context.AddTranslationUnitLevelField(storageClass, identifier, variableType);
      r := Pass;
    }

    /** Reads the private table only: forwarded fields are not visible here. */
    function GetVariable(identifier: string): (r: Option<VariableInfo>)
      requires Valid()
      reads this
      ensures r.Some? <==> identifier in variables
      ensures r.Some? ==> r.value == variables[identifier]
      ensures r.Some? ==> r.value.identifier == identifier && Recorded(r.value)
    {
      Lookup(variables, identifier)
    }

    function ResolveVariable(identifier: string): (r: Result<VariableDefinition, ScopeError>)
      ensures r.Failure? && r.error == InternalAssertion(CANNOT_ADD_VARIABLE)
    {
      Failure(InternalAssertion(CANNOT_ADD_VARIABLE))
    }

    function GetParameterInfo(name: string): (r: Option<ParameterInfo>)
      ensures r.None?
    {
      None
    }

    function ResolveParameter(index: int): (r: Result<ParameterDefinition, ScopeError>)
      ensures r.Failure? && r.error == InternalAssertion(CANNOT_RESOLVE_PARAMETER)
    {
      Failure(InternalAssertion(CANNOT_RESOLVE_PARAMETER))
    }

    function AddLabel(identifier: string): (r: Outcome<ScopeError>)
      ensures r.Fail? && r.error == InternalAssertion(CANNOT_DEFINE_LABEL)
    {
      Fail(InternalAssertion(CANNOT_DEFINE_LABEL))
    }

    /** Fails with the same message as AddLabel. */
    function ResolveLabel(name: string): (r: Result<Instruction, ScopeError>)
      ensures r.Failure? && r.error == InternalAssertion(CANNOT_DEFINE_LABEL)
    {
      Failure(InternalAssertion(CANNOT_DEFINE_LABEL))
    }

    function GetBreakLabel(): (r: Option<string>)
      ensures r.None?
    {
      None
    }

    function GetContinueLabel(): (r: Option<string>)
      ensures r.None?
    {
      None
    }

    function SwitchCases(): (r: Option<seq<SwitchCase>>)
      ensures r.None?
    {
      None
    }
  }
}
