/**
 * The intermediate-representation values the global-constructor scope
 * stores and hands out. Types, expressions and the Mono.Cecil metadata
 * objects are opaque here: the scope only stores them and compares them.
 */
module Ir {

  import opened Wrappers

  /** C storage classes of a declaration. */
  datatype StorageClass = Auto | Static | Extern

  /** An IR type (`IType`); its structure belongs to the type system. */
  datatype IType = TypeHandle(id: nat)

  /** A lowered IR expression (`IExpression`), here the compile-time constant of a declaration. */
  datatype IExpression = ExpressionHandle(id: nat)

  /** Mono.Cecil metadata objects, compared by identity only. */
  datatype MethodDefinition = MethodHandle(id: nat)
  datatype VariableDefinition = VariableHandle(id: nat)
  datatype ParameterDefinition = ParameterHandle(id: nat)
  datatype ParameterInfo = ParameterInfoHandle(id: nat)
  datatype Instruction = InstructionHandle(id: nat)
  datatype SwitchCase = SwitchCaseHandle(id: nat)

  /**
   * A symbol-table entry. It is also the argument record of
   * `AddVariable`, which builds its entry from exactly these four values.
   */
  datatype VariableInfo = VariableInfo(
    identifier: string,
    storageClass: StorageClass,
    variableType: IType,
    constant: Option<IExpression>)

  /** A request to declare a field at translation-unit level. */
  datatype FieldDeclaration = FieldDeclaration(
    storageClass: StorageClass,
    identifier: string,
    fieldType: IType)

  /** The field a declaration is forwarded as. */
  function FieldOf(v: VariableInfo): (f: FieldDeclaration) {
    FieldDeclaration(v.storageClass, v.identifier, v.variableType)
  }

  /**
   * The two ways a scope operation throws: `Dictionary.Add` rejecting a key
   * already present (an `ArgumentException`), and Cesium's `AssertException`
   * for an operation that is never legal in the scope.
   */
  datatype ScopeError = DuplicateKey(key: string) | InternalAssertion(message: string)
}
