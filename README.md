# Cesium global-constructor scope, modelled in Dafny

Cesium compiles C to .NET bytecode. While it lowers the file-level declarations
of a C translation unit, it uses a scope object, `GlobalConstructorScope`, as
the symbol table. Their initializers run in the module's one-time static
initializer (the "global constructor"). This project models that scope.

- **Storage policy** (`AddVariable`). A declaration that has a compile-time
  constant goes only into the scope's private variable table. A `static`
  declaration without a constant goes into the private table and is also sent
  to the translation unit's field table. Every other declaration is only sent
  to the field table. A repeated key in the private table makes
  `Dictionary.Add` throw. That happens before anything is sent on.
- **Lookup** (`GetVariable`) reads only the private table.
- **Forbidden operations** fail with Cesium's internal-assertion error:
  resolving a variable slot, resolving a parameter, and defining or resolving
  a label.
- **Absent contexts** always report absence: parameter info, break and
  continue labels, and switch cases.

Files:

- `wrappers.dfy`: the `Option`, `Result` and `Outcome` datatypes. They stand
  for C# `null` and for exceptions.
- `ir.dfy`: storage classes, `VariableInfo`, field declarations and the two
  error kinds. Types, expressions and Mono.Cecil objects are opaque handles
  here.
- `global_constructor_scope.dfy` (module `Contexts`):
  - `AddVariableStep` is the effect of `AddVariable` on the pair
    (private table, translation-unit field table), written as a function on
    values.
  - The `GlobalConstructorScope` class has the C# record's fields
    (`Context`, `_method`, `_variables`). Its
    `AddVariable` method is proved against `AddVariableStep`.
  - `TranslationUnitContext` stands in for the field table that the scope
    writes to.
- `declaration_sequences.dfy` (module `DeclarationSequences`):
  - `Replay` is the scope taking a whole list of file-level declarations in
    order, with the first exception aborting the rest.
  - Replay is proved equal to a declarative account. The private table ends
    up with exactly the declarations that have a constant or are `static`.
    The field table gains exactly the declarations without a constant, in
    order. `Dictionary.Add` throws for none of the declarations exactly when
    no recorded identifier repeats.

A declaration with a constant returns at `GlobalConstructorScope.cs:35`,
whatever its storage class. So only a `static` declaration without a constant
is both recorded and forwarded (`StaticIsRecordedAndForwarded`): its private
entry has a null constant and it also becomes a field.

## Model

| member | source | states |
|---|---|---|
| `Contexts.DictionaryAdd` | Cesium.CodeGen/Contexts/GlobalConstructorScope.cs:34 | `Dictionary.Add` succeeds exactly when the key is new. It then adds that one key with the given entry and keeps every old entry. Otherwise it fails with a duplicate-key error. |
| `Contexts.AddVariableStep` | Cesium.CodeGen/Contexts/GlobalConstructorScope.cs:30-44 | AddVariable fails exactly when the declaration is one the table records (it has a constant or is `static`) and its identifier is already there. The error names that key. On success no entry is overwritten or removed, the field table only grows, by at most one field, and the table invariant is kept: every entry sits under its own name and has a constant or is `static`. |
| `Contexts.ConstantIsKeptPrivate` | Cesium.CodeGen/Contexts/GlobalConstructorScope.cs:32-36 | A declaration with a constant and a new name is stored in the private table as given, and no field is forwarded. |
| `Contexts.StaticIsRecordedAndForwarded` | Cesium.CodeGen/Contexts/GlobalConstructorScope.cs:38-43 | A `static` declaration without a constant gets a private entry whose constant is null. Exactly one field `(Static, identifier, type)` is also forwarded. |
| `Contexts.OtherIsOnlyForwarded` | Cesium.CodeGen/Contexts/GlobalConstructorScope.cs:38-43 | Any other declaration without a constant leaves the private table unchanged. Exactly one field `(storageClass, identifier, type)` is forwarded, whatever the table held. |
| `Contexts.LookupAfterAddVariable` | Cesium.CodeGen/Contexts/GlobalConstructorScope.cs:28-49 | After a successful AddVariable, looking up the declared name gives the declaration itself if it was recorded. Every other lookup gives what it gave before. |
| `Contexts.TranslationUnitContext.AddTranslationUnitLevelField` | Cesium.CodeGen/Contexts/GlobalConstructorScope.cs:43 | The forwarded field is appended to the translation unit's field table. |
| `Contexts.GlobalConstructorScope.constructor` | Cesium.CodeGen/Contexts/GlobalConstructorScope.cs:13-28 | A new scope holds its context, an empty private table and no cached method. |
| `Contexts.GlobalConstructorScope.Method` | Cesium.CodeGen/Contexts/GlobalConstructorScope.cs:15-18 | The global initializer is fetched on first use and cached. Every later call returns the first result. |
| `Contexts.GlobalConstructorScope.AddVariable` | Cesium.CodeGen/Contexts/GlobalConstructorScope.cs:30-44 | The new private table and field table are those given by `AddVariableStep`. On failure the method returns the error and both tables are unchanged. The table invariant is kept. |
| `Contexts.GlobalConstructorScope.GetVariable` | Cesium.CodeGen/Contexts/GlobalConstructorScope.cs:46-49 | The result is non-null exactly when the private table has the name. It is then that entry, which carries the same name and has a constant or is `static`. |
| `Contexts.GlobalConstructorScope.ResolveVariable` | Cesium.CodeGen/Contexts/GlobalConstructorScope.cs:50-51 | Always fails with the internal assertion "Cannot add a variable into a global constructor scope", for any name. |
| `Contexts.GlobalConstructorScope.GetParameterInfo` | Cesium.CodeGen/Contexts/GlobalConstructorScope.cs:53 | Always null. |
| `Contexts.GlobalConstructorScope.ResolveParameter` | Cesium.CodeGen/Contexts/GlobalConstructorScope.cs:54-55 | Always fails with the internal assertion "Cannot resolve parameter from the global constructor scope", for any index. |
| `Contexts.GlobalConstructorScope.AddLabel` | Cesium.CodeGen/Contexts/GlobalConstructorScope.cs:64-67 | Always fails with the internal assertion "Cannot define label into a global constructor scope". |
| `Contexts.GlobalConstructorScope.ResolveLabel` | Cesium.CodeGen/Contexts/GlobalConstructorScope.cs:70-73 | Always fails, with the same message as AddLabel. |
| `Contexts.GlobalConstructorScope.GetBreakLabel` | Cesium.CodeGen/Contexts/GlobalConstructorScope.cs:76 | Always null. |
| `Contexts.GlobalConstructorScope.GetContinueLabel` | Cesium.CodeGen/Contexts/GlobalConstructorScope.cs:79 | Always null. |
| `Contexts.GlobalConstructorScope.SwitchCases` | Cesium.CodeGen/Contexts/GlobalConstructorScope.cs:81 | Always null. |
| `DeclarationSequences.ReplaySucceedsExactly` | Cesium.CodeGen/Contexts/GlobalConstructorScope.cs:30-44 | `Dictionary.Add` throws for none of the declarations in a list exactly when the recorded identifiers are pairwise distinct and none is already in the starting table. |
| `DeclarationSequences.ReplayResult` | Cesium.CodeGen/Contexts/GlobalConstructorScope.cs:30-44 | After a successful run, the private table is the starting table plus the recorded declarations, keyed by name. The field table is the starting one followed by the fields of the declarations without a constant, in declaration order. |
| `DeclarationSequences.ReplayFailsOnRepeatedIdentifier` | Cesium.CodeGen/Contexts/GlobalConstructorScope.cs:32-41 | A failed run fails on `Dictionary.Add`. The key is a recorded identifier that was already in the starting table or was recorded earlier in the list. |
| `DeclarationSequences.LookupAfterReplay` | Cesium.CodeGen/Contexts/GlobalConstructorScope.cs:28-49 | Start from a fresh scope. After a successful run, GetVariable finds a name exactly when some declaration of that name was recorded. What it returns is such a declaration. |
| `DeclarationSequences.ForwardedOnlyIsInvisible` | Cesium.CodeGen/Contexts/GlobalConstructorScope.cs:38-49 | A name whose declarations were all only forwarded as fields gives null from GetVariable. |
| `DeclarationSequences.StaticDeclarationIsRegisteredTwice` | Cesium.CodeGen/Contexts/GlobalConstructorScope.cs:38-43 | Every `static` declaration without a constant ends up both as the private entry for its name and among the translation unit's fields. |
| `DeclarationSequences.ForwardedFieldsAreForwarded` | Cesium.CodeGen/Contexts/GlobalConstructorScope.cs:32-43 | Every forwarded field comes from a declaration without a constant. A declaration with a constant never becomes a field. |

## Left out

- `AssemblyContext`, `Module`, `CTypeSystem`, `ArchitectureSet`, `GetFunctionInfo`, `DeclareFunction`, `GetGlobalField`, `ResolveType`, `TryGetType`, `AddTypeDefinition`, `AddTagDefinition` (lines 16-26 and 58-61): each only forwards to the translation-unit or assembly context. Those contexts are not part of this model, so these calls are not modelled.
- `Contexts.TranslationUnitContext.AddTranslationUnitLevelField`: the real method is in `TranslationUnitContext`, which is not part of this model. Here it only records each request, in order. What the real method does with a request (creating the field, rejecting a repeat) is not captured.
- `DeclarationSequences.ReplaySucceedsExactly`: the only failure it accounts for is `Dictionary.Add` in the scope's own table. The stand-in field table never fails, so a failure of the real `AddTranslationUnitLevelField` is not modelled.
- `Contexts.GlobalConstructorScope.Method`: the result of `AssemblyContext.GetGlobalInitializer()` is passed in as a parameter. Any effect that call has on the assembly context is not modelled. Neither is the fact that the call is skipped once a method is cached.
- The scope is a C# `record`. A copy made with `with` shares the same `_variables` dictionary. Aliasing between such copies is not modelled: each scope object owns its own table.
- `Dictionary.Add` throws an `ArgumentException` whose message text is not modelled. Only the duplicate key is kept.
- IR types, expressions and Mono.Cecil objects are opaque handles. Type resolution, constant folding and instruction emission are not modelled.
- `DeclarationSequences.Replay` stands for the code generator calling `AddVariable` once per file-level declaration. That caller is not part of this model. The discarding of a translation unit after an error is modelled only as the replay failing.
- `Cesium.Compiler/Program.cs` and `Cesium.Test.Framework/CSharpCompilationUtil.cs`: the command-line driver and the test harness. They do file, console and process I/O around the library and have no logic to model.
