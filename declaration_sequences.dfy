/**
 * The cumulative effect of the global-constructor scope's AddVariable over
 * the file-level declarations of a translation unit, taken in order, with the
 * first throw aborting the rest. It is related here to a declarative account:
 * the private table holds exactly the declarations with a constant or `static`
 * storage class, keyed by identifier; the field table gains exactly the
 * declarations without a constant, in order; and `Dictionary.Add` throws
 * for none of them exactly when no recorded identifier is repeated. The
 * field table itself never fails here.
 */
module DeclarationSequences {

  import opened Wrappers
  import opened Ir
  import opened Contexts

  /** AddVariable on each declaration in turn; the first failure is the result. */
  function Replay(s: ScopeState, decls: seq<VariableInfo>): (r: Result<ScopeState, ScopeError>)
    decreases |decls|
  {
    if decls == [] then Success(s)
    else
      match AddVariableStep(s, decls[0])
      case Failure(e) => Failure(e)
      case Success(next) => Replay(next, decls[1..])
  }

  /** Identifiers of the recorded declarations, in declaration order. */
  function RecordedIds(decls: seq<VariableInfo>): (r: seq<string>) {
    if decls == [] then []
    else (if Recorded(decls[0]) then [decls[0].identifier] else []) + RecordedIds(decls[1..])
  }

  /** The recorded declarations keyed by identifier (the earliest wins on a repeat). */
  function RecordedTable(decls: seq<VariableInfo>): (r: map<string, VariableInfo>) {
    if decls == [] then map[]
    else if Recorded(decls[0]) then RecordedTable(decls[1..])[decls[0].identifier := decls[0]]
    else RecordedTable(decls[1..])
  }

  /** The fields of the forwarded declarations, in declaration order. */
  function ForwardedFields(decls: seq<VariableInfo>): (r: seq<FieldDeclaration>) {
    if decls == [] then []
    else (if Forwarded(decls[0]) then [FieldOf(decls[0])] else []) + ForwardedFields(decls[1..])
  }

  predicate NoDuplicates(ids: seq<string>) {
    forall i, j | 0 <= i < j < |ids| :: ids[i] != ids[j]
  }

  /** None of `ids` is a key of `table`. */
  predicate AbsentFrom(ids: seq<string>, table: map<string, VariableInfo>) {
    forall i | 0 <= i < |ids| :: ids[i] !in table
  }

  /** The recorded identifiers are exactly the identifiers of recorded declarations. */
  lemma {:induction false} RecordedIdsAreRecorded(decls: seq<VariableInfo>, id: string)
    ensures id in RecordedIds(decls) <==> exists v | v in decls :: Recorded(v) && v.identifier == id
  {
    if decls != [] {
      RecordedIdsAreRecorded(decls[1..], id);
      assert forall v | v in decls :: v == decls[0] || v in decls[1..];
    }
  }

  /** The keys of RecordedTable are the recorded identifiers. */
  lemma {:induction false} RecordedTableKey(decls: seq<VariableInfo>, id: string)
    ensures id in RecordedTable(decls) <==> id in RecordedIds(decls)
  {
    if decls != [] {
      RecordedTableKey(decls[1..], id);
    }
  }

  /** Each entry of RecordedTable is a recorded declaration of that name. */
  lemma {:induction false} RecordedTableEntry(decls: seq<VariableInfo>, id: string)
    requires id in RecordedTable(decls)
    ensures RecordedTable(decls)[id] in decls
    ensures RecordedTable(decls)[id].identifier == id && Recorded(RecordedTable(decls)[id])
  {
    var rest := decls[1..];
    if !(Recorded(decls[0]) && decls[0].identifier == id) {
      RecordedTableEntry(rest, id);
      assert RecordedTable(rest)[id] in rest;
    }
  }

  /** Without repeats, a recorded declaration is the table's entry for its identifier. */
  lemma {:induction false} RecordedTableAt(decls: seq<VariableInfo>, v: VariableInfo)
    requires NoDuplicates(RecordedIds(decls))
    requires v in decls && Recorded(v)
    ensures v.identifier in RecordedTable(decls) && RecordedTable(decls)[v.identifier] == v
  {
    var first, rest := decls[0], decls[1..];
    if v != first {
      assert v in rest;
      var ids, restIds := RecordedIds(decls), RecordedIds(rest);
      var offset := if Recorded(first) then 1 else 0;
      assert ids == (if Recorded(first) then [first.identifier] else []) + restIds;
      assert NoDuplicates(restIds) by {
        forall i, j | 0 <= i < j < |restIds| ensures restIds[i] != restIds[j] {
          assert restIds[i] == ids[offset + i] && restIds[j] == ids[offset + j];
        }
      }
      RecordedTableAt(rest, v);
      if Recorded(first) {
        RecordedTableKey(rest, v.identifier);
        var k :| 0 <= k < |restIds| && restIds[k] == v.identifier;
        assert ids[k + 1] == v.identifier && ids[0] == first.identifier;
      }
    }
  }

  /** Every forwarded declaration contributes its field. */
  lemma {:induction false} ForwardedFieldIsListed(decls: seq<VariableInfo>, v: VariableInfo)
    requires v in decls && Forwarded(v)
    ensures FieldOf(v) in ForwardedFields(decls)
  {
    if v != decls[0] {
      ForwardedFieldIsListed(decls[1..], v);
    }
  }

  /**
   * Putting one new identifier in front of a list: the list is free of repeats
   * and absent from a table exactly when the tail is free of repeats and absent
   * from the table extended by that identifier.
   */
  lemma ConsFresh(id: string, rest: seq<string>, table: map<string, VariableInfo>, entry: VariableInfo)
    requires id !in table
    ensures NoDuplicates([id] + rest) && AbsentFrom([id] + rest, table)
        <==> NoDuplicates(rest) && AbsentFrom(rest, table[id := entry])
  {
    var ids := [id] + rest;
    assert forall i | 0 <= i < |rest| :: ids[i + 1] == rest[i];
    if NoDuplicates(ids) && AbsentFrom(ids, table) {
      forall i, j | 0 <= i < j < |rest| ensures rest[i] != rest[j] {
        assert ids[i + 1] == rest[i] && ids[j + 1] == rest[j];
      }
      forall i | 0 <= i < |rest| ensures rest[i] !in table[id := entry] {
        assert ids[i + 1] == rest[i] && ids[0] == id;
      }
    }
    if NoDuplicates(rest) && AbsentFrom(rest, table[id := entry]) {
      forall i, j | 0 <= i < j < |ids| ensures ids[i] != ids[j] {
        if i > 0 {
          assert ids[i] == rest[i - 1] && ids[j] == rest[j - 1];
        } else {
          assert ids[j] == rest[j - 1];
        }
      }
    }
  }

  /**
   * `Dictionary.Add` throws for none of the declarations exactly when the
   * recorded identifiers are pairwise distinct and new to the starting table.
   */
  lemma {:induction false} ReplaySucceedsExactly(s: ScopeState, decls: seq<VariableInfo>)
    decreases decls
    ensures Replay(s, decls).Success?
        <==> NoDuplicates(RecordedIds(decls)) && AbsentFrom(RecordedIds(decls), s.variables)
  {
    if decls != [] {
      var v, rest := decls[0], decls[1..];
      var ids, restIds := RecordedIds(decls), RecordedIds(rest);
      match AddVariableStep(s, v)
      case Failure(e) =>
        assert ids[0] == v.identifier && ids[0] in s.variables;
      case Success(next) =>
        ReplaySucceedsExactly(next, rest);
        if Recorded(v) {
          assert ids == [v.identifier] + restIds;
          assert next.variables == s.variables[v.identifier := v];
          ConsFresh(v.identifier, restIds, s.variables, v);
        } else {
          assert ids == restIds && next.variables == s.variables;
        }
    }
  }

  /** Adding a key the second map lacks commutes with the union. */
  lemma UpdateThenUnion(table: map<string, VariableInfo>, other: map<string, VariableInfo>, key: string, entry: VariableInfo)
    requires key !in other
    ensures table[key := entry] + other == table + other[key := entry]
  {
  }

  /**
   * A successful replay extends the starting table by the recorded
   * declarations and the starting field table by the forwarded fields.
   */
  lemma {:induction false} ReplayResult(s: ScopeState, decls: seq<VariableInfo>)
    decreases decls
    requires Replay(s, decls).Success?
    ensures Replay(s, decls).value == ScopeState(s.variables + RecordedTable(decls), s.fields + ForwardedFields(decls))
  {
    if decls != [] {
      var v, rest := decls[0], decls[1..];
      assert AddVariableStep(s, v).Success?;
      var next := AddVariableStep(s, v).value;
      assert Replay(s, decls) == Replay(next, rest);
      ReplayResult(next, rest);
      var extra := if Forwarded(v) then [FieldOf(v)] else [];
      assert next.fields == s.fields + extra;
      assert ForwardedFields(decls) == extra + ForwardedFields(rest);
      assert (s.fields + extra) + ForwardedFields(rest) == s.fields + (extra + ForwardedFields(rest));
      if !Recorded(v) {
        assert next.variables == s.variables;
        assert RecordedTable(decls) == RecordedTable(rest);
      } else {
        ReplaySucceedsExactly(next, rest);
        RecordedTableKey(rest, v.identifier);
        assert next.variables == s.variables[v.identifier := v];
        UpdateThenUnion(s.variables, RecordedTable(rest), v.identifier, v);
      }
    }
  }

  /**
   * A failed replay fails on `Dictionary.Add`, with a recorded identifier that
   * was already in the starting table or recorded earlier in the list.
   */
  lemma {:induction false} ReplayFailsOnRepeatedIdentifier(s: ScopeState, decls: seq<VariableInfo>)
    requires Replay(s, decls).Failure?
    decreases decls
    ensures Replay(s, decls).error.DuplicateKey?
    ensures var key := Replay(s, decls).error.key;
      exists i | 0 <= i < |RecordedIds(decls)| ::
        RecordedIds(decls)[i] == key && (key in s.variables || key in RecordedIds(decls)[..i])
  {
    var v, rest := decls[0], decls[1..];
    var ids, restIds := RecordedIds(decls), RecordedIds(rest);
    match AddVariableStep(s, v)
    case Failure(e) =>
      assert ids[0] == v.identifier;
    case Success(next) =>
      ReplayFailsOnRepeatedIdentifier(next, rest);
      var key := Replay(s, decls).error.key;
      var k :| 0 <= k < |restIds| && restIds[k] == key && (key in next.variables || key in restIds[..k]);
      var offset := |ids| - |restIds|;
      assert ids == (if Recorded(v) then [v.identifier] else []) + restIds;
      assert ids[offset + k] == key;
      if key in s.variables {
      } else if key in restIds[..k] {
        assert restIds[..k] == ids[offset..offset + k];
        assert key in ids[..offset + k];
      } else {
        assert Recorded(v) && key == v.identifier && offset == 1;
        assert ids[0] == key;
      }
  }

  /**
   * GetVariable after the scope has taken a list of declarations: an entry
   * exists exactly for the recorded identifiers, and it is the recorded
   * declaration of that name.
   */
  lemma LookupAfterReplay(fields: seq<FieldDeclaration>, decls: seq<VariableInfo>, id: string)
    requires Replay(ScopeState(map[], fields), decls).Success?
    ensures var found := Lookup(Replay(ScopeState(map[], fields), decls).value.variables, id);
      && (found.Some? <==> id in RecordedIds(decls))
      && (found.Some? ==> found.value in decls && found.value.identifier == id && Recorded(found.value))
  {
    ReplayResult(ScopeState(map[], fields), decls);
    RecordedTableKey(decls, id);
    if id in RecordedTable(decls) {
      RecordedTableEntry(decls, id);
    }
    assert map[] + RecordedTable(decls) == RecordedTable(decls);
  }

  /**
   * An identifier whose declarations were all only forwarded has no entry:
   * GetVariable does not see translation-unit fields.
   */
  lemma ForwardedOnlyIsInvisible(fields: seq<FieldDeclaration>, decls: seq<VariableInfo>, id: string)
    requires Replay(ScopeState(map[], fields), decls).Success?
    requires forall v | v in decls && v.identifier == id :: !Recorded(v)
    ensures Lookup(Replay(ScopeState(map[], fields), decls).value.variables, id) == None
  {
    LookupAfterReplay(fields, decls, id);
    RecordedIdsAreRecorded(decls, id);
  }

  /**
   * A `static` declaration without a constant ends up in both tables: its own
   * entry in the private table and its field among the translation unit's.
   */
  lemma StaticDeclarationIsRegisteredTwice(fields: seq<FieldDeclaration>, decls: seq<VariableInfo>, v: VariableInfo)
    requires Replay(ScopeState(map[], fields), decls).Success?
    requires v in decls && v.storageClass == Static && v.constant.None?
    ensures Lookup(Replay(ScopeState(map[], fields), decls).value.variables, v.identifier) == Some(v)
    ensures FieldOf(v) in Replay(ScopeState(map[], fields), decls).value.fields
  {
    ReplaySucceedsExactly(ScopeState(map[], fields), decls);
    ReplayResult(ScopeState(map[], fields), decls);
    RecordedTableAt(decls, v);
    ForwardedFieldIsListed(decls, v);
    assert map[] + RecordedTable(decls) == RecordedTable(decls);
  }

  /**
   * Every forwarded field comes from a declaration without a constant: a
   * declaration with a constant never reaches the translation unit's fields.
   */
  lemma {:induction false} ForwardedFieldsAreForwarded(decls: seq<VariableInfo>, f: FieldDeclaration)
    requires f in ForwardedFields(decls)
    ensures exists w | w in decls :: Forwarded(w) && FieldOf(w) == f
  {
    if !(Forwarded(decls[0]) && FieldOf(decls[0]) == f) {
      ForwardedFieldsAreForwarded(decls[1..], f);
      var w :| w in decls[1..] && Forwarded(w) && FieldOf(w) == f;
      assert w in decls;
    }
  }
}
