/** The closed, typed parameter schema: the one check both ends run. Maps are association lists in
    iteration order, keys distinct. */
module Params {
  datatype ParamType = StringType | IntType | BoolType

  /** A JSON value; a number that is no i64 or u64 reads as a float. */
  datatype Value = JString(text: string) | JInteger(n: int) | JFloat | JBool(b: bool) | JOther

  type Schema = seq<(string, ParamType)>
  type Args = seq<(string, Value)>

  datatype ParamsError =
    | Undeclared(name: string)
    | Missing(name: string)
    | TypeMismatch(name: string, expected: ParamType)

  datatype Verdict = Valid | Invalid(error: ParamsError)

  predicate Matches(expected: ParamType, value: Value) {
    match expected
    case StringType => value.JString?
    case IntType => value.JInteger? && -0x8000_0000_0000_0000 <= value.n < 0x1_0000_0000_0000_0000
    case BoolType => value.JBool?
  }

  /** A string for a string, a truth value for a truth value, and for an integer any number that a signed or
      an unsigned 64-bit integer holds; nothing else, so no fraction and no other JSON. */
  lemma MatchesIff(expected: ParamType, value: Value)
    ensures Matches(expected, value) <==>
            || (expected == StringType && exists text :: value == JString(text))
            || (expected == BoolType && (value == JBool(true) || value == JBool(false)))
            || (expected == IntType && exists n :: -9223372036854775808 <= n <= 18446744073709551615
                                                   && value == JInteger(n))
  {
  }

  predicate Has<T>(entries: seq<(string, T)>, name: string) {
    exists k :: 0 <= k < |entries| && entries[k].0 == name
  }

  predicate DistinctKeys<T>(entries: seq<(string, T)>) {
    forall j, k :: 0 <= j < k < |entries| ==> entries[j].0 != entries[k].0
  }

  /** The position of `name`. */
  function Find<T>(entries: seq<(string, T)>, name: string): (k: nat)
    ensures k <= |entries|
    ensures k < |entries| ==> entries[k].0 == name
    ensures k == |entries| <==> !Has(entries, name)
  {
    if entries == [] then 0
    else if entries[0].0 == name then
      assert Has(entries, name);
      0
    else
      assert Has(entries, name) <==> Has(entries[1..], name) by {
        if Has(entries, name) {
          var k :| 0 <= k < |entries| && entries[k].0 == name;
          assert entries[1..][k - 1].0 == name;
        }
      }
      1 + Find(entries[1..], name)
  }

  function CheckDeclared(args: Args, schema: Schema): Verdict {
    if args == [] then Valid
    else if !Has(schema, args[0].0) then Invalid(Undeclared(args[0].0))
    else CheckDeclared(args[1..], schema)
  }

  function CheckTyped(schema: Schema, args: Args): Verdict {
    if schema == [] then Valid
    else
      var (name, expected) := schema[0];
      var k := Find(args, name);
      if k == |args| then Invalid(Missing(name))
      else if !Matches(expected, args[k].1) then Invalid(TypeMismatch(name, expected))
      else CheckTyped(schema[1..], args)
  }

  function ValidateParams(schema: Schema, args: Args): Verdict {
    var declared := CheckDeclared(args, schema);
    if declared.Invalid? then declared else CheckTyped(schema, args)
  }

  // ----- What it means -----

  predicate Supplies(args: Args, name: string, expected: ParamType) {
    exists k :: 0 <= k < |args| && args[k].0 == name && Matches(expected, args[k].1)
  }

  /** Exactly the declared names, each with a value of its type. */
  predicate Conforms(schema: Schema, args: Args) {
    && (forall k :: 0 <= k < |args| ==> Has(schema, args[k].0))
    && (forall j :: 0 <= j < |schema| ==> Supplies(args, schema[j].0, schema[j].1))
  }

  /** The first declared name that is not supplied as declared, and what is wrong with it. */
  predicate Explains(error: ParamsError, schema: Schema, args: Args) {
    && !error.Undeclared?
    && exists j :: 0 <= j < |schema| && schema[j].0 == error.name
         && (forall i :: 0 <= i < j ==> Supplies(args, schema[i].0, schema[i].1))
         && !Supplies(args, schema[j].0, schema[j].1)
         && (error.Missing? <==> !Has(args, error.name))
         && (error.TypeMismatch? ==> error.expected == schema[j].1)
  }

  lemma ExplainsLater(error: ParamsError, schema: Schema, args: Args)
    requires schema != [] && Supplies(args, schema[0].0, schema[0].1) && Explains(error, schema[1..], args)
    ensures Explains(error, schema, args)
  {
    var j :| 0 <= j < |schema[1..]| && schema[1..][j].0 == error.name
             && (forall i :: 0 <= i < j ==> Supplies(args, schema[1..][i].0, schema[1..][i].1))
             && !Supplies(args, schema[1..][j].0, schema[1..][j].1)
             && (error.Missing? <==> !Has(args, error.name))
             && (error.TypeMismatch? ==> error.expected == schema[1..][j].1);
    assert schema[j + 1] == schema[1..][j];
    assert forall i :: 0 < i < j + 1 ==> schema[i] == schema[1..][i - 1];
  }

  lemma {:induction false} DeclaredIff(args: Args, schema: Schema)
    ensures CheckDeclared(args, schema).Valid? <==> forall k :: 0 <= k < |args| ==> Has(schema, args[k].0)
    ensures CheckDeclared(args, schema).Invalid? ==>
              exists k :: 0 <= k < |args| && !Has(schema, args[k].0)
                          && CheckDeclared(args, schema).error == Undeclared(args[k].0)
  {
    if args != [] {
      DeclaredIff(args[1..], schema);
      assert forall k :: 0 < k < |args| ==> args[k] == args[1..][k - 1];
    }
  }

  lemma {:induction false} TypedIff(schema: Schema, args: Args)
    requires DistinctKeys(args)
    ensures CheckTyped(schema, args).Valid? <==>
            forall j :: 0 <= j < |schema| ==> Supplies(args, schema[j].0, schema[j].1)
    ensures CheckTyped(schema, args).Invalid? ==> Explains(CheckTyped(schema, args).error, schema, args)
  {
    if schema != [] {
      TypedIff(schema[1..], args);
      assert forall j :: 0 < j < |schema| ==> schema[j] == schema[1..][j - 1];
      var k := Find(args, schema[0].0);
      assert Supplies(args, schema[0].0, schema[0].1) <==> k < |args| && Matches(schema[0].1, args[k].1);
      if k < |args| && Matches(schema[0].1, args[k].1) && CheckTyped(schema, args).Invalid? {
        ExplainsLater(CheckTyped(schema, args).error, schema, args);
      }
    }
  }

  /** The check accepts exactly the conforming parameters; it reports an undeclared name before anything else,
      and otherwise the first declared name that is missing or of another type. */
  lemma ValidIffConforms(schema: Schema, args: Args)
    requires DistinctKeys(args)
    ensures ValidateParams(schema, args).Valid? <==> Conforms(schema, args)
    ensures ValidateParams(schema, args).Invalid? ==>
              (ValidateParams(schema, args).error.Undeclared? <==>
               exists k :: 0 <= k < |args| && !Has(schema, args[k].0))
    ensures ValidateParams(schema, args).Invalid? && !ValidateParams(schema, args).error.Undeclared? ==>
              Explains(ValidateParams(schema, args).error, schema, args)
  {
    DeclaredIff(args, schema);
    TypedIff(schema, args);
  }
}
