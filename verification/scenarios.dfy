/** Concrete uses of the table, each an instance of the general properties. */
module Scenarios {
  import opened Wrappers
  import opened Datum
  import opened ConfigError
  import AuthKey
  import opened ClusterConfig

  function AuthRow(authKey: Datum): Datum {
    Obj(map[IdField := Str(AuthName), AuthKeyField := authKey])
  }

  /** Setting a secret succeeds, and the row then reads `{hidden: true}`, not the secret. */
  lemma SetSecretThenRead(s: State)
    requires AuthKey.MaxLength >= 6
    ensures WriteRow(s, Str(AuthName), Some(AuthRow(Str(Lit("s3cret"))))).outcome == Pass
    ensures ReadRow(WriteRow(s, Str(AuthName), Some(AuthRow(Str(Lit("s3cret"))))).state, Str(AuthName))
            == Some(AuthRow(AuthKey.HiddenDatum()))
  {
  }

  /** Clearing the secret succeeds, and the row then reads null. */
  lemma ClearSecretThenRead(s: State)
    ensures WriteRow(s, Str(AuthName), Some(AuthRow(Null))).outcome == Pass
    ensures ReadRow(WriteRow(s, Str(AuthName), Some(AuthRow(Null))).state, Str(AuthName))
            == Some(AuthRow(Null))
  {
  }

  /** A secret one byte over the bound is refused, reporting the bound and its size. */
  lemma OverlongSecretRefused(s: State, key: Bytes)
    requires |key| == AuthKey.MaxLength + 1
    ensures WriteRow(s, Str(AuthName), Some(AuthRow(Str(key))))
            == WriteResult(Fail(KeyTooLong(AuthKey.MaxLength, AuthKey.MaxLength + 1)), s)
  {
  }

  /** Writing the placeholder back is refused. */
  lemma PlaceholderRefused(s: State)
    ensures WriteRow(s, Str(AuthName), Some(AuthRow(AuthKey.HiddenDatum())))
            == WriteResult(Fail(HiddenPlaceholder), s)
  {
  }

  /** A row with a field besides `id` and `auth_key` is refused, naming the field. */
  lemma ExtraFieldRefused(s: State)
    ensures WriteRow(s, Str(AuthName),
                     Some(Obj(map[IdField := Str(AuthName), AuthKeyField := Null, Lit("extra") := Num(1.0)])))
            == WriteResult(Fail(ExtraFields({Lit("extra")})), s)
  {
    // The names differ in length, so `extra` is neither `id` nor `auth_key`.
    assert |Lit("extra")| != |IdField| && |Lit("extra")| != |AuthKeyField|;
    var row := Obj(map[IdField := Str(AuthName), AuthKeyField := Null, Lit("extra") := Num(1.0)]);
    assert row.fields.Keys == {IdField, AuthKeyField, Lit("extra")};
    assert ExtraFieldsOf(row) == {Lit("extra")};
    assert AuthWrite(s, row) == WriteResult(Fail(ExtraFields({Lit("extra")})), s);
  }

  /** A row without `auth_key` is refused before anything else is looked at. */
  lemma MissingAuthKeyRefused(s: State)
    ensures WriteRow(s, Str(AuthName), Some(Obj(map[IdField := Str(AuthName), Lit("extra") := Null])))
            == WriteResult(Fail(MissingField(AuthKeyField)), s)
  {
  }

  /** Deleting the `auth` row is refused. */
  lemma DeleteRefused(s: State)
    ensures WriteRow(s, Str(AuthName), None) == WriteResult(Fail(DeleteIllegal), s)
  {
  }

  /** An unknown name reads as the absent row, and writing it is refused as an insert. */
  lemma UnknownNameAbsent(s: State, name: Bytes, row: Datum)
    requires name != AuthName
    ensures ReadRow(s, Str(name)) == None
    ensures WriteRow(s, Str(name), Some(row)) == WriteResult(Fail(InsertIllegal), s)
  {
  }
}
