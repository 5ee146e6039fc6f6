/**
 The `rethinkdb.cluster_config` virtual table: a fixed set of configuration
 documents, each shown as one row keyed by its name. The only document is
 `auth`, whose single field is the cluster's authentication secret.

 The replicated metadata the table reads and writes is modelled as a plain
 state value; a write's set-then-join on it is an overwrite.
 */
module ClusterConfig {
  import opened Wrappers
  import opened Datum
  import opened ConfigError
  import AuthKey

  /** The replicated auth metadata: the current secret, empty when none is set. */
  datatype State = State(authKey: Bytes)

  /** The state every reachable store satisfies: the secret is within its bound. */
  predicate Valid(s: State) {
    AuthKey.IsValid(s.authKey)
  }

  /** The document handlers the table can dispatch to. */
  datatype Doc = AuthDoc

  const AuthName: Bytes := Lit("auth")
  const IdField: Bytes := Lit("id")
  const AuthKeyField: Bytes := Lit("auth_key")

  /** The registered documents, fixed when the table is built. */
  const Docs: map<Bytes, Doc> := map[AuthName := AuthDoc]

  /** The outcome of a write together with the store it leaves behind. */
  datatype WriteResult = WriteResult(outcome: Outcome<Error>, state: State)

  /** The column that holds each row's primary key. */
  function PrimaryKeyName(): Bytes {
    IdField
  }

  /** True of the keys that name a registered document. */
  predicate NamesDoc(key: Datum) {
    key.Str? && key.s in Docs
  }

  /** What the table framework guarantees of a row handed to a document's write. */
  predicate IsRowObject(row: Datum) {
    row.Obj? && IdField in row.fields
  }

  /** The fields of a written row that the auth document does not consume. */
  function ExtraFieldsOf(row: Datum): set<Bytes>
    requires row.Obj?
  {
    row.fields.Keys - {IdField, AuthKeyField}
  }

  /** No element occurs twice. */
  predicate Distinct(keys: seq<Datum>) {
    forall i, j | 0 <= i < j < |keys| :: keys[i] != keys[j]
  }

  /**
   Every registered document name, once each, as a string key. The order of
   the result is not specified.
   */
  method ReadAllPrimaryKeys() returns (keys: seq<Datum>)
    ensures |keys| == |Docs|
    ensures forall i | 0 <= i < |keys| :: NamesDoc(keys[i])
    ensures forall name | name in Docs :: Str(name) in keys
    ensures Distinct(keys)
  {
    keys := [];
    var rest := Docs.Keys;
    while rest != {}
      invariant rest <= Docs.Keys
      invariant |keys| + |rest| == |Docs|
      invariant forall i | 0 <= i < |keys| :: NamesDoc(keys[i]) && keys[i].s !in rest
      invariant forall name | name in Docs && name !in rest :: Str(name) in keys
      invariant Distinct(keys)
      decreases |rest|
    {
      var name :| name in rest;
      keys := keys + [Str(name)];
      rest := rest - {name};
    }
  }

  /**
   The `auth` row: its primary key, and the secret shown redacted.
   */
  function AuthRead(s: State): (row: Datum)
    ensures row.Obj? && row.fields.Keys == {IdField, AuthKeyField}
    ensures row.fields[IdField] == Str(AuthName)
    ensures row.fields[AuthKeyField] == AuthKey.ToDatum(s.authKey)
  {
    Obj(map[IdField := Str(AuthName), AuthKeyField := AuthKey.ToDatum(s.authKey)])
  }

  /**
   A write of the `auth` row. The gates run in order: the `auth_key` field
   must be present, its value must convert to a secret, and no other field
   than `id` and `auth_key` may appear; only then is the secret stored.
   */
  function AuthWrite(s: State, row: Datum): (r: WriteResult)
    requires IsRowObject(row)
    ensures r.outcome.Fail? ==> r.state == s
    ensures AuthKeyField !in row.fields ==> r.outcome == Fail(MissingField(AuthKeyField))
    ensures AuthKeyField in row.fields && AuthKey.FromDatum(row.fields[AuthKeyField]).Failure? ==>
              r.outcome == Fail(AuthKey.FromDatum(row.fields[AuthKeyField]).error)
    ensures (AuthKeyField in row.fields && AuthKey.FromDatum(row.fields[AuthKeyField]).Success?
             && ExtraFieldsOf(row) != {}) ==> r.outcome == Fail(ExtraFields(ExtraFieldsOf(row)))
    ensures r.outcome.Pass? <==>
              AuthKeyField in row.fields && AuthKey.FromDatum(row.fields[AuthKeyField]).Success?
              && ExtraFieldsOf(row) == {}
    ensures r.outcome.Pass? ==> r.state == State(AuthKey.FromDatum(row.fields[AuthKeyField]).value)
  {
    if AuthKeyField !in row.fields then
      WriteResult(Fail(MissingField(AuthKeyField)), s)
    else
      match AuthKey.FromDatum(row.fields[AuthKeyField])
      case Failure(e) => WriteResult(Fail(e), s)
      case Success(key) =>
        var extra := ExtraFieldsOf(row);
        if extra != {} then WriteResult(Fail(ExtraFields(extra)), s)
        else WriteResult(Pass, State(key))
  }

  /**
   The row stored under `key`, or none (the absent row) when the key is not a
   string or names no document. A miss is not an error.
   */
  function ReadRow(s: State, key: Datum): (r: Option<Datum>)
    ensures r.Some? <==> NamesDoc(key)
    ensures r.Some? ==> r.value == AuthRead(s)
  {
    if !key.Str? then None
    else if key.s !in Docs then None
    else match Docs[key.s]
      case AuthDoc => Some(AuthRead(s))
  }

  /**
   A write of `newValue` under `key`; `None` asks to delete the row. Deletes
   are refused for every key, then writes to keys that name no document are
   refused as inserts; the rest go to the document.
   */
  function WriteRow(s: State, key: Datum, newValue: Option<Datum>): (r: WriteResult)
    requires newValue.Some? && NamesDoc(key) ==> IsRowObject(newValue.value)
    ensures newValue.None? ==> r == WriteResult(Fail(DeleteIllegal), s)
    ensures newValue.Some? && !NamesDoc(key) ==> r == WriteResult(Fail(InsertIllegal), s)
    ensures newValue.Some? && NamesDoc(key) ==> r == AuthWrite(s, newValue.value)
    ensures r.outcome.Fail? ==> r.state == s
    ensures Valid(s) ==> Valid(r.state)
  {
    if newValue.None? then
      WriteResult(Fail(DeleteIllegal), s)
    else if !key.Str? then
      WriteResult(Fail(InsertIllegal), s)
    else if key.s !in Docs then
      WriteResult(Fail(InsertIllegal), s)
    else match Docs[key.s]
      case AuthDoc => AuthWrite(s, newValue.value)
  }
}
