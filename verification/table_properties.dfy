/** Properties that relate several operations of the configuration table. */
module TableProperties {
  import opened Wrappers
  import opened Datum
  import opened ConfigError
  import AuthKey
  import opened ClusterConfig

  /** The table is keyed by `id`, and its only row is `auth`. */
  lemma FixedKeysAndName()
    ensures PrimaryKeyName() == Lit("id")
    ensures Docs.Keys == {Lit("auth")}
  {
  }

  /** Every key the enumeration yields reads as a present row. */
  lemma EnumeratedKeysAreReadable(s: State, keys: seq<Datum>)
    requires forall i | 0 <= i < |keys| :: NamesDoc(keys[i])
    ensures forall i | 0 <= i < |keys| :: ReadRow(s, keys[i]).Some?
  {
  }

  /** A present row holds, under the primary-key column, the key it was read by. */
  lemma ReadRowCarriesItsKey(s: State, key: Datum)
    requires ReadRow(s, key).Some?
    ensures ReadRow(s, key).value.Obj?
    ensures PrimaryKeyName() in ReadRow(s, key).value.fields
    ensures ReadRow(s, key).value.fields[PrimaryKeyName()] == key
  {
  }

  /**
   Reads never disclose the secret: two stores whose secrets are both set
   (or both unset) read identically, under every key.
   */
  lemma ReadDependsOnlyOnWhetherSet(s1: State, s2: State, key: Datum)
    requires (s1.authKey == []) == (s2.authKey == [])
    ensures ReadRow(s1, key) == ReadRow(s2, key)
  {
  }

  /**
   The only byte strings a read row contains are the fixed words `id`,
   `auth_key`, `auth` and `hidden`, whatever the secret is.
   */
  lemma ReadRowTexts(s: State, key: Datum)
    requires ReadRow(s, key).Some?
    ensures Texts(ReadRow(s, key).value) <= {IdField, AuthKeyField, AuthName, Lit("hidden")}
  {
  }

  /**
   After a successful write of the `auth` row, reading it shows the new
   secret redacted, whatever the store held before.
   */
  lemma WriteThenRead(s: State, key: Datum, row: Datum)
    requires NamesDoc(key) && IsRowObject(row)
    requires WriteRow(s, key, Some(row)).outcome.Pass?
    ensures AuthKeyField in row.fields && AuthKey.FromDatum(row.fields[AuthKeyField]).Success?
    ensures ReadRow(WriteRow(s, key, Some(row)).state, key)
            == Some(AuthRead(State(AuthKey.FromDatum(row.fields[AuthKeyField]).value)))
    ensures ReadRow(WriteRow(s, key, Some(row)).state, key).value.fields[AuthKeyField]
            == AuthKey.ToDatum(AuthKey.FromDatum(row.fields[AuthKeyField]).value)
  {
  }

  /** Repeating a write changes nothing: it reports the same outcome and leaves the same store. */
  lemma WriteRowIdempotent(s: State, key: Datum, newValue: Option<Datum>)
    requires newValue.Some? && NamesDoc(key) ==> IsRowObject(newValue.value)
    ensures WriteRow(WriteRow(s, key, newValue).state, key, newValue) == WriteRow(s, key, newValue)
  {
  }

  /** Whether a write succeeds, and how it fails, does not depend on the store. */
  lemma WriteOutcomeIgnoresState(s1: State, s2: State, key: Datum, newValue: Option<Datum>)
    requires newValue.Some? && NamesDoc(key) ==> IsRowObject(newValue.value)
    ensures WriteRow(s1, key, newValue).outcome == WriteRow(s2, key, newValue).outcome
  {
  }

  /**
   Writing back the row just read succeeds only when no secret is set, and
   then it changes nothing; with a secret set, the placeholder is refused.
   */
  lemma ReadModifyWrite(s: State)
    ensures ReadRow(s, Str(AuthName)).Some?
    ensures WriteRow(s, Str(AuthName), ReadRow(s, Str(AuthName))).state == s
    ensures s.authKey == [] ==> WriteRow(s, Str(AuthName), ReadRow(s, Str(AuthName))).outcome == Pass
    ensures s.authKey != [] ==>
              WriteRow(s, Str(AuthName), ReadRow(s, Str(AuthName))).outcome == Fail(HiddenPlaceholder)
  {
  }

  /** No write adds or removes a row: the keys that read as present stay the same. */
  lemma RowSetNeverChanges(s: State, key: Datum, newValue: Option<Datum>, probe: Datum)
    requires newValue.Some? && NamesDoc(key) ==> IsRowObject(newValue.value)
    ensures ReadRow(WriteRow(s, key, newValue).state, probe).Some? <==> ReadRow(s, probe).Some?
  {
  }
}
