# RethinkDB `rethinkdb.cluster_config` table — Dafny model

This project models the row adapter that shows the cluster's security
configuration as the virtual table `rethinkdb.cluster_config`. The table has a
fixed set of rows. The only one is `auth`, whose `auth_key` field is the
cluster's authentication secret. The model covers three parts:

- the table-level gatekeeping: the primary-key name, key enumeration,
  `read_row` and `write_row`;
- the two conversions of the `auth_key` cell: redaction on read
  (`convert_auth_key_to_datum`) and validation on write
  (`convert_auth_key_from_datum`);
- the `auth` document's read and write, including the order of the write's gates.

Modules, one concept each:

| file | module | contents |
|---|---|---|
| `wrappers.dfy` | `Wrappers` | `Option`, `Result`, `Outcome` |
| `datum.dfy` | `Datum` | the query value `Datum` (null, bool, number, byte string, array, object) and `Texts`, every byte string a datum contains |
| `decimal.dfy` | `Decimal` | the `%zu` decimal rendering of a size and its inverse |
| `config_error.dfy` | `ConfigError` | the user-facing errors and the texts the table reports |
| `auth_key.dfy` | `AuthKey` | the secret's bound, the `{hidden: true}` placeholder, and the two conversions |
| `cluster_config.dfy` | `ClusterConfig` | the store, the document map, and the table and document operations |
| `table_properties.dfy` | `TableProperties` | lemmas relating reads and writes |
| `scenarios.dfy` | `Scenarios` | concrete reads and writes, each an instance of the general properties |

Modelling choices:

- The replicated auth metadata is a plain value, `State(authKey)`. A write
  sets the secret and then joins it into the shared view. In a sequential
  model that is an overwrite, so writes are functions from a state to a
  `WriteResult(outcome, state)`.
- The "no value" datum (`datum_t()`, for which `has()` is false) occurs in
  two places: the row `read_row` returns on a miss, and the delete request
  `write_row` receives. Both places use `Option<Datum>.None`. This keeps
  absent values out of objects.
- `auth_key_t::max_length` is defined outside the modelled file. It is the
  constant `AuthKey.MaxLength`, which has no fixed value, so every result
  holds for any positive bound.
- The table framework guarantees that a written row is an object with an
  `id` field. The source crashes otherwise. The model states this guarantee
  as a precondition. `AuthWrite` requires it. `WriteRow` requires it only for
  writes that reach the document, because deletes and inserts fail before
  the row is examined.
- The datum printer used in "Expected a string or null; got …" is the
  parameter `render` of `ConfigError.Message`.
- Redaction is meant to keep the secret out of every read result. Taken
  literally that fails: a secret equal to the word `auth` does appear in
  every row, as the value of `id`. The model proves two things instead. Reads are
  non-interfering: two stores whose secrets are both set, or both unset,
  read the same under every key. And a read row contains no byte strings
  except the four fixed words `id`, `auth_key`, `auth` and `hidden`.

## Model

| member | source | states |
|---|---|---|
| `ClusterConfig.ReadAllPrimaryKeys` | src/clustering/administration/cluster_config.cc:17-26 | yields each registered document name exactly once, as a string key, and nothing else |
| `TableProperties.FixedKeysAndName` | src/clustering/administration/cluster_config.cc:6-15 | `PrimaryKeyName` (`get_primary_key_name`) is `id`, and the registered names are exactly `{"auth"}` |
| `ClusterConfig.ReadRow` | src/clustering/administration/cluster_config.cc:28-43 | the row is present if and only if the key is a string naming a document; a non-string or unknown key gives the absent row |
| `TableProperties.EnumeratedKeysAreReadable` | src/clustering/administration/cluster_config.cc:17-43 | every key the enumeration can yield reads as a present row |
| `TableProperties.ReadRowCarriesItsKey` | src/clustering/administration/cluster_config.cc:119-130 | a present row holds the key it was read by under the primary-key column |
| `ClusterConfig.WriteRow` | src/clustering/administration/cluster_config.cc:45-67 | a delete fails with the delete error for every key, including `auth`; a present value under a non-string or unknown key fails with the insert error; any failure leaves the store unchanged; a write keeps the secret within its bound |
| `TableProperties.RowSetNeverChanges` | src/clustering/administration/cluster_config.cc:45-67 | no write adds or removes a row: the keys that read as present are the same before and after |
| `AuthKey.ToDatum` | src/clustering/administration/cluster_config.cc:69-82 | an empty secret shows as null; a set secret shows as exactly `HiddenDatum()`, the `{hidden: true}` object of `make_hidden_auth_key_datum`; the cell contains no byte string but `hidden` |
| `AuthKey.RedactionIgnoresSecretBytes` | src/clustering/administration/cluster_config.cc:75-82 | redaction depends only on whether a secret is set, never on its bytes |
| `AuthKey.FromDatum` | src/clustering/administration/cluster_config.cc:84-117 | null gives the empty secret; a string within the bound gives exactly its bytes; a longer string fails with the bound and its size; the exact placeholder fails with the placeholder error; any other value fails as "not a string or null"; success if and only if null or a string within the bound |
| `AuthKey.StringCellRoundTrip` | src/clustering/administration/cluster_config.cc:91-104 | every secret within the bound can be written as a string and is stored byte for byte |
| `AuthKey.DecodeThenRedact` | src/clustering/administration/cluster_config.cc:75-104 | an accepted cell reads back as null when it was null or the empty string, and as the placeholder otherwise |
| `AuthKey.RedactedCellWritesBackOnlyWhenUnset` | src/clustering/administration/cluster_config.cc:75-116 | decoding a redacted cell succeeds if and only if no secret is set; for a set secret it fails with the placeholder error |
| `Decimal.Show` | src/clustering/administration/cluster_config.cc:94-96 | the `%zu` rendering is a non-empty run of decimal digits without a leading zero |
| `Decimal.ValueOfShow` | src/clustering/administration/cluster_config.cc:94-96 | reading the rendered digits back gives the rendered size |
| `ConfigError.Message` | src/clustering/administration/cluster_config.cc:50-116 | the delete, insert, too-long, placeholder and wrong-shape texts as the file writes them; every text is non-empty, and a wrong-shape text ends with the rendering of the offending value |
| `ConfigError.MessageIdentifiesError` | src/clustering/administration/cluster_config.cc:50-116 | two errors with the same text are the same error, so a user can tell a delete, an insert, a too-long key, a placeholder write and a wrong-shape value apart; the one exception is two wrong-shape values whose renderings coincide |
| `ConfigError.TooLongTextDeterminesSizes` | src/clustering/administration/cluster_config.cc:94-96 | two too-long texts are equal only when they report the same bound and the same size |
| `ConfigError.TooLongMessageDeterminesSizes` | src/clustering/administration/cluster_config.cc:93-96 | the too-long message reports both the bound and the given key's size faithfully |
| `ClusterConfig.AuthRead` | src/clustering/administration/cluster_config.cc:119-130 | the `auth` row has exactly the fields `id` and `auth_key`; `id` is `"auth"` and `auth_key` is the redacted secret |
| `TableProperties.ReadDependsOnlyOnWhetherSet` | src/clustering/administration/cluster_config.cc:119-130 | two stores whose secrets are both set, or both unset, read the same under every key |
| `TableProperties.ReadRowTexts` | src/clustering/administration/cluster_config.cc:119-130 | a read row contains no byte strings except `id`, `auth_key`, `auth` and `hidden`, whatever the secret |
| `ClusterConfig.AuthWrite` | src/clustering/administration/cluster_config.cc:132-167 | the gates run in order: a missing `auth_key` field, then a conversion error, then extra fields; the first failure is reported and the store is unchanged; the write succeeds if and only if all gates pass, and then it stores the converted secret |
| `TableProperties.WriteThenRead` | src/clustering/administration/cluster_config.cc:146-166 | after a successful write, reading `auth` shows the new secret redacted, whatever the store held before |
| `TableProperties.WriteRowIdempotent` | src/clustering/administration/cluster_config.cc:45-67 | repeating a write gives the same outcome and leaves the same store |
| `TableProperties.WriteOutcomeIgnoresState` | src/clustering/administration/cluster_config.cc:132-158 | whether a write succeeds, and how it fails, does not depend on the store |
| `TableProperties.ReadModifyWrite` | src/clustering/administration/cluster_config.cc:105-112 | writing back the row just read succeeds only when no secret is set, and then changes nothing; with a secret set it fails with the placeholder error |
| `Scenarios.SetSecretThenRead` | src/clustering/administration/cluster_config.cc:119-130 | after writing the secret `s3cret`, the row reads `{id: "auth", auth_key: {hidden: true}}` |
| `Scenarios.ClearSecretThenRead` | src/clustering/administration/cluster_config.cc:88-90 | after writing `auth_key: null`, the row reads `{id: "auth", auth_key: null}` |
| `Scenarios.OverlongSecretRefused` | src/clustering/administration/cluster_config.cc:92-96 | a secret one byte over the bound is refused, reporting the bound and the size |
| `Scenarios.PlaceholderRefused` | src/clustering/administration/cluster_config.cc:105-112 | writing `{hidden: true}` back is refused with the placeholder error |
| `Scenarios.ExtraFieldRefused` | src/clustering/administration/cluster_config.cc:155-157 | a row with a field besides `id` and `auth_key` is refused, naming that field |
| `Scenarios.MissingAuthKeyRefused` | src/clustering/administration/cluster_config.cc:146-149 | a row without `auth_key` is refused with the missing-field error, before the extra-field check |
| `Scenarios.DeleteRefused` | src/clustering/administration/cluster_config.cc:50-53 | deleting the `auth` row is refused |
| `Scenarios.UnknownNameAbsent` | src/clustering/administration/cluster_config.cc:37-41 | an unknown name reads as the absent row, and a write to it is refused as an insert |

## Left out

- Execution affinity. The `on_thread_t` switches to the view's home thread (lines 123 and 160) have no functional content in a sequential model.
- Cancellation. The code marks the `interruptor` as unused or only passes it along, so no operation can be cancelled, and the model has no cancellation outcome.
- The semilattice view. Its `join`, its conflict resolution and the versioned wrapper (`auth_key.set`) are code outside this file. A successful write is an overwrite of `State.authKey`.
- The `crash(...)` paths (lines 138-144) are preconditions of `ClusterConfig.AuthWrite` and `ClusterConfig.WriteRow`. They are not error results.
- The "auth key is invalid" branch (lines 97-100) cannot be reached, because length is the only check `auth_key_t::assign_value` makes. The internals of `auth_key_t` beyond that bound are not modelled.
- `ConfigError.Message` does not define the texts of `MissingField` and `ExtraFields`. Those texts come from `converter_from_datum_object_t`, which is not part of this model. The errors carry the missing field's name and the set of extra field names instead.
- The rendering of a datum by `datum->print()` is the uninterpreted parameter `render`.
- `ClusterConfig.ReadAllPrimaryKeys`: the result order is left unspecified. The source iterates a `std::map` in key order, but with a single document every order is the same.
- `read_all_primary_keys`, `read_row` and the document's `read` always succeed, so their unused `error_out` channel is not modelled. `ReadRow` returns the row directly.
- Numbers are mathematical reals, not doubles. No operation here looks at a number's value.
