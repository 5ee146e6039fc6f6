/**
 The authentication secret and its two conversions to and from the table's
 `auth_key` cell: reads redact it, writes validate it.
 */
module AuthKey {
  import opened Wrappers
  import opened Datum
  import opened ConfigError

  type Pos = n: nat | 0 < n witness 1

  /**
   The longest secret accepted, in bytes. Its value is fixed outside
   cluster_config.cc, so the model holds for every positive bound.
   */
  const MaxLength: Pos

  /** A secret the store can hold; the empty secret means "no auth key". */
  predicate IsValid(key: Bytes) {
    |key| <= MaxLength
  }

  /** The placeholder `{hidden: true}` shown in place of a configured secret. */
  function HiddenDatum(): Datum {
    Obj(map[Lit("hidden") := Bool(true)])
  }

  /**
   The `auth_key` cell shown for a secret: null when no secret is set, the
   placeholder otherwise. No byte of the secret is copied into the cell.
   */
  function ToDatum(key: Bytes): (d: Datum)
    ensures d == Null <==> key == []
    ensures key != [] ==> d == HiddenDatum()
    ensures Texts(d) <= {Lit("hidden")}
  {
    if key == [] then Null else HiddenDatum()
  }

  /**
   The secret a written `auth_key` cell asks for, checked in the source's
   order: null, then string, then the placeholder, then any other shape.
   */
  function FromDatum(d: Datum): (r: Result<Bytes, Error>)
    ensures r.Success? <==> d.Null? || (d.Str? && IsValid(d.s))
    ensures r.Success? ==> IsValid(r.value)
    ensures d.Null? ==> r == Success([])
    ensures d.Str? && IsValid(d.s) ==> r == Success(d.s)
    ensures d.Str? && !IsValid(d.s) ==> r == Failure(KeyTooLong(MaxLength, |d.s|))
    ensures d == HiddenDatum() ==> r == Failure(HiddenPlaceholder)
    ensures !d.Null? && !d.Str? && d != HiddenDatum() ==> r == Failure(NotStringOrNull(d))
  {
    if d.Null? then
      Success([])
    else if d.Str? then
      if |d.s| <= MaxLength then Success(d.s) else Failure(KeyTooLong(MaxLength, |d.s|))
    else if d == HiddenDatum() then
      Failure(HiddenPlaceholder)
    else
      Failure(NotStringOrNull(d))
  }

  /**
   Redaction depends on nothing but whether a secret is set: two secrets
   that are both set, or both unset, show the same cell.
   */
  lemma RedactionIgnoresSecretBytes(k1: Bytes, k2: Bytes)
    requires (k1 == []) == (k2 == [])
    ensures ToDatum(k1) == ToDatum(k2)
  {
  }

  /**
   Writing back what a read showed succeeds exactly when no secret is set,
   and then it keeps the secret unset; a set secret shows the placeholder,
   which is refused.
   */
  lemma RedactedCellWritesBackOnlyWhenUnset(key: Bytes)
    ensures FromDatum(ToDatum(key)).Success? <==> key == []
    ensures key == [] ==> FromDatum(ToDatum(key)) == Success(key)
    ensures key != [] ==> FromDatum(ToDatum(key)) == Failure(HiddenPlaceholder)
  {
  }

  /**
   A secret accepted from a written cell reads back as null when the cell
   was null or the empty string, and as the placeholder otherwise.
   */
  lemma DecodeThenRedact(d: Datum)
    requires FromDatum(d).Success?
    ensures ToDatum(FromDatum(d).value) == (if d == Null || d == Str([]) then Null else HiddenDatum())
  {
  }

  /** Every valid secret can be written as a string cell and is stored byte for byte. */
  lemma StringCellRoundTrip(key: Bytes)
    requires IsValid(key)
    ensures FromDatum(Str(key)) == Success(key)
  {
  }
}
