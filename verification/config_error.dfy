/** The user-facing failures of the configuration table and the texts it reports. */
module ConfigError {
  import opened Datum
  import Decimal

  datatype Error =
    /** A write with no new value: rows cannot be deleted. */
    | DeleteIllegal
    /** A write to a key that names no document: rows cannot be inserted. */
    | InsertIllegal
    /** The written row lacks a field the document needs. */
    | MissingField(field: Bytes)
    /** The written key is longer than the bound; both sizes are reported. */
    | KeyTooLong(maxLength: nat, actual: nat)
    /** The read-only `{hidden: true}` placeholder was written back. */
    | HiddenPlaceholder
    /** The `auth_key` value is neither a string nor null (nor the placeholder). */
    | NotStringOrNull(got: Datum)
    /** The written row has fields the document does not know. */
    | ExtraFields(extra: set<Bytes>)

  /**
   True of the errors whose text cluster_config.cc writes itself; the texts of
   `MissingField` and `ExtraFields` come from the object converter.
   */
  predicate HasOwnText(e: Error) {
    !e.MissingField? && !e.ExtraFields?
  }

  const TooLongPrefix := "The auth key should be at most "
  const TooLongMiddle := " bytes long, but your given key is "
  const TooLongSuffix := " bytes."
  const NotStringPrefix := "Expected" + " a string or null; got "
  const DeleteText := "It's illegal to delete" + " rows from the `rethinkdb.cluster_config` table."
  const InsertText := "It's illegal to insert" + " new rows into the `rethinkdb.cluster_config` table."
  const HiddenLead := "You're trying"
  const HiddenRest :=
    " to set the `auth_key` field in the `auth` document "
    + "of `rethinkdb.cluster_config` to {hidden: true}. The `auth_key` field "
    + "can be set to a string, or `null` for no auth key. {hidden: true} is a "
    + "special place-holder value that RethinkDB returns if you try to read the "
    + "auth key; RethinkDB won't show you the real auth key for security reasons. "
    + "Setting the auth key to {hidden: true} is not allowed."

  /**
   The reported text. `render` stands for the query language's rendering of a
   datum, which this model does not define. A value of the wrong shape is
   reported with its rendering at the end of the text.
   */
  function Message(e: Error, render: Datum -> string): (msg: string)
    requires HasOwnText(e)
    ensures |msg| > 0
    ensures e.NotStringOrNull? ==>
              |render(e.got)| <= |msg| && msg[|msg| - |render(e.got)|..] == render(e.got)
  {
    match e
    case DeleteIllegal => DeleteText
    case InsertIllegal => InsertText
    case KeyTooLong(maxLength, actual) =>
      TooLongText(maxLength, actual)
    case HiddenPlaceholder => HiddenLead + HiddenRest
    case NotStringOrNull(got) =>
      NotStringPrefix + render(got)
  }

  /** The text reporting a key of `actual` bytes against a bound of `maxLength`. */
  function TooLongText(maxLength: nat, actual: nat): string
  {
    TooLongPrefix + (Decimal.Show(maxLength) + (TooLongMiddle + (Decimal.Show(actual) + TooLongSuffix)))
  }

  lemma {:induction false} StripPrefix(p: string, x: string, y: string)
    requires p + x == p + y
    ensures x == y
  {
    assert x == (p + x)[|p|..];
    assert y == (p + y)[|p|..];
  }

  /**
   The too-long message reports both sizes faithfully: two such messages are
   the same text only when they report the same bound and the same size.
   */
  lemma TooLongTextDeterminesSizes(m1: nat, a1: nat, m2: nat, a2: nat)
    requires TooLongText(m1, a1) == TooLongText(m2, a2)
    ensures m1 == m2 && a1 == a2
  {
    var x1, y1 := Decimal.Show(m1), Decimal.Show(a1);
    var x2, y2 := Decimal.Show(m2), Decimal.Show(a2);
    StripPrefix(TooLongPrefix, x1 + (TooLongMiddle + (y1 + TooLongSuffix)), x2 + (TooLongMiddle + (y2 + TooLongSuffix)));
    Decimal.DigitRunsAgree(x1, TooLongMiddle + (y1 + TooLongSuffix), x2, TooLongMiddle + (y2 + TooLongSuffix));
    Decimal.ShowInjective(m1, m2);
    StripPrefix(TooLongMiddle, y1 + TooLongSuffix, y2 + TooLongSuffix);
    Decimal.DigitRunsAgree(y1, TooLongSuffix, y2, TooLongSuffix);
    Decimal.ShowInjective(a1, a2);
  }

  /** The same, stated of the reported messages. */
  lemma TooLongMessageDeterminesSizes(m1: nat, a1: nat, m2: nat, a2: nat, render: Datum -> string)
    requires Message(KeyTooLong(m1, a1), render) == Message(KeyTooLong(m2, a2), render)
    ensures m1 == m2 && a1 == a2
  {
    TooLongTextDeterminesSizes(m1, a1, m2, a2);
  }

  /** The first character of each text. */
  function Lead(e: Error): char {
    match e
    case DeleteIllegal => 'I'
    case InsertIllegal => 'I'
    case KeyTooLong(_, _) => 'T'
    case HiddenPlaceholder => 'Y'
    case NotStringOrNull(_) => 'E'
    case _ => ' '
  }

  lemma LeadOfMessage(e: Error, render: Datum -> string)
    requires HasOwnText(e)
    ensures Message(e, render)[0] == Lead(e)
  {
  }

  /**
   The text identifies the error it reports: two errors with the same text
   are the same error. The one exception is two wrong-shape values whose
   renderings coincide.
   */
  lemma MessageIdentifiesError(e1: Error, e2: Error, render: Datum -> string)
    requires HasOwnText(e1) && HasOwnText(e2)
    requires Message(e1, render) == Message(e2, render)
    ensures e1 == e2 || (e1.NotStringOrNull? && e2.NotStringOrNull?)
  {
    if e1.KeyTooLong? && e2.KeyTooLong? {
      TooLongTextDeterminesSizes(e1.maxLength, e1.actual, e2.maxLength, e2.actual);
    } else {
      // The first character tells the kinds apart; the delete and insert
      // texts share their first sixteen characters and differ at the next.
      assert Message(e1, render)[0] == Lead(e1) by { LeadOfMessage(e1, render); }
      assert Message(e2, render)[0] == Lead(e2) by { LeadOfMessage(e2, render); }
      assert DeleteText[16] != InsertText[16];
    }
  }
}
