/**
 * Search criteria of `get_users`: which keys are accepted, how each key is
 * classified, and which cleaning type its value is given.
 */
module Criteria {
  import opened PhpValues

  /** One (key, value) search constraint sent by the caller. */
  datatype Criterion = Criterion(key: string, value: string)

  /** The columns of the user table that can be searched directly. */
  datatype Column = Id | IdNumber | Username | Email | Auth | LastName | FirstName

  function ColumnName(col: Column): string
  {
    match col
    case Id => "id"
    case IdNumber => "idnumber"
    case Username => "username"
    case Email => "email"
    case Auth => "auth"
    case LastName => "lastname"
    case FirstName => "firstname"
  }

  /** The fixed column keys and the column each one names. */
  const ColumnKeys: map<string, Column> := map[
    "id" := Id, "idnumber" := IdNumber, "username" := Username, "email" := Email,
    "auth" := Auth, "lastname" := LastName, "firstname" := FirstName]

  /** The column a key names, if it is one of the fixed column keys. */
  function ColumnOf(key: string): Option<Column>
  {
    if key in ColumnKeys then Some(ColumnKeys[key]) else None
  }

  /** The prefix that marks a custom profile field key (14 characters). */
  const CustomFieldPrefix: string := "profile_field_"

  /** `substr($key, 0, 14) == 'profile_field_'`. */
  predicate HasCustomFieldPrefix(key: string)
  {
    |key| >= |CustomFieldPrefix| && key[..|CustomFieldPrefix|] == CustomFieldPrefix
  }

  /** The three kinds of key the criteria loop distinguishes. */
  datatype KeyClass = Fixed(col: Column) | Custom(shortname: string) | Unsupported

  /**
   * A fixed column key; otherwise `profile_field_<name>` with `<name>` among the
   * registered custom profile field short names; otherwise unsupported.
   */
  function Classify(key: string, shortnames: seq<string>): KeyClass
  {
    match ColumnOf(key)
    case Some(col) => Fixed(col)
    case None =>
      if HasCustomFieldPrefix(key) && key[|CustomFieldPrefix|..] in shortnames then
        Custom(key[|CustomFieldPrefix|..])
      else
        Unsupported
  }

  /** ColumnOf recognises exactly the seven column names. */
  lemma ColumnOfNames(key: string)
    ensures ColumnOf(key).Some? ==> ColumnName(ColumnOf(key).value) == key
    ensures ColumnOf(key).None? <==> forall col: Column :: ColumnName(col) != key
  {
  }

  /**
   * The classification in terms of the key alone: a fixed column is named by its
   * key, a custom field key is the prefix followed by a registered short name,
   * and a key is unsupported exactly when it is neither.
   */
  lemma ClassifyMeaning(key: string, shortnames: seq<string>)
    ensures Classify(key, shortnames).Fixed? ==> ColumnName(Classify(key, shortnames).col) == key
    ensures Classify(key, shortnames).Custom? ==>
              key == CustomFieldPrefix + Classify(key, shortnames).shortname &&
              Classify(key, shortnames).shortname in shortnames
    ensures Classify(key, shortnames).Unsupported? <==>
              (forall col: Column :: ColumnName(col) != key) &&
              (forall name :: name in shortnames ==> key != CustomFieldPrefix + name)
  {
    ColumnOfNames(key);
    if HasCustomFieldPrefix(key) {
      assert key == CustomFieldPrefix + key[|CustomFieldPrefix|..];
    }
  }

  /** The cleaning types `clean_param` is called with. */
  datatype ParamType = ParamInt | ParamRaw | ParamAuth | ParamText

  /** The cleaning type chosen for a key before its value is cleaned. */
  function CleaningType(key: string, shortnames: seq<string>): ParamType
  {
    match Classify(key, shortnames)
    case Fixed(Id) => ParamInt
    case Fixed(IdNumber) => ParamRaw
    case Fixed(Username) => ParamRaw
    case Fixed(Email) => ParamRaw
    case Fixed(Auth) => ParamAuth
    case Fixed(LastName) => ParamText
    case Fixed(FirstName) => ParamText
    case Custom(_) => ParamText
    case Unsupported => ParamRaw
  }

  /**
   * The type table: integer for id, the auth-plugin charset for auth, text for
   * the names and custom fields, raw for idnumber, username and email.
   */
  lemma CleaningTypeTable(key: string, shortnames: seq<string>)
    ensures CleaningType(key, shortnames) == ParamInt <==> key == "id"
    ensures CleaningType(key, shortnames) == ParamAuth <==> key == "auth"
    ensures CleaningType(key, shortnames) == ParamText <==>
              key == "lastname" || key == "firstname" || Classify(key, shortnames).Custom?
    ensures CleaningType(key, shortnames) == ParamRaw <==>
              key == "idnumber" || key == "username" || key == "email" || Classify(key, shortnames).Unsupported?
  {
  }

  /** A custom field key is the prefix followed by its short name, and is cleaned as text. */
  lemma CustomKeyShape(key: string, shortnames: seq<string>)
    requires Classify(key, shortnames).Custom?
    ensures key == CustomFieldPrefix + Classify(key, shortnames).shortname
    ensures CleaningType(key, shortnames) == ParamText
  {
    assert key == key[..|CustomFieldPrefix|] + key[|CustomFieldPrefix|..];
  }

  /** No fixed column key starts with 'c'. */
  lemma FixedKeyInitial(key: string, shortnames: seq<string>)
    requires Classify(key, shortnames).Fixed?
    ensures |key| > 0 && key[0] != 'c'
  {
  }

  /** No fixed column key carries the custom field prefix. */
  lemma ColumnHasNoCustomPrefix(col: Column)
    ensures !HasCustomFieldPrefix(ColumnName(col))
  {
  }

  /** Every key that is not unsupported is a fixed column exactly when it lacks the prefix. */
  lemma AcceptedPrefixSplit(key: string, shortnames: seq<string>)
    requires !Classify(key, shortnames).Unsupported?
    ensures Classify(key, shortnames).Fixed? <==> !HasCustomFieldPrefix(key)
  {
    match Classify(key, shortnames)
    case Fixed(col) => ColumnHasNoCustomPrefix(col);
    case Custom(name) =>
      assert (CustomFieldPrefix + name)[..|CustomFieldPrefix|] == CustomFieldPrefix;
  }
}
