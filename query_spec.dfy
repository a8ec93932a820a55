/**
 * What `get_users` builds from its criteria, stated as functions of the list of
 * criteria: the table list, the WHERE string, the named-placeholder parameters,
 * the warnings and the criteria that survive to the result filter.
 *
 * `Fold` is defined on the criteria seen so far (the last criterion is the one
 * the loop handles next), so the loop in `GetUsers.BuildQuery` can be proved
 * against it step by step; the lemmas in `QueryFacts` say what it means.
 */
module QuerySpec {
  import opened PhpValues
  import opened Criteria

  /** One AND-ed conjunct of the WHERE string. */
  datatype Conjunct =
    | Equality(col: Column)             // {user}.<col> = :<col>
    | CaseInsensitiveLike(col: Column)  // $DB->sql_like('{user}.<col>', ':<col>', false)
    | CustomFieldMatch(ordinal: nat)    // the c-th custom field criterion

  /** id, idnumber and auth are matched exactly; the name and address columns with LIKE. */
  function ColumnConjunct(col: Column): Conjunct
  {
    match col
    case Id => Equality(col)
    case IdNumber => Equality(col)
    case Auth => Equality(col)
    case _ => CaseInsensitiveLike(col)
  }

  /** The stems of the numbered table aliases and placeholders of custom field criteria. */
  const FieldStem: string := "cfield"
  const DataStem: string := "cfdata"

  /** A numbered placeholder such as `cfield3`. */
  function Placeholder(stem: string, c: nat): string
  {
    stem + DecimalString(c)
  }

  /**
   * The SQL text of a conjunct; `like(field, param)` stands for the host's
   * case-insensitive `$DB->sql_like(field, param, false)`.
   */
  function Render(k: Conjunct, like: (string, string) -> string): string
  {
    match k
    case Equality(col) => "{user}." + ColumnName(col) + " = :" + ColumnName(col)
    case CaseInsensitiveLike(col) => like("{user}." + ColumnName(col), ":" + ColumnName(col))
    case CustomFieldMatch(c) =>
      Placeholder(FieldStem, c) + ".shortname = :" + Placeholder(FieldStem, c) + " AND " +
      Placeholder(DataStem, c) + ".data = :" + Placeholder(DataStem, c)
  }

  const And: string := " AND "
  const UserTable: string := "{user}"
  const NotDeleted: string := " deleted = 0"

  /** The conjuncts, each preceded by " AND ". */
  function RenderAll(ks: seq<Conjunct>, like: (string, string) -> string): string
    decreases |ks|
  {
    if ks == [] then "" else RenderAll(ks[..|ks| - 1], like) + And + Render(ks[|ks| - 1], like)
  }

  /** The pair of LEFT JOINs for the c-th custom field criterion. */
  function Join(c: nat): string
  {
    " LEFT JOIN {user_info_data} AS " + Placeholder(DataStem, c) + " ON {user}.id = " +
    Placeholder(DataStem, c) + ".userid LEFT JOIN {user_info_field} AS " + Placeholder(FieldStem, c) +
    " ON " + Placeholder(DataStem, c) + ".fieldid = " + Placeholder(FieldStem, c) + ".id"
  }

  /** The joins for custom field criteria 1..n, in order. */
  function Joins(n: nat): string
  {
    if n == 0 then "" else Joins(n - 1) + Join(n)
  }

  /** An entry of the warnings list; the custom field notices carry no item. */
  datatype Warning = Warning(item: Option<string>, warningcode: string, message: string)

  const InvalidFieldCode: string := "invalidfieldparameter"
  const CustomFieldNameCode: string := "customfieldname"
  const CustomFieldDataCode: string := "customfielddata"
  const InvalidFieldMessageHead: string := "The search key '"
  const InvalidFieldMessageTail: string := "' is not supported, look at the web service documentation"
  const Equals: string := " = "

  function InvalidFieldWarning(key: string): Warning
  {
    Warning(Some(key), InvalidFieldCode, InvalidFieldMessageHead + key + InvalidFieldMessageTail)
  }

  function CustomFieldNameWarning(c: nat, name: string): Warning
  {
    Warning(None, CustomFieldNameCode, Placeholder(FieldStem, c) + Equals + name)
  }

  function CustomFieldDataWarning(c: nat, data: string): Warning
  {
    Warning(None, CustomFieldDataCode, Placeholder(DataStem, c) + Equals + data)
  }

  /** Keys occur at most once. */
  predicate DistinctKeys(cs: seq<Criterion>)
  {
    forall i, j :: 0 <= i < j < |cs| ==> cs[i].key != cs[j].key
  }

  function KeySet(cs: seq<Criterion>): set<string>
  {
    set i | 0 <= i < |cs| :: cs[i].key
  }

  /** The value of a criterion after `clean_param` with the key's cleaning type. */
  function Cleaned(cr: Criterion, shortnames: seq<string>, clean: (string, ParamType) -> string): string
  {
    clean(cr.value, CleaningType(cr.key, shortnames))
  }

  /**
   * What the criteria loop has built so far: the custom field counter, the
   * conjuncts of the WHERE string, the named parameters and the warnings.
   */
  datatype Built = Built(count: nat, conjuncts: seq<Conjunct>, params: map<string, string>, warnings: seq<Warning>)

  /**
   * One turn of the criteria loop. An accepted fixed column key adds its
   * conjunct and binds the placeholder named after the key; a custom field key
   * bumps the counter, adds the match on the numbered joins and binds
   * `cfield<c>` to the short name and `cfdata<c>` to the value, with one notice
   * for each; an unsupported key only raises `invalidfieldparameter`.
   */
  function Step(b: Built, cr: Criterion, shortnames: seq<string>, clean: (string, ParamType) -> string): Built
  {
    match Classify(cr.key, shortnames)
    case Fixed(col) =>
      Built(b.count, b.conjuncts + [ColumnConjunct(col)],
            b.params[cr.key := Cleaned(cr, shortnames, clean)], b.warnings)
    case Custom(name) =>
      var c := b.count + 1;
      var data := Cleaned(cr, shortnames, clean);
      Built(c, b.conjuncts + [CustomFieldMatch(c)],
            b.params[Placeholder(FieldStem, c) := name][Placeholder(DataStem, c) := data],
            b.warnings + [CustomFieldNameWarning(c, name), CustomFieldDataWarning(c, data)])
    case Unsupported =>
      Built(b.count, b.conjuncts, b.params, b.warnings + [InvalidFieldWarning(cr.key)])
  }

  /** The state after the loop has handled every criterion, in order. */
  function Fold(cs: seq<Criterion>, shortnames: seq<string>, clean: (string, ParamType) -> string): Built
    decreases |cs|
  {
    if cs == [] then Built(0, [], map[], [])
    else Step(Fold(cs[..|cs| - 1], shortnames, clean), cs[|cs| - 1], shortnames, clean)
  }

  /** The keys of the unsupported criteria, in order. */
  function UnsupportedKeys(cs: seq<Criterion>, shortnames: seq<string>): seq<string>
    decreases |cs|
  {
    if cs == [] then []
    else
      var init, last := cs[..|cs| - 1], cs[|cs| - 1];
      UnsupportedKeys(init, shortnames) + (if Classify(last.key, shortnames).Unsupported? then [last.key] else [])
  }

  /** `$params['criteria']` once every unsupported entry has been unset: indices are kept. */
  function RemainingOf(cs: seq<Criterion>, shortnames: seq<string>): map<nat, Criterion>
  {
    map i | 0 <= i < |cs| && !Classify(cs[i].key, shortnames).Unsupported? :: cs[i]
  }

  /** The keys of the accepted fixed column criteria. */
  function FixedKeys(cs: seq<Criterion>, shortnames: seq<string>): set<string>
  {
    set i | 0 <= i < |cs| && Classify(cs[i].key, shortnames).Fixed? :: cs[i].key
  }

  /** The placeholders of custom field criteria 1..n. */
  function CustomPlaceholders(n: nat): set<string>
  {
    if n == 0 then {} else CustomPlaceholders(n - 1) + {Placeholder(FieldStem, n), Placeholder(DataStem, n)}
  }

  /** The parts of the SELECT statement, the warnings and the surviving criteria. */
  datatype Query = Query(
    tables: string,
    where: string,
    params: map<string, string>,
    warnings: seq<Warning>,
    remaining: map<nat, Criterion>)

  function QueryOf(cs: seq<Criterion>, shortnames: seq<string>, clean: (string, ParamType) -> string,
                   like: (string, string) -> string): Query
  {
    var b := Fold(cs, shortnames, clean);
    Query(UserTable + Joins(b.count), NotDeleted + RenderAll(b.conjuncts, like),
          b.params, b.warnings, RemainingOf(cs, shortnames))
  }

  /** The statement handed to the database, ordered by user id. */
  function SelectSql(q: Query): string
  {
    "SELECT {user}.* FROM " + q.tables + " WHERE " + q.where + " ORDER BY id ASC"
  }

  /** The items of the warnings that carry one, in order. */
  function Items(ws: seq<Warning>): seq<string>
    decreases |ws|
  {
    if ws == [] then []
    else Items(ws[..|ws| - 1]) + (if ws[|ws| - 1].item.Some? then [ws[|ws| - 1].item.value] else [])
  }
}
