/**
 * `get_users` as the plugin runs it: the criteria loop that builds the SELECT
 * statement, its parameters and the warnings; the call to the database; and the
 * loop over the rows that keeps the users whose searched columns are visible.
 *
 * The host's services are parameters: `clean` is `clean_param`, `like` is
 * `$DB->sql_like(field, param, false)`, `fetch` is `$DB->get_records_sql` and
 * `details` is `user_get_user_details_courses`.
 */
module GetUsers {
  import opened PhpValues
  import opened Criteria
  import opened QuerySpec
  import opened QueryFacts
  import opened ResultFilter

  /** The `keyalreadyset` exception. */
  datatype Failure = KeyAlreadySet(key: string)

  const KeyAlreadySetHead: string := "The key "
  const KeyAlreadySetTail: string := " can only be sent once"

  /** The exception's debug message. */
  function FailureMessage(f: Failure): string
  {
    KeyAlreadySetHead + f.key + KeyAlreadySetTail
  }

  /** The message names the repeated key: different keys give different messages. */
  lemma FailureMessageNamesKey(a: Failure, b: Failure)
    requires FailureMessage(a) == FailureMessage(b)
    ensures a == b
  {
    var s, h := FailureMessage(a), KeyAlreadySetHead;
    assert |a.key| == |b.key|;
    assert s[|h|..|h| + |a.key|] == a.key;
    assert s[|h|..|h| + |b.key|] == b.key;
  }

  /** What `get_users` returns. */
  datatype Response = Response(users: seq<Details>, warnings: seq<Warning>)

  /** The indices of the unsupported criteria among the first n. */
  function Dropped(cs: seq<Criterion>, n: nat, shortnames: seq<string>): set<nat>
    requires n <= |cs|
    decreases n
  {
    if n == 0 then {}
    else Dropped(cs, n - 1, shortnames) + (if Classify(cs[n - 1].key, shortnames).Unsupported? then {n - 1} else {})
  }

  lemma {:induction false} DroppedMeaning(cs: seq<Criterion>, n: nat, shortnames: seq<string>)
    requires n <= |cs|
    ensures forall j: nat :: j in Dropped(cs, n, shortnames) <==> j < n && Classify(cs[j].key, shortnames).Unsupported?
    decreases n
  {
    if n > 0 {
      DroppedMeaning(cs, n - 1, shortnames);
    }
  }

  lemma DroppedNext(cs: seq<Criterion>, i: nat, shortnames: seq<string>)
    requires i < |cs|
    ensures Dropped(cs, i + 1, shortnames) ==
              if Classify(cs[i].key, shortnames).Unsupported? then Dropped(cs, i, shortnames) + {i}
              else Dropped(cs, i, shortnames)
  {
  }

  /** `$params['criteria']` once the entries at the dropped indices are unset. */
  function Pending(cs: seq<Criterion>, dropped: set<nat>): map<nat, Criterion>
  {
    map j | 0 <= j < |cs| && j !in dropped :: cs[j]
  }

  lemma PendingUnset(cs: seq<Criterion>, dropped: set<nat>, i: nat)
    ensures Pending(cs, dropped + {i}) == Pending(cs, dropped) - {i}
  {
  }

  lemma PendingDone(cs: seq<Criterion>, shortnames: seq<string>)
    ensures Pending(cs, Dropped(cs, |cs|, shortnames)) == RemainingOf(cs, shortnames)
  {
    DroppedMeaning(cs, |cs|, shortnames);
  }

  /** The i-th key repeats an earlier one, and no key repeated before it. */
  predicate FirstRepeatAt(cs: seq<Criterion>, i: nat)
  {
    i < |cs| && DistinctKeys(cs[..i]) && cs[i].key in KeySet(cs[..i])
  }

  lemma RepeatBreaksDistinct(cs: seq<Criterion>, i: nat)
    requires i < |cs| && cs[i].key in KeySet(cs[..i])
    ensures !DistinctKeys(cs)
  {
    var j :| 0 <= j < i && cs[..i][j].key == cs[i].key;
    assert cs[j].key == cs[i].key;
  }

  lemma DistinctKeysExtend(cs: seq<Criterion>, i: nat)
    requires i < |cs| && DistinctKeys(cs[..i]) && cs[i].key !in KeySet(cs[..i])
    ensures DistinctKeys(cs[..i + 1]) && KeySet(cs[..i + 1]) == KeySet(cs[..i]) + {cs[i].key}
  {
    var p, q := cs[..i], cs[..i + 1];
    assert forall j :: 0 <= j < i ==> q[j] == p[j] && p[j].key in KeySet(p);
    assert q[i] == cs[i];
  }

  /**
   * The variables the criteria loop updates: the custom field counter, the
   * table list, the WHERE string, the named parameters and the warnings.
   */
  datatype Draft = Draft(count: nat, tables: string, where: string, params: map<string, string>, warnings: seq<Warning>)

  /** The strings of a draft are rendered from its counter and the conjuncts so far. */
  ghost predicate Renders(d: Draft, conjuncts: seq<Conjunct>, like: (string, string) -> string)
  {
    d.tables == UserTable + Joins(d.count) && d.where == NotDeleted + RenderAll(conjuncts, like)
  }

  /** What a draft holds, in the terms of the fold. */
  function Content(d: Draft, conjuncts: seq<Conjunct>): Built
  {
    Built(d.count, conjuncts, d.params, d.warnings)
  }

  /**
   * The switch on the key: one turn of the loop, as `Step` describes it,
   * extending the table list and the WHERE string accordingly.
   */
  method AddCriterion(d: Draft, ghost conjuncts: seq<Conjunct>, cr: Criterion, shortnames: seq<string>,
                      clean: (string, ParamType) -> string, like: (string, string) -> string)
    returns (e: Draft, ghost conjuncts': seq<Conjunct>)
    requires Renders(d, conjuncts, like)
    ensures Renders(e, conjuncts', like)
    ensures Content(e, conjuncts') == Step(Content(d, conjuncts), cr, shortnames, clean)
  {
    match Classify(cr.key, shortnames) {
      case Fixed(col) =>
        var cleaned := clean(cr.value, CleaningType(cr.key, shortnames));
        var k := ColumnConjunct(col);
        AppendAssociates(NotDeleted, RenderAll(conjuncts, like), And + Render(k, like));
        RenderAllAppend(conjuncts, [k], like);
        FixedTurn(Content(d, conjuncts), cr, col, shortnames, clean);
        e := d.(where := d.where + (And + Render(k, like)), params := d.params[cr.key := cleaned]);
        conjuncts' := conjuncts + [k];
      case Custom(name) =>
        var cleaned := clean(cr.value, CleaningType(cr.key, shortnames));
        var c := d.count + 1;
        var k := CustomFieldMatch(c);
        AppendAssociates(UserTable, Joins(d.count), Join(c));
        AppendAssociates(NotDeleted, RenderAll(conjuncts, like), And + Render(k, like));
        RenderAllAppend(conjuncts, [k], like);
        CustomTurn(Content(d, conjuncts), cr, name, shortnames, clean);
        e := Draft(c, d.tables + Join(c), d.where + (And + Render(k, like)),
                   d.params[Placeholder(FieldStem, c) := name][Placeholder(DataStem, c) := cleaned],
                   d.warnings + [CustomFieldNameWarning(c, name), CustomFieldDataWarning(c, cleaned)]);
        conjuncts' := conjuncts + [k];
      case Unsupported =>
        UnsupportedTurn(Content(d, conjuncts), cr, shortnames, clean);
        e := d.(warnings := d.warnings + [InvalidFieldWarning(cr.key)]);
        conjuncts' := conjuncts;
    }
  }

  /**
   * The criteria loop. It fails with `keyalreadyset` at the first key that
   * repeats an earlier one, so exactly when the keys are not distinct;
   * otherwise it builds the query `QueryOf` describes.
   */
  method BuildQuery(criteria: seq<Criterion>, shortnames: seq<string>, clean: (string, ParamType) -> string,
                    like: (string, string) -> string) returns (r: Result<Query, Failure>)
    ensures r.Err? <==> !DistinctKeys(criteria)
    ensures r.Err? ==> exists i: nat :: FirstRepeatAt(criteria, i) && r.error.key == criteria[i].key
    ensures r.Ok? ==> r.value == QueryOf(criteria, shortnames, clean, like)
  {
    var d := Draft(0, UserTable, NotDeleted, map[], []);
    var usedkeys: set<string> := {};
    var remaining := map j | 0 <= j < |criteria| :: criteria[j];
    ghost var conjuncts: seq<Conjunct> := [];
    var i := 0;
    while i < |criteria|
      invariant 0 <= i <= |criteria|
      invariant DistinctKeys(criteria[..i]) && usedkeys == KeySet(criteria[..i])
      invariant Content(d, conjuncts) == Fold(criteria[..i], shortnames, clean)
      invariant Renders(d, conjuncts, like)
      invariant remaining == Pending(criteria, Dropped(criteria, i, shortnames))
      decreases |criteria| - i
    {
      var cr := criteria[i];
      if cr.key in usedkeys {
        RepeatBreaksDistinct(criteria, i);
        assert FirstRepeatAt(criteria, i);
        return Err(KeyAlreadySet(cr.key));
      }
      DistinctKeysExtend(criteria, i);
      usedkeys := usedkeys + {cr.key};
      FoldNext(criteria, i, shortnames, clean);
      DroppedNext(criteria, i, shortnames);
      if Classify(cr.key, shortnames).Unsupported? {
        PendingUnset(criteria, Dropped(criteria, i, shortnames), i);
        remaining := remaining - {i};
      }
      d, conjuncts := AddCriterion(d, conjuncts, cr, shortnames, clean, like);
      i := i + 1;
    }
    assert criteria[..i] == criteria;
    PendingDone(criteria, shortnames);
    return Ok(Query(d.tables, d.where, d.params, d.warnings, remaining));
  }

  /** The inner loop: is every remaining criterion without the custom field prefix filled in? */
  method SearchedFieldsVisible(d: Details, remaining: map<nat, Criterion>) returns (valid: bool)
    ensures valid <==>
              forall j :: j in remaining && !HasCustomFieldPrefix(remaining[j].key) ==> !EmptyEntry(d, remaining[j].key)
  {
    valid := true;
    var todo := remaining.Keys;
    while todo != {}
      invariant todo <= remaining.Keys
      invariant valid <==>
                  forall j :: j in remaining && j !in todo && !HasCustomFieldPrefix(remaining[j].key) ==>
                    !EmptyEntry(d, remaining[j].key)
      decreases todo
    {
      var j :| j in todo;
      if !HasCustomFieldPrefix(remaining[j].key) && EmptyEntry(d, remaining[j].key) {
        valid := false;
      }
      todo := todo - {j};
    }
  }

  /** The loop over the rows: the details of the visible users, in row order. */
  method KeepVisibleUsers(rows: seq<UserRecord>, remaining: map<nat, Criterion>, details: UserRecord -> Details)
    returns (users: seq<Details>)
    ensures users == ReturnedUsers(rows, remaining, details)
  {
    users := [];
    var i := 0;
    while i < |rows|
      invariant 0 <= i <= |rows|
      invariant users == ReturnedUsers(rows[..i], remaining, details)
    {
      var d := details(rows[i]);
      if d != map[] {
        var valid := SearchedFieldsVisible(d, remaining);
        if valid {
          users := users + [d];
        }
      }
      assert rows[..i + 1][..i] == rows[..i];
      i := i + 1;
    }
    assert rows[..i] == rows;
  }

  /**
   * The whole operation: `keyalreadyset` exactly when a key repeats; otherwise
   * the visible users among the rows the statement selects, and the warnings.
   */
  method GetUsers(criteria: seq<Criterion>, shortnames: seq<string>, clean: (string, ParamType) -> string,
                  like: (string, string) -> string, fetch: (string, map<string, string>) -> seq<UserRecord>,
                  details: UserRecord -> Details) returns (r: Result<Response, Failure>)
    ensures r.Err? <==> !DistinctKeys(criteria)
    ensures r.Err? ==> exists i: nat :: FirstRepeatAt(criteria, i) && r.error.key == criteria[i].key
    ensures r.Ok? ==>
              var q := QueryOf(criteria, shortnames, clean, like);
              r.value == Response(ReturnedUsers(fetch(SelectSql(q), q.params), q.remaining, details), q.warnings)
  {
    var built := BuildQuery(criteria, shortnames, clean, like);
    if built.Err? {
      return Err(built.error);
    }
    var q := built.value;
    var sql := "SELECT {user}.* FROM " + q.tables + " WHERE " + q.where + " ORDER BY id ASC";
    var rows := fetch(sql, q.params);
    var users := KeepVisibleUsers(rows, q.remaining, details);
    return Ok(Response(users, q.warnings));
  }
}
