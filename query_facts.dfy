/**
 * What the query built from a list of criteria means: the counts of conjuncts
 * and warnings, which warnings name a key, and the placeholder parameters,
 * which never collide.
 */
module QueryFacts {
  import opened PhpValues
  import opened Criteria
  import opened QuerySpec

  // ---------------------------------------------------------------------------
  // One more criterion.
  // ---------------------------------------------------------------------------

  lemma PrefixOfAppend(cs: seq<Criterion>, cr: Criterion)
    ensures (cs + [cr])[..|cs|] == cs && (cs + [cr])[|cs|] == cr
  {
  }

  /** Handling one more criterion is one more turn of the loop. */
  lemma FoldAppend(cs: seq<Criterion>, cr: Criterion, shortnames: seq<string>, clean: (string, ParamType) -> string)
    ensures Fold(cs + [cr], shortnames, clean) == Step(Fold(cs, shortnames, clean), cr, shortnames, clean)
  {
    PrefixOfAppend(cs, cr);
  }

  /** The loop at index i handles `cs[i]` after the criteria before it. */
  lemma FoldNext(cs: seq<Criterion>, i: nat, shortnames: seq<string>, clean: (string, ParamType) -> string)
    requires i < |cs|
    ensures Fold(cs[..i + 1], shortnames, clean) == Step(Fold(cs[..i], shortnames, clean), cs[i], shortnames, clean)
  {
    assert cs[..i + 1] == cs[..i] + [cs[i]];
    FoldAppend(cs[..i], cs[i], shortnames, clean);
  }

  // The three shapes of a turn, one lemma each, so that a caller handling one
  // kind of key need not unfold the others.

  lemma FixedTurn(b: Built, cr: Criterion, col: Column, shortnames: seq<string>, clean: (string, ParamType) -> string)
    requires Classify(cr.key, shortnames) == Fixed(col)
    ensures Step(b, cr, shortnames, clean) ==
              Built(b.count, b.conjuncts + [ColumnConjunct(col)],
                    b.params[cr.key := clean(cr.value, CleaningType(cr.key, shortnames))], b.warnings)
  {
  }

  lemma CustomTurn(b: Built, cr: Criterion, name: string, shortnames: seq<string>, clean: (string, ParamType) -> string)
    requires Classify(cr.key, shortnames) == Custom(name)
    ensures var c := b.count + 1;
            var data := clean(cr.value, CleaningType(cr.key, shortnames));
            Step(b, cr, shortnames, clean) ==
              Built(c, b.conjuncts + [CustomFieldMatch(c)],
                    b.params[Placeholder(FieldStem, c) := name][Placeholder(DataStem, c) := data],
                    b.warnings + [CustomFieldNameWarning(c, name), CustomFieldDataWarning(c, data)])
  {
  }

  lemma UnsupportedTurn(b: Built, cr: Criterion, shortnames: seq<string>, clean: (string, ParamType) -> string)
    requires Classify(cr.key, shortnames) == Unsupported
    ensures Step(b, cr, shortnames, clean) ==
              Built(b.count, b.conjuncts, b.params, b.warnings + [InvalidFieldWarning(cr.key)])
  {
  }

  lemma RenderAllAppend(ks: seq<Conjunct>, extra: seq<Conjunct>, like: (string, string) -> string)
    requires |extra| <= 1
    ensures RenderAll(ks + extra, like) ==
              RenderAll(ks, like) + (if extra == [] then "" else And + Render(extra[0], like))
  {
    if extra == [] {
      assert ks + extra == ks;
    } else {
      assert (ks + extra)[..|ks|] == ks;
    }
  }

  /** Unsupported criteria are unset; the accepted ones keep their index. */
  lemma RemainingAppend(cs: seq<Criterion>, cr: Criterion, shortnames: seq<string>)
    ensures RemainingOf(cs + [cr], shortnames) ==
              if Classify(cr.key, shortnames).Unsupported? then RemainingOf(cs, shortnames)
              else RemainingOf(cs, shortnames)[|cs| := cr]
  {
    var cs' := cs + [cr];
    assert forall i :: 0 <= i < |cs| ==> cs'[i] == cs[i];
  }

  /**
   * An unsupported criterion only adds its `invalidfieldparameter` warning: the
   * tables, the WHERE string and the parameters stay as they were, and it is
   * not among the criteria left for the result filter.
   */
  lemma UnsupportedCriterionOnlyWarns(cs: seq<Criterion>, cr: Criterion, shortnames: seq<string>,
                                      clean: (string, ParamType) -> string, like: (string, string) -> string)
    requires Classify(cr.key, shortnames).Unsupported?
    ensures var q, q' := QueryOf(cs, shortnames, clean, like), QueryOf(cs + [cr], shortnames, clean, like);
            q'.tables == q.tables && q'.where == q.where && q'.params == q.params &&
            q'.warnings == q.warnings + [InvalidFieldWarning(cr.key)] &&
            q'.remaining == q.remaining
  {
    FoldAppend(cs, cr, shortnames, clean);
    UnsupportedTurn(Fold(cs, shortnames, clean), cr, shortnames, clean);
    RemainingAppend(cs, cr, shortnames);
  }

  /**
   * An accepted fixed column criterion appends its conjunct to the WHERE string
   * and binds its key to its cleaned value; it adds no table and no warning.
   */
  lemma FixedCriterionAppends(cs: seq<Criterion>, cr: Criterion, col: Column, shortnames: seq<string>,
                              clean: (string, ParamType) -> string, like: (string, string) -> string)
    requires Classify(cr.key, shortnames) == Fixed(col)
    ensures var q, q' := QueryOf(cs, shortnames, clean, like), QueryOf(cs + [cr], shortnames, clean, like);
            q'.tables == q.tables &&
            q'.where == q.where + (And + Render(ColumnConjunct(col), like)) &&
            q'.params == q.params[cr.key := clean(cr.value, CleaningType(cr.key, shortnames))] &&
            q'.warnings == q.warnings &&
            q'.remaining == q.remaining[|cs| := cr]
  {
    var b := Fold(cs, shortnames, clean);
    FoldAppend(cs, cr, shortnames, clean);
    FixedTurn(b, cr, col, shortnames, clean);
    RenderAllAppend(b.conjuncts, [ColumnConjunct(col)], like);
    AppendAssociates(NotDeleted, RenderAll(b.conjuncts, like), And + Render(ColumnConjunct(col), like));
    RemainingAppend(cs, cr, shortnames);
  }

  /**
   * The c-th accepted custom field criterion appends the c-th join pair to the
   * tables and its match to the WHERE string, binds `cfield<c>` to its short
   * name and `cfdata<c>` to its value cleaned as text, adds the two notices, and
   * stays among the criteria left for the result filter.
   */
  lemma CustomCriterionAppends(cs: seq<Criterion>, cr: Criterion, name: string, shortnames: seq<string>,
                               clean: (string, ParamType) -> string, like: (string, string) -> string)
    requires Classify(cr.key, shortnames) == Custom(name)
    ensures var c := Fold(cs, shortnames, clean).count + 1;
            QueryOf(cs + [cr], shortnames, clean, like).tables == QueryOf(cs, shortnames, clean, like).tables + Join(c)
    ensures var c := Fold(cs, shortnames, clean).count + 1;
            QueryOf(cs + [cr], shortnames, clean, like).where ==
              QueryOf(cs, shortnames, clean, like).where + (And + Render(CustomFieldMatch(c), like))
    ensures var c, data := Fold(cs, shortnames, clean).count + 1, clean(cr.value, ParamText);
            var q, q' := QueryOf(cs, shortnames, clean, like), QueryOf(cs + [cr], shortnames, clean, like);
            q'.params == q.params[Placeholder(FieldStem, c) := name][Placeholder(DataStem, c) := data] &&
            q'.warnings == q.warnings + [CustomFieldNameWarning(c, name), CustomFieldDataWarning(c, data)]
    ensures QueryOf(cs + [cr], shortnames, clean, like).remaining ==
              QueryOf(cs, shortnames, clean, like).remaining[|cs| := cr]
  {
    RemainingAppend(cs, cr, shortnames);
    CustomNotices(cs, cr, name, shortnames, clean);
    CustomFold(cs, cr, name, shortnames, clean);
    CustomStrings(Fold(cs, shortnames, clean), Fold(cs + [cr], shortnames, clean), like);
  }

  /** The fold after a custom field criterion: two more parameters, two more notices. */
  lemma CustomNotices(cs: seq<Criterion>, cr: Criterion, name: string, shortnames: seq<string>,
                      clean: (string, ParamType) -> string)
    requires Classify(cr.key, shortnames) == Custom(name)
    ensures var b, b' := Fold(cs, shortnames, clean), Fold(cs + [cr], shortnames, clean);
            var c, data := b.count + 1, clean(cr.value, ParamText);
            b'.params == b.params[Placeholder(FieldStem, c) := name][Placeholder(DataStem, c) := data] &&
            b'.warnings == b.warnings + [CustomFieldNameWarning(c, name), CustomFieldDataWarning(c, data)]
  {
    FoldAppend(cs, cr, shortnames, clean);
    CustomTurn(Fold(cs, shortnames, clean), cr, name, shortnames, clean);
  }

  /** The fold after a custom field criterion: one more join, one more conjunct. */
  lemma CustomFold(cs: seq<Criterion>, cr: Criterion, name: string, shortnames: seq<string>,
                   clean: (string, ParamType) -> string)
    requires Classify(cr.key, shortnames) == Custom(name)
    ensures var b, b' := Fold(cs, shortnames, clean), Fold(cs + [cr], shortnames, clean);
            b'.count == b.count + 1 && b'.conjuncts == b.conjuncts + [CustomFieldMatch(b'.count)]
  {
    FoldAppend(cs, cr, shortnames, clean);
    CustomTurn(Fold(cs, shortnames, clean), cr, name, shortnames, clean);
  }

  lemma CustomStrings(b: Built, b': Built, like: (string, string) -> string)
    requires b'.count == b.count + 1 && b'.conjuncts == b.conjuncts + [CustomFieldMatch(b'.count)]
    ensures UserTable + Joins(b'.count) == (UserTable + Joins(b.count)) + Join(b'.count)
    ensures NotDeleted + RenderAll(b'.conjuncts, like) ==
              (NotDeleted + RenderAll(b.conjuncts, like)) + (And + Render(CustomFieldMatch(b'.count), like))
  {
    AppendAssociates(UserTable, Joins(b.count), Join(b'.count));
    RenderAllAppend(b.conjuncts, [CustomFieldMatch(b'.count)], like);
    AppendAssociates(NotDeleted, RenderAll(b.conjuncts, like), And + Render(CustomFieldMatch(b'.count), like));
  }

  /** Exact match for id, idnumber and auth; case-insensitive LIKE for the other columns. */
  lemma ColumnConjunctKind(col: Column)
    ensures ColumnConjunct(col).Equality? <==> ColumnName(col) in {"id", "idnumber", "auth"}
    ensures ColumnConjunct(col).CaseInsensitiveLike? <==>
              ColumnName(col) in {"username", "email", "lastname", "firstname"}
  {
  }

  // ---------------------------------------------------------------------------
  // Conjuncts and warnings of the whole query.
  // ---------------------------------------------------------------------------

  /** Every criterion yields either one conjunct or one unsupported key. */
  lemma {:induction false} ConjunctCount(cs: seq<Criterion>, shortnames: seq<string>, clean: (string, ParamType) -> string)
    ensures |Fold(cs, shortnames, clean).conjuncts| + |UnsupportedKeys(cs, shortnames)| == |cs|
    decreases |cs|
  {
    if cs != [] {
      ConjunctCount(cs[..|cs| - 1], shortnames, clean);
    }
  }

  /** The indices of the accepted custom field criteria. */
  function CustomIndices(cs: seq<Criterion>, shortnames: seq<string>): set<nat>
  {
    set i | 0 <= i < |cs| && Classify(cs[i].key, shortnames).Custom?
  }

  lemma CustomIndicesOfPrefix(cs: seq<Criterion>, shortnames: seq<string>)
    requires cs != []
    ensures var n := |cs| - 1;
            CustomIndices(cs, shortnames) ==
              CustomIndices(cs[..n], shortnames) + if Classify(cs[n].key, shortnames).Custom? then {n} else {}
  {
    var init := cs[..|cs| - 1];
    assert forall i :: 0 <= i < |init| ==> init[i] == cs[i];
  }

  lemma CustomIndicesBelow(cs: seq<Criterion>, shortnames: seq<string>)
    ensures forall i :: i in CustomIndices(cs, shortnames) ==> i < |cs|
  {
  }

  /** The counter ends at the number of accepted custom field criteria. */
  lemma {:induction false} CountIsCustomCriteria(cs: seq<Criterion>, shortnames: seq<string>,
                                                 clean: (string, ParamType) -> string)
    ensures Fold(cs, shortnames, clean).count == |CustomIndices(cs, shortnames)|
    decreases |cs|
  {
    if cs != [] {
      var n := |cs| - 1;
      CountIsCustomCriteria(cs[..n], shortnames, clean);
      CustomIndicesOfPrefix(cs, shortnames);
      CustomIndicesBelow(cs[..n], shortnames);
    }
  }

  lemma {:induction false} ItemsAppend(ws: seq<Warning>, extra: seq<Warning>)
    ensures Items(ws + extra) == Items(ws) + Items(extra)
    decreases |extra|
  {
    if extra == [] {
      assert ws + extra == ws;
    } else {
      var e := extra[..|extra| - 1];
      assert (ws + extra)[..|ws + extra| - 1] == ws + e;
      assert (ws + extra)[|ws + extra| - 1] == extra[|extra| - 1];
      ItemsAppend(ws, e);
    }
  }

  /** One turn adds the key to the items exactly when the key is unsupported. */
  lemma StepItems(b: Built, cr: Criterion, shortnames: seq<string>, clean: (string, ParamType) -> string)
    ensures Items(Step(b, cr, shortnames, clean).warnings) ==
              Items(b.warnings) + if Classify(cr.key, shortnames).Unsupported? then [cr.key] else []
  {
    var w' := Step(b, cr, shortnames, clean).warnings;
    var extra := w'[|b.warnings|..];
    assert w' == b.warnings + extra;
    ItemsAppend(b.warnings, extra);
    if |extra| == 2 {
      var a := extra[..1];
      assert a[..0] == [];
      assert Items(a) == [];
    } else if |extra| == 1 {
      assert extra[..0] == [];
    }
  }

  /** The warnings that name a key name exactly the unsupported keys, in criteria order. */
  lemma {:induction false} WarningsNameUnsupportedKeys(cs: seq<Criterion>, shortnames: seq<string>,
                                                       clean: (string, ParamType) -> string)
    ensures Items(Fold(cs, shortnames, clean).warnings) == UnsupportedKeys(cs, shortnames)
    decreases |cs|
  {
    if cs != [] {
      var init := cs[..|cs| - 1];
      WarningsNameUnsupportedKeys(init, shortnames, clean);
      StepItems(Fold(init, shortnames, clean), cs[|cs| - 1], shortnames, clean);
    }
  }

  /**
   * One warning per unsupported key and two per custom field criterion; a
   * warning carries an item exactly when its code is `invalidfieldparameter`.
   */
  lemma {:induction false} WarningCount(cs: seq<Criterion>, shortnames: seq<string>,
                                        clean: (string, ParamType) -> string)
    ensures |Fold(cs, shortnames, clean).warnings| ==
              |UnsupportedKeys(cs, shortnames)| + 2 * Fold(cs, shortnames, clean).count
    ensures forall w :: w in Fold(cs, shortnames, clean).warnings ==>
              (w.item.Some? <==> w.warningcode == InvalidFieldCode)
    decreases |cs|
  {
    if cs != [] {
      WarningCount(cs[..|cs| - 1], shortnames, clean);
    }
  }

  // ---------------------------------------------------------------------------
  // Placeholder parameters never collide.
  // ---------------------------------------------------------------------------

  lemma PlaceholderInjective(stem: string, a: nat, b: nat)
    requires Placeholder(stem, a) == Placeholder(stem, b)
    ensures a == b
  {
    assert Placeholder(stem, a)[|stem|..] == DecimalString(a);
    assert Placeholder(stem, b)[|stem|..] == DecimalString(b);
    DecimalStringInjective(a, b);
  }

  /** `cfield<a>` and `cfdata<b>` differ in their third character; both start with 'c'. */
  lemma PlaceholderStemsDiffer(a: nat, b: nat)
    ensures Placeholder(FieldStem, a) != Placeholder(DataStem, b)
    ensures Placeholder(FieldStem, a)[0] == 'c' && Placeholder(DataStem, a)[0] == 'c'
  {
    assert Placeholder(FieldStem, a)[2] == 'i' && Placeholder(DataStem, b)[2] == 'd';
  }

  /** Placeholders of custom field criteria all start with 'c', and the next ones are fresh. */
  lemma {:induction false} CustomPlaceholdersShape(n: nat, c: nat)
    requires n < c
    ensures Placeholder(FieldStem, c) !in CustomPlaceholders(n)
    ensures Placeholder(DataStem, c) !in CustomPlaceholders(n)
    ensures forall p :: p in CustomPlaceholders(n) ==> |p| > 0 && p[0] == 'c'
  {
    if n > 0 {
      CustomPlaceholdersShape(n - 1, c);
      PlaceholderStemsDiffer(c, n);
      PlaceholderStemsDiffer(n, c);
      if Placeholder(FieldStem, c) == Placeholder(FieldStem, n) {
        PlaceholderInjective(FieldStem, c, n);
      }
      if Placeholder(DataStem, c) == Placeholder(DataStem, n) {
        PlaceholderInjective(DataStem, c, n);
      }
    }
  }

  lemma FixedKeysOfPrefix(cs: seq<Criterion>, shortnames: seq<string>)
    requires cs != []
    ensures FixedKeys(cs, shortnames) ==
              FixedKeys(cs[..|cs| - 1], shortnames) +
              (if Classify(cs[|cs| - 1].key, shortnames).Fixed? then {cs[|cs| - 1].key} else {})
  {
    var init := cs[..|cs| - 1];
    assert forall i :: 0 <= i < |init| ==> init[i] == cs[i];
  }

  lemma FixedKeysAreColumns(cs: seq<Criterion>, shortnames: seq<string>)
    ensures forall k :: k in FixedKeys(cs, shortnames) ==> |k| > 0 && k[0] != 'c'
  {
  }

  /** One turn adds the key of a fixed criterion, or the next two placeholders. */
  lemma ParamKeysStep(b: Built, cr: Criterion, fixed: set<string>, shortnames: seq<string>,
                      clean: (string, ParamType) -> string)
    requires b.params.Keys == fixed + CustomPlaceholders(b.count)
    ensures var b' := Step(b, cr, shortnames, clean);
            b'.params.Keys ==
              fixed + (if Classify(cr.key, shortnames).Fixed? then {cr.key} else {}) + CustomPlaceholders(b'.count)
  {
  }

  /** The parameters bound are the accepted fixed column keys and the custom field placeholders. */
  lemma {:induction false} ParamKeys(cs: seq<Criterion>, shortnames: seq<string>, clean: (string, ParamType) -> string)
    ensures Fold(cs, shortnames, clean).params.Keys ==
              FixedKeys(cs, shortnames) + CustomPlaceholders(Fold(cs, shortnames, clean).count)
    decreases |cs|
  {
    if cs != [] {
      var init := cs[..|cs| - 1];
      ParamKeys(init, shortnames, clean);
      FixedKeysOfPrefix(cs, shortnames);
      ParamKeysStep(Fold(init, shortnames, clean), cs[|cs| - 1], FixedKeys(init, shortnames), shortnames, clean);
    }
  }

  /** The names a criterion binds when it is handled with counter value `c`. */
  function BoundNames(cr: Criterion, c: nat, shortnames: seq<string>): set<string>
  {
    match Classify(cr.key, shortnames)
    case Fixed(_) => {cr.key}
    case Custom(_) => {Placeholder(FieldStem, c), Placeholder(DataStem, c)}
    case Unsupported => {}
  }

  /** `p` holds what the criterion binds: its cleaned value, and the short name for a custom field. */
  ghost predicate Binds(p: map<string, string>, cr: Criterion, c: nat, shortnames: seq<string>,
                        clean: (string, ParamType) -> string)
  {
    match Classify(cr.key, shortnames)
    case Fixed(_) => cr.key in p && p[cr.key] == Cleaned(cr, shortnames, clean)
    case Custom(name) =>
      Placeholder(FieldStem, c) in p && p[Placeholder(FieldStem, c)] == name &&
      Placeholder(DataStem, c) in p && p[Placeholder(DataStem, c)] == Cleaned(cr, shortnames, clean)
    case Unsupported => true
  }

  /** A turn binds what its criterion binds. */
  lemma StepBinds(b: Built, cr: Criterion, shortnames: seq<string>, clean: (string, ParamType) -> string)
    ensures Binds(Step(b, cr, shortnames, clean).params, cr, b.count + 1, shortnames, clean)
  {
    PlaceholderStemsDiffer(b.count + 1, b.count + 1);
  }

  /** `q` keeps every entry of `p`. */
  ghost predicate Extends(p: map<string, string>, q: map<string, string>)
  {
    forall k :: k in p ==> k in q && q[k] == p[k]
  }

  /** A turn whose names are not yet bound only adds entries. */
  lemma StepExtends(b: Built, cr: Criterion, shortnames: seq<string>, clean: (string, ParamType) -> string)
    requires BoundNames(cr, b.count + 1, shortnames) !! b.params.Keys
    ensures Extends(b.params, Step(b, cr, shortnames, clean).params)
  {
  }

  /** Every criterion of `cs` finds its binding in `p`, with the counter value it was handled with. */
  ghost predicate AllBound(p: map<string, string>, cs: seq<Criterion>, shortnames: seq<string>,
                           clean: (string, ParamType) -> string)
    decreases |cs|
  {
    cs == [] ||
    (var init := cs[..|cs| - 1];
     AllBound(p, init, shortnames, clean) &&
     Binds(p, cs[|cs| - 1], Fold(init, shortnames, clean).count + 1, shortnames, clean))
  }

  lemma {:induction false} AllBoundExtends(p: map<string, string>, q: map<string, string>, cs: seq<Criterion>,
                                           shortnames: seq<string>, clean: (string, ParamType) -> string)
    requires AllBound(p, cs, shortnames, clean) && Extends(p, q)
    ensures AllBound(q, cs, shortnames, clean)
    decreases |cs|
  {
    if cs != [] {
      AllBoundExtends(p, q, cs[..|cs| - 1], shortnames, clean);
    }
  }

  /**
   * When the parameters bound so far are some fixed column keys and the
   * placeholders of the custom fields so far, a criterion whose key is not among
   * those keys binds only names that are not yet bound.
   */
  lemma NextNamesAreFresh(b: Built, cr: Criterion, fixed: set<string>, shortnames: seq<string>)
    requires b.params.Keys == fixed + CustomPlaceholders(b.count)
    requires forall k :: k in fixed ==> |k| > 0 && k[0] != 'c'
    requires cr.key !in fixed
    ensures BoundNames(cr, b.count + 1, shortnames) !! b.params.Keys
  {
    CustomPlaceholdersShape(b.count, b.count + 1);
    match Classify(cr.key, shortnames)
    case Fixed(col) =>
      FixedKeyInitial(cr.key, shortnames);
    case Custom(_) =>
      PlaceholderStemsDiffer(b.count + 1, b.count + 1);
    case Unsupported =>
  }

  /**
   * With distinct keys, the parameter map only grows: each turn adds entries
   * under names that are not yet bound.
   */
  lemma ParamsOnlyGrow(cs: seq<Criterion>, cr: Criterion, shortnames: seq<string>, clean: (string, ParamType) -> string)
    requires cr.key !in KeySet(cs)
    ensures Extends(Fold(cs, shortnames, clean).params, Step(Fold(cs, shortnames, clean), cr, shortnames, clean).params)
  {
    var b := Fold(cs, shortnames, clean);
    ParamKeys(cs, shortnames, clean);
    FixedKeysAreColumns(cs, shortnames);
    NextNamesAreFresh(b, cr, FixedKeys(cs, shortnames), shortnames);
    StepExtends(b, cr, shortnames, clean);
  }

  /**
   * Placeholder names never collide: with distinct keys, what every criterion
   * binds (its key for a fixed column, `cfield<c>` and `cfdata<c>` for the c-th
   * custom field) is found unchanged in the final parameters.
   */
  lemma {:induction false} ParamsAreExact(cs: seq<Criterion>, shortnames: seq<string>,
                                          clean: (string, ParamType) -> string)
    requires DistinctKeys(cs)
    ensures AllBound(Fold(cs, shortnames, clean).params, cs, shortnames, clean)
    decreases |cs|
  {
    if cs != [] {
      var n := |cs| - 1;
      var init := cs[..n];
      var b := Fold(init, shortnames, clean);
      assert DistinctKeys(init);
      ParamsAreExact(init, shortnames, clean);
      assert cs[n].key !in KeySet(init);
      ParamsOnlyGrow(init, cs[n], shortnames, clean);
      AllBoundExtends(b.params, Step(b, cs[n], shortnames, clean).params, init, shortnames, clean);
      StepBinds(b, cs[n], shortnames, clean);
    }
  }

  /** The i-th criterion's binding, read off `AllBound`. */
  lemma {:induction false} AllBoundAt(p: map<string, string>, cs: seq<Criterion>, i: nat,
                                      shortnames: seq<string>, clean: (string, ParamType) -> string)
    requires AllBound(p, cs, shortnames, clean) && i < |cs|
    ensures Binds(p, cs[i], Fold(cs[..i], shortnames, clean).count + 1, shortnames, clean)
    decreases |cs|
  {
    var n := |cs| - 1;
    if i < n {
      var init := cs[..n];
      AllBoundAt(p, init, i, shortnames, clean);
      assert init[i] == cs[i] && init[..i] == cs[..i];
    }
  }

  /** With distinct keys, an accepted fixed column criterion binds its key to its cleaned value. */
  lemma FixedCriterionBinding(cs: seq<Criterion>, i: nat, shortnames: seq<string>, clean: (string, ParamType) -> string)
    requires DistinctKeys(cs) && i < |cs| && Classify(cs[i].key, shortnames).Fixed?
    ensures var p := Fold(cs, shortnames, clean).params;
            cs[i].key in p && p[cs[i].key] == clean(cs[i].value, CleaningType(cs[i].key, shortnames))
  {
    ParamsAreExact(cs, shortnames, clean);
    AllBoundAt(Fold(cs, shortnames, clean).params, cs, i, shortnames, clean);
  }

  /**
   * With distinct keys, the criterion that is the c-th accepted custom field
   * criterion binds `cfield<c>` to its key without the prefix and `cfdata<c>` to
   * its value cleaned as text.
   */
  lemma CustomCriterionBinding(cs: seq<Criterion>, i: nat, shortnames: seq<string>, clean: (string, ParamType) -> string)
    requires DistinctKeys(cs) && i < |cs| && Classify(cs[i].key, shortnames).Custom?
    ensures var c := |CustomIndices(cs[..i], shortnames)| + 1;
            var p := Fold(cs, shortnames, clean).params;
            Placeholder(FieldStem, c) in p && p[Placeholder(FieldStem, c)] == cs[i].key[|CustomFieldPrefix|..] &&
            Placeholder(DataStem, c) in p && p[Placeholder(DataStem, c)] == clean(cs[i].value, ParamText)
  {
    ParamsAreExact(cs, shortnames, clean);
    AllBoundAt(Fold(cs, shortnames, clean).params, cs, i, shortnames, clean);
    CountIsCustomCriteria(cs[..i], shortnames, clean);
    CustomKeyShape(cs[i].key, shortnames);
  }
}
