/**
 * The last stage of `get_users`: of the rows the database returns, only the
 * users whose visible details include every searched fixed column are returned.
 * The details come from the host (`user_get_user_details_courses`), which leaves
 * out the fields the caller may not see; a user found through a hidden field is
 * therefore dropped.
 */
module ResultFilter {
  import opened PhpValues
  import opened Criteria
  import opened QuerySpec

  /** A row of `{user}` as the database returns it. */
  datatype UserRecord = UserRecord(id: int, fields: map<string, string>)

  /** The details of a user as the caller may see them; an empty map stands for null or an empty array. */
  type Details = map<string, string>

  /**
   * The visibility test: the details are not empty and every remaining criterion
   * whose key lacks the custom field prefix has a non-empty entry.
   */
  predicate Visible(d: Details, remaining: map<nat, Criterion>)
  {
    d != map[] &&
    forall j :: j in remaining && !HasCustomFieldPrefix(remaining[j].key) ==> !EmptyEntry(d, remaining[j].key)
  }

  /** The details of the visible users, in row order. */
  function ReturnedUsers(rows: seq<UserRecord>, remaining: map<nat, Criterion>, details: UserRecord -> Details): seq<Details>
    decreases |rows|
  {
    if rows == [] then []
    else
      var d := details(rows[|rows| - 1]);
      ReturnedUsers(rows[..|rows| - 1], remaining, details) + (if Visible(d, remaining) then [d] else [])
  }

  /** The positions of the rows whose users are returned. */
  function KeptRows(rows: seq<UserRecord>, remaining: map<nat, Criterion>, details: UserRecord -> Details): seq<nat>
    decreases |rows|
  {
    if rows == [] then []
    else
      var n := |rows| - 1;
      KeptRows(rows[..n], remaining, details) + (if Visible(details(rows[n]), remaining) then [n] else [])
  }

  predicate StrictlyIncreasing(s: seq<nat>)
  {
    forall a, b :: 0 <= a < b < |s| ==> s[a] < s[b]
  }

  /** The kept positions increase, and a row is kept exactly when its user is visible. */
  lemma {:induction false} KeptRowsAreVisibleRows(rows: seq<UserRecord>, remaining: map<nat, Criterion>,
                                                  details: UserRecord -> Details)
    ensures var kept := KeptRows(rows, remaining, details);
            StrictlyIncreasing(kept) &&
            (forall k :: 0 <= k < |kept| ==> kept[k] < |rows|) &&
            (forall n :: 0 <= n < |rows| ==> (n in kept <==> Visible(details(rows[n]), remaining)))
    decreases |rows|
  {
    if rows != [] {
      var n := |rows| - 1;
      var init := rows[..n];
      KeptRowsAreVisibleRows(init, remaining, details);
      assert forall m :: 0 <= m < n ==> init[m] == rows[m];
    }
  }

  /** The users returned are the details of the kept rows, in the same order. */
  lemma {:induction false} ReturnedAreKeptRows(rows: seq<UserRecord>, remaining: map<nat, Criterion>,
                                               details: UserRecord -> Details)
    ensures var kept := KeptRows(rows, remaining, details);
            var users := ReturnedUsers(rows, remaining, details);
            |users| == |kept| &&
            forall k :: 0 <= k < |kept| ==> kept[k] < |rows| && users[k] == details(rows[kept[k]])
    decreases |rows|
  {
    if rows != [] {
      var n := |rows| - 1;
      var init := rows[..n];
      ReturnedAreKeptRows(init, remaining, details);
      KeptRowsAreVisibleRows(init, remaining, details);
      assert forall m :: 0 <= m < n ==> init[m] == rows[m];
    }
  }

  /** A user is returned exactly when some row has these visible details. */
  lemma {:induction false} ReturnedMembership(rows: seq<UserRecord>, remaining: map<nat, Criterion>,
                                              details: UserRecord -> Details, d: Details)
    ensures d in ReturnedUsers(rows, remaining, details) <==>
              Visible(d, remaining) && exists n :: 0 <= n < |rows| && details(rows[n]) == d
    decreases |rows|
  {
    if rows != [] {
      var n := |rows| - 1;
      var init := rows[..n];
      ReturnedMembership(init, remaining, details, d);
      if details(rows[n]) == d {
        assert exists m :: 0 <= m < |rows| && details(rows[m]) == d;
      }
      if exists m :: 0 <= m < |rows| && details(rows[m]) == d {
        var m :| 0 <= m < |rows| && details(rows[m]) == d;
        if m < n {
          assert init[m] == rows[m];
        }
      }
      if exists m :: 0 <= m < |init| && details(init[m]) == d {
        var m :| 0 <= m < |init| && details(init[m]) == d;
        assert rows[m] == init[m];
      }
    }
  }

  /** The keys that the visibility test looks at. */
  function CheckedKeys(remaining: map<nat, Criterion>): set<string>
  {
    set j | j in remaining && !HasCustomFieldPrefix(remaining[j].key) :: remaining[j].key
  }

  lemma VisibleByCheckedKeys(d: Details, remaining: map<nat, Criterion>)
    ensures Visible(d, remaining) <==> d != map[] && forall k :: k in CheckedKeys(remaining) ==> !EmptyEntry(d, k)
  {
  }

  /**
   * After the unsupported criteria are unset, the keys the test looks at are
   * exactly the accepted fixed column keys: custom field criteria are never
   * checked against the details.
   */
  lemma CheckedKeysAreFixedKeys(cs: seq<Criterion>, shortnames: seq<string>)
    ensures CheckedKeys(RemainingOf(cs, shortnames)) == FixedKeys(cs, shortnames)
  {
    var rem := RemainingOf(cs, shortnames);
    forall j | j in rem
      ensures !HasCustomFieldPrefix(rem[j].key) <==> Classify(rem[j].key, shortnames).Fixed?
    {
      AcceptedPrefixSplit(rem[j].key, shortnames);
    }
    forall i | 0 <= i < |cs| && Classify(cs[i].key, shortnames).Fixed?
      ensures cs[i].key in CheckedKeys(rem)
    {
      assert i in rem;
    }
  }

  /**
   * What the filter guarantees: every returned user shows a non-empty value for
   * each fixed column the caller searched on.
   */
  lemma ReturnedShowSearchedColumns(cs: seq<Criterion>, shortnames: seq<string>, rows: seq<UserRecord>,
                                    details: UserRecord -> Details, d: Details, k: string)
    requires d in ReturnedUsers(rows, RemainingOf(cs, shortnames), details)
    requires k in FixedKeys(cs, shortnames)
    ensures d != map[] && k in d && !EmptyString(d[k])
  {
    ReturnedMembership(rows, RemainingOf(cs, shortnames), details, d);
    VisibleByCheckedKeys(d, RemainingOf(cs, shortnames));
    CheckedKeysAreFixedKeys(cs, shortnames);
  }
}
