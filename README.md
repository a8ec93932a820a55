# extrauserlookups: the user search and the creation checks, in Dafny

This project models two web service functions of the Moodle plugin
`local_extrauserlookups`:

- **`get_users`** searches the user table with a list of `(key, value)`
  criteria. The model builds the search the way the function does:
  - It rejects a key sent twice (`keyalreadyset`).
  - It classifies each key. A key is one of the seven fixed columns, or
    `profile_field_<name>` for a registered custom profile field, or
    unsupported.
  - It chooses the cleaning type of each value.
  - It builds the table list, the WHERE string, the named parameters and the
    warnings. Unsupported criteria are unset.
  - It keeps only the users whose visible details show every searched fixed
    column.
- **`create_users`**: the chain of checks run on each new user before it is
  created, in the function's order, and the rule that turns `createpassword`
  into an empty password that is not stored.

The code is imperative, and so is the model:
- `GetUsers.BuildQuery` is the criteria loop.
- `GetUsers.KeepVisibleUsers` and `GetUsers.SearchedFieldsVisible` are the
  loops over the rows and the criteria.
- `CreateUsers.CreateUsers` is the loop over the new users.

Each method is proved against a specification function of its inputs:
- `QuerySpec.QueryOf`, a fold over the criteria;
- `ResultFilter.ReturnedUsers`;
- `CreateUsers.CreateAll`.

The lemmas in `QueryFacts`, `ResultFilter` and `CreateUsers` then prove what
those functions mean.

The host's services are parameters of the model:
- `clean_param` is `clean`;
- `$DB->sql_like` is `like`;
- `$DB->get_records_sql` is `fetch`;
- `user_get_user_details_courses` is `details`;
- `validate_email` is `validEmail`.

`profile_get_custom_fields` is represented by the list of registered short
names. The site's registries are a `Site` value:
- the usernames and addresses already taken;
- the auth, theme and translation lists;
- `allowaccountssameemail`.

Files, by module:

- `php_values.dfy` (`PhpValues`): PHP's `empty()` on strings and array
  entries, and the decimal rendering of the counter in `'cfield' . $c`.
- `criteria.dfy` (`Criteria`): criteria, columns, key classification and the
  cleaning-type table.
- `query_spec.dfy` (`QuerySpec`): what the criteria loop builds, as a fold of
  one `Step` per criterion.
- `query_facts.dfy` (`QueryFacts`): the meaning of the fold:
  - the effect of one more criterion of each kind;
  - the counts of conjuncts and warnings;
  - the parameter names, which never collide.
- `result_filter.dfy` (`ResultFilter`): the visibility test and the filter
  over the fetched rows.
- `get_users.dfy` (`GetUsers`): the loops of `get_users` and the whole
  operation.
- `create_users.dfy` (`CreateUsers`): the checks, the password rule and the
  batch loop.

The docstring of `get_users_parameters` (externallib.php:51) advertises keys
of the form `custom_field_xxx`. The code accepts only the prefix
`profile_field_` (externallib.php:126 and 163), and the model follows the
code. The post-filter at externallib.php:190 also tests the same prefix: it
skips custom field keys when it looks at a user's details.

The model also keeps two PHP quirks of the code:
- The duplicate-key check runs before classification. A repeated unsupported
  key therefore fails too.
- `empty()` treats `"0"` as empty. A user whose searched column reads `"0"`
  in their details is therefore not returned.

## Model

| member | source | states |
|---|---|---|
| PhpValues.DecimalStringInjective | externallib.php:164-168 | different counter values give different placeholder suffixes |
| QuerySpec.Render | externallib.php:152-166 | computes the SQL text of a conjunct: `{user}.<col> = :<col>`, the host's `sql_like` on `{user}.<col>` and `:<col>`, or the `cfield<c>`/`cfdata<c>` match |
| QuerySpec.Join | externallib.php:165 | computes the pair of LEFT JOINs on `{user_info_data}` and `{user_info_field}` for counter value c |
| QuerySpec.Step | externallib.php:101-174 | computes one turn of the criteria loop on the counter, the conjuncts, the parameters and the warnings, for each kind of key |
| QuerySpec.Fold | externallib.php:94-175 | computes the state of the loop after the criteria, in order, from the initial state at 79-86 |
| QuerySpec.QueryOf | externallib.php:79-175 | computes the table list `{user}` plus the joins, the WHERE string ` deleted = 0` plus the conjuncts, the parameters, the warnings and the criteria left after the unset |
| QuerySpec.SelectSql | externallib.php:177 | computes the statement `SELECT {user}.* FROM <tables> WHERE <where> ORDER BY id ASC` |
| Criteria.ColumnOfNames | externallib.php:103-124 | exactly the seven column names are fixed keys, each naming its own column |
| Criteria.Classify | externallib.php:103-143 | computes the kind of a key: one of the seven fixed columns; otherwise `profile_field_<name>` with `<name>` among the registered short names, as custom field `<name>`; otherwise unsupported. It merges the two switches at 104 and 148, which test the same conditions |
| Criteria.ClassifyMeaning | externallib.php:103-141 | the kinds of key: a fixed key is a column name; a custom key is `profile_field_` plus a registered short name; a key is unsupported exactly when it is neither |
| Criteria.CleaningTypeTable | externallib.php:103-128 | integer exactly for `id`; auth exactly for `auth`; text exactly for the two name columns and accepted custom keys; raw exactly for `idnumber`, `username`, `email` (and the unsupported keys, whose value is never cleaned) |
| Criteria.CleaningType | externallib.php:103-128 | computes the cleaning type from the kind of the key, with PARAM_RAW as the default for unsupported keys |
| Criteria.CustomKeyShape | externallib.php:126-127 | an accepted custom key is the 14-character prefix followed by its short name, and is cleaned as text |
| Criteria.ColumnHasNoCustomPrefix | externallib.php:190 | no fixed column key starts with `profile_field_` |
| Criteria.AcceptedPrefixSplit | externallib.php:163-190 | an accepted key is a fixed column exactly when it lacks the custom field prefix |
| QueryFacts.RemainingAppend | externallib.php:140 | an unsupported criterion is unset; an accepted one stays under its own index |
| QueryFacts.UnsupportedCriterionOnlyWarns | externallib.php:125-141 | an unsupported key adds exactly one `invalidfieldparameter` warning naming it; tables, WHERE, parameters and remaining criteria are unchanged |
| QueryFacts.FixedCriterionAppends | externallib.php:144-161 | a fixed key appends ` AND ` and its conjunct to the WHERE string and binds its key to the cleaned value; no table, no warning; it stays for the filter |
| QueryFacts.CustomCriterionAppends | externallib.php:163-170 | the c-th custom key appends join pair c to the tables and its match to WHERE; binds `cfield<c>` to the short name and `cfdata<c>` to the value cleaned as text; adds the `customfieldname` and `customfielddata` notices; stays for the filter |
| QueryFacts.ColumnConjunctKind | externallib.php:148-161 | equality exactly for `id`, `idnumber` and `auth`; case-insensitive LIKE exactly for `username`, `email`, `lastname` and `firstname` |
| QueryFacts.ConjunctCount | externallib.php:144-146 | every criterion yields either one conjunct or one unsupported key |
| QueryFacts.CountIsCustomCriteria | externallib.php:163-164 | the counter ends at the number of accepted custom field criteria |
| QueryFacts.WarningsNameUnsupportedKeys | externallib.php:129-135 | the warnings carrying an item name exactly the unsupported keys, in criteria order |
| QueryFacts.WarningCount | externallib.php:129-170 | one warning per unsupported key plus two per custom criterion; a warning has an item exactly when its code is `invalidfieldparameter` |
| QueryFacts.PlaceholderInjective | externallib.php:164-168 | placeholders with the same stem and name have the same number |
| QueryFacts.PlaceholderStemsDiffer | externallib.php:166-168 | a `cfield` placeholder is never a `cfdata` placeholder |
| QueryFacts.CustomPlaceholdersShape | externallib.php:164-168 | the next counter's placeholders are not yet bound |
| QueryFacts.ParamKeys | externallib.php:153-168 | the parameter names are exactly the accepted fixed keys and `cfield<c>`, `cfdata<c>` for every counter value reached |
| QueryFacts.ParamsOnlyGrow | externallib.php:153-168 | with a fresh key, a turn never overwrites a parameter |
| QueryFacts.ParamsAreExact | externallib.php:145-168 | with distinct keys, every criterion's binding survives unchanged in the final parameters |
| QueryFacts.FixedCriterionBinding | externallib.php:145-160 | with distinct keys, a fixed key is bound to its value cleaned with its type |
| QueryFacts.CustomCriterionBinding | externallib.php:164-168 | with distinct keys, the c-th custom criterion has `cfield<c>` bound to the key without its prefix and `cfdata<c>` to the value cleaned as text |
| ResultFilter.Visible | externallib.php:187-193 | computes the test on a user's details: non-empty, with a non-empty entry for every remaining key without the prefix |
| ResultFilter.ReturnedUsers | externallib.php:181-198 | computes the details of the visible users, in row order |
| ResultFilter.KeptRowsAreVisibleRows | externallib.php:182-198 | the kept row positions increase, and a row is kept exactly when its user's details are visible |
| ResultFilter.ReturnedAreKeptRows | externallib.php:182-198 | the returned users are the details of the kept rows, in row order; an order-preserving subsequence |
| ResultFilter.ReturnedMembership | externallib.php:187-196 | details are returned exactly when they are visible and some row has them |
| ResultFilter.VisibleByCheckedKeys | externallib.php:187-193 | visible means non-empty details with a non-empty entry for every checked key |
| ResultFilter.CheckedKeysAreFixedKeys | externallib.php:189-190 | after the unset, the checked keys are exactly the accepted fixed column keys |
| ResultFilter.ReturnedShowSearchedColumns | externallib.php:185-196 | every returned user has a non-empty value for each fixed column searched |
| GetUsers.DroppedMeaning | externallib.php:140 | the indices unset so far are the unsupported ones |
| GetUsers.PendingDone | externallib.php:140 | after the loop, the criteria left are exactly the accepted ones, under their indices |
| GetUsers.RepeatBreaksDistinct | externallib.php:96-97 | a key seen before means the keys are not distinct |
| GetUsers.DistinctKeysExtend | externallib.php:96-99 | a fresh key keeps the keys distinct and joins the used keys |
| GetUsers.FailureMessageNamesKey | externallib.php:97 | the `keyalreadyset` message names the repeated key: different keys give different messages |
| GetUsers.AddCriterion | externallib.php:101-174 | one turn of the loop changes the draft as `Step` says and keeps the table list and WHERE string rendered from it |
| GetUsers.BuildQuery | externallib.php:79-175 | `keyalreadyset` exactly when a key repeats, naming the first repeated key; otherwise the tables, WHERE, parameters, warnings and remaining criteria of `QueryOf` |
| GetUsers.SearchedFieldsVisible | externallib.php:188-193 | true exactly when every remaining key without the prefix has a non-empty entry |
| GetUsers.KeepVisibleUsers | externallib.php:181-198 | the visible users among the rows, in row order |
| GetUsers.GetUsers | externallib.php:73-200 | `keyalreadyset` exactly when a key repeats; otherwise the visible users among the rows fetched for the SELECT statement, and the warnings |
| CreateUsers.AvailableAuths | externallib.php:341-343 | the installed auth plugins without `mnet` and `webservice` |
| CreateUsers.Check | externallib.php:350-382 | computes the chain of checks on one user: the exception of the first that fails, or none |
| CreateUsers.MessageIdentifiesRejection | externallib.php:352-381 | the exception messages tell the seven checks apart and name the rejected value: equal messages mean equal exceptions |
| CreateUsers.Prepare | externallib.php:373-391 | computes the record passed to `user_create_user`: confirmed; with `createpassword` an empty password and no update of it, otherwise its own password and an update |
| CreateUsers.Register | externallib.php:393 | computes the site after `user_create_user`: the new username and address are taken, so the later `record_exists` checks at 351 and 380 see them |
| CreateUsers.CreateAll | externallib.php:349-393 | computes the batch: each user checked against the site the earlier users left, in order; the first rejection ends the batch |
| CreateUsers.CheckIsFirstFailure | externallib.php:350-382 | no exception exactly when all seven checks pass; otherwise the exception of the first failing check, in the order username, auth, lang, theme, password, address valid, address free |
| CreateUsers.NoMnetOrWebserviceUsers | externallib.php:342-357 | a user with the `mnet` or `webservice` plugin is always rejected |
| CreateUsers.PreparedPassword | externallib.php:370-391 | a user that passes is confirmed; with `createpassword` it gets an empty password and no password update, otherwise its own non-empty password is stored |
| CreateUsers.RejectionSticks | externallib.php:346-353 | once a user of the batch is rejected, the whole call fails with that exception |
| CreateUsers.SiteAfterTakes | externallib.php:351-380 | after a run the taken usernames and addresses are the old ones plus those of the run; the registries are unchanged |
| CreateUsers.CreatedArePrepared | externallib.php:349-393 | a batch that succeeds prepares every user, in order |
| CreateUsers.CreatedAreChecked | externallib.php:349-382 | in a batch that succeeds, each user passed the checks against the site as the earlier users left it |
| CreateUsers.RejectedAtFirstFailure | externallib.php:349-382 | a batch that fails raises the exception of its first failing user, all users before it passing |
| CreateUsers.RepeatedUsernameRejected | externallib.php:351-353 | a batch naming one username twice is rejected |
| CreateUsers.RepeatedEmailRejected | externallib.php:379-382 | a batch using one address twice is rejected unless accounts may share one |
| CreateUsers.CreateUsers | externallib.php:341-391 | the loop's result is `CreateAll`: the first rejection in batch order, or every user prepared |

## Left out

- Parameter validation by `validate_parameters` and the schema descriptors (`*_parameters`, `*_returns`). Criteria arrive as a sequence and new users as records with their fields present. `theme` and `password` are optional.
- Context and capability checks (`validate_context`, `require_capability`): these are host access control.
- Executing the SQL. `fetch` receives the statement text and the parameters and returns rows. The model says nothing about which rows match, about the `ORDER BY id ASC` ordering, or about `get_records_sql` collapsing rows by id.
- The SQL text of `$DB->sql_like`: it is the uninterpreted parameter `like`.
- `clean_param`: it is the uninterpreted parameter `clean`. The model records only the type each value is cleaned with.
- `profile_get_custom_fields`: its short names are an input list. `profile_user_record` is called at externallib.php:184, but its result is never used.
- PHP's loose comparison in `in_array` (externallib.php:126 and 163). Short names are compared as strings. With two numeric-looking strings, PHP compares them as numbers, so `profile_field_01` would match a short name `1`. The `switch` statements at 104 and 148 compare with non-numeric literals, where loose comparison is plain string equality.
- Everything in `create_users` after the password rule: `user_create_user`, `profile_save_data`, password mailing, user preferences, events, the returned ids, and `mnethostid`.
- The delegated transaction is represented only by its effect: the first exception ends the batch with no user created. A created user's name and address are represented as taken for the next user of the batch.
- `update_users` and `get_cohorts`: these are calls into host services and database reads with capability checks.
- db/services.php and version.php are not part of this model; they hold plugin registration metadata.
