# WHOI Directory API: a verified model of the endpoint pipeline

The WHOI Directory API is a WordPress plugin that answers three directory requests over the
`user` pod. It can search by name term and department, look up one user by login, or list
the users of a department code. Each callback follows the same pipeline:

1. It builds find parameters: a `where` clause, a `limit`, and for the list endpoints an
   `orderby` on the last-name meta value. The search term, department and login are escaped
   before they are concatenated into the clause. The department code is concatenated
   unescaped; only the route pattern `\d+` keeps it to digits.
2. It asks the repository for rows.
3. It answers `null` when the repository reports no rows.
4. Otherwise it walks the rows in fetch order and skips every row whose `privacy_flag` is
   truthy. For each other row it reads the first and last name from the user metadata by the
   row's id, projects the row into a fixed, ordered array and appends it to the export list.

This project models that pipeline in Dafny and proves what it guarantees.

- `php_values.dfy` (`PhpValues`): the PHP values a field can hold, and PHP truthiness, which
  decides the privacy guard.
- `records.dfy` (`Records`): the fetched `Row`, the metadata store
  (`map<Id, map<string, seq<string>>>`, the shape `get_user_meta` returns), and the two
  output profiles. `Summary` has 6 fields and `Detail` has 17, both in the order the source
  declares them. The module also gives the ordered key/value arrays the callbacks build and a
  reader that inverts them.
- `visibility.dfy` (`Visibility`): the guard (`Private`) and the precondition of the unguarded
  name lookup (`NamesPresent`). `Kept` gives the fetch positions that pass the guard and
  `Project` what the fetch loop produces. The lemmas say the output is exactly the kept rows,
  projected, in fetch order. They also cover its count, when it is empty, last-name order and
  the detail privacy flag.
- `queries.dfy` (`Queries`): the find parameters and the three where-clause builders. It also
  has a reader of double-quoted MySQL literals (backslash escapes, doubled quotes). With it
  the model proves that each escaped input is the whole body of its own literal, so the
  clause reads back as the inputs.
- `endpoints.dfy` (`Endpoints`): the fetch loop `Export` and the three callbacks.
  - `Export` is a `while` loop over the rows that appends to the export sequence. It is
    proved against `Project`.
  - The three callbacks build the query and call the repository, which is a parameter
    `pods: Params -> seq<Row>`. They return `NullReply`, `Json(entries)` or `Array(entries)`.
  - The three source loops differ only in their projection, so one loop parametrised by the
    projection models all three.

Facts of the code that the model keeps:

- The summary profile is the six fields `username, first_name, last_name, hr_job_title,
  department, building`. It has no preferred name, phone, mail stop or photo.
- The detail profile has no description, pronoun or research-statement fields.
- There is no origin signal.
- The privacy check is applied on every path, the detail lookup included.
- `get_users_by_department` returns the array itself, not its JSON encoding.
- A missing name is not handled. It is a precondition here.

## Model

| member | source | states |
|---|---|---|
| `Visibility.Kept` | whoi-directory-api.php:55-56 | the positions that pass the privacy guard: each one is in range and not private, they strictly increase (fetch order), and every non-private position is among them |
| `Visibility.ProjectStep` | whoi-directory-api.php:55-72 | one more fetched row appends its projection, names joined from the metadata, unless it is private |
| `Visibility.ProjectSelectsKept` | whoi-directory-api.php:55-73 | the output has one entry per kept row, and entry k is the projection of the k-th kept fetched row, with first and last name read from the metadata at that row's id |
| `Visibility.KeptCount` | whoi-directory-api.php:55-56 | the number of kept positions equals the number of non-private fetched rows |
| `Visibility.ProjectCount` | whoi-directory-api.php:55-73 | the output length equals the number of non-private rows, which is at most the number fetched |
| `Visibility.ProjectEmptyIff` | whoi-directory-api.php:52-73 | the export list is empty exactly when every fetched row is private |
| `Visibility.NamesNeededExactlyForKept` | whoi-directory-api.php:56-61 | the unguarded name lookup needs names for exactly the rows the guard lets through; private rows need none |
| `Visibility.SummariesByLastName` | whoi-directory-api.php:45-73 | if the fetched rows are in non-decreasing last-name order, so are the summaries, because skipping rows keeps relative order |
| `Visibility.DetailsNeverPrivate` | whoi-directory-api.php:113-137 | every emitted detail carries a falsy `privacy_flag` |
| `Records.SummaryEntries` | whoi-directory-api.php:63-70 | the summary array has exactly the keys `username, first_name, last_name, hr_job_title, department, building`, in that order |
| `Records.DetailEntries` | whoi-directory-api.php:120-138 | the detail array has exactly the 17 keys `first_name` … `privacy_flag`, in declared order |
| `Records.SummaryEntriesRoundTrip` | whoi-directory-api.php:63-70 | reading the summary array back by its keys recovers every field |
| `Records.DetailEntriesRoundTrip` | whoi-directory-api.php:120-138 | reading the detail array back by its keys recovers every field |
| `Queries.CloseQuote` | whoi-directory-api.php:46 | a found closing quote is a quote character and is not the first half of a doubled quote |
| `Queries.SplitLiteral` | whoi-directory-api.php:46 | a successful split puts opening, literal body, quote and remainder back together as the clause |
| `Queries.CloseQuoteSkipsEscaped` | whoi-directory-api.php:37 | escaped text never ends the literal: the closing quote is found after it |
| `Queries.SearchWhereRoundTrip` | whoi-directory-api.php:43-47 | the search clause reads back as `%term%` and `%dept%` in two literals, conjoined, with the escaped inputs exactly (an empty input gives `%%`) |
| `Queries.SearchWhereInjective` | whoi-directory-api.php:46 | distinct escaped search inputs give distinct clauses |
| `Queries.UsernameWhereRoundTrip` | whoi-directory-api.php:101-104 | the username clause is an equality on `t.user_login` whose literal is exactly the escaped login |
| `Queries.DepartmentWhereRoundTrip` | whoi-directory-api.php:173-177 | the department clause is an equality on `department_code` whose literal is exactly the code |
| `Queries.DigitsAreEscaped` | whoi-directory-api.php:157-165 | a digits-only code, the only kind the route admits, needs no escaping, although this callback applies none |
| `Endpoints.Export` | whoi-directory-api.php:52-73 | the loop over the fetched rows builds exactly `Project` of them: the non-private rows, projected, in fetch order |
| `Endpoints.SearchUsers` | whoi-directory-api.php:34-80 | queries with the search parameters; `null` when no rows, otherwise the JSON of the summaries of the non-private rows |
| `Endpoints.GetUserByUsername` | whoi-directory-api.php:95-148 | queries with the username parameters (limit 1); `null` when no rows, otherwise the JSON of the details of the non-private rows |
| `Endpoints.GetUsersByDepartment` | whoi-directory-api.php:170-211 | queries with the department parameters; `null` when no rows, otherwise the raw array of summaries of the non-private rows |
| `Endpoints.NullOnlyWithoutRows` | whoi-directory-api.php:54-79 | every endpoint answers `null` exactly when no rows are fetched; with rows, an empty list exactly when all are private |
| `Endpoints.RepliesComeFromKeptRows` | whoi-directory-api.php:55-73 | every reply entry is the projection of a non-private fetched row, in fetch order; the two list endpoints yield the same entries |
| `Endpoints.DetailFlagAlwaysFalsy` | whoi-directory-api.php:113-137 | the detail reply never shows a truthy privacy flag |
| `Endpoints.UsernameLookupAtMostOne` | whoi-directory-api.php:101-104 | if the repository honours `limit` 1, the detail reply has at most one entry |
| `Endpoints.RepliesKeyedAsDeclared` | whoi-directory-api.php:63-70 | each reply entry is emitted as the array with the profile's keys in declared order; `username` holds the row's `user_login` and `website` its `user_url` |
| `Endpoints.ListRepliesByLastName` | whoi-directory-api.php:175-204 | if the rows come in last-name order, the list replies are in last-name order |

## Left out

- WordPress registration (`add_action`, `register_rest_route`, lines 27-32, 88-93, 156-168)
  is plumbing and is not modelled. The same goes for the route pattern and the `is_numeric`
  callback. `DigitsAreEscaped` only records that a digits-only code is safe in its literal.
- Query execution by `pods()` is not modelled. It covers `LIKE` matching, the `orderby`
  ordering under the database's collation, and honouring `limit`. The repository is an
  arbitrary function from parameters to rows. Ordering and the limit appear only as
  hypotheses, with an arbitrary comparison `le`.
- The Pods result object is not modelled as a cursor. `$users->total()` is the number of
  rows returned and `$users->fetch()` steps through them in order, so the model takes the
  rows as a sequence and uses its length.
- `esc_sql` and `sanitize_text_field` are foreign calls. `SearchUsers` and
  `GetUserByUsername` take their output as input. `GetUsersByDepartment` takes the route's
  code as it is, because that callback escapes nothing. `Escaped` states the shape of that output that the round trips rely on. WordPress's
  placeholder escaping of `%` is not modelled.
- `get_user_meta` is a foreign call. The metadata store is a given map.
- `Endpoints.Export`: the model requires the names to be present (`NamesPresent`), because
  the source reads them without a guard. It does not model what PHP does when a name is
  missing: warnings and a `null` name in the output.
- `json_encode` is a foreign serializer. `Json(entries)` stands for the encoding of the
  arrays `SummaryEntries`/`DetailEntries` of `entries`, and no text is produced. The model
  does not capture that `json_encode` can return `false` (lines 75 and 143), for example on
  malformed UTF-8 in a field. It also takes PHP byte strings as Dafny character sequences.
- PHP values other than null, booleans, integers and strings in `privacy_flag` are not
  modelled. Floats and arrays are examples. All other fields are taken as strings.
- Origin-based redaction, job-category matching, the department-plus-category listing,
  preferred names, pronouns and research statements are not modelled. None of them occurs in
  `whoi-directory-api.php`.
