# Jobly: SQL fragment builders and authorization gates

A Dafny model of the job board API's core logic.

- **Partial-update helper.** `sqlForPartialUpdate` turns an ordered object of changed fields into the SET list `"col"=$1, "col2"=$2, ...` and the values those placeholders bind.
- **Company search builder.** `Company.sqlClauseForFindWhere` turns an object of search filters into a WHERE clause and its parameters.
- **Company update.** The model covers how `Company.update` assembles its parameters: the SET values first, then the handle, bound to one placeholder past the last SET placeholder.
- **The companies table.** Duplicate and not-found rules for create, get, update, remove and findWhere, over a `map` from handle to row held in a class.
- **Job search builder.** `Job.sqlClauseForFindWhere` walks the keys in a loop. It pushes each bound value onto a growing array as it goes. A `hasEquity` flag binds the string `'0.0'`, not the caller's boolean.
- **Authorization middleware.** The three gates `ensureLoggedIn`, `ensureAdminUser` and `ensureCurrentOrAdmin`, as allow/deny functions. `authenticateJWT` strips the bearer prefix, trims the token and stores a verified payload in `res.locals`.

Modules:

- `Js`: JavaScript values and plain objects, `join`, decimal rendering of numbers, `trim`, and the `>` operator.
- `Errors`: the thrown errors and a `Result` type.
- `Clause`: a fragment is fixed text around one `$n` placeholder. This module renders a list of fragments with ascending numbers and joins them. It also reads the joined text back into (template, number) pairs, and proves that round trip.
- `Sql`, `Company`, `Jobs`, `Auth`: one module per core source file.

How JavaScript is represented:

- A plain object is a `seq<(string, Value)>` in `Object.keys` order. `Object.values` follows the same order.
- `undefined` is `None`.
- A thrown error is an `Err` result. The crash of reading a property of `undefined` is `TypeError`.

## Model

| member | source | states |
|---|---|---|
| Sql.SqlForPartialUpdate | helpers/sql.js:12-25 | Empty data is refused with BadRequest "No data" whatever the column map is, and only empty data is refused. Otherwise the SET list is one `"col"=$k` assignment per key in key order, joined by ", "; each values entry, null included, is the key's value at the same position |
| Sql.ColumnNameFallback | helpers/sql.js:18 | A key missing from the column map, or mapped to the empty string, is its own column name; otherwise the map's translation is used |
| Sql.PartialUpdateDenotes | helpers/sql.js:17-22 | When no column contains a double quote, parsing the SET list back yields exactly one assignment per key, in key order, numbered 1, 2, ... |
| Sql.PartialUpdatePlaceholderBindsValue | helpers/sql.js:17-23 | The k-th assignment read back targets the k-th key's column and uses `$k`, and `$k` binds the k-th key's value |
| Sql.PartialUpdateExample | helpers/sql.test.js:34-44 | `{handle, name}` with the company map gives `"handle"=$1, "name"=$2` and the values `["acme", "The Royal Acme Corporation"]` |
| Company.SqlClauseForFindWhere | models/company.js:111-138 | Checks run in this order: empty criteria is BadRequest "No data"; then min > max (JavaScript `>`) is BadRequest "Min employees cannot exceed max employees."; then any key outside the allow-list is BadRequest "Invalid search criteria". The result is Ok exactly when none of these hold. On Ok there is one fixed predicate per key in key order, joined by " AND ", and the values are the criteria's values in key order |
| Company.RangeCheckOnIntegers | models/company.js:117-119 | With both bounds integers, an inverted range is always refused with the range message, and a proper range never is, whatever the other keys are |
| Company.RangeCheckNeedsBoth | models/company.js:117-119 | With either bound absent the range check never fires |
| Company.WhereOutcomeIgnoresKeyOrder | models/company.js:112-123 | The same criteria in another key order is accepted or refused alike, and refused with the same error |
| Company.CompanyTemplatesUnambiguous | models/company.js:125-131 | No company predicate's text up to `$` is a prefix of another's, so a WHERE clause can be read back unambiguously |
| Company.WhereDenotes | models/company.js:121-135 | Parsing an accepted WHERE clause back yields, in key order, each key's filter template with `$1`, `$2`, ... |
| Company.FilterTemplateInjective | models/company.js:125-131 | The three filters have three different templates, so the template read back determines the filter |
| Company.WherePlaceholderBindsValue | models/company.js:124-136 | The predicate read back at position k belongs to the k-th key and uses `$k`, and `$k` binds the k-th key's value |
| Company.FindWhereMinOnlyExample | models/company.test.js:121-126 | `{minEmployees: 1}` gives `num_employees >= $1` with values `[1]` |
| Company.FindWhereAllFiltersExample | models/company.test.js:128-139 | `{minEmployees: 1, maxEmployees: 3, nameLike: '2'}` gives the three predicates joined by " AND " with values `[1, 3, '2']` |
| Company.FindWhereRefusalExamples | models/company.test.js:141-169 | Empty criteria, `{maxEmployees: 10, minEmployees: 30}` and `{description: ...}` are refused with their three messages |
| Company.UpdateQueryFor | models/company.js:180-191 | Empty data is refused with BadRequest "No data". Otherwise the SET list is the partial-update helper's output under the company column map, and the parameters are the data's values in key order followed by the handle |
| Company.HandlePlaceholderIsLast | models/company.js:184-191 | The WHERE placeholder is `$` followed by the number of parameters. No SET placeholder `$1` .. `$n` equals it, and the parameter it binds is the handle |
| Company.ExecuteSetPatches | models/company.js:180-191 | Executing the SET list, with the field names translated through the company map and the caller's values, is exactly the partial update by field name; the handle never changes |
| Company.CompanyTable.Create | models/company.js:19-45 | An existing handle is refused with BadRequest "Duplicate company: <handle>" and the table is unchanged. Otherwise the row is inserted and returned |
| Company.CompanyTable.Get | models/company.js:148-165 | Succeeds exactly when the handle is in the table, with that row; otherwise NotFound "No company: <handle>" |
| Company.CompanyTable.Update | models/company.js:179-197 | Empty data is BadRequest "No data" before any lookup; a missing handle is NotFound "No company: <handle>"; either way the table is unchanged. Otherwise the row becomes the partial update of the old one and is returned |
| Company.CompanyTable.Remove | models/company.js:204-215 | A missing handle is NotFound "No company: <handle>" and the table is unchanged; otherwise exactly that row is removed |
| Company.CompanyTable.FindWhere | models/company.js:81-99 | A refused clause is reported with its own error before any query. An empty selection is NotFound "No companies match the criteria". Any other selection is returned as it is, and the result is Ok exactly in that case |
| Jobs.JobWhere | models/jobs.js:101-132 | Refused exactly for empty criteria (BadRequest "No data") or a key outside the allow-list (BadRequest "Invalid search criteria"). When every equity flag is a boolean, exactly one value is bound per key |
| Jobs.SqlClauseForFindWhere | models/jobs.js:101-132 | The loop that walks the keys and pushes onto the values array computes exactly JobWhere: the same errors, the fragments joined by " AND ", and the pushed values |
| Jobs.StepOne | models/jobs.js:108-124 | Handling one more key appends exactly that key's fragment and that key's pushed value, if any |
| Jobs.FragmentSpelledOut | models/jobs.js:112-124 | title gives the ILIKE predicate on title around `$n`, minSalary `salary >= $n`, hasEquity true `equity > $n`, hasEquity false `equity = $n`, and any other hasEquity value the empty fragment |
| Jobs.ValuesAligned | models/jobs.js:107-124 | With boolean equity flags, the k-th pushed value belongs to the k-th key: the caller's value for title and minSalary, the string '0.0' for hasEquity |
| Jobs.KeyTemplates | models/jobs.js:112-123 | With boolean equity flags, every key has one of the four templates |
| Jobs.JobTemplatesUnambiguous | models/jobs.js:112-123 | No job predicate's text up to `$` is a prefix of another's |
| Jobs.WhereDenotes | models/jobs.js:108-129 | With boolean equity flags, parsing the WHERE clause back yields, in key order, each key's template with `$1`, `$2`, ... |
| Jobs.PlaceholderBindsValue | models/jobs.js:107-130 | With boolean equity flags, the predicate read back at position k is the k-th key's, uses `$k`, and `$k` binds the k-th key's pushed value |
| Jobs.MinSalaryExample | models/jobs.test.js:128-136 | `{minSalary: 20000}` gives `salary >= $1` with values `[20000]` |
| Jobs.ThreeFiltersExample | models/jobs.test.js:137-145 | `{minSalary: 20000, hasEquity: true, title: 'paper'}` gives `salary >= $1 AND equity > $2` followed by ` AND ` and the title predicate on `$3`, with values `[20000, '0.0', 'paper']` (the string the code pushes) |
| Jobs.NonBooleanEquityExample | models/jobs.js:118-125 | A hasEquity that is the string "true" gives an empty fragment and pushes nothing, so the next key's `$2` has no value at index 1 |
| Auth.EnsureLoggedIn | middleware/auth.js:36-39 | Passes exactly when a user is stored in the locals; otherwise Unauthorized |
| Auth.EnsureAdminUser | middleware/auth.js:48-54 | Passes exactly when there is a user whose isAdmin is the boolean true. A present non-admin user is Unauthorized; no user at all is a TypeError crash |
| Auth.EnsureCurrentOrAdmin | middleware/auth.js:63-70 | Passes exactly when there is a user whose username strictly equals the route's username, or whose isAdmin is true. A present user failing both is Unauthorized; no user is a TypeError crash |
| Auth.GatesOrdered | middleware/auth.js:36-70 | Whoever passes the admin gate passes the current-user-or-admin gate, and whoever passes either passes the login gate |
| Auth.CrashOnlyWithoutUser | middleware/auth.js:48-70 | The two admin gates crash exactly when the login gate refuses |
| Auth.CurrentUserExamples | middleware/auth.test.js:80-99 | The route user passes without being an admin; an admin passes; another non-admin user is refused; a string "true" isAdmin is refused |
| Auth.StripRemovesOnce | middleware/auth.js:22 | One leading "Bearer " or "bearer " is removed, and only one |
| Auth.StripKeepsOthers | middleware/auth.js:22 | A header without that prefix is passed on unchanged, and a stripped header is a suffix of the original |
| Auth.BearerTokenOf | middleware/auth.js:22 | The token of "Bearer t" is t trimmed; it has no leading or trailing whitespace and trimming it again changes nothing |
| Auth.AuthenticateJwt | middleware/auth.js:18-29 | Always lets the request through. With a non-empty header whose token verifies, the locals' user becomes the payload and the login gate then passes. In every other case the locals are unchanged |
| Js.TrimCutsOut | middleware/auth.js:22 | `trim` returns a slice of its input. Everything before the slice and everything after it is whitespace |
| Js.TrimNoOuterWhitespace | middleware/auth.js:22 | The result of `trim` neither starts nor ends with whitespace |
| Js.TrimIdempotent | middleware/auth.js:22 | Trimming twice is trimming once |
| Js.GreaterThanFacts | models/company.js:117 | `>` with `undefined` on either side is false; on two integers it is the integer order |
| Js.GetReordered | models/company.js:117 | Looking up a key gives the same answer in any enumeration order of an object with distinct keys |
| Js.NatToStringRoundTrip | models/company.js:124-131 | A rendered placeholder number reads back as the same number |
| Js.NatToStringInjective | models/company.js:184 | Distinct numbers render as distinct placeholders |
| Clause.ParseRendered | models/company.js:121-135 | Rendering fragments with ascending numbers, joining them, and parsing them back with an unambiguous table recovers every fragment's template and number, in order |

## Left out

- SQL execution is not modelled: the `db.query` calls, ILIKE matching, `ORDER BY name`, the effect of INSERT and DELETE on other tables, and the connection pool. The table is a map from handle to row. `CompanyTable.FindWhere` receives the rows the database selected as a parameter.
- `Company.findAll`, `Job.create` and `Job.findAll` are thin SELECT/INSERT wrappers and are left out, as is their console logging.
- `Job.findWhere` is left out. It is the same query-then-NotFound shape as the company's, which `CompanyTable.FindWhere` models.
- `Job.get` and `Job.remove` are left out because their bodies are commented out.
- `Job.update` is left out: it is a copy of the company update that targets the companies table and refers to an undefined `handle`.
- The routes layer and the test fixtures are not part of this model.
- JWT signing and verification are left out. `AuthenticateJwt` takes verification as a function parameter, with None for a rejected token.
- Payload fields other than `username` and `isAdmin` (such as `iat`) are not modelled.
- A missing `req.headers` and a missing `authorization` header are both `None`.
- Company.CompanyTable.Create: the duplicate check and the insert are modelled as one atomic step. In the source they are two awaited queries, so two overlapping creates of the same handle can both pass the check; the second insert then fails with the database's unique-constraint error, not BadRequest "Duplicate company: <handle>". Concurrency is not modelled.
- Company.CompanyTable.Update: the caller's keys are restricted to the documented fields `name`, `description`, `numEmployees` and `logoUrl`, with distinct keys. In the source a `handle` key passes through as `"handle"=$1` and renames the row, a snake-case column key such as `num_employees` writes that column, and only a key naming no column makes the database raise; none of these is modelled.
- Js.StringToNumber: only decimal integers with an optional sign, after trimming, are converted. Fractions, exponents, hexadecimal, binary (`0b101`) and octal (`0o17`) literals and `Infinity`, which JavaScript converts, become NaN here. Objects and fractional numbers are not values of the model, so equity amounts are opaque. `VInt` stands for an integer-valued JavaScript number, but it is unbounded: digit strings are converted exactly, where JavaScript rounds them to the nearest double, so from about 2^53 upward a numeric string compared with a number can give a different answer (`{minEmployees: "9007199254740993", maxEmployees: 9007199254740992}` passes the range check in JavaScript and is refused here). An own property whose value is `undefined` cannot be represented either.
- Js.StringLess: strings compare character by character as code points, not as UTF-16 code units.
- Object key enumeration is taken as the sequence order. JavaScript lists integer-like keys first; that reordering is not modelled.
- `jsToSql[colName]` can also find prototype properties such as `constructor`; the model consults only the map's own entries.
- The job tests expect the number `0.0` where the code pushes the string `'0.0'`. The model follows the code.
- The job tests also load the company model under the name of the job model. That mix-up is not modelled.
- A non-boolean `hasEquity` (such as the query-string "true") is modelled as the code behaves: an empty fragment and no pushed value, which leaves later placeholders misaligned. The alignment and round-trip lemmas assume boolean equity flags.
