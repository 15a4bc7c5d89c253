# empresas-api request handlers in Dafny

A model of the HTTP handlers of a small CRUD service for company records
(tax id `cnpj`, legal name `nomerazao`, trade name `nomefantasia`,
activity code `cnae`). Two files hold near-duplicate handler sets:
`src/companies/controller.py` (flask_restx resources) and
`src/controller.py` (a pair of `Companies` resources; src/app.py:9-11
registers this file's blueprint). Both are modelled, each as written.

Every handler takes the request's already extracted parameters and what
storage answered, and gives back a reply: a status with a JSON body, or an
exception that escapes to the framework (the list handlers have no
`try`). Storage is abstract: the answer is `Returns(v)` or `Throws(e)`,
where `v` is a list of rows, an optional row, a changed-row count, or
nothing for save. Handlers that may skip storage also return the storage
call they make (`Option<...>`), so "storage is not queried" and "save is
not called" are statements about that value.

Files:

- `json.dfy` (`Json`): JSON values with ordered objects; `Get` is
  `dict.get` (the last repeated key wins, a missing key reads as None).
- `python.dfy` (`Python`): truthiness, the two exception kinds the handlers
  tell apart (`KeyError` and any other, with their `str(e)` text),
  `str.upper()`, `", ".join(...)` and a reader that splits the joined text
  back into its parts.
- `handlers.dfy` (`Handlers`): the shared constants (allow-list, required
  fields, messages), the company projection, the list-argument checks, the
  envelope and the required-field check of create.
- `companies_controller.dfy` (`PackageController`): src/companies/controller.py.
- `controller.dfy` (`RootController`): src/controller.py.
- `differences.dfy` (`Differences`): where the two files' handlers agree and
  where they do not.

Points of the model worth knowing:

- A body field counts as missing when Python finds it falsy: absent, `null`,
  `false`, `0`, `""`, `[]` or `{}`.
- A body that is not a JSON object makes `data.get` raise an
  AttributeError. `except Exception` catches it, so the reply is 500 with
  that error's text.
- If save or update raises a `KeyError`, the `except KeyError` branch
  answers. The reply is a 400 naming no fields, because `error_message` is
  still empty at that point.
- A row is a sqlite3 row, the row factory src/database.py:10 selects: a
  sequence of named columns. `row["uuid"]` gives the cell of the first
  column whose name matches ignoring ASCII case, so a column `UUID`
  answers it. A row with no matching column raises IndexError "No item
  with that key" when it is projected. Get catches it and answers 500;
  list lets it escape.
- `limit` is echoed as given. It is the raw text when present and the
  integer 10 when absent, because the source never converts it.
- Upper-casing covers ASCII letters, U+017F (long s) and U+0131 (dotless
  i), one character for one. Python upper-cases long s to "S", so
  `dir=aſc` passes as ASC.
- src/companies/controller.py:121-123 answers an invalid sort with 400;
  src/controller.py:105-109 returns the same body without a status, so
  with 200. Each file is modelled as written (see Findings).

## Model

| member | source | states |
|---|---|---|
| `Handlers.CheckList` | src/companies/controller.py:107-126 | `start` is converted first, then `sort` must be in the seven-name allow-list, then the upper-cased `dir` must be ASC or DESC; a query is issued iff all pass, echoing start, limit, sort and upper-cased dir with their defaults |
| `Handlers.ListDefaults` | src/companies/controller.py:107-110 | with no arguments the query is start 0, limit 10, sort "uuid", dir "ASC" |
| `Handlers.DirAccepted` | src/companies/controller.py:110-126 | the direction is accepted iff it spells asc or desc in any mix of cases (long s for s), both directions |
| `Python.UpperEquals` | src/companies/controller.py:110 | under the one-for-one upper-casing, `s` upper-cases to a word of capitals iff `s` spells it letter by letter in either case |
| `Handlers.Project` | src/companies/controller.py:136-144 | the projected company has exactly the seven columns as keys, in order, without repeats |
| `Handlers.ProjectLookup` | src/companies/controller.py:136-144 | each of the seven keys holds the cell of the row column it names, matched ignoring ASCII case; any other column of the row is dropped |
| `Handlers.ColumnIndex` | src/companies/controller.py:239-245 | the index found is that of the first column whose name matches the key ignoring ASCII case, or the row's length when none matches |
| `Handlers.UpperCaseColumnFound` | src/companies/controller.py:239 | a column named UUID answers the key "uuid" |
| `Handlers.EnvelopeFields` | src/companies/controller.py:129-147 | the envelope's keys are count, start, limit, sort, dir, companies in order; count is the number of rows; the query is echoed; companies lists every row projected, in storage order |
| `Handlers.ListReply` | src/companies/controller.py:128-148 | a normal storage answer whose rows all have the columns gives 200 with the envelope; a storage exception or a short row escapes the handler |
| `Handlers.CollectMissing` | src/companies/controller.py:165-174 | the appended list equals the missing-field list |
| `Handlers.MissingFieldsExact` | src/companies/controller.py:165-174 | a field is in the missing list iff it is required and absent or falsy; the list keeps the order cnpj, nomefantasia, nomerazao, cnae; it is empty iff all four are truthy |
| `Handlers.MissingMessageReadsBack` | src/companies/controller.py:183-188 | the 400 text is the fixed prefix followed by the missing list joined with ", ", and that list can be read back from it exactly |
| `Python.SplitJoin` | src/companies/controller.py:185 | joining comma-free parts with ", " is undone by splitting at the commas |
| `PackageController.ListCompanies` | src/companies/controller.py:106-148 | invalid `start` escapes; bad sort is 400 with the sort error and no query; bad dir with a good sort is 400 with the dir error and no query; storage is queried iff all pass, and the reply is then the envelope reply; 400 iff sort or dir is bad |
| `PackageController.PostCompany` | src/companies/controller.py:157-190 | never escapes; a non-object body is 500; missing fields give one 400 naming them all and no save; otherwise save is called once with the four fields and its outcome gives 201, 400 with no fields (KeyError) or 500 with the error text; 201 iff saved without error |
| `PackageController.PatchCompany` | src/companies/controller.py:199-227 | update is called iff the body is an object with nomefantasia or cnae truthy, passing uuid and both values; both falsy is a 400 naming "nomefantasia, cnae"; 0 rows is 404, any other count 200; KeyError 400, other errors 500 with the text |
| `PackageController.GetCompany` | src/companies/controller.py:232-249 | 404 iff the lookup returns no row or an empty one; 200 iff a row with the seven columns is found, and the body is exactly its projection; exceptions and short rows are 500 |
| `PackageController.DeleteCompany` | src/companies/controller.py:257-266 | 404 iff storage reports 0 rows, 200 iff another count, 500 with the error text iff it raised |
| `RootController.ListCompanies` | src/controller.py:90-136 | as the package's list handler, except that a bad sort gets the error body with status 200; 400 iff sort is good and dir bad |
| `RootController.PostCompany` | src/controller.py:144-181 | the same create decisions as the package's handler |
| `RootController.PatchCompany` | src/controller.py:187-219 | the same update decisions as the package's handler |
| `RootController.GetCompany` | src/controller.py:225-244 | as the package's get handler, but a found company comes under the single key "company" |
| `RootController.DeleteCompany` | src/controller.py:249-258 | the same delete decisions as the package's handler |
| `Differences.ListHandlersAgree` | src/controller.py:96-115 | the two list handlers agree on reply and query except for a bad sort, which is 400 in one and 200 in the other |
| `Differences.RootInvalidSortLooksSuccessful` | src/controller.py:105-109 | `sort=nome` is answered with status 200 and the sort error, and storage is not queried |
| `Differences.GetHandlersAgree` | src/controller.py:231-242 | the get handlers agree on every status; on 200 the root body wraps the package body under "company" |
| `Differences.DeleteHandlersAgree` | src/controller.py:249-258 | the delete handlers agree on every input |

## Left out

- Flask and flask_restx plumbing is not modelled. This covers `request.args`, `request.get_json`, `jsonify`, routes, namespaces, swagger models and marshalling decorators. It also covers JSON serialisation, including `jsonify`'s key sorting: bodies are modelled as the dictionaries built.
- Routing in src/controller.py is not modelled. Its methods lack `self`, and both resource classes are named `Companies`. The handler bodies are modelled as if the framework called them with their parameters.
- Route shadowing between the uuid and cnpj routes is not modelled, since it is a routing matter.
- Storage is not modelled: connections, SQL, ordering and pagination by start/limit, and rollback. `list_companies`, `find_company`, `update_company` and `delete_company` are not part of this model. Their answers are inputs. So properties that relate storage calls are out of scope, such as "a created company is found by a later get" or "list returns at most limit rows".
- Handlers.StartOf: Python's `int()` parsing of `start` is not modelled. The caller says whether the argument was absent, converted (and to what), or rejected. The escaping ValueError's text ignores how `repr` chooses quotes.
- Python.UpperChar: the fifteen characters that Python expands into text holding ASCII capitals (ß to SS, ﬁ to FI, ﬅ and ﬆ to ST, ẚ to Aʾ, ŉ to ʼN and others) are left as they are, and all other non-ASCII mappings are left as identity. None of them can make ASC or DESC, so whether `dir` is accepted is exact. The upper-cased text of a rejected `dir` is never shown.
- Python.Upper: its `|u| == |s|` holds for the one-for-one mapping, not for Python, where an expanding character lengthens the text.
- Python.UpperEquals: exact for Python only for words no expanding character reaches, which includes ASC and DESC; for SS it is not, since Python upper-cases ß to SS.
- Handlers.SameName: column names are matched ignoring ASCII case only. Any non-ASCII case folding that sqlite3 applies to column names is not modelled.
- The storage functions the controllers import (`list_companies`, `find_company`, `update_company`, `delete_company`) are not in src/database.py as it stands. That file defines `list_companys` and a `companys` table without uuid or timestamp columns.
- Floating-point JSON numbers are not modelled (`Int` only), so `0.0` as a falsy body field is out of scope.
- The exception raised by a missing `get_json()` body, or by the wrong content type, depends on the Flask version and is not modelled. A `null` body is modelled as an AttributeError.
- The uuid or cnpj passed to `find_company` and `delete_company` is not represented. Those calls always happen, so get and delete take only the answer.

## Findings

| source | as written | input that shows it | evidently intended | confidence | as-written member | corrected member |
|---|---|---|---|---|---|---|
| src/controller.py:105-109 | the invalid-sort error is returned without a status, so it goes out as 200 | `GET` with `sort=nome` | 400, as for a bad `dir` in the same handler and as src/companies/controller.py:121-123 does | likely; not executed | `Differences.RootInvalidSortLooksSuccessful` | `PackageController.ListCompanies` |
