# duckdb-fastapi: verified model of the macro/API translation

duckdb-fastapi connects DuckDB macros and HTTP API operations in both directions.
This project models the text logic at the centre of both directions and proves properties of it:

- **DuckDB macros → HTTP endpoints** (`to_api.py`, module `ToApi`):
  - A macro's raw parameter string such as `"INTEGER a, VARCHAR b"` is parsed into an ordered field table (`CreateEndpointModel`).
  - Each type word maps onto one of the four tags Str, Int, Float and Bool (`MapType`).
  - The handler builds the call text `SELECT name(v1, v2, …)` (`CallQuery`, `HandlerQuery`).
  - An execution error becomes a 500 response (`Respond`).
  - The app registers one GET or POST route per macro at `/macro/<name>` (`App`, `CreateApp`).
- **HTTP API schema → DuckDB macros** (`to_duckdb.py`, module `ToDuckdb`):
  - Every operation of an OpenAPI schema that has an `operationId` becomes one `CREATE OR REPLACE MACRO … http_get_table(…)` block (`BuildMacro`).
  - The macro's parameters are the operation's path parameters followed by its query parameters, each declared `VARCHAR`.
  - In the URL, each `{p}` placeholder is rewritten into a string concatenation `' || p || '` (`RewritePath`).
  - The blocks are joined by blank lines (`CreateDuckdbMacros`).
- **Python string built-ins** (module `Text`): the ones the core relies on.
  - Covered: `strip`, `split` on one character, `join`, `lower`/`upper`, substring `in` and `replace`.
  - Each is defined by recursion, with the lemmas the core needs, e.g. split-then-join and join-then-split.

The model follows the source's own form:

- The two loops that fill a dict or a list step by step are methods with loop invariants. They are proved equal to pure specification functions:
  - `CreateEndpointModel` is proved equal to `EndpointFields`.
  - `CreateDuckdbMacros` is proved equal to `Script`.
- The FastAPI app is a class whose route list `CreateApp` extends one macro at a time.
- The call text and the GET/POST choice are pure functions.
- The field table is an insertion-ordered dict: a sequence of names in first-declaration order plus a map from name to type tag.

The lemmas then state what the source promises about those functions:

- Which tokens produce fields, and that the last type wins while the first position stays.
- Rendering a table as a parameter string and parsing it back gives the same table.
- Call arguments read back in field order.
- Each route dispatches to its own macro.
- There is exactly one block per retained operation, in schema order.
- The script is empty exactly when no operation is retained.
- The exact text of each block.

Three behaviours of the code are easy to misread, and the model keeps them as written:

- **Boolean type word.** The test `param_type in ('boolean')` compares against a string, not a one-element tuple, so it is a substring test. Any substring of `boolean` that no earlier branch takes maps to Bool, for example `bool`, `lean` and the empty word. See `ToApi.MapType` and `ToApi.PiecesOfBooleanAreBool`.
- **Splitting a declaration.** Words are split on single spaces, not on runs of whitespace. So `"INTEGER  x"` with two spaces declares a field with the empty name, and `x` is ignored. See `ToApi.DoubleSpaceDeclaresEmptyName`.
- **Parameter order.** Path parameters keep the order in which the operation declares them, not their order in the path template, and the query parameters follow in declared order. See `ToDuckdb.MacroParameters`.

## Model

| member | source | states |
|---|---|---|
| Text.Strip | src/duckdb_fastapi/to_api.py:38 | `strip()` never lengthens the text and leaves no whitespace at either end |
| Text.TrimStart | src/duckdb_fastapi/to_api.py:38 | `lstrip()`: drops leading whitespace; characterised by `Text.TrimStartSpec` |
| Text.TrimEnd | src/duckdb_fastapi/to_api.py:38 | `rstrip()`: drops trailing whitespace; characterised by `Text.TrimEndSpec` |
| Text.SplitOn | src/duckdb_fastapi/to_api.py:38 | `split(c)`: at least one piece, none containing `c`; inverse of `Text.Join` by `Text.SplitThenJoin` and `Text.JoinThenSplit` |
| Text.Join | src/duckdb_fastapi/to_api.py:90 | `sep.join(parts)`: the parts with the separator between consecutive ones |
| Text.TrimStartSpec | src/duckdb_fastapi/to_api.py:38 | the left-trimmed text is a suffix whose removed prefix is all whitespace and which starts with a non-space (or is empty) |
| Text.TrimEndSpec | src/duckdb_fastapi/to_api.py:38 | the right-trimmed text is a prefix whose removed suffix is all whitespace and which ends with a non-space (or is empty) |
| Text.StripAround | src/duckdb_fastapi/to_duckdb.py:63-70 | stripping whitespace wrapped around a trimmed core gives back exactly that core |
| Text.SplitThenJoin | src/duckdb_fastapi/to_api.py:38 | joining the pieces of `s.split(c)` with `c` gives back `s`, so splitting loses no text |
| Text.JoinThenSplit | src/duckdb_fastapi/to_api.py:38 | splitting on `c` a join by `c` of pieces free of `c` gives back the pieces |
| Text.CommaListRoundTrip | src/duckdb_fastapi/to_api.py:90 | a `", "`-joined list of trimmed, comma-free texts splits on `,` and strips back to the same list |
| Text.UpperCase | src/duckdb_fastapi/to_duckdb.py:68 | `upper()` leaves no lower-case letter and loses nothing that `lower()` sees |
| Text.ToLower | src/duckdb_fastapi/to_api.py:44 | `lower()` on ASCII letters |
| Text.ToUpper | src/duckdb_fastapi/to_duckdb.py:68 | `upper()` on ASCII letters |
| Text.Contains | src/duckdb_fastapi/to_api.py:52 | substring `in` holds exactly when the needle occurs at some index of the text |
| Text.ReplaceAll | src/duckdb_fastapi/to_duckdb.py:61 | `replace(pat, rep)`: every occurrence, scanning left to right without overlap, becomes `rep` |
| Text.ReplaceAbsent | src/duckdb_fastapi/to_duckdb.py:61 | `replace` changes nothing when the pattern does not occur |
| Text.ReplaceFirst | src/duckdb_fastapi/to_duckdb.py:61 | `replace` substitutes an occurrence preceded by text that cannot start the pattern and continues after it, left to right |
| Text.ReplaceSkip | src/duckdb_fastapi/to_duckdb.py:61 | `replace` copies text in which the pattern cannot start and continues after it |
| ToApi.MapType | src/duckdb_fastapi/to_api.py:47-53 | Int exactly for `integer`/`bigint`, Float exactly for `double`/`float`, Bool exactly for the other words that occur inside `boolean`, Str for everything else |
| ToApi.PiecesOfBooleanAreBool | src/duckdb_fastapi/to_api.py:52-53 | every substring of `boolean` (`bool`, `lean`, the empty word) maps to Bool |
| ToApi.Words | src/duckdb_fastapi/to_api.py:38 | `p.strip().split(' ')`: the words of one comma piece |
| ToApi.PiecesToParams | src/duckdb_fastapi/to_api.py:38 | the comprehension: the words of each comma piece that is not blank after stripping, in order |
| ToApi.PieceParams | src/duckdb_fastapi/to_api.py:38 | one piece's contribution to the comprehension: nothing when blank, else its words |
| ToApi.ParamList | src/duckdb_fastapi/to_api.py:38 | `param_list`: the comprehension over `parameters.split(',')` |
| ToApi.TypeWordsNotEmpty | src/duckdb_fastapi/to_api.py:38 | every kept piece has a first word, and that word is not empty |
| ToApi.ParseField | src/duckdb_fastapi/to_api.py:42-44 | a piece yields a field exactly when it has at least two words |
| ToApi.ExtraWordsIgnored | src/duckdb_fastapi/to_api.py:43-44 | words after the second are ignored; the name is the second word stripped and the type tag comes from the first word lowercased |
| ToApi.DoubleSpaceDeclaresEmptyName | src/duckdb_fastapi/to_api.py:38-44 | with two spaces between type and name the field declared has the empty name, because words are split on single spaces |
| ToApi.ParsedFields | src/duckdb_fastapi/to_api.py:41-44 | one entry per word list, in order, each parsed as in `ToApi.ParseField` |
| ToApi.Put | src/duckdb_fastapi/to_api.py:55 | `fields[name] = type`: a new name goes last, a known name keeps its place and takes the new type |
| ToApi.Build | src/duckdb_fastapi/to_api.py:39-55 | the dict after the loop has read the entries in order, skipping the short ones |
| ToApi.EndpointFields | src/duckdb_fastapi/to_api.py:35-57 | the field table of a parameter string: `Build` of the parsed `param_list` |
| ToApi.CreateEndpointModel | src/duckdb_fastapi/to_api.py:35-57 | the loop's dict equals the table built from the parsed pieces, its names are distinct and are exactly its keys |
| ToApi.BuildWellFormed | src/duckdb_fastapi/to_api.py:39-55 | any sequence of assignments leaves the ordered dict with distinct names that are exactly its keys |
| ToApi.FieldNames | src/duckdb_fastapi/to_api.py:41-55 | a name is a field exactly when some well-formed piece declares it |
| ToApi.LastTypeWins | src/duckdb_fastapi/to_api.py:55 | a repeated name keeps the type of its last declaration |
| ToApi.FirstDeclarationOrder | src/duckdb_fastapi/to_api.py:39-55 | fields keep the order of their first declarations, whatever is redeclared later |
| ToApi.ShortParamIgnored | src/duckdb_fastapi/to_api.py:42 | a one-word piece is dropped without any effect on the table |
| ToApi.BlankPieceIgnored | src/duckdb_fastapi/to_api.py:38 | a comma piece that is blank after stripping contributes nothing |
| ToApi.BlankParametersNoFields | src/duckdb_fastapi/to_api.py:38-57 | a blank or whitespace-only parameter string gives no pieces and an empty table |
| ToApi.RenderThenParse | src/duckdb_fastapi/to_api.py:35-57 | writing a table out as `"<type> <name>, …"` and parsing it gives back the same table, order and types |
| ToApi.IntTextRoundTrip | src/duckdb_fastapi/to_api.py:90 | `str()` of an integer reads back as the same integer |
| ToApi.IntText | src/duckdb_fastapi/to_api.py:90 | `str()` of an integer: an optional minus sign and at least one decimal digit |
| ToApi.ValueText | src/duckdb_fastapi/to_api.py:90 | `str(v)` of a field value: the text itself, the decimal integer, the float's text, `True`/`False` |
| ToApi.ScalarTextPlain | src/duckdb_fastapi/to_api.py:90 | the text of an integer or boolean argument is non-empty, comma-free and trimmed |
| ToApi.EmptyCall | src/duckdb_fastapi/to_api.py:87-94 | with no parameters, or no values, the call is exactly `SELECT <name>()` |
| ToApi.CallQuery | src/duckdb_fastapi/to_api.py:87-94 | the call text `SELECT <name>(<args joined by ", ">)`, or `SELECT <name>()` without a model |
| ToApi.ArgumentTexts | src/duckdb_fastapi/to_api.py:89-90 | the texts of the body's values, in field order |
| ToApi.HandlerQuery | src/duckdb_fastapi/to_api.py:85-94 | the handler's call text for an optional request body |
| ToApi.CallArgumentsReadBack | src/duckdb_fastapi/to_api.py:89-91 | the call is `SELECT <name>(` … `)`, and the text between the parentheses splits on commas back into the argument texts |
| ToApi.HandlerArgumentsInFieldOrder | src/duckdb_fastapi/to_api.py:85-91 | the handler's call lists one argument per field, in field order, each the text of that field's value |
| ToApi.Respond | src/duckdb_fastapi/to_api.py:96-102 | success returns the rows, and any failure is a 500 whose detail is `Error executing macro: ` followed by the error message |
| ToApi.RouteChoice | src/duckdb_fastapi/to_api.py:75-78 | GET exactly when the parameter string is empty, else POST carrying the parsed table, always at `/macro/<name>` |
| ToApi.ParamModel | src/duckdb_fastapi/to_api.py:75-78 | the field table when the parameter string is non-empty, else none |
| ToApi.RouteFor | src/duckdb_fastapi/to_api.py:75-121 | the route one loop step registers for a macro |
| ToApi.RoutesFor | src/duckdb_fastapi/to_api.py:73-121 | the routes of all macros, in catalogue order |
| ToApi.BlankParametersArePost | src/duckdb_fastapi/to_api.py:75-78 | a non-empty, whitespace-only parameter string still gives a POST route, with an empty model |
| ToApi.EachRouteDispatchesToItsMacro | src/duckdb_fastapi/to_api.py:81-85 | with distinct macro names, the route found for a macro's method and path is the one bound to that macro |
| ToApi.App.constructor | src/duckdb_fastapi/to_api.py:65-69 | a new app has no routes |
| ToApi.App.Register | src/duckdb_fastapi/to_api.py:108-121 | registering appends exactly that route and changes nothing else |
| ToApi.CreateApp | src/duckdb_fastapi/to_api.py:59-123 | the new app holds one route per macro, in catalogue order, each chosen as in `RouteFor` |
| ToDuckdb.CollectAt | src/duckdb_fastapi/to_duckdb.py:41-52 | a pass appends the names of the parameters at one location, in declared order, with a `<name> VARCHAR` declaration for each |
| ToDuckdb.RewritePath | src/duckdb_fastapi/to_duckdb.py:59-61 | the replace loop computes `RewriteUrl`, so every placeholder of a collected name becomes its splice (`ToDuckdb.RewriteEveryPlaceholder`) |
| ToDuckdb.BuildMacro | src/duckdb_fastapi/to_duckdb.py:33-70 | the block of a retained operation is the stripped template; the unused `param_values` does not affect it |
| ToDuckdb.CreateDuckdbMacros | src/duckdb_fastapi/to_duckdb.py:9-74 | the nested loops produce exactly `Script`: one block per retained operation in schema order, joined by blank lines (`ToDuckdb.BlocksSound`, `ToDuckdb.BlocksComplete`, `ToDuckdb.ScriptEmpty`) |
| ToDuckdb.NamesAtAppend | src/duckdb_fastapi/to_duckdb.py:41-45 | collecting over concatenated lists concatenates the collected names |
| ToDuckdb.NamesAtMembers | src/duckdb_fastapi/to_duckdb.py:41-45 | a name is collected at a location exactly when some parameter at that location carries it |
| ToDuckdb.MacroParameters | src/duckdb_fastapi/to_duckdb.py:41-52 | the parameters are the path parameters and then the query parameters, and every other location is dropped |
| ToDuckdb.NamesAt | src/duckdb_fastapi/to_duckdb.py:41-45 | the names of the parameters at one location, in declared order |
| ToDuckdb.MacroParamNames | src/duckdb_fastapi/to_duckdb.py:37-52 | `param_names`: the path names, then the query names |
| ToDuckdb.VarcharDeclarations | src/duckdb_fastapi/to_duckdb.py:45-52 | `param_declarations`: `<name> VARCHAR` for each name |
| ToDuckdb.ParamListText | src/duckdb_fastapi/to_duckdb.py:55 | `param_list`: the declarations joined by `", "` |
| ToDuckdb.NoParametersEmptySignature | src/duckdb_fastapi/to_duckdb.py:55-64 | with no path or query parameters the block is the template with header `CREATE OR REPLACE MACRO <operationId>() AS` and the path unchanged in the URL |
| ToDuckdb.ParamListReadsBack | src/duckdb_fastapi/to_duckdb.py:55 | the parameter list splits on commas back into one `<name> VARCHAR` per parameter |
| ToDuckdb.RewriteNoBraces | src/duckdb_fastapi/to_duckdb.py:59-61 | a path with no placeholder is emitted unchanged |
| ToDuckdb.RewriteOnePlaceholder | src/duckdb_fastapi/to_duckdb.py:61 | a `{p}` placeholder becomes a splice that closes the literal, concatenates `p` and reopens it, and the text around it is kept |
| ToDuckdb.RewriteUrl | src/duckdb_fastapi/to_duckdb.py:59-61 | the path after replacing every `{p}` by the splice of `p`, for each collected name in turn |
| ToDuckdb.ReplaceOneName | src/duckdb_fastapi/to_duckdb.py:61 | one replace step splices every placeholder of its name and leaves the other placeholders and the literal text alone |
| ToDuckdb.RewriteFrom | src/duckdb_fastapi/to_duckdb.py:59-61 | from any point of the loop, each further name has all its placeholders spliced |
| ToDuckdb.RewriteEveryPlaceholder | src/duckdb_fastapi/to_duckdb.py:59-61 | for a path with any number of placeholders of collected brace-free names, repeats included, every placeholder becomes its splice and the text between them is kept |
| ToDuckdb.StripRemovesOnlyOuterIndent | src/duckdb_fastapi/to_duckdb.py:63-70 | `strip()` removes only the template's first newline and last indentation; the inner lines keep their indentation |
| ToDuckdb.MacroHeader | src/duckdb_fastapi/to_duckdb.py:64 | the first line: `CREATE OR REPLACE MACRO <id>(<params>) AS` |
| ToDuckdb.MacroBody | src/duckdb_fastapi/to_duckdb.py:65-69 | the remaining lines: the `http_get_table` call on the URL with the upper-cased method, with their literal indentation |
| ToDuckdb.MacroCore | src/duckdb_fastapi/to_duckdb.py:63-70 | the block without the whitespace around it |
| ToDuckdb.RawMacroText | src/duckdb_fastapi/to_duckdb.py:63-69 | the f-string as written, before `strip()` |
| ToDuckdb.Retained | src/duckdb_fastapi/to_duckdb.py:30-31 | an operation yields a block exactly when its `operationId` is present and non-empty |
| ToDuckdb.OperationBlock | src/duckdb_fastapi/to_duckdb.py:33-70 | the block of one retained operation |
| ToDuckdb.BlockShape | src/duckdb_fastapi/to_duckdb.py:63-70 | each block starts with `CREATE OR REPLACE MACRO <operationId>(` and ends with `);` |
| ToDuckdb.OperationBlocksSound | src/duckdb_fastapi/to_duckdb.py:29-31 | every block of a path comes from a retained operation of that path |
| ToDuckdb.OperationBlocksComplete | src/duckdb_fastapi/to_duckdb.py:29-31 | every retained operation of a path contributes its block |
| ToDuckdb.OperationBlocksAppend | src/duckdb_fastapi/to_duckdb.py:29-72 | operations are handled one by one, so the blocks of concatenated lists are concatenated |
| ToDuckdb.BlocksAppend | src/duckdb_fastapi/to_duckdb.py:28-72 | paths are handled in schema order, so the blocks of concatenated schemas are concatenated |
| ToDuckdb.BlocksComplete | src/duckdb_fastapi/to_duckdb.py:28-31 | every retained operation anywhere in the schema has its block in the output, and skipping one does not stop the rest |
| ToDuckdb.BlocksSound | src/duckdb_fastapi/to_duckdb.py:28-31 | every block in the output comes from some retained operation |
| ToDuckdb.OperationBlocks | src/duckdb_fastapi/to_duckdb.py:29-72 | the blocks of one path's operations, in order, skipping those not retained |
| ToDuckdb.Blocks | src/duckdb_fastapi/to_duckdb.py:28-72 | the blocks of every path, in schema order |
| ToDuckdb.Script | src/duckdb_fastapi/to_duckdb.py:74 | the blocks joined by a blank line |
| ToDuckdb.ScriptEmpty | src/duckdb_fastapi/to_duckdb.py:72-74 | the script is the empty string exactly when no operation has a non-empty `operationId` |
| ToDuckdb.PathParameterBlock | tests/test_to_duckdb.py:38-40 | one path parameter `{p}` gives the signature `<id>(p VARCHAR)` and a URL with `p` spliced in place of the placeholder |
| ToDuckdb.QueryParametersBlock | tests/test_to_duckdb.py:46-48 | two query parameters give signature `<id>(a VARCHAR, b VARCHAR)` and the path unchanged in the URL |

## Left out

- DuckDB access: the macro catalogue query `_get_macro_info` (to_api.py:20-33), its `ValueError` wrapping, and `conn.execute` (to_api.py:96). The catalogue is an input sequence of `MacroInfo`, and the result of executing the call text is a parameter (`Outcome`) of `Respond`.
- FastAPI: the app's title, description and version; `response_model`, `summary` and `description` on routes; the framework's own routing, including 404 and 405. `Lookup` is a first-match stand-in that only the dispatch lemma uses.
- Pydantic: `create_model`, request validation and the 422 response. The field table stands for the model, and a request body is a map holding a value for every field.
- The `async def create_handler` wrapper (to_api.py:81-106) makes `create_handler()` a coroutine. The model binds each route directly to the handler for its own macro, as the default arguments intend.
- Float arguments: `str()` of a float is not modelled; a `FloatValue` carries its text. The text of string arguments is used as is, unquoted, as in the code.
- `lower()` and `upper()` are modelled on ASCII letters only. Other characters are unchanged.
- The `parameters` column of the catalogue is taken to be text. A missing (None) value is modelled as the empty string, which the code treats the same way.
- `get_openapi` (to_duckdb.py:18-24): the schema is an input, a sequence of paths each with its operations. A missing `parameters` list is an empty list. Path-item keys that are not operations (a `parameters` list, a `summary` string) and `$ref` parameters are left out: the code would fail on them, `operation.get` raising `AttributeError` (to_duckdb.py:30) and `param['in']` raising `KeyError` (to_duckdb.py:42), and the model assumes `get_openapi` never emits them.
- Parameter locations other than `path`, `query`, `header` and `cookie` are not modelled. All of them are dropped in the same way.
- The `/.duckdb` endpoint (to_duckdb.py:77-87) and the remote `http_get_table` call are I/O and are not modelled.
