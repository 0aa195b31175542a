# Student portal core, modelled in Dafny

This project models the core of the school portal's `script.js`. The portal is a browser page. A student logs in with an identifier, and the page looks the student up in a roster kept as CSV text. The model covers four parts:

- **CSV parser** (`parseCSVData`). The text is split on `'\n'`. The first line gives the column names, each trimmed. Every later line that is not blank after trimming becomes a record keyed by those names. A record holds the trimmed field at each header's position. A missing or empty field becomes `''`. There is no quoting.
- **Roster loader** (the cache path of `fetchCSVFromDrive`). Loading tries three sources in order. First comes the cached roster text, while it is younger than five minutes. Next comes the text of the remote fetch: non-empty text is cached together with the current time. Last comes the sample roster.
- **Session restore** (`initializeApp`). On page load, a saved session younger than thirty minutes becomes the logged-in student. An older one, or one whose time stamp does not parse, is removed from storage. If either storage key is missing, nothing happens.
- **Login** (`login`). A blank identifier is refused before anything is loaded. The roster is then loaded. An empty roster gives "no data", and a roster without a matching row gives "not found". Otherwise the first row whose `ID`, `Email` or `Student ID` equals the trimmed identifier becomes the session. Each session field has a fallback. The session is stored with the current time. The password is never consulted.

Modules, one per file:

- `options.dfy`, module `Options`: the `Option` type, used for `null`, `undefined` and NaN.
- `js_string.dfy`, module `JsString`: models of the JavaScript `trim`, `split` and `join` that the parser uses. The white-space set is the ECMAScript WhiteSpace and LineTerminator set.
- `js_number.dfy`, module `JsNumber`: `parseInt` without a radix argument, and `toString` on integers. Time stamps are written with one and read back with the other.
- `csv.dfy`, module `Csv`: the parser. `Parse` is the parser as a value. `ParseCSVData` is the source's loop, proved equal to `Parse`.
- `portal.dfy`, module `StudentPortal`: the `Portal` class and the functions that specify its methods. The class has one field per storage key: `universityData`, `universityDataTime`, `storedStudent` and `sessionTime`, standing for the keys `university_data`, `university_data_time`, `currentStudent` and `sessionTime`. It also has a `currentStudent` field, which stands for the page's variable of that name. The clock (`now`) and the outcome of the remote fetch (`remote: Option<string>`) are parameters. The sample roster and `parseFloat` are fixed when the portal is constructed. `Login` returns a `LoginOutcome`. The source only shows a notification for these outcomes.

The class keeps one invariant, `Valid()`: when a student is logged in, that student is the saved session, and the session has a time stamp. `InitializeApp` requires that nobody is logged in yet. The page calls it once, from its load handler (script.js:24-28), before `currentStudent` is ever assigned.

## Model

| member | source | states |
|---|---|---|
| `JsString.TrimStartSuffix` | script.js:187 | what trimming the start removes: a white-space prefix; what is left does not start with white space |
| `JsString.TrimEndPrefix` | script.js:187 | what trimming the end removes: a white-space suffix; what is left does not end with white space |
| `JsString.TrimBounds` | script.js:191 | a trimmed line is empty exactly when the line is all white space; otherwise it starts and ends with a non-white-space character |
| `JsString.TrimIdempotent` | script.js:197 | trimming twice is trimming once |
| `JsString.Split` | script.js:186 | `split` yields at least one piece, and no piece contains the separator |
| `JsString.JoinSplit` | script.js:193 | joining the pieces of a split with the separator gives back the line |
| `JsString.SplitJoin` | script.js:193 | splitting a join of separator-free pieces gives back the pieces |
| `JsString.SplitWithoutSeparator` | script.js:186 | text without the separator splits into itself alone |
| `JsNumber.ParseInt` | script.js:36 | `parseInt` of a stored time stamp: leading white space skipped, an optional sign, base 16 after `0x`/`0X`, the longest digit prefix read; `None` (NaN) when no digit follows; its round trip with `toString` is `ParseIntOfIntToString` |
| `JsNumber.DigitPrefix` | script.js:36 | `parseInt` reads the longest run of digits at the front and stops at the first non-digit |
| `JsNumber.DecimalDigits` | script.js:134 | the decimal digits of a time stamp: non-empty, all digits, denoting the number, with no leading zero |
| `JsNumber.IntToString` | script.js:134 | a written time stamp is non-empty and does not start with white space |
| `JsNumber.ParseIntOfIntToString` | script.js:120 | a time stamp written with `toString` reads back with `parseInt` as the same number |
| `Csv.Parse` | script.js:185-204 | `parseCSVData` as a value: the records of the lines after the first, keyed by the first line's trimmed names; its properties are `ParseRecords`, `ParseWithoutNewline` and `ParseToCsv` |
| `Csv.BuildRow` | script.js:196-198 | after the header loop, the record's keys are exactly the header names |
| `Csv.BuildRowValue` | script.js:196-198 | each header holds the field at its last position among the headers: the trimmed field, or `''` when the field is missing or empty; fields beyond the header count are dropped |
| `Csv.KeptLines` | script.js:190-191 | the non-blank lines: each position kept holds a non-blank line, positions increase, and every non-blank line is kept |
| `Csv.RowsInOrder` | script.js:190-201 | the loop pushes one record per non-blank line, in line order |
| `Csv.ParseRecords` | script.js:185-204 | parsing gives one record per non-blank line after the header line, in order; every record has exactly the trimmed header names as keys; with distinct names, each key holds its field |
| `Csv.ParseWithoutNewline` | script.js:186-190 | text without a newline, the empty text included, parses to no records |
| `Csv.RowsWithoutBlankLines` | script.js:190-201 | with no blank line, each line gives a record at its own position |
| `Csv.ParseToCsv` | script.js:185-204 | text written from at least one header name and rows parses back to one record per row, keyed by the names and holding the fields, provided that: the names are distinct; names and fields hold no `,` or newline and no surrounding white space; each row has exactly one field per header; and each row's line is not blank, that is the row has a separator (two or more headers) or a non-empty single field |
| `Csv.FillRow` | script.js:194-198 | the `forEach` over the headers builds the record that `BuildRow` describes |
| `Csv.ParseCSVData` | script.js:185-204 | the loop over the lines returns exactly `Parse` of the text |
| `StudentPortal.Matches` | script.js:228-232 | the `find` predicate: the row's `ID`, `Email` or `Student ID` column is exactly the identifier; a missing column matches nothing |
| `StudentPortal.Find` | script.js:228-232 | `find` returns nothing exactly when no row's `ID`, `Email` or `Student ID` equals the identifier; otherwise it returns the first matching row |
| `StudentPortal.MakeSession` | script.js:242-253 | each session field is the row's non-empty column or its fallback: the typed identifier, `'Student'`, `'Pending'`, `'Full Payment'` or `''`; the id is never empty for a non-empty identifier, and it equals the identifier when the row matched on `ID`; each amount is what `parseFloat` reads, or 0 when the column is missing or unparsable, and negative amounts are kept |
| `StudentPortal.Authenticate` | script.js:221-253 | an empty roster gives "no data"; a roster with no matching row gives "not found"; otherwise the session is built from the first matching row |
| `StudentPortal.LoadRoster` | script.js:116-141 | the roster a load returns: the cached text's roster while the cache is fresh, else the fetched text's roster when that text is non-empty, else the sample roster; `ReloadWithinTtl` and `ReloadAfterTtl` state its timing |
| `StudentPortal.CacheAfterLoad` | script.js:129-135 | the cache after a load: replaced by the fetched text, stamped with the time, only on a cache miss with non-empty fetched text; unchanged otherwise |
| `StudentPortal.Restore` | script.js:35-45 | what a page load does: resume the saved session while it is under thirty minutes old, expire it otherwise, and do nothing without both storage keys; `SessionWindow` states its timing |
| `StudentPortal.CacheWindow` | script.js:119-121 | a roster cached at `t` is reused at `now` if and only if its text is non-empty and `now - t` is under five minutes; exactly five minutes is a miss, and a future stamp counts as fresh |
| `StudentPortal.ReloadWithinTtl` | script.js:116-137 | after a load that cached fetched text, any load in the next five minutes returns the same roster and keeps the cache, whatever the remote fetch gives |
| `StudentPortal.ReloadAfterTtl` | script.js:119-141 | once the cache is five minutes old, a load returns the fetched roster if the remote text is non-empty, and the sample roster otherwise |
| `StudentPortal.SessionWindow` | script.js:35-44 | a session saved at `t` is resumed at `now` if and only if `now - t` is under thirty minutes; otherwise the page load expires it |
| `StudentPortal.LoginScenario` | script.js:185-253 | on the roster parsed from the text `ID,Name,Amount` / `1,Alice,100` / `2,Bob,abc`: identifier 1 logs Alice in with amount 100; identifier 2 logs Bob in with amount 0; identifier 9 is not found |
| `StudentPortal.Portal.constructor` | script.js:15-16 | a page opens on the given storage, with nobody logged in |
| `StudentPortal.Portal.InitializeApp` | script.js:30-46 | a fresh saved session becomes the logged-in student and storage is kept; an expired or unparsable one removes both keys; a missing key changes nothing |
| `StudentPortal.Portal.FetchCSVFromDrive` | script.js:115-141 | the fresh cache is parsed without a remote call; on a miss, the remote is called once; non-empty fetched text is cached with `now` and parsed; otherwise the sample roster is returned and the cache is left unchanged |
| `StudentPortal.Portal.Login` | script.js:207-257 | a blank trimmed identifier changes nothing and fetches nothing; otherwise the outcome is `Authenticate` on the loaded roster; only success writes the logged-in student, the saved session and `sessionTime = now`; the password is not consulted |

## Left out

- The DOM and the UI are not modelled: navigation and the login form's key handlers (script.js:48-73), `showLoading`, `hideLoading`, `showNotification` and `showPortal`. A notification that ends `login` appears as a `LoginOutcome` value. The warning the loader shows is not modelled.
- `checkGoogleDriveStatus` and `testGoogleDriveAccess` (script.js:76-106) are not modelled. They only set status text from a load.
- `fetchFromGoogleDriveAPI` (script.js:151-183) is network I/O through a foreign client. It is the `remote: Option<string>` input. `None` stands for `null` and for an `undefined` body.
- `Date.now()` is the `now` parameter.
- The stored session is the record itself, so `JSON.stringify` and `JSON.parse` are left out. A corrupt stored session, which would make `JSON.parse` throw, cannot be represented.
- The catch branch of `fetchCSVFromDrive` (script.js:143-148) is not modelled. Storage never throws in the model. In the source, a throwing `localStorage.getItem` (script.js:116-117), a failing storage write such as a full storage (script.js:133-134) or a failing `loadSampleData` reaches that branch.
- `loadSampleData`, `loadStudentData`, `showPortal` and the end of `login`'s catch branch are past the end of the visible file. The sample roster is a constant fixed when the portal is constructed.
- `StudentPortal.Portal.Login`: storage writes never fail. In the source, `currentStudent` is assigned (script.js:242) before the session is written (script.js:256-257). If a write throws, the catch branch runs with a student logged in whose session is not saved. The model does not capture that state, and `Valid()` holds only because that path is left out.
- `StudentPortal.Portal.Login` and `StudentPortal.Portal.FetchCSVFromDrive`: one time `now` serves for a whole call. The source reads the clock up to three times: for the freshness test (script.js:120), for the cache stamp after the awaited fetch (script.js:134), and for the session stamp after the awaited load (script.js:257). The model takes these readings to be equal.
- Overlapping asynchronous `login` calls are not modelled. Every operation runs to completion in turn.
- `CONFIG` and its credentials are not modelled.
- Logout is not modelled. It is not part of the visible source.
- `StudentPortal.MakeSession`: amounts are integers, and `parseFloat` is supplied from outside as `string -> Option<int>`, where `None` stands for NaN. Fractional amounts and the exact float parser are not modelled.
- `JsNumber.ParseInt`: integers are unbounded. JavaScript numbers lose precision above 2^53, but millisecond time stamps are far below that.
- `JsNumber.IntToString`: exponent notation, which `toString` uses from 10^21 on, is not modelled. Millisecond time stamps are far below that.
- `Csv.BuildRow`: a record is a map from names to fields. A plain JavaScript object treats a column named `__proto__` specially; the map does not.
- Amounts are not forced to be non-negative: a negative number that `parseFloat` reads is kept (see `StudentPortal.MakeSession`).
- A saved session is removed only when both storage keys are present; an unparsable time stamp also counts as expired (see `StudentPortal.Portal.InitializeApp`).
