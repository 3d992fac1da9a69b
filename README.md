# A Dafny model of the Next.js + MySQL demo's core logic

The application is a small Next.js site backed by MySQL. This project models its
logic, leaving out the pages' markup and the HTTP glue. It covers four parts.

- **The input validator** (`Validator`, over `JsText`). Each `validate*` routine pushes error
  messages onto a list, one check after another. Here each routine is a method. The method
  takes a `Check` per test and pushes the message only when its test fails, and it is proved to
  return exactly `Collect` of the routine's checks. Lemmas then state what those checks mean:
  - each message appears at most once, in check order;
  - each message appears exactly when its rule is broken;
  - `isValid` holds exactly when no message was pushed.

  JavaScript values (`undefined`, `null`, strings, numbers, `NaN`, objects), truthiness,
  `typeof`, `trim`, `parseInt` and `String(n)` are written out as functions. The e-mail regular
  expression becomes a structural predicate. It is proved equal to the validator's scanning
  definition.
- **The database services** (`Services`, over `Sql` and `Tables`). The SQL the services send is
  a datatype: the select list, the FROM source, the WHERE text, the order, the LIMIT/OFFSET and
  the bound values. The services can then be checked for:
  - which statement each one builds and which values it binds;
  - whether every `?` placeholder is bound.

  Reads go through a `Reader` function, which stands for the MySQL pool: given a statement and
  its values, it returns rows or a failure. Writes go to a `Database` class. Its fields are the
  three tables as maps from id to row, plus each table's AUTO_INCREMENT counter. `Insert`,
  `Update` and `Delete` enforce the constraints of the schema in
  `scripts/init-database.ts` (values are compared exactly; see "Left out"):
  - UNIQUE columns: `users.username`, `users.email` and `categories.name`;
  - the products-to-categories foreign key, with `ON DELETE SET NULL`.

  The class invariant is that these constraints hold and that every counter is ahead of the ids
  in use.
- **The calendar page** (`Calendar`). `new Date(y, m, d)` is modelled as ECMAScript's day
  number:
  - month overflow is normalised, as in MakeDay;
  - years 0 to 99 map to 1900 + y;
  - the proleptic Gregorian calendar is used, counted from 1970-01-01, which was a Thursday.

  On that basis the model has the days in a month, the weekday of a month's first day, a date's
  weekday name, `MM/DD/YYYY` formatting, the year and day option lists and the calendar grid.
  The grid is a method with the page's two loops.
- **The calculator page** (`Calculator`). A class holds the page's four state variables, and
  one method per key handler overwrites them. `calculate` is a pure function. Numbers are
  reals. `parseFloat` and `String(number)` are functions the calculator is constructed with.

`Wrappers` holds `Option` and `Result`.

## Model

| member | source | states |
|---|---|---|
| JsText.Trim | src/lib/validator.ts:7 | `trim` returns a slice of its input whose two ends are not white space. Everything cut away is white space, and the result is empty exactly when the input is all white space |
| Validator.IsBlank | src/lib/validator.ts:7 | the "required" test fails exactly when the value is not a string with a non-white-space character: missing, falsy, not a string, or blank after trimming |
| Validator.ValidateUser | src/lib/validator.ts:4-23 | the errors are exactly those of the failed user checks, in order, and `isValid` holds exactly when there are none |
| Validator.UserChecksMeaning | src/lib/validator.ts:7-17 | each user error appears at most once and in check order. "Username required" appears exactly when the username is not a non-blank string. "Username length" appears exactly when it is one but its length is outside 3..50. The e-mail errors work the same way, with the format error raised exactly when the e-mail does not match the pattern |
| Validator.IsValidEmail | src/lib/validator.ts:153-156 | the e-mail test, written as a split at the first `@`; its contract is `Validator.EmailCheckMatchesPattern` |
| Validator.EmailCheckMatchesPattern | src/lib/validator.ts:153-156 | the e-mail check accepts a string exactly when it has the shape `^[^\s@]+@[^\s@]+\.[^\s@]+$`: a non-empty local part, one `@`, and a domain with an inner `.`, with no white space or second `@` |
| Validator.ValidateProduct | src/lib/validator.ts:26-55 | the errors are exactly those of the failed product checks, in order, and `isValid` holds exactly when there are none |
| Validator.ProductChecksOrder | src/lib/validator.ts:29-49 | product errors appear at most once, in check order, and only product errors appear |
| Validator.ProductChecksMeaning | src/lib/validator.ts:29-49 | the name is required and at most 200 code units. A truthy description must be a string. The price must be a number above 0. A present stock must be a number not below 0. A present, non-null category id must be a number above 0. Each error appears exactly when its rule is broken |
| Validator.ValidateCategory | src/lib/validator.ts:58-75 | the errors are exactly those of the failed category checks, in order, and `isValid` holds exactly when there are none |
| Validator.CategoryChecksMeaning | src/lib/validator.ts:61-69 | the name is required and at most 100 code units, and a truthy description must be a string. Each error appears exactly when its rule is broken, in check order |
| Validator.ValidatePagination | src/lib/validator.ts:78-98 | page and limit are `parseInt` of the parameter, or of "1" / "10" when it is absent or empty. The errors are the failed page and limit checks, and `isValid` holds exactly when there are none |
| Validator.PaginationChecksMeaning | src/lib/validator.ts:84-90 | the page error appears exactly when the page is NaN or below 1. The limit error appears exactly when the limit is NaN or outside 1..100 |
| Validator.PaginationDefaults | src/lib/validator.ts:81-82 | missing parameters read as page 1 and limit 10, and the decimal text of any integer reads back as that integer |
| Validator.ValidateId | src/lib/validator.ts:101-114 | the id is valid exactly when `parseInt` gives a number above 0. A numeric id is returned exactly then, and it is that number. Otherwise the single error is the id error. The decimal text of every positive integer is accepted as that integer |
| Validator.ValidateFileUpload | src/lib/validator.ts:117-150 | no file gives only the "no file" error. Otherwise "too large" appears exactly when the size exceeds 10 MiB, and "type" appears exactly when the MIME type is not one of the seven allowed, in that order |
| Validator.RemoveAngleBrackets | src/lib/validator.ts:160 | every character other than `<` and `>` stays, as often as it occurs, and the result is shorter by the number of brackets |
| Validator.RemoveAngleBracketsChar | src/lib/validator.ts:160 | a single `<` or `>` is dropped and any other single character is kept |
| Validator.RemoveAngleBracketsConcat | src/lib/validator.ts:160 | removing brackets from joined text gives the two removals joined, so with the single-character case the result is the input, in order, minus its brackets |
| Validator.SanitizeString | src/lib/validator.ts:159-161 | the result has no `<` or `>`. Every other character of the trimmed input stays, as often as it occurs there, and the length drops by the number of brackets |
| Validator.SanitizeNotIdempotent | src/lib/validator.ts:159-161 | sanitising `"< a"` gives `" a"`, which still begins with white space, and sanitising it again gives `"a"` |
| Validator.SanitizeStringTrimmed | src/lib/validator.ts:159-161 | removing the brackets before trimming gives a result with no `<` or `>` that neither starts nor ends with white space |
| Validator.SanitizeTrimmedIdempotent | src/lib/validator.ts:159-161 | sanitising that way twice is the same as sanitising once |
| Validator.SanitizeTrimmedExample | src/lib/validator.ts:159-161 | sanitising that way turns `"< a"` into `"a"` |
| Services.Query | src/lib/services.ts:7-15 | a query returns the pool's rows, or fails with the fixed message exactly when the pool fails |
| Services.QueryOne | src/lib/services.ts:18-21 | the first row, or null exactly when there are no rows. A failure is passed on |
| Services.WhereOf | src/lib/services.ts:73 | the WHERE clause is omitted exactly when the clause text is empty |
| Services.TotalOf | src/lib/services.ts:89 | `total \|\| 0`: a non-zero total is the count row's `total`, and a missing row gives 0 |
| Services.Exists | src/lib/services.ts:103-107 | `exists` is true exactly when `SELECT 1 … LIMIT 1` returns a row. A failure is passed on |
| Services.Count | src/lib/services.ts:110-115 | no count row gives 0. Otherwise the count is the first row's `total`, or 0 when that is missing or falsy. A failure is passed on |
| Services.PlanPageDefaults | src/lib/services.ts:63-68 | absent options mean page 1, limit 10, offset 0, the default column, descending, with "10" and "0" bound after the WHERE values |
| Services.PlanPageBindings | src/lib/services.ts:70-89 | the data and count queries share one WHERE, which is absent exactly when the clause is empty. The offset is `(page-1)*limit`. The data query binds the WHERE values, then the limit and offset as text MySQL reads back as those numbers. The count query binds only the WHERE values. When the clause has one `?` per value, every placeholder is bound |
| Services.PagesPartitionRows | src/lib/services.ts:70 | page 1 starts at row 0 and each page starts `limit` rows after the previous one, so each row is on exactly one page, page `index / limit + 1` |
| Services.CeilQuotient | src/lib/services.ts:97 | `Math.ceil(total / limit)` is the least integer not below the quotient, for either sign of the limit |
| Services.TotalPagesCoverRows | src/lib/services.ts:97 | with a positive limit, `totalPages` pages hold all `total` rows and not one page more. It is 0 exactly when there are no rows, every row's page is within 1..totalPages, and the last row is on the last page |
| Services.RunPage | src/lib/services.ts:84-99 | the page succeeds exactly when both queries do. It returns the data rows and echoes page and limit, `totalPages` follows from the total, and the total is the first count row's `total` (0 when it is missing or falsy), or 0 when there is no count row |
| Services.Paginate | src/lib/services.ts:57-100 | a failure carries the fixed message. On success the envelope echoes the requested page and limit, or 1 and 10 when they are absent. The statements it sends are stated by `Services.PlanPageBindings` and `Services.PlanPageDefaults`, and the rest of the result by `Services.RunPage` |
| Services.ProductFindAll | src/lib/services.ts:161-202 | the same envelope as `paginate`: the fixed message on failure, and the requested or default page and limit on success. The filter is stated by `Services.ProductFindAllFilter` |
| Services.ProductFindAllFilter | src/lib/services.ts:161-202 | both queries filter on `p.category_id = ?` exactly when the category id is truthy. The id is then bound first in both, and every placeholder is bound either way |
| Services.UserFindAll | src/lib/services.ts:120-122 | the same envelope as `paginate`: the fixed message on failure, and the requested or default page and limit on success |
| Services.UserFindAllUnfiltered | src/lib/services.ts:120-122 | both queries read all of `users` with no WHERE. The count binds nothing, the data query binds only the limit and the offset, and every placeholder is bound |
| Services.CategoryIdOrNull | src/lib/services.ts:216 | `categoryId \|\| null` binds NULL exactly when the id is absent or 0, and the id otherwise |
| Services.DescriptionOrNull | src/lib/services.ts:245 | `description \|\| null` binds NULL exactly when the description is absent or empty, and the text otherwise |
| Services.WriteBindings | src/lib/services.ts:132-144 | every write binds exactly as many values as it has placeholders. Each update also binds the id last; its other values equal the matching create's by construction |
| Services.UserRowBinding | src/lib/services.ts:132-137 | the user INSERT stores username and email in their own columns |
| Services.ProductRowBinding | src/lib/services.ts:213-218 | the product INSERT stores name, description, price, stock and the category id or NULL in their own columns |
| Services.CategoryRowBinding | src/lib/services.ts:242-247 | the category INSERT stores name and the description or NULL in their own columns |
| Services.CreateUser | src/lib/services.ts:132-137 | succeeds exactly when neither username nor e-mail is already taken. It then returns a fresh id and adds exactly that row. Otherwise it fails and nothing changes |
| Services.UpdateUser | src/lib/services.ts:139-144 | an unknown id changes nothing and reports 0 rows. Otherwise the row takes the new username and e-mail and reports 1, unless they clash with another user, in which case it fails and nothing changes |
| Services.CreateProduct | src/lib/services.ts:213-218 | succeeds exactly when the category id is falsy or names an existing category. It then adds exactly the new row under a fresh id. Otherwise nothing changes |
| Services.UpdateProduct | src/lib/services.ts:220-225 | an unknown id gives 0 rows. Otherwise the row's five columns are overwritten and it reports 1, or it fails without change when the category does not exist |
| Services.CreateCategory | src/lib/services.ts:242-247 | succeeds exactly when no category has the name. It then adds exactly the new row under a fresh id. Otherwise nothing changes |
| Services.UpdateCategory | src/lib/services.ts:249-254 | an unknown id gives 0 rows. Otherwise name and description are overwritten and it reports 1, or it fails without change on a name clash |
| Services.Remove | src/lib/services.ts:256-258 | deleting reports 1 and removes the row when the id exists, and reports 0 with no change otherwise. Deleting a category sets its products' category to NULL |
| Tables.Database.constructor | scripts/init-database.ts:52-88 | the three tables start empty, with AUTO_INCREMENT at 1 |
| Tables.Database.Insert | src/lib/services.ts:24-32 | an INSERT succeeds exactly when there is one value per column and the row breaks no UNIQUE or foreign-key constraint. It returns the table's counter as the new id, stores the row there and advances the counter. A failure carries the fixed message and changes nothing. The constraints keep holding |
| Tables.Database.Update | src/lib/services.ts:35-43 | an UPDATE of an unknown id affects 0 rows. A known id has its named columns overwritten and affects 1 row, unless a constraint rejects the new row, in which case it fails without change. A mismatch between values and placeholders fails |
| Tables.Database.Delete | src/lib/services.ts:46-54 | a DELETE of an unknown id affects 0 rows. A known id is removed, and deleting a category nulls the references to it, so no product is left pointing at it |
| Tables.AssignBinds | src/lib/services.ts:215 | a column listed in an INSERT gets the value bound at its last position |
| Tables.AssignMerge | src/lib/services.ts:222 | an UPDATE overwrites the named columns and keeps every other column of the row |
| Tables.InsertConsistent | scripts/init-database.ts:55-86 | storing an accepted row under the next id keeps the UNIQUE and foreign-key constraints and the counters valid |
| Tables.UpdateConsistent | scripts/init-database.ts:55-86 | replacing a row with an accepted one keeps the constraints valid |
| Tables.DeleteConsistent | scripts/init-database.ts:86 | deleting a row with `ON DELETE SET NULL` keeps the constraints valid, and no product refers to the deleted category |
| Calendar.JsYear | src/app/calendar/page.tsx:32 | `new Date(y, …)` reads years 0..99 as 1900..1999 and every other year as itself |
| Calendar.DaysInMonth | src/app/calendar/page.tsx:31-33 | day 0 of the next month is the last day of this month, so the result is always between 28 and 31 |
| Calendar.DayZeroIsLastDay | src/app/calendar/page.tsx:31-33 | the date `new Date(year, month, 0)` names is the last day of month `month`, for every month number, including ones that roll into another year |
| Calendar.DaysInMonthTable | src/app/calendar/page.tsx:31-33 | months 1..12 have 31, 30 or 28/29 days in the Gregorian pattern, with 29 in February of a leap year |
| Calendar.FirstDayOfMonth | src/app/calendar/page.tsx:36-38 | the first day's weekday is always between 0 (Sunday) and 6 |
| Calendar.FirstDayRecurrence | src/app/calendar/page.tsx:36-38 | the next month starts as many weekdays later as this month has days |
| Calendar.JanuaryFirst | src/app/calendar/page.tsx:36-38 | a year's first weekday is the weekday of its day number since 1970 |
| Calendar.EpochThursday | src/app/calendar/page.tsx:36-38 | January 1970 starts on a Thursday |
| Calendar.Year2000Saturday | src/app/calendar/page.tsx:36-38 | January 2000 starts on a Saturday |
| Calendar.Leap2024 | src/app/calendar/page.tsx:31-33 | February 2024 has 29 days |
| Calendar.WeekdayShift | src/app/calendar/page.tsx:50-54 | moving `k` days on moves the weekday `k` places on, modulo 7 |
| Calendar.DayOfWeek | src/app/calendar/page.tsx:50-54 | the result is one of the seven weekday names; `Calendar.DayOfWeekFromFirst` states which one |
| Calendar.DayOfWeekFromFirst | src/app/calendar/page.tsx:50-54 | a date's weekday name is the month's first weekday moved on by `day - 1`, and day 1 names the first weekday |
| Calendar.PadStart2 | src/app/calendar/page.tsx:43-44 | `padStart(2, '0')` leaves text of length 2 or more alone, and otherwise puts zeros in front until the length is 2 |
| Calendar.PadTwoDigits | src/app/calendar/page.tsx:43-44 | a padded number from 1 to 99 is two characters that read back as the number |
| Calendar.FormatDate | src/app/calendar/page.tsx:41-47 | month and day padded to two digits, then the year, joined by `/`; its contract is `Calendar.FormatDateShape` |
| Calendar.FormatDateShape | src/app/calendar/page.tsx:41-47 | for four-digit years, the date text is `MM/DD/YYYY`: ten characters with `/` at positions 2 and 5, and each part reads back as the month, day and year |
| Calendar.YearOptions | src/app/calendar/page.tsx:12 | exactly the 100 consecutive years from 50 before the current year to 49 after it |
| Calendar.DayOptions | src/app/calendar/page.tsx:140 | exactly the days 1..n of the month, in order, where n is its number of days |
| Calendar.CountAfterBlanks | src/app/calendar/page.tsx:63-70 | a grid of blanks followed by days holds as many days as it has cells after the blanks |
| Calendar.GenerateCalendarGrid | src/app/calendar/page.tsx:57-73 | the grid is `firstDay` blanks followed by the days 1..n in order. It holds exactly n days and at most 6 + n cells |
| Calculator.CalculateInverses | src/app/calculator/page.tsx:54-69 | `-` undoes `+` and the other way round, and `÷` by a non-zero operand undoes `×` |
| Calculator.Calculate | src/app/calculator/page.tsx:54-69 | `-` takes a sum back to the first operand and `+` a difference, and `×` and `÷` do the same for each other when the second operand is not 0. Multiplying by 0 and dividing by 0 both give 0, and `=` or any other key gives the second operand |
| Calculator.AppendDigit | src/app/calculator/page.tsx:17 | appending a digit to display text other than a lone `0` keeps it display text with no new decimal point |
| Calculator.AppendPoint | src/app/calculator/page.tsx:25-26 | appending `.` to display text without a point gives display text with exactly one point |
| Calculator.Calculator.constructor | src/app/calculator/page.tsx:7-10 | the page starts at display `0`, with nothing held, no operator and not waiting |
| Calculator.Calculator.InputNumber | src/app/calculator/page.tsx:12-19 | a digit replaces the display when waiting for an operand or when the display is a lone `0`, and is appended otherwise. Waiting ends, and digits keep the display invariant |
| Calculator.Calculator.InputDecimal | src/app/calculator/page.tsx:21-28 | when waiting the display becomes `0.`. Otherwise a point is appended only when there is none. The display then always holds exactly one point, so a second point is never created |
| Calculator.Calculator.Clear | src/app/calculator/page.tsx:30-35 | everything returns to the starting state |
| Calculator.Calculator.PerformOperation | src/app/calculator/page.tsx:37-52 | with nothing held, the parsed display is held and the display stays. With a value and a pending operator, their result is shown and held. The key always becomes the pending operator, and the next digit starts a new operand |
| Calculator.Calculator.HandleEquals | src/app/calculator/page.tsx:71-81 | with a value and a pending operator, their result is shown, both are dropped, and the next digit starts a new operand. Otherwise nothing changes |
| Calculator.OnePlusTwo | src/app/calculator/page.tsx:37-81 | keying `1 + 2 =` on a fresh calculator shows the text of 3 |

## Left out

- Network and database I/O, the `mysql2` connection pool and its configuration, and console logging are not modelled. Reads go through the `Reader` parameter, and writes go to the in-memory `Database`.
- The `created_at` / `updated_at` timestamps, `updated_at = CURRENT_TIMESTAMP` and column defaults are not modelled. They depend on the clock.
- Column types, lengths and NOT NULL constraints are not modelled. A row is a map from column name to value, so a missing column is simply absent.
- Tables.Database.Insert: a rejected INSERT leaves the AUTO_INCREMENT counter unchanged. MySQL's InnoDB may still consume an id, so gaps in the ids are not modelled.
- Services.RunPage: LIMIT and OFFSET are bound as values but not evaluated. The data rows are whatever `Reader` returns for the data query, so the bound `data.length <= limit` that MySQL's LIMIT gives is not stated.
- A statement's WHERE clause is kept as text and not evaluated. The services' reads go through `Reader`, so the rows a filter selects are not modelled.
- `UserService.findById`, `findByEmail`, `existsByEmail`, `existsByUsername`, `ProductService.findById`, `CategoryService.findAll`, `findById` and `existsByName` each send one fixed query through `queryOne`, `query` or `exists`. Those three are modelled, but the individual wrappers are not.
- Tables.Database.Insert: UNIQUE columns are compared by exact equality, here and in `Tables.Database.Update`. MySQL's default collations compare text case-insensitively, and depending on the collation also ignore accents or trailing spaces, so a duplicate such as `Alice` against `alice` is accepted here where the server rejects it.
- Services.UpdateProduct: the callers are not modelled. The `PUT /api/products/[id]` route passes `description` and `stock` straight from the body, and they may be `undefined`; `mysql2` rejects an `undefined` bind value, so the server's update then fails. Here both are always present.
- Validator.ValidateProduct: the body is always a record here. A `null` or `undefined` body makes the source throw a TypeError at its first field access rather than return errors.
- Validator.ValidateUser: the same holds for a `null` or `undefined` body, which throws when `data.username` is read.
- Validator.ValidateCategory: the same holds for a `null` or `undefined` body, which throws when `data.name` is read.
- Validator.ValidateFileUpload: the file is a `File` or absent, as declared. `formData.get("file")` may also return a string, which the upload route passes on unchecked; a string is not modelled.
- The race between an `exists` check and the following insert is not modelled, nor is any other concurrency.
- Validator.ValidatePagination: URL search parameters are an optional string per name. A repeated parameter is not modelled.
- JavaScript numbers are reals in the validator, the calculator and the product price. Ids, counts, stock, page and limit are integers in the services. `NaN` appears only where a check tests for it: `parseInt` and the validator's values. Infinity, `-0`, rounding and non-integer page or limit options are not modelled.
- Services.TotalOf: a count whose `total` is not an integer is taken as 0.
- Calendar: `Date` is reduced to its day number. Time of day, time zones, daylight saving and the ±100,000,000-day range limit of a time value are not modelled, and neither are `NaN` arguments. The `months` name list is a constant table with no logic and is not modelled.
- Calculator: `parseFloat` and `String(number)` are the calculator's `parse` and `show` functions. The only assumption is that `show` writes display text: non-empty, at most one decimal point, and no zero in front of a digit. IEEE arithmetic is not modelled. `previousValue || 0` equals the held value for reals.
- `sanitizeNumber` (`parseFloat`) and the pages' `formatFileSize` (logarithms and `toFixed`) are not modelled: both are floating-point behaviour.
- The keyboard handler in the calculator page is commented out in the source and is not modelled.

## Findings

| source | as written | input that shows it | evidently intended | confidence | as-written member | corrected member |
|---|---|---|---|---|---|---|
| src/lib/validator.ts:159-161 | `sanitizeString` trims first and removes `<` and `>` afterwards, so removing a bracket can expose white space at either end | `"< a"` sanitises to `" a"`, and sanitising that again gives `"a"` | the result is trimmed text without brackets, and sanitising twice is sanitising once | medium, not executed | Validator.SanitizeNotIdempotent | Validator.SanitizeTrimmedIdempotent |
