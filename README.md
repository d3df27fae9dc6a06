# SAM contract-opportunity report: a Dafny model

This project models the core of a small service. The service pulls contract opportunities from
the SAM.gov search API, turns them into an Excel workbook and mails the workbook as an attachment.
It models three parts:

- **Workbook construction** (`lib/utils/excelUtils.ts`, module `ExcelUtils`):
  - flattening one opportunity record into a 27-field row of strings (`s`, `join`, `joinLines`,
    `pickPrimaryPoc`);
  - the fixed 27-column schema;
  - `addOpportunitiesSheet`: one worksheet per labelled list, with a bold header row frozen at the
    top and one row per opportunity in input order. The three single-link columns become
    hyperlinks when their value starts with `http`, and the resource-links column wraps its text;
  - the sheet loop of `samResponseToXlsxBuffer`.

  The worksheet and the workbook are classes whose methods update their fields, as ExcelJS's
  objects are. The loops of `addOpportunitiesSheet` are methods with loop invariants, proved
  against a declarative description of the finished sheet (`SheetRows`).
- **Date helpers** (`lib/utils/helpers.ts`, module `Helpers`):
  - `addMonths`, with JavaScript's `Date.setMonth` normalisation: the year carries, and a day the
    target month lacks rolls over into the next month;
  - `formatMMDDYYYY`, proved to be read back by splitting on `/`.
- **The report e-mail** (`lib/utils/emailUtils.ts`, module `EmailUtils`):
  - `parseRecipients`;
  - `sendReportEmail`: the empty-recipient guard, the single call to the mail service, and the
    log-and-rethrow of its failures, over an `Outbox` object that records what was handed to the
    service and what was logged.

Two supporting modules hold shared pieces:

- `Nullish`: `Option`, standing for JavaScript's `null`/`undefined`, and `??` as `OrElse`.
- `JsText`: the JavaScript string built-ins the code relies on, each with a contract on what it
  returns: `split` on one character, `join`, `filter(Boolean)`, `trim`, `startsWith`, `padStart`
  and `String(n)`. The lemmas beside them connect them: `split` undoes `join`, `filter(Boolean)`
  and `map(trim)` work entry by entry, and the digits of `String(n)` read back as `n`.

## Model

| member | source | states |
|---|---|---|
| JsText.Split | lib/utils/emailUtils.ts:7 | `split(',')` yields one more piece than there are separators, and no piece contains the separator |
| JsText.SplitAllWhitespace | lib/utils/emailUtils.ts:7-9 | every piece of a split is all whitespace exactly when every character is the separator or whitespace |
| JsText.SeparatorsCons | lib/utils/emailUtils.ts:7 | a string holds only separators and whitespace exactly when its first character is one and the rest holds only such characters |
| JsText.PiecesCons | lib/utils/emailUtils.ts:7-8 | a list of pieces is all whitespace exactly when its first piece and the rest are |
| JsText.WhitespaceCons | lib/utils/emailUtils.ts:8 | a string is all whitespace exactly when its first character is whitespace and the rest is all whitespace |
| JsText.SplitWithoutSeparator | lib/utils/emailUtils.ts:7 | a string without the separator splits into itself alone |
| JsText.SplitAfterPrefix | lib/utils/emailUtils.ts:7 | a separator-free prefix joins the first piece of what follows it |
| JsText.SplitJoin | lib/utils/excelUtils.ts:26 | splitting a list joined by a separator plus padding gives back the first entry and every later entry behind the padding |
| JsText.SplitJoinCommaSpace | lib/utils/excelUtils.ts:115 | splitting a `join(", ")` of comma-free entries on commas gives the first entry and every later entry behind one space |
| JsText.SplitJoinInverse | lib/utils/excelUtils.ts:30 | splitting a list joined by a one-character separator it does not contain gives back the list |
| JsText.PrefixedEmpty | lib/utils/excelUtils.ts:30 | putting an empty pad before every entry changes nothing |
| JsText.SplitAtSeparator | lib/utils/emailUtils.ts:7 | a separator-free prefix followed by the separator is split off as the first piece |
| JsText.SplitAroundSeparator | lib/utils/emailUtils.ts:7 | the pieces of `x + sep + y` are the pieces of `x` followed by the pieces of `y` |
| JsText.Join | lib/utils/excelUtils.ts:26 | `join` of no entries is ""; otherwise the result starts with the first entry and ends with the last |
| JsText.NonEmpty | lib/utils/excelUtils.ts:26 | `filter(Boolean)` keeps only non-empty strings, each taken from the input, and keeps every non-empty one |
| JsText.NonEmptyKeepsOut | lib/utils/excelUtils.ts:26 | a character absent from every entry is absent from every entry `filter(Boolean)` keeps |
| JsText.NonEmptyKeepsAll | lib/utils/excelUtils.ts:26 | `filter(Boolean)` leaves a list without empty strings unchanged |
| JsText.NonEmptyEmptyIff | lib/utils/emailUtils.ts:9 | `filter(Boolean)` leaves nothing exactly when every entry is empty |
| JsText.NonEmptySingle | lib/utils/excelUtils.ts:26 | `filter(Boolean)` keeps one entry exactly when it is non-empty |
| JsText.NonEmptyAppend | lib/utils/excelUtils.ts:26 | `filter(Boolean)` of a concatenation is the filtered halves in order, so it keeps the order and the repeats of its input |
| JsText.StartsWith | lib/utils/excelUtils.ts:40 | `startsWith(prefix)` holds exactly when the string is at least as long as the prefix and agrees with it character by character |
| JsText.LeadingWhitespace | lib/utils/emailUtils.ts:8 | the leading run of whitespace `trim` removes: every character before it is whitespace and the one at it is not |
| JsText.TrailingWhitespaceStart | lib/utils/emailUtils.ts:8 | where the trailing run of whitespace begins: every character from it on is whitespace and the one before it is not |
| JsText.Trim | lib/utils/emailUtils.ts:8 | `trim` returns the slice of its input that starts right after the leading whitespace and is followed only by whitespace, with no whitespace at either end |
| JsText.TrimTrimmed | lib/utils/emailUtils.ts:8 | `trim` is the identity on a string with no whitespace at its ends |
| JsText.LeadingPad | lib/utils/emailUtils.ts:8 | whitespace put before a string that does not start with whitespace is exactly its leading run |
| JsText.TrimAfterWhitespace | lib/utils/emailUtils.ts:8 | `trim` removes whitespace put before a trimmed non-empty string |
| JsText.TrimEmptyIff | lib/utils/emailUtils.ts:8-9 | `trim` gives "" exactly for an all-whitespace string |
| JsText.TrimKeeps | lib/utils/emailUtils.ts:8 | every character `trim` leaves occurs in its input |
| JsText.NatToString | lib/utils/helpers.ts:8-9 | `String(n)` is a non-empty digit string, with a leading zero only for 0 |
| JsText.NatToStringValue | lib/utils/helpers.ts:8-9 | reading the digits of `String(n)` back gives `n` |
| JsText.LeadingZeroValue | lib/utils/helpers.ts:8-9 | a `0` put in front of a digit string does not change its value |
| JsText.ParseDigits | lib/utils/helpers.ts:8-9 | a non-empty digit string parses to its value |
| JsText.IntToStringParses | lib/utils/helpers.ts:10-12 | `String(year)` parses back to `year`, negative years included |
| JsText.IntToString | lib/utils/helpers.ts:10-12 | `String(i)` is non-empty, starts with `-` exactly for negative `i`, and is digits apart from that sign |
| JsText.PadStart | lib/utils/helpers.ts:8-9 | `padStart` ends with the input, fills only the front, and reaches the length asked for |
| JsText.Repeat | lib/utils/helpers.ts:8-9 | the fill is `n` copies of the fill character |
| Helpers.DaysInMonth | lib/utils/helpers.ts:3 | every month has 28 to 31 days |
| Helpers.SameMonthNumberAndDay | lib/utils/helpers.ts:1-5 | two valid dates with the same month count and day are the same date |
| Helpers.Normalize | lib/utils/helpers.ts:3 | the result is valid; at month count `year * 12 + monthIndex` with the same day when that month has the day, otherwise one month later with the excess days |
| Helpers.AddMonths | lib/utils/helpers.ts:1-5 | the result is valid; it lands on the target month with the same day when that month has the day, and otherwise on the next month with the excess days |
| Helpers.AddZeroMonths | lib/utils/helpers.ts:1-5 | adding zero months changes nothing |
| Helpers.AddMonthsCompose | lib/utils/helpers.ts:1-5 | for days up to 28, adding `a` and then `b` months is adding `a + b` |
| Helpers.AddMonthsUndo | lib/utils/helpers.ts:1-5 | for days up to 28, going `n` months forward and back returns the date |
| Helpers.AddMonthsRollover | lib/utils/helpers.ts:3 | 31 January plus one month is 2 March in a leap year and 3 March otherwise; 31 May minus three months is 2 March |
| Helpers.TwoDigits | lib/utils/helpers.ts:8-9 | the field is digits whose value is the number, two characters for 0 to 99 and the number's own digits above |
| Helpers.FormatMMDDYYYY | lib/utils/helpers.ts:7-13 | `/` at positions 2 and 5; the digits before the first hold month + 1, those between hold the day, and the rest parses to the year |
| Helpers.FourDigitYear | lib/utils/helpers.ts:10 | a year from 1000 to 9999 is written as four digits with that value |
| Helpers.SlashFields | lib/utils/helpers.ts:12 | in `mm/dd/yyyy` with two-character month and day, the slashes sit at positions 2 and 5 and the fields at 0-1, 3-4 and 6 on |
| Helpers.FormatShape | lib/utils/helpers.ts:7-13 | for years 1000 to 9999 the text is 10 characters, `/` at positions 2 and 5, with digit fields holding month+1, day and year |
| Helpers.NoSlashInDigits | lib/utils/helpers.ts:12 | a digit string contains no `/` |
| Helpers.SplitThree | lib/utils/helpers.ts:12 | three separator-free fields joined by `/` split back into those three |
| Helpers.ParseThree | lib/utils/helpers.ts:12 | three parseable fields joined by `/` read back as the date they name |
| Helpers.YearField | lib/utils/helpers.ts:10 | the year field has no `/` and parses back to the year |
| Helpers.TwoDigitsField | lib/utils/helpers.ts:8-9 | a two-digit field has no `/` and parses back to its number |
| Helpers.FormatParses | lib/utils/helpers.ts:7-13 | reading a formatted valid date back by splitting on `/` gives the same date, for every year |
| Helpers.FieldsParse | lib/utils/helpers.ts:8-12 | a two-digit month, a two-digit day and `String(year)` joined by `/` read back as that month, day and year |
| ExcelUtils.FindPrimary | lib/utils/excelUtils.ts:36 | `find` returns the first contact whose type is "primary", and none exactly when no contact is primary |
| ExcelUtils.S | lib/utils/excelUtils.ts:19-22 | a missing value gives "" and a present string is kept as it is |
| ExcelUtils.JoinValues | lib/utils/excelUtils.ts:25-27 | `join` gives "" exactly when there is no array or all its entries are empty |
| ExcelUtils.JoinLines | lib/utils/excelUtils.ts:29-31 | `joinLines` gives "" exactly when there is no array or all its entries are empty |
| ExcelUtils.Contacts | lib/utils/excelUtils.ts:35 | missing contacts give the empty list and present ones are kept |
| ExcelUtils.PickPrimaryPoc | lib/utils/excelUtils.ts:34-37 | none exactly when there are no contacts; the first primary one when any exists; otherwise the first contact |
| ExcelUtils.PickTheOnlyPrimary | lib/utils/excelUtils.ts:34-37 | the only primary contact is picked wherever it stands |
| ExcelUtils.FlattenOpportunity | lib/utils/excelUtils.ts:99-137 | the row keeps notice id, title and description; contact fields come from the picked contact or are empty; office fields are empty without an address |
| ExcelUtils.FlattenBareOpportunity | lib/utils/excelUtils.ts:101-137 | an opportunity with no optional field flattens to a row empty except its notice id and title |
| ExcelUtils.JoinLinesReadsBack | lib/utils/excelUtils.ts:29-31 | splitting the joined resource links on newlines gives the non-empty links in order |
| ExcelUtils.JoinCodesReadsBack | lib/utils/excelUtils.ts:115 | splitting the joined NAICS codes on commas gives the non-empty codes in order, each after the first behind one space |
| ExcelUtils.FindColumn | lib/utils/excelUtils.ts:150 | `findIndex` returns the first column showing the key, and -1 exactly when none does |
| ExcelUtils.SchemaKeys | lib/utils/excelUtils.ts:47-82 | the schema lists the row keys in their declared order |
| ExcelUtils.AllKeysOrdinal | lib/utils/excelUtils.ts:47-82 | the `i`-th declared row key has ordinal `i` |
| ExcelUtils.KeyOrdinalInjective | lib/utils/excelUtils.ts:5-82 | two row keys with the same ordinal are the same key |
| ExcelUtils.SchemaKeysDistinct | lib/utils/excelUtils.ts:47-82 | the schema has 27 columns, column `c` shows the `c`-th key, and no key appears twice |
| ExcelUtils.FindOwnColumn | lib/utils/excelUtils.ts:150 | with distinct keys, looking up a column's own key finds that column |
| ExcelUtils.SchemaFindsEveryKey | lib/utils/excelUtils.ts:150 | in the schema, every column is found by its own key |
| ExcelUtils.SchemaFindsAllKeys | lib/utils/excelUtils.ts:150-151 | every row key is found in the schema at its ordinal, so neither lookup guard skips |
| ExcelUtils.CellText | lib/utils/excelUtils.ts:155-156 | a string cell gives its text; a hyperlink object gives "[object Object]" |
| ExcelUtils.HyperlinkValue | lib/utils/excelUtils.ts:39-45 | a hyperlink with the url as text and target exactly when the url starts with `http`, otherwise the url as a plain string |
| ExcelUtils.LinkedCell | lib/utils/excelUtils.ts:154-157 | a string cell gets `setHyperlink` of its text; a hyperlink cell is overwritten with "[object Object]"; wrapping is kept |
| ExcelUtils.LinkedStringCell | lib/utils/excelUtils.ts:39-45 | the link pass turns a string cell into a hyperlink with that text and target exactly when it starts with `http`, and leaves it otherwise |
| ExcelUtils.LinkedCellTwice | lib/utils/excelUtils.ts:154-157 | on every string cell, a second link pass keeps a plain cell and turns a hyperlink into "[object Object]", so the sheet is correct only because the pass runs once |
| ExcelUtils.HeaderRow | lib/utils/excelUtils.ts:91 | the header row has one cell per column |
| ExcelUtils.PlainRow | lib/utils/excelUtils.ts:139 | an added row has one cell per column |
| ExcelUtils.SheetRows | lib/utils/excelUtils.ts:84-169 | a finished sheet has the header then one finished row per opportunity, in order |
| ExcelUtils.SheetCells | lib/utils/excelUtils.ts:142-168 | link columns hold a hyperlink exactly for values starting with `http`; other cells hold their value as a string; only the resource-links column wraps |
| ExcelUtils.Worksheet.constructor | lib/utils/excelUtils.ts:89 | a new worksheet has its name, no columns, no rows, no bold header and no frozen rows |
| ExcelUtils.Worksheet.SetColumns | lib/utils/excelUtils.ts:91 | sets the columns and writes their headers as row 1 |
| ExcelUtils.Worksheet.AddRow | lib/utils/excelUtils.ts:139 | appends one row holding each column's value, and nothing else changes |
| ExcelUtils.Worksheet.SetCell | lib/utils/excelUtils.ts:154-157 | replaces the one cell at a 1-based row and column |
| ExcelUtils.Workbook.constructor | lib/utils/excelUtils.ts:178 | a new workbook has no creator, no creation time and no worksheets |
| ExcelUtils.Workbook.AddWorksheet | lib/utils/excelUtils.ts:89 | appends a fresh empty worksheet with the given name, keeping the existing ones and the metadata |
| ExcelUtils.HyperlinkColumn | lib/utils/excelUtils.ts:153-158 | every data row's cell in the column goes through the link pass; row 1 and all other cells stay |
| ExcelUtils.HyperlinkColumns | lib/utils/excelUtils.ts:149-159 | exactly the columns found for the link keys go through the link pass once each; a key with no column is skipped |
| ExcelUtils.WrapColumn | lib/utils/excelUtils.ts:161-168 | every data cell of the found column wraps, and nothing changes when the column is missing |
| ExcelUtils.FinishedCell | lib/utils/excelUtils.ts:142-168 | the link pass followed by the wrap pass turns each added cell into the finished sheet's cell |
| ExcelUtils.FinishedRow | lib/utils/excelUtils.ts:142-168 | both passes turn an added data row into the finished data row |
| ExcelUtils.PlainSheet | lib/utils/excelUtils.ts:91-140 | before the passes, a sheet has the header then the row `addRow` appends for each opportunity, in order |
| ExcelUtils.PlainSheetAppend | lib/utils/excelUtils.ts:98-140 | one more opportunity adds exactly its row at the end |
| ExcelUtils.AddPlainRows | lib/utils/excelUtils.ts:98-140 | below the header, the loop leaves exactly one added row per opportunity, in input order, and changes nothing else |
| ExcelUtils.LayOutSheet | lib/utils/excelUtils.ts:91-168 | for a schema with distinct keys, an empty worksheet ends with those columns, a bold header, one frozen row and exactly the finished sheet's rows |
| ExcelUtils.AddOpportunitiesSheet | lib/utils/excelUtils.ts:84-169 | appends one fresh worksheet with the schema, a bold header, one frozen row and the finished rows; earlier sheets and the metadata are untouched |
| ExcelUtils.SamResponseToWorkbook | lib/utils/excelUtils.ts:175-185 | a fresh workbook by "Tepnology LLC", created at the given time, with one distinct fresh worksheet per input sheet, each built from that sheet's data, in input order |
| EmailUtils.TrimAll | lib/utils/emailUtils.ts:8 | `map(trim)` trims every entry and keeps the count |
| EmailUtils.ParseRecipients | lib/utils/emailUtils.ts:5-10 | every address is non-empty, trimmed and comma-free; there are at most as many as comma-separated pieces; an unset variable gives none |
| EmailUtils.RecipientsRoundTrip | lib/utils/emailUtils.ts:5-10 | clean addresses joined by a comma followed by the same whitespace run each time are read back as exactly those addresses, in order |
| EmailUtils.ParseRecipientsOne | lib/utils/emailUtils.ts:5-10 | a comma-free value names its trimmed self, or nobody when it is blank |
| EmailUtils.ParseRecipientsCons | lib/utils/emailUtils.ts:5-10 | the recipients of `x + "," + y` are those of `x` followed by those of `y`; with the previous row this fixes the result for every value |
| EmailUtils.TrimAllAppend | lib/utils/emailUtils.ts:8 | `map(trim)` of a concatenation is the trimmed halves in order |
| EmailUtils.TrimPadded | lib/utils/emailUtils.ts:8 | trimming the pieces of a padded list of clean addresses gives back the list |
| EmailUtils.NoRecipientsIff | lib/utils/emailUtils.ts:19-20 | the empty-list guard fires exactly when `EMAIL_TO` is unset or holds only commas and whitespace |
| EmailUtils.AppendWellAddressed | lib/utils/emailUtils.ts:19-29 | adding a message with a non-empty list of clean addresses keeps every sent message well addressed |
| EmailUtils.Outbox.constructor | lib/utils/emailUtils.ts:27 | a new outbox has sent nothing and logged nothing |
| EmailUtils.SendReportEmail | lib/utils/emailUtils.ts:12-45 | with no recipient: throws "EMAIL_TO is empty", logs it and sends nothing; otherwise: hands the service exactly one message to the parsed recipients with the one attachment, returns the service's result, and logs and rethrows its exception; every message sent names at least one clean address |

## Left out

- `wb.xlsx.writeBuffer()` and the XLSX file format are not modelled. `ExcelUtils.SamResponseToWorkbook` returns the in-memory workbook that would be encoded.
- Column widths are recorded in the schema, but no rendering is modelled. The bold header font and the frozen view are modelled as the flags `headerBold` and `frozenRows`.
- ExcelJS's own checks on worksheet names (length, forbidden characters, duplicates) are not modelled. The library is not part of this model.
- In `ExcelUtils.HyperlinkColumn`, `String(cell.value ?? '')` is modelled only for the values the sheet can hold: strings and hyperlink objects. A hyperlink object gives "[object Object]".
- The opportunity fields the flattener never reads are left out of the `Opportunity` datatype: award, place of performance, links, archive type, base type and organization type. So are the `OpportunityRow` keys that no column shows.
- `EmailUtils.SendReportEmail`:
  - the base64 encoding of the attachment is not modelled; the message carries the attachment's bytes;
  - the React element of the body is carried as an uninterpreted string;
  - the mail service is an outcome passed in as a parameter;
  - `await`, the Resend client itself and the console are not modelled; the console appears only as the `Outbox` error log.
- `EMAIL_TO`, `EMAIL_FROM` and the current time are parameters. They are not read from the environment or the clock.
- Dates are calendar dates in local time. Time of day, time zones and daylight-saving shifts of `Date.setMonth` are not modelled. `Helpers.AddMonths` models one day rollover, which suffices because a day of at most 31 exceeds any month by at most 3.
- `Helpers.FormatShape` states the fixed 10-character shape only for years 1000 to 9999. `formatMMDDYYYY` writes the year with `String(year)`, unpadded, so other years give other lengths. `Helpers.FormatParses` holds for every year. The code's behaviour is followed here, where a four-digit year might be expected.
- Helpers.AddMonths: years and month counts are unbounded here. A JavaScript `Date` holds at most 8.64e15 ms either side of 1970, and `setMonth` past that range gives an invalid date. That limit lies about 270,000 years from any date the report uses, and the callers shift by a few months.
- `trim` is modelled with the ECMAScript WhiteSpace and LineTerminator characters listed in `JsText.IsWhitespace`.
- The API routes under `app/api/sam/contractOpportunities/export`, the SAM.gov client, `lib/utils/constants.ts` and the e-mail template `lib/email/templates/SamReportEmail.tsx` are not part of this model.
