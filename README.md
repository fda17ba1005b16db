# Gas-consumption report delivery over WhatsApp, modelled in Dafny

The system reads a spreadsheet of gas-meter readings, one row per apartment.
It turns the rows into records and formats them as a Portuguese WhatsApp
message. A worker process then types that message into WhatsApp Web through
a browser driver. This project models the core of the system and proves
properties of the model:

- `Ingest` (app/services/excel_service.py) covers the following:
  - dropping the unnamed columns and the empty rows;
  - converting the date column and the numeric columns;
  - the optional month filter;
  - the row loop that keeps the data rows and turns them into records;
  - `_safe_float_convert`, which never raises.
- `Report` and `Currency` (app/services/json_utils.py) cover
  `format_message_with_styles`, which works in four steps:
  - it renames the columns;
  - it refuses a table that lacks a needed column;
  - it appends one five-line block per row, with the amount in Brazilian
    money format;
  - it removes the emoji ranges.
- `Service` (app/services/whatsapp_service.py) covers the text each worker
  receives and the reply or error each service call produces.
- `Automation` (app/services/whatsapp_automation.py) covers the three worker
  procedures:
  - waiting for the page;
  - opening the chat;
  - typing multi-line text, with SHIFT+ENTER between lines and ENTER at the
    end;
  - quitting the browser in `finally`.

  The browser is a `Session` object. Each call on it is recorded as an event
  in its `trace`. Whatever the page decides is read from a sequence of
  answers. Each procedure is a method, proved to follow a specification
  function. The chat input is modelled as a plain text buffer: `clear()`
  empties it and ENTER sends its content as it stands. The lemmas then state
  what ENTER sends from the input.
- `Routes` (app/api/routes.py) covers the following endpoints:
  - `upload-excel`, including its extension check and its error re-wrapping;
  - `send-whatsapp` and `test-whatsapp-simple`, including their cleaning
    and their empty-message error;
  - `get-available-months`, including its month extraction and its sorted
    month list.
- `Text` holds the Python `str` operations these files use: `strip`,
  `split`, `replace`, `lower`, the ASCII filter, `str(n)` and the string
  ordering. `Wrappers` holds `Option` and `Result`.

A Brazilian thousands point is not understood: "1.234,56" reaches the
parser as "1.234.56" and converts to 0.0 (`Ingest.CleanNumericBrazilian`).

## Model

| member | source | states |
|---|---|---|
| Ingest.CleanNumericRemoves | app/services/excel_service.py:79-82 | the cleaned text has no ',' and no '%' left |
| Ingest.CleanNumericKeeps | app/services/excel_service.py:79-82 | a stripped plain number without ',', 'R' or '%' is passed to the parser unchanged |
| Ingest.CleanNumericComma | app/services/excel_service.py:82 | a decimal comma becomes a point and nothing else changes |
| Ingest.CleanNumericBrazilian | app/services/excel_service.py:82-87 | "1.234,56" reaches the parser as "1.234.56": the thousands point stays |
| Ingest.SafeFloatZero | app/services/excel_service.py:74-89 | missing values, blank strings and non-string, non-number values all convert to 0.0 |
| Ingest.SafeFloatUnparsed | app/services/excel_service.py:82-87 | a string whose cleaned form does not parse converts to 0.0 instead of raising |
| Ingest.SafeFloatPlain | app/services/excel_service.py:78-84 | a plain number string converts to exactly the parser's value |
| Ingest.KeepNamed | app/services/excel_service.py:95 | keeps one entry per named column |
| Ingest.Cleanup | app/services/excel_service.py:95-96 | the cleaned table is rectangular |
| Ingest.CleanupSpec | app/services/excel_service.py:95-96 | keeps exactly the named columns, in order; keeps exactly the rows that still hold a value, in order and with their multiplicities; no unnamed column and no all-missing row is left |
| Ingest.MapColumn | app/services/excel_service.py:104-107 | converting one column changes that column in every row and no other cell |
| Ingest.FormatDataframe | app/services/excel_service.py:91-124 | the method computes the cleaned, date-converted and number-converted table |
| Ingest.FormatNumericColumns | app/services/excel_service.py:111-123 | the loop converts each numeric column that is present, in turn |
| Ingest.FormattedShape | app/services/excel_service.py:95-96 | the formatted table has the named columns in order and one row per cleaned row |
| Ingest.FormattedDates | app/services/excel_service.py:100-109 | the date column, when present, holds the day/month/year text of each cell's date, or "" when there is none |
| Ingest.FormattedNumbers | app/services/excel_service.py:111-116 | every numeric column that is present holds, row by row, the number its cleaned cell coerces to, or 0 where it coerces to nothing; the columns and the row count are those of the cleaned table |
| Ingest.ZFill | app/services/excel_service.py:144 | the padded text is at least the requested width |
| Ingest.ParseIntNat | app/services/excel_service.py:154-155 | `int(str(n)) == n` |
| Ingest.ParseIntZFill | app/services/excel_service.py:144-154 | a month padded to two digits reads as the same number |
| Ingest.ParseDefaultYear | app/services/excel_service.py:145 | the default year reads as 2025 |
| Ingest.SplitTargetPair | app/services/excel_service.py:141-142 | "MM/YYYY" unpacks into its month and its year |
| Ingest.SplitTargetMonth | app/services/excel_service.py:143-145 | a target without '/' is that month of 2025 |
| Ingest.SplitTargetFails | app/services/excel_service.py:141-142 | unpacking fails exactly when the target holds two or more '/' |
| Ingest.FilterByMonth | app/services/excel_service.py:126-176 | the filtered table keeps the columns and stays rectangular |
| Ingest.FilterByMonthSpec | app/services/excel_service.py:137-176 | keeps, in order and with their multiplicities, exactly the rows whose date falls in the target month and year; with no date column, an unpackable target or a non-integer month or year, the table is returned unchanged |
| Ingest.ProcessRows | app/services/excel_service.py:37-59 | the loop produces the records of the data rows and, as target date, the date of the first record |
| Ingest.ItemsAppend | app/services/excel_service.py:37-54 | rows are processed in order: the records of a + b are those of a followed by those of b |
| Ingest.ItemsFrom | app/services/excel_service.py:39-53 | every record comes from a data row, with its stripped date and apartment and its converted numbers |
| Ingest.ItemsValid | app/services/excel_service.py:39-44 | every record has a non-empty date and apartment that are not the header words |
| Ingest.ItemsNone | app/services/excel_service.py:37-62 | there is no record exactly when no row is a data row |
| Ingest.ProcessExcelContent | app/services/excel_service.py:9-67 | the method computes the processing outcome: read, format, optionally filter, then the row loop |
| Ingest.ProcessSpec | app/services/excel_service.py:21-67 | the result is an error exactly when reading failed or no data row is left, and the message carries the "Error processing Excel file: " prefix; otherwise it holds the records (at least one) and the first record's date |
| Report.NormalizeColumns | app/services/json_utils.py:40 | every column name is stripped, lower-cased and has its spaces replaced by underscores, position by position |
| Report.NormalizeColumnSpec | app/services/json_utils.py:40 | the normalised name has no whitespace at either end, no space and no capital; each character comes from the stripped name, with a space turned into '_'; normalising twice is normalising once |
| Report.NormalizedFixed | app/services/json_utils.py:40 | a name already normalised is left unchanged |
| Report.RecordKeysUnchanged | app/services/excel_service.py:45-52 | the record keys, and so the four needed keys, survive the renaming unchanged, so a DataFrame built from the records keeps its column names |
| Report.NormalizeColumnExample | app/services/json_utils.py:40 | " Leitura Atual " becomes "leitura_atual" |
| Report.FindColumns | app/services/json_utils.py:43-52 | after the nested loop, a needed key maps to itself exactly when some column has that name |
| Report.CheckColumns | app/services/json_utils.py:54-58 | the check reports the first needed key, in `col_map` order, that has no column |
| Report.FirstMissing | app/services/json_utils.py:54-58 | a reported key is needed and absent; no report means every needed key is present |
| Report.FirstMissingIsFirst | app/services/json_utils.py:54-58 | every needed key before the reported one is present |
| Report.FormatRejects | app/services/json_utils.py:40-58 | the formatter fails exactly when a needed key is missing after renaming, and it names the earliest missing key together with the renamed columns |
| Report.Blocks | app/services/json_utils.py:65-87 | one block per row |
| Report.AppendRow | app/services/json_utils.py:66-87 | the loop body appends the row's five-line block |
| Report.AppendRows | app/services/json_utils.py:65-87 | the loop appends the blocks of all rows, in row order |
| Report.AppendFooter | app/services/json_utils.py:88-89 | appends the footer: the target date and the number of rows |
| Report.FormatMessageWithStyles | app/services/json_utils.py:36-111 | the method computes the formatter's result, or its error |
| Report.CellOfSingle | app/services/json_utils.py:66-82 | a needed name carried by one renamed column reads the cell under that column |
| Report.CellOfDuplicate | app/services/json_utils.py:66-82 | a needed name carried by several renamed columns reads all their cells as one Series: its text is pandas' rendering and it has no number, so the amount falls back to that text |
| Report.RemoveEmojisSpec | app/services/json_utils.py:92-104 | no character of the ranges is left; every other character keeps all its occurrences, in the original order; a second pass changes nothing |
| Report.NoEmojiLeft | app/services/json_utils.py:92-104 | no character of the cleaned text lies in the ranges |
| Report.TemplateEmojisRemoved | app/services/json_utils.py:83-87 | the house, chart, bolt and money-bag emojis and the rule line all lie in the ranges; the introduction's first character does not |
| Report.FormatValue | app/services/json_utils.py:60-106 | a produced report is the assembled message with the emojis removed |
| Report.FormatHasNoEmoji | app/services/json_utils.py:83-106 | the delivered report holds no character of the ranges |
| Report.ShownValorIsClean | app/services/json_utils.py:74-82 | the amount text is unchanged by emoji removal |
| Report.IntroSurvives | app/services/json_utils.py:62-64 | the introduction line, robot emoji included, is outside every range and survives emoji removal intact |
| Report.FormatLayout | app/services/json_utils.py:60-106 | the delivered text is the introduction, the header, one block per row in row order, and the footer whose count is the number of rows |
| Report.RemoveEmojisMessage | app/services/json_utils.py:60-106 | removing emojis from the assembled message leaves exactly that layout |
| Currency.Pad2 | app/services/json_utils.py:77 | the cents of `:.2f`: exactly two digits |
| Currency.Pad3 | app/services/json_utils.py:77 | a thousands group of `:,`: exactly three digits |
| Currency.ValorIsBrMoney | app/services/json_utils.py:74-80 | a finite amount shown through `f"R$ {v:,.2f}"` and the three replace calls is exactly the Brazilian money text: '.' between thousands groups, ',' before the two cents digits |
| Currency.SwapInvolution | app/services/json_utils.py:77-79 | on text without 'X' the swap of ',' and '.' introduces no 'X' and undoes itself |
| Currency.SwapWithPlaceholder | app/services/json_utils.py:77-79 | an 'X' in the text comes out as '.', and swapping twice gives ',' back, not "X" |
| Currency.ValorNotFinite | app/services/json_utils.py:75-80 | NaN and the infinities pass the swap untouched: "R$ nan", "R$ inf", "R$ -inf" |
| Currency.BrMoneyDigits | app/services/json_utils.py:76-79 | the digits of the shown amount spell its absolute value in cents |
| Currency.BrMoneySign | app/services/json_utils.py:76-79 | a minus sign appears exactly for negative amounts |
| Currency.BrMoneyInjective | app/services/json_utils.py:76-79 | different amounts in cents are shown differently |
| Currency.ValorExample | app/services/json_utils.py:74-80 | 45.0 is shown as "R$ 45,00" |
| Currency.BrMoneyThousandsExample | app/services/json_utils.py:76-79 | 1234.56 is written "R$ 1.234,56" |
| Service.CleanMessageSpec | app/services/whatsapp_service.py:10-12 | the greeting worker receives ASCII text that is never blank: the message's ASCII characters in order, or "Gas consumption data message" exactly when those are blank |
| Service.CleanMessageKeepsAscii | app/services/whatsapp_service.py:10-12 | an ASCII message that is not blank is passed on unchanged |
| Service.CleanMessageIdempotent | app/services/whatsapp_service.py:10-12 | cleaning twice is cleaning once |
| Service.FallbackNotBlank | app/services/whatsapp_service.py:12 | the fallback text is not blank |
| Service.SendMessageSpec | app/services/whatsapp_service.py:6-40 | a worker is started exactly when the process starts; it receives the cleaned text and the reply is "sent" with the process id; otherwise the error is "Failed to send WhatsApp: " followed by the cause |
| Service.SendTestMessageSpec | app/services/whatsapp_service.py:42-69 | the test worker receives the message untouched, and the failure is prefixed with "Failed to send test WhatsApp: " |
| Service.TestMessageNotCleaned | app/services/whatsapp_service.py:10 | a non-ASCII character reaches the test worker but never the greeting worker |
| Routes.RewrapOwn | app/api/routes.py:173-189 | a 400 raised inside the endpoint is re-wrapped into a 400 whose detail starts with "400: " |
| Routes.ExcelNames | app/api/routes.py:173 | ".xlsx" and ".xls" names are accepted; ".csv" and ".xlsm" names are refused |
| Routes.UploadExcelSpec | app/api/routes.py:158-189 | a wrong extension is refused with "400: " and the extension message; a processing error is reported as a 400 carrying its text; otherwise the processed data is returned unchanged |
| Routes.SendWhatsappSpec | app/api/routes.py:216-241 | a message that is blank once filtered to ASCII is refused with "400: Message is empty after cleaning"; otherwise the service receives exactly the message's ASCII characters |
| Routes.TestFallbackNotBlank | app/api/routes.py:38-40 | the route's fallback test text is not blank |
| Routes.TestWhatsappSimpleSpec | app/api/routes.py:26-59 | the worker receives the message's ASCII characters, or "Test message from FastAPI" exactly when those are blank; the reply reports the original message and the sent text; a failure to start becomes a 400 carrying "Failed to send test WhatsApp: " and the cause |
| Routes.MonthOfCount | app/api/routes.py:266-273 | a date yields a month exactly when it holds two '/' |
| Routes.MonthOfDate | app/api/routes.py:266-273 | "DD/MM/YYYY" yields "MM/YYYY" |
| Routes.MonthOfParts | app/api/routes.py:266-273 | a month comes from a date of three '/'-separated parts, as the last two joined by '/' |
| Routes.MonthsInSpec | app/api/routes.py:263-275 | a month is collected exactly when some record's date yields it |
| Routes.Insert | app/api/routes.py:277 | inserting into an ascending list keeps it ascending and adds exactly the new month |
| Routes.SortedList | app/api/routes.py:277 | `sorted(set)`: an ascending list of exactly the set's months |
| Routes.AscendingUnique | app/api/routes.py:277 | two ascending lists with the same elements are equal, so `sorted(list(found))` does not depend on the order in which the set is iterated |
| Routes.AvailableMonths | app/api/routes.py:263-277 | the months, once each and ascending, are exactly those some record's date yields |
| Routes.GetAvailableMonths | app/api/routes.py:243-288 | with the extension check and processing errors passed on, the reply is "success" with the ascending months of the records and the total number of records |
| Automation.EncodeSeed | app/services/whatsapp_automation.py:122 | the encoded text has no space and no newline |
| Automation.EncodeSeedPerCharacter | app/services/whatsapp_automation.py:122 | the two replace passes escape each character independently |
| Automation.SeedRoundTrip | app/services/whatsapp_automation.py:122-123 | a text without '%' is recovered from the URL |
| Automation.SeedNotInjective | app/services/whatsapp_automation.py:122 | "%20" and " " give the same URL, because '%' itself is not escaped |
| Automation.LoadBranches | app/services/whatsapp_automation.py:87-113 | the 120-second login wait happens exactly when the QR code was seen; a timeout is raised for the wait that failed, as the last event |
| Automation.WaitForWhatsappLoad | app/services/whatsapp_automation.py:87-113 | the method's calls are those of the load specification |
| Automation.OpenChat | app/services/whatsapp_automation.py:116-141 | the method navigates, waits for the page and then for the chat, as specified |
| Automation.TypeLine | app/services/whatsapp_automation.py:161-168 | one loop step: type a non-blank line, then SHIFT+ENTER unless it is the last line |
| Automation.TypeLines | app/services/whatsapp_automation.py:160-168 | the loop produces the keystrokes of every line in order |
| Automation.SendMessageToInput | app/services/whatsapp_automation.py:144-181 | the method waits, clicks, clears and types the keystroke plan, as specified |
| Automation.KeyPlanShape | app/services/whatsapp_automation.py:160-173 | k lines give k - 1 SHIFT+ENTER and exactly one ENTER, which is the last keystroke; the typed texts are the non-blank lines, unstripped and in order |
| Automation.KeyPlanExample | app/services/whatsapp_automation.py:160-173 | "A\nB\nC" is typed as A, SHIFT+ENTER, B, SHIFT+ENTER, C, ENTER |
| Automation.KeyPlanCommits | app/services/whatsapp_automation.py:153-173 | clicking, clearing and typing the plan sends exactly one message and leaves the input empty |
| Automation.TypedTextExact | app/services/whatsapp_automation.py:160-168 | a message with no whitespace-only non-empty line is sent exactly as given |
| Automation.TypedOneLine | app/services/whatsapp_automation.py:160-168 | a single non-blank line is sent as it is |
| Automation.TypeRunReplay | app/services/whatsapp_automation.py:144-181 | a successful typing step sends the message once and empties the input; a failed one changes nothing |
| Automation.Polls | app/services/whatsapp_automation.py:201-202 | the stop event is polled until it is set: n unset answers, then one set answer |
| Automation.AwaitStop | app/services/whatsapp_automation.py:201-202 | the loop polls exactly as specified |
| Automation.Session.StopIsSet | app/services/whatsapp_automation.py:201 | `stop_event.is_set()` answers false `stopAfter` times, then true |
| Automation.SendTestMessage | app/services/whatsapp_automation.py:184-210 | the method's calls are those of the test specification |
| Automation.SendWhatsappWithGreeting | app/services/whatsapp_automation.py:213-266 | the method's calls are those of the greeting specification, and the stop event is never polled |
| Automation.SendSimpleTestMessage | app/services/whatsapp_automation.py:269-309 | the method's calls are those of the simple-test specification, and the stop event is never polled |
| Automation.TestBodyShape | app/services/whatsapp_automation.py:193-202 | the test body neither launches nor quits; when it succeeds, its last event is the set stop event |
| Automation.TeardownShape | app/services/whatsapp_automation.py:207-210 | a created driver is quit exactly once, as the last event; a failed quit is raised unless it is swallowed; otherwise the body's own outcome stands |
| Automation.GreetingQuitsOnce | app/services/whatsapp_automation.py:213-266 | launches first; a failed launch does nothing else; otherwise quits exactly once, last; a timeout follows its failed wait |
| Automation.SimpleQuitsOnce | app/services/whatsapp_automation.py:269-309 | the same shape, and a failed quit is never raised |
| Automation.TestQuitsOnce | app/services/whatsapp_automation.py:184-210 | the same shape; on success, the quit comes right after the set stop event |
| Automation.TypeAllCommits | app/services/whatsapp_automation.py:230-247 | typing texts in turn sends them in order, each once; a run stopped by a timeout has sent a prefix of them |
| Automation.ChatRunCommits | app/services/whatsapp_automation.py:230-247 | opening the chat and then typing sends the texts, or a prefix of them |
| Automation.FixedTextsTyped | app/services/whatsapp_automation.py:224-239 | the greetings and the menu option "1" arrive exactly as written |
| Automation.GreetingTyped | app/services/whatsapp_automation.py:223-247 | the texts sent are the greeting for the hour, "1", then the report |
| Automation.GreetingCommits | app/services/whatsapp_automation.py:213-266 | ENTER sends from the input "Bom dia!" before noon or "Boa tarde!" from noon on, then "1", then the report; a failed run has sent a prefix of these |
| Automation.SimpleCommits | app/services/whatsapp_automation.py:269-309 | the message is sent once on success, and nothing else is ever sent |
| Text.AsciiOnlySpec | app/services/whatsapp_service.py:10 | `encode("ascii", "ignore")` keeps the ASCII characters in order and leaves ASCII text unchanged |
| Text.BlankIffAllSpace | app/services/whatsapp_service.py:11 | `not s.strip()` holds exactly when every character is whitespace |
| Text.JoinSplit | app/services/whatsapp_automation.py:160 | joining the pieces of `split('\n')` with '\n' gives back the text |
| Text.SplitCount | app/services/whatsapp_automation.py:160 | `split` gives one more piece than there are separators |
| Text.NatToStringRoundTrip | app/services/json_utils.py:89 | `str(n)` reads back as n |
| Text.LexTotal | app/api/routes.py:277 | any two different strings are ordered one way or the other |
| Text.LexTransitive | app/api/routes.py:277 | the string ordering is transitive |

## Left out

- The reading of the spreadsheet is a parameter: either the table or the error text. The same holds for `pd.to_datetime`, `pd.to_numeric` and `float` (the `Library` functions) and for the process start.
- Ingest.FormatNumericColumns: the `round(2)` of "Valor final(R$)" and the `round(4)` of the other numeric columns are not modelled, because floating-point rounding is not modelled.
- Ingest.ProcessRows: the `round(..., 2)` of `valor_final_rs` in each record is not modelled, for the same reason.
- Ingest.FormatDataframe: the `df[col] = 0` fallback is not modelled, because the numeric conversion is a total function here and never raises.
- Ingest.FilterByMonth: the branches for a Timestamp scalar and for a column that is not of datetime type are not modelled. Each cell's date comes from the `toDate` parameter.
- Ingest.ProcessRows: the `row_error` path is left out, because nothing in the modelled row body raises.
- Text.Lower handles ASCII and Latin-1 letters only, which covers every literal it is compared with. The renamed column names are also echoed in the missing-column error (json_utils.py:57, `Report.MissingColumn`), so a column named "Ā" appears there as "ā" in Python and as "Ā" in the model.
- Ingest.ParseInt reads ASCII digits with an optional sign only. Python's `int` also accepts underscores and non-ASCII digits.
- Currency: amounts are whole cents, so the binary rounding of `:.2f` is not modelled.
- Currency.BrMoneySign: Python formats `-0.0` and negative amounts above -0.005 as "-0.00", so the source prints "R$ -0,00". Whole cents have no negative zero, so the lemma speaks of whole cents only.
- Report.FormatMessageWithStyles: when two columns normalise to the same needed name, each cell of that name is read as a pandas Series. The model takes the rendering of that Series as the `series` parameter rather than reproducing pandas' layout (`Report.CellOfDuplicate`).
- Automation: the following are not events, because they do not affect what is typed or in which order:
  - sleeps and the duration of each wait;
  - log lines and screenshots;
  - the Chrome profile path and options.

  `datetime.now().hour` is a parameter.
- Automation.Commits: the chat input is modelled as a plain text buffer, and ENTER sends its content as it stands, even when it is empty or padded with whitespace. How WhatsApp Web itself treats empty or whitespace-padded input, and so what the recipient finally sees, is not modelled.
- Automation: only the waits, the driver creation and `driver.quit()` can fail in the model. `driver.get`, `click`, `clear` and `send_keys` always succeed. `Automation.TypeRunReplay`'s "a failed step changes nothing" rests on this, since every failure there is the wait before the first keystroke.
- Automation: the `run_*` process wrappers and the multiprocessing `Event` are left out. `run_send_test_message` and `run_send_whatsapp_with_greeting` catch and print every exception (app/services/whatsapp_automation.py:332-349), while `run_send_simple_test_message` prints it and raises it again (app/services/whatsapp_automation.py:323-329). The only difference is the worker process's exit status, and nothing reads it, because the service starts the process and returns at once (app/services/whatsapp_service.py:19-32). The procedures' `failure` result is what the wrappers catch. The stop event is modelled as a count of false answers.
- Routes: the `Query` defaults of `test_whatsapp_simple` (the phone number and the message) are not modelled; both are parameters.
- Routes: `HTTPException` details are modelled as the text "status: detail" that the re-wrapping produces.
- Routes: the `health`, `format-message` and `test-main-json` endpoints are left out, because they only delegate or read files. For the same reason, the rest of the application (app/main.py, main.py, message_service.py, the Streamlit front end and the start scripts) is not part of this model.
- Routes.SortedList builds the ascending list by insertion, not by Python's Timsort. Only the result is modelled.
