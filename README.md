# Receipt reader: response parsing and per-image processing

The receipt reader sends a photo of a till receipt to a chat-completion
service. The service answers in a fixed text layout:

- a header line `DD/MM/YYYY, vendor, location`;
- then one line per article: `famille, sous_famille, nom, prix_unitaire, quantite, prix_total`.

The reader parses that reply into a receipt record, stores it in the event's database, and
moves the image to the processed folder. This project models the two functions that do
this work:

- **`parse_response`** (`receipt_reader.py:159-220`):
  - The modelled path is `response["choices"][0]["message"]["content"]`, where the response
    is a decoded JSON value.
  - It splits the text into lines and needs at least two lines.
  - The header needs at least three comma-separated fields. The first field, stripped, must
    be a `%d/%m/%Y` date. Vendor and location are the stripped second and third fields.
  - Article lines that are blank once stripped are skipped.
  - Any other article line needs at least six fields, and the fourth to sixth must convert
    with `float`.
  - Every failure, whether an explicit check or a caught exception, yields `(None, True)`.
    Success yields `(record, False)`.
  - Specification functions: `ReceiptReader.ParseLines` and `ReceiptReader.ResponseReceipt`.
  - Imperative form: `ReceiptReader.ParseResponse`, with the article loop in
    `ReceiptReader.ParseArticleLines`. Both are proved equal to those functions.
- **`process_image`** (`receipt_reader.py:224-263`): one attempt is encode, send, parse,
  insert, move.
  - An exception of the move is only logged.
  - When the reply does not parse, or any step before the move raises, the function calls
    itself with `retry=True`. In the retry call a failure leads to
    `ui.messagebox.showwarning`.
  - `ui.py` does not bind the name `messagebox`: it imports `customtkinter`, `filedialog`
    from `tkinter`, and other modules, but not `tkinter.messagebox`. So in this repository
    the warning raises `AttributeError` instead of showing a dialog. The consequences
    follow from where each call sits:
    - The retry after an unparsed reply (`:252`) sits inside the `try`. An exception
      escaping it reaches the handler (`:256-260`), which makes a third call with
      `retry=True`.
    - The retry after an exception (`:260`) sits inside the handler, so an exception
      escaping it leaves `process_image`.
    - No warning is ever shown.
  - Whether showing the warning raises is the flag `warningRaises`. It is `true` for this
    repository and `false` for the evidently intended behaviour.
  - The collaborators' behaviour on attempt `k` is a parameter: the reply, whether the
    insert raises, and whether the move raises.
  - What the outside world sees is an effect log (inserted receipt, moved image, warning)
    kept by a `ReceiptProcessor` object, together with the number of attempts made and
    whether an exception escaped.
  - `ImageProcessing.ReceiptProcessor.ProcessImage` keeps the source's recursion on the
    `retry` flag. It is proved to produce exactly `ImageProcessing.ImageCall`, the pure
    description of one call.
  - With the dialog shown, `ImageCall` is the retry rule `ImageProcessing.ImageEffects`:
    at most two attempts, then a warning.

The Python library functions the parser relies on are modelled in their own modules:

- `PyStr`: `str.split(sep)` and `str.strip()` with Python's whitespace set.
- `Numbers`: `float()` on decimal literals, read exactly as a `real`.
- `Dates`: `datetime.strptime(s, "%d/%m/%Y").date()`. It follows CPython's patterns for the
  three directives, including the space-and-digit day ` 5`, and `datetime.date`'s range and
  month-length checks.

`ReceiptExamples` replays the repository's unit tests and the sample answers in the
prompt (`receipt_reader.py:98-108`) as lemmas about concrete inputs. Two of them are
worth knowing:

- The prompt's fuel line writes the price `1,72` with a decimal comma. That line is
  accepted with its fields shifted: price 1, quantity 72, total 40.
- The prompt's category line `ALIMENTATION` makes the parser reject the whole reply.

## Model

| member | source | states |
|---|---|---|
| PyStr.Split | receipt_reader.py:163 | `str.split`: at least one piece; no piece contains the separator; exactly one piece iff the separator does not occur |
| PyStr.JoinSplit | receipt_reader.py:163 | joining the pieces of a split with the separator gives back the original text, so splitting loses nothing |
| PyStr.SplitJoin | receipt_reader.py:169 | splitting the join of separator-free pieces gives back exactly those pieces |
| PyStr.SplitCons | receipt_reader.py:163 | a separator-free prefix followed by the separator becomes the first piece, and the rest splits on its own |
| PyStr.SplitNoSeparator | receipt_reader.py:163-167 | a text without the separator splits into itself alone |
| PyStr.Strip | receipt_reader.py:174 | `strip()`: the result neither starts nor ends with whitespace, and it is empty iff the input is all whitespace |
| PyStr.StripPadded | receipt_reader.py:181-182 | a trimmed text with whitespace on both sides strips to exactly itself |
| PyStr.StripDecompose | receipt_reader.py:174 | every text is its stripped form with only whitespace before and after it; with `StripPadded` this determines `strip()` completely |
| PyStr.StripChars | receipt_reader.py:181-182 | stripping adds no character: a comma-free field stays comma-free |
| PyStr.StripOfStripped | receipt_reader.py:198-200 | stripping a trimmed text changes nothing |
| PyStr.StripSpaced | receipt_reader.py:181-182 | the field after `", "` strips to its text |
| PyStr.StripIdempotent | receipt_reader.py:187 | stripping twice is the same as stripping once |
| Numbers.DigitsValue | receipt_reader.py:176 | a digit string of length n has a value below 10^n |
| Numbers.Fixed | receipt_reader.py:176 | zero-padded spelling of width w: w digits whose value is the number |
| Numbers.DigitsValueLeadingZero | receipt_reader.py:176 | a leading zero (as in `08`) does not change a digit string's value |
| Numbers.DigitRun | receipt_reader.py:201-203 | the leading run of digits: all digits, and it is followed by a non-digit or the end |
| Numbers.ParseUnsigned | receipt_reader.py:201-203 | an unsigned decimal literal reads as a non-negative number |
| Numbers.ParseDecimal | receipt_reader.py:201-203 | `float(field)`: an accepted field has at least one digit and only digits, signs and a point |
| Numbers.UnsignedShapes | receipt_reader.py:201-203 | the unsigned literals accepted are exactly a non-empty digit run, or digit runs around one point with at least one digit in all (both directions) |
| Numbers.SignedLiteral | receipt_reader.py:201-203 | a `-` in front of an unsigned literal negates its value, and a `+` keeps it |
| Numbers.ParseDigits | receipt_reader.py:201-203 | a non-empty run of digits reads as the number it spells |
| Numbers.ParseFixed | receipt_reader.py:201-203 | a zero-padded whole number reads back as itself |
| Numbers.ParsePointed | receipt_reader.py:201-203 | `whole.fraction` reads as the whole part plus the fraction over 10^digits |
| Numbers.ParseFixedPoint | receipt_reader.py:201-203 | round trip: the zero-padded `whole.fraction` spelling of two numbers reads back as whole + fraction/10^width |
| Dates.DaysInMonth | receipt_reader.py:176 | every month has 28 to 31 days |
| Dates.ParseDate | receipt_reader.py:174-179 | `strptime(..., "%d/%m/%Y").date()`: every accepted text names a date that exists (year 1-9999, real month, real day of that month) |
| Dates.TwoDigitsText | receipt_reader.py:176 | a two-digit text is a `%d` (`%m`) match iff its value is 1-31 (1-12) |
| Dates.DateTextSplit | receipt_reader.py:176 | the `DD/MM/YYYY` spelling splits at its slashes into the three zero-padded numbers |
| Dates.SpacedDay | receipt_reader.py:176 | a day written as a space and one digit reads as the same date as its zero-padded spelling |
| Dates.ParseDateText | receipt_reader.py:176 | round trip: the `DD/MM/YYYY` spelling of three numbers parses to that date iff the date exists, and is rejected otherwise |
| ReceiptReader.ParseHeader | receipt_reader.py:169-182 | an accepted header has at least three fields, and its date is the parse of the stripped first field; vendor and location are trimmed and comma-free |
| ReceiptReader.ParseArticle | receipt_reader.py:191-204 | an accepted article line has at least six fields; the three texts are trimmed and comma-free |
| ReceiptReader.ParseArticles | receipt_reader.py:184-207 | the article list is never longer than the lines it came from |
| ReceiptReader.ParseLines | receipt_reader.py:163-214 | an accepted reply contains a newline and carries a valid date |
| ReceiptReader.RejectFirst | receipt_reader.py:191-194 | a non-blank article line that does not parse rejects all the article lines |
| ReceiptReader.TakeFirst | receipt_reader.py:196-204 | a non-blank article line that parses puts its article in front of the rest |
| ReceiptReader.ParseResponse | receipt_reader.py:159-220 | the method returns exactly the record the specification gives; the error flag is true exactly when there is no record |
| ReceiptReader.ParseArticleLines | receipt_reader.py:184-208 | the loop over the article lines returns exactly `ParseArticles` of those lines |
| ParserProperties.ChatReplyParses | receipt_reader.py:161-162 | a well-formed chat reply hands its content text to the line parser unchanged |
| ParserProperties.NoChoicesFails | receipt_reader.py:161 | a response without `choices`, or with an empty `choices` list, is rejected |
| ParserProperties.SingleLineFails | receipt_reader.py:163-167 | a reply without a newline is rejected |
| ParserProperties.HeaderAndNewline | receipt_reader.py:163-214 | a valid header followed by a single newline gives a receipt with no articles |
| ParserProperties.HeaderExtraFieldsIgnored | receipt_reader.py:169-182 | header fields after the third change nothing |
| ParserProperties.BadHeaderRejected | receipt_reader.py:169-179 | a header with fewer than three fields, or whose stripped first field is not a date, is rejected |
| ParserProperties.HeaderRejectsReply | receipt_reader.py:163-182 | a rejected first line rejects the whole reply |
| ParserProperties.BadDateRejectsReply | receipt_reader.py:169-179 | a reply whose first line's first field is not a date is rejected |
| ParserProperties.ParseLinesOnlyIf | receipt_reader.py:163-214 | an accepted reply has at least two lines; its first line is the header of the receipt and the rest are its articles |
| ParserProperties.HeaderVerbatim | receipt_reader.py:169-182 | round trip: `DD/MM/YYYY, vendor, location` parses to that date, vendor and location |
| ParserProperties.ArticleExtraFieldsIgnored | receipt_reader.py:191-204 | article fields after the sixth change nothing |
| ParserProperties.ArticleFromFields | receipt_reader.py:191-207 | six trimmed comma-free fields parse iff the last three are numbers, and then give those texts and numbers |
| ParserProperties.CommaSpacedJoin | receipt_reader.py:191 | a `", "`-joined line is the comma-join of the fields with a space in front of each field after the first |
| ParserProperties.ArticleVerbatim | receipt_reader.py:191-207 | an article line in the `", "` layout parses iff its last three fields are numbers, and then keeps its texts verbatim |
| ParserProperties.BlankLineSkipped | receipt_reader.py:186-189 | a blank line anywhere among the article lines changes nothing |
| ParserProperties.ArticlesFailIff | receipt_reader.py:186-207 | the article lines are rejected iff some non-blank line among them does not parse (both directions) |
| ParserProperties.ArticleLines | receipt_reader.py:186-189 | the non-blank lines: each comes from the input and is not blank, and every non-blank input line is among them |
| ParserProperties.ArticlesOnePerLine | receipt_reader.py:184-214 | on success there is exactly one article per non-blank line, in order, and each is that line's parse |
| ParserProperties.BadLineRejectsReply | receipt_reader.py:191-207 | one bad non-blank line after the header rejects the whole reply |
| ImageProcessing.RunAttempt | receipt_reader.py:225-248 | an attempt stores a receipt iff the reply came back and parsed and the insert did not raise; the stored receipt is the parsed one, and it is moved iff the move did not raise; it ends unparsed iff the reply came back and did not parse |
| ImageProcessing.AttemptsMade | receipt_reader.py:249-263 | the intended retry rule, with the dialog shown: one or two attempts; two exactly when the first stored nothing |
| ImageProcessing.RetryCall | receipt_reader.py:249-263 | a call with `retry=True` makes one attempt; an exception escapes it exactly when the dialog raises and the attempt stored nothing |
| ImageProcessing.Calls | receipt_reader.py:224-263 | a top-level call makes one to three attempts; exactly one iff the first attempt stored a receipt; three exactly when the dialog raises, the first reply did not parse and the retry stored nothing |
| ImageProcessing.ReceiptProcessor.TryOnce | receipt_reader.py:225-248 | one attempt: its outcome is `RunAttempt`, its effects are appended to the log, and the attempt counter grows by one |
| ImageProcessing.ReceiptProcessor.Warn | receipt_reader.py:255 | the warning: logged as an effect when the dialog works; when it raises, the log is unchanged and the raise is reported |
| ImageProcessing.ReceiptProcessor.ProcessImage | receipt_reader.py:224-263 | the effects, the attempts made and whether an exception escapes are exactly those of `ImageCall` (of `RetryCall` on the first attempt for the retry call itself) |
| ImageProcessing.WarningShownRule | receipt_reader.py:249-263 | with the dialog shown, a call makes the effects and attempts of the retry rule and no exception escapes |
| ImageProcessing.WarningRaisesOutcome | receipt_reader.py:250-263 | with the dialog raising, no warning is shown; an exception escapes iff the last attempt made stored nothing, and then nothing was stored; otherwise the effects are those of that last attempt |
| ImageProcessing.ThirdAttemptInserts | receipt_reader.py:250-263 | two unparsable replies and a parsable third: as written, three attempts and the receipt inserted and moved; with the dialog shown, two attempts and one warning |
| ImageProcessing.InsertOnlyParsed | receipt_reader.py:231-239 | anything inserted is the receipt parsed from one of the replies actually requested, filed under the given event |
| ImageProcessing.LastAttemptStored | receipt_reader.py:224-263 | the index of the last attempt made; when anything but a warning happened, that attempt stored a receipt and the effects are its own |
| ImageProcessing.OutcomeShapes | receipt_reader.py:224-263 | an image ends as insert, as insert then move, as one warning with nothing stored (dialog shown), or as an escaping exception with nothing stored (dialog raising) |
| ImageProcessing.TwoFailuresRejected | receipt_reader.py:250-263 | two failed attempts: with the dialog shown, two attempts, nothing stored and exactly one warning; with it raising, a third attempt exactly when the first reply did not parse, and an escaping exception with nothing stored after two attempts |
| ImageProcessing.MoveFollowsInsert | receipt_reader.py:238-245 | the image is moved only right after its receipt was inserted |
| ImageProcessing.InsertAlwaysRaises | receipt_reader.py:239 | when the insert raises on every call, no receipt is ever stored: with the dialog shown the image ends in one warning after two attempts; with it raising an exception escapes |
| ReceiptExamples.DateExample | test/test_receipt_reader.py:56 | `31/08/2023` is 31 August 2023 |
| ReceiptExamples.LeapDayExample | receipt_reader.py:176 | `29/02/2024` is accepted |
| ReceiptExamples.NoLeapDayExample | receipt_reader.py:176-179 | `29/02/2023` is rejected |
| ReceiptExamples.NoLeapDayRejectsReply | receipt_reader.py:176-179 | a reply whose header starts with `29/02/2023` is rejected |
| ReceiptExamples.SpacedDayExample | receipt_reader.py:176 | ` 5/08/2023` is 5 August 2023 |
| ReceiptExamples.DashedDateExample | receipt_reader.py:176-179 | `31-08-2023` is rejected |
| ReceiptExamples.YearFirstExample | receipt_reader.py:176-179 | `2023/08/31` is rejected |
| ReceiptExamples.NumberExamples | receipt_reader.py:201-207 | `3.56` reads as 3.56, and `abc` is rejected |
| ReceiptExamples.ParseTenths | receipt_reader.py:201-203 | a one-digit `w.f` reads as w + f/10 |
| ReceiptExamples.ArticleNotBlank | receipt_reader.py:186-192 | a line that parses as an article is not blank |
| ReceiptExamples.TwoArticles | receipt_reader.py:184-207 | two article lines followed by a blank line give those two articles |
| ReceiptExamples.ReplyOf | receipt_reader.py:163-214 | a header line followed by parsing article lines gives the header's receipt with those articles |
| ReceiptExamples.TestReplyExample | test/test_receipt_reader.py:42-59 | the unit-test reply parses to 31 August 2023, Intermarché, Foix, with its two articles |
| ReceiptExamples.PiecesArticle | receipt_reader.py:191-204 | an article line parses from its first six comma pieces once stripped |
| ReceiptExamples.DecimalCommaShifts | receipt_reader.py:107 | the prompt's fuel line with `1,72` is accepted with price 1, quantity 72 and total 40 |
| ReceiptExamples.CategoryLine | receipt_reader.py:100 | the category line `ALIMENTATION` is neither blank nor an article |
| ReceiptExamples.CategoryLineRejectsReply | receipt_reader.py:191-194 | a reply with that category line under the header is rejected |
| ReceiptExamples.StoredFirstTime | receipt_reader.py:231-245 | a first reply that parses, with nothing raising, gives one attempt: insert, then move, and no exception, whatever the dialog does |
| ReceiptExamples.ProcessImageExample | test/test_receipt_reader.py:61-85 | the unit test of `process_image`: one attempt, one insert, one move |
| ReceiptExamples.ThirdRequestExample | receipt_reader.py:250-263 | replies `ALIMENTATION`, `ALIMENTATION`, then the unit-test reply: as written, three attempts and the test receipt inserted; with the dialog shown, two attempts and a warning |

## Left out

- `float()` is modelled on decimal literals with an optional sign and point, read exactly as
  a real number. Not modelled: exponents, `inf`/`nan`, digit-group underscores, the
  whitespace `float` itself would strip, non-ASCII digits, and IEEE-754 rounding. Two
  consequences:
  - a field such as `1e3` that Python accepts is rejected here;
  - numbers are exact, not doubles.
- Numbers.ParseDecimal: does not accept every spelling `float()` accepts (see the line above);
  on the spellings it accepts, it gives the exact value.
- Dates.ParseDate: matches ASCII digits only. CPython's `\d` in `strptime` also accepts other
  Unicode decimal digits. The day ` 5` (a space and a digit) is modelled, but never reaches
  the parser from a reply, because the field is stripped first (`receipt_reader.py:174`).
- Strings are sequences of characters. Python's `str.isspace` set is written out for
  `strip()`. No normalisation or case folding takes place in the source, so none is modelled.
- Reading the image (`encode_image`), building the request (`create_payload`), the HTTP call
  (`send_request`) and the API-key lookup are I/O. Their outcome on each attempt is the
  `reply` of `AttemptIO`, where `None` stands for any exception they raise.
- `insert_receipt_data` (database.py) and `shutil.move` are outside the model. Only whether
  each one raises on a given attempt is modelled, and a successful insert is one atomic
  effect. `database.py` is not part of this model.
- `database.py:44` declares `insert_receipt_data` with two parameters, but
  `receipt_reader.py:239` calls it with three. As written, every insert therefore raises
  `TypeError`. ImageProcessing.InsertAlwaysRaises states what `process_image` does in that
  case, for both values of `warningRaises`.
- The move's destination is `destination_folder/basename(image)`. The model records the image
  path and the destination folder, not the joined path.
- Logging and `print` are assumed not to raise. The warning dialog is modelled by whether
  it raises (`warningRaises`); the text of the dialog is not modelled.
- AttemptsMade: states the intended retry rule, with the dialog shown. WarningShownRule
  proves it equal to `Calls` with `warningRaises` false. The code as written corresponds to
  `Calls` with `warningRaises` true, which WarningRaisesOutcome and ThirdAttemptInserts
  describe.
- The module-level folder constants and `os.makedirs` at `receipt_reader.py:266-271` are not
  part of this model.
- The user interface (`ui.py`), including its loop over the uploaded images that calls
  `process_image` once per image, is not part of this model.
- The unit test at `test/test_receipt_reader.py:54-59` indexes the result of `parse_response`
  as a record. The function returns a `(record, flag)` pair, so the model follows the code
  and `ReceiptExamples.TestReplyExample` states the record part.

## Findings

| source | as written | input that shows it | evidently intended | confidence | as-written member | corrected member |
|---|---|---|---|---|---|---|
| receipt_reader.py:255, receipt_reader.py:263 | `ui.messagebox.showwarning(...)`, but `ui.py` never imports `tkinter.messagebox`, so the call raises `AttributeError`; after an unparsed first reply the exception reaches the outer handler, which makes a third attempt | replies that do not parse, do not parse, then parse: three attempts and the receipt inserted; any second failure: an exception escapes and no warning is shown | after the second failure, show the warning and skip the image: at most two attempts, nothing escapes | high, not executed | ImageProcessing.ThirdAttemptInserts | ImageProcessing.WarningShownRule |
