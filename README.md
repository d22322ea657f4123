# Les ptits cageots connector — verified model of its core

The connector signs in to the lesptitscageots.fr grocery shop, reads the
order-history table of the customer's account and hands one bill per invoiced
order to the bill store. This project models, in Dafny, the pure logic of
`src/index.js` that decides what happens on the way:

- **Login check** (`Login`, login.dfy). The shop answers HTTP 200 whether or not
  the sign-in worked. The `validate` callback therefore looks at the returned page.
  A welcome sentence means success. Otherwise the first of five known error
  sentences found names the failure and is logged. A page with none of them is an
  unknown failure.
- **Order dates** (`Dates`, dates.dfy). `normalizeDate` cuts a `YYYYMMDDHHMMSS`
  string into six pieces by position and builds a Date from them, with months
  counted from 0. Dates are printed per day as `YYYY-MM-DD`.
- **Bills** (`Documents`, documents.dfy). `parseDocuments` keeps the rows whose
  status is "Commande passée" or "Commande traitée". It adds to each kept row the
  vendor, the currency, a fixed metadata block and a file name of the form
  `<day>_les_ptits_cageots_facture_<amount>EUR_<reference>.pdf`.
- **String and number helpers** (`Text`, text.dfy). These cover what the code
  borrows from JavaScript: `includes`, `substring` with clamping, digit strings
  converted to numbers, zero-padded printing, and canonical decimal printing.

Amounts are whole numbers of cents. A date is its six calendar fields, with the
month counted from 0 as in a JavaScript Date.

## Model

| member | source | states |
|---|---|---|
| Login.Classify | src/index.js:97-117 | The else-if chain itself, one `includes` test per branch. It has no contract of its own: Login.SuccessIffWelcome, Login.ClassifyIsFirstMatch, Login.FirstErrorWins and Login.UnknownIffNoSentence characterise it. |
| Login.Validate | src/index.js:91-118 | The callback returns true exactly when the page includes "Bienvenue sur votre page d'accueil.". The status code plays no part. |
| Login.SuccessIffWelcome | src/index.js:97-98 | Success is chosen exactly when the page holds the welcome sentence, whatever error sentences it also holds. |
| Login.ClassifyIsFirstMatch | src/index.js:92-117 | With no welcome sentence, the else-if chain equals a scan of the five error sentences in order: the first sentence the page includes decides the failure, and Unknown is returned if none is found. |
| Login.FirstErrorWins | src/index.js:97-113 | The k-th failure is reported exactly when there is no welcome sentence, the k-th error sentence is present and no earlier one is. Both directions are stated. |
| Login.UnknownIffNoSentence | src/index.js:114-116 | "erreur inconnue" is chosen exactly when none of the six sentences is on the page. |
| Login.LoggedError | src/index.js:99-116 | Each named failure logs its own error sentence, the one the table pairs with it. The message is "erreur inconnue" exactly for the Unknown outcome. |
| Login.LoggedErrorIsOnPage | src/index.js:99-113 | For every named failure, the logged message is the first error sentence of the table that the page includes: it is on the page and no earlier one is. |
| Login.MissingEmailBeatsInvalidPassword | src/index.js:97-110 | Every page with both the missing-e-mail and the invalid-password sentences and no welcome sentence reports and logs the missing e-mail, and the callback returns false for any status code. |
| Login.SampleErrorPage | src/index.js:97-101 | The page "Adresse e-mail requise<br>mot de passe non valable" lacks the welcome sentence and reports the missing e-mail. |
| Dates.NormalizeDate | src/index.js:208-217 | Year, month and day are read from characters 0-4, 4-6 and 6-8. The month is shifted to count from 0. A year below 100 falls in the 1900s, as Date does. |
| Dates.FullStampTime | src/index.js:213-215 | With fourteen digits, hour, minute and second are read from characters 8-10, 10-12 and 12-14. |
| Dates.DateOnlyIsMidnight | src/index.js:213-215 | An eight-digit string gives midnight, because the missing pieces are empty strings and so zero. |
| Dates.DateArguments | src/index.js:209-216 | The calendar fields Date builds from the six positional pieces: the year after Date's 1900s rule, the month piece minus 1, then the day, hour, minute and second. A missing piece is "" and so 0. It has no contract of its own: Dates.NormalizeDate, Dates.FullStampTime and Dates.DateOnlyIsMidnight characterise it. |
| Dates.TwoDigitYear | src/index.js:210 | A date string whose year piece is at most 99 starts with "00". Its year is 1900 plus its last two year digits, as Date reads a year argument below 100, and its day prints starting with "19" and those two digits. |
| Dates.NormalizeStamp | src/index.js:208-217 | Every date is read back from its fourteen-digit string: the string is accepted and gives the same date. |
| Dates.StampNormalized | src/index.js:208-217 | Every accepted fourteen-digit string with a year piece from 0100 on is the string of the date it gives. |
| Dates.FormatDate | src/index.js:192 | The printed day is ten characters, with dashes at positions 4 and 7. The digit groups denote the year, the month counted from 1 and the day. |
| Dates.FormatDateSameDay | src/index.js:192 | Two dates print alike exactly when they have the same year, month and day. |
| Dates.FormatNormalizedDate | src/index.js:209-212 | For a year piece from 0100 on, the printed day of a date string is its first eight digits with dashes after the year and the month. A smaller year piece prints as 19yy instead, as Dates.TwoDigitYear states. |
| Dates.SampleStamp | src/index.js:135 | The sample string 20211021231457 is accepted and is 21 October 2021 at 23:14:57. |
| Dates.SampleDayPrinted | src/index.js:135 | The sample date prints as 2021-10-21. |
| Documents.FormatAmount | src/index.js:227 | `amount.toFixed(2)` prints a canonical whole part, a dot and two digits. The printed text denotes the amount. |
| Documents.FormatCentsOf | src/index.js:227 | Every canonical two-decimal numeral is the printing of its own value, so printing is a bijection onto those numerals. |
| Documents.SampleAmount | src/index.js:142 | The sample amount 86.15 prints as "86.15". |
| Documents.FormatFilename | src/index.js:220-228 | The file name starts with the printed day and ends with "EUR_", the order reference and ".pdf". |
| Documents.FilenameEndsWithReference | src/index.js:227 | The file name ends with an underscore, the order reference and ".pdf". |
| Documents.FilenameDeterminesKey | src/index.js:226-228 | Two orders get the same file name exactly when they fall on the same day and have the same amount and the same reference. |
| Documents.DistinctReferencesDistinctNames | src/index.js:226-228 | Orders with different references never share a file name. |
| Documents.SampleFilename | src/index.js:135-149 | The sample order is filed as 2021-10-21_les_ptits_cageots_facture_86.15EUR_DDVMDIJTQ.pdf. |
| Documents.Enrich | src/index.js:179-197 | A bill keeps every scraped field of its row. It carries the vendor, "EUR", the file name of the row, carbon copy, the classification food_invoice/invoice/shopping, the vendor as author, the "issueDate" label, and the printed day as both datetime and issue date. |
| Documents.HasInvoice | src/index.js:175-176 | The filter's test: the status is "Commande passée" or "Commande traitée". It has no contract of its own: Documents.InvoicedRows, Documents.InvoicedPositionsExact and Documents.OtherStatusDropped characterise it. |
| Documents.InvoicedRows | src/index.js:175-176 | The filter keeps only rows with status "Commande passée" or "Commande traitée", and it keeps every such row. |
| Documents.ParseDocuments | src/index.js:172-198 | There are no more bills than rows. Every bill comes from a row with an invoice status and carries the added fields. |
| Documents.ParseDocumentsExact | src/index.js:172-198 | The k-th bill is the enriched row at the k-th position of a strictly increasing list. That list holds exactly the positions of the rows with an invoice status. |
| Documents.InvoicedRowsAtPositions | src/index.js:175-176 | The k-th kept row is the row at the k-th invoiced position. |
| Documents.InvoicedPositionsIncrease | src/index.js:175-176 | The filter keeps table order. |
| Documents.InvoicedPositionsExact | src/index.js:175-176 | A position is kept exactly when its row has an invoice status. |
| Documents.InvoicedRowBilled | src/index.js:172-198 | Every row with an invoice status yields its enriched bill. |
| Documents.NothingDroppedIffAllInvoiced | src/index.js:172-198 | There are as many bills as rows exactly when every row has an invoice status. |
| Documents.OtherStatusDropped | src/index.js:175-176 | A row with any other status yields no bill. This includes "Commande acceptée", which the comment at line 154 lists, and "Erreur de paiement". |
| Documents.KeepFirstOfTwo | src/index.js:175-198 | An invoiced row followed by one without invoice gives exactly the first row's bill. |
| Documents.SampleListing | src/index.js:131-198 | For the sample table with a processed order and a failed payment, the result is exactly the bill of the processed order, with its file name. |
| Text.ParseDigits | src/index.js:210-215 | A digit string denotes a number below 10 to the power of its length. The empty string denotes 0. |
| Text.PadNat | src/index.js:192 | Zero-padding gives exactly the requested number of digits, and they denote the number when it fits. |
| Text.PadParsed | src/index.js:192 | Padding the value of a digit string to its own width gives the string back. |
| Text.NatToString | src/index.js:227 | The whole part of `toFixed` is a canonical numeral with no leading zero, and it denotes the number. |
| Text.NatToStringParsed | src/index.js:227 | Every canonical numeral is the printing of its own value. |
| Text.Substring | src/index.js:210-215 | `substring` clamps to the string's length. Within bounds it is the slice. A range that runs past the end gives the rest of the string from the start position, and a range that starts past the end is empty. |
| Text.Includes | src/index.js:97 | `includes` as a left-to-right scan. It has no contract of its own: Text.IncludesIffOccurs characterises it. |
| Text.IncludesIffOccurs | src/index.js:97 | `includes` finds the needle exactly when it occurs at some position. |
| Text.IncludesInfix | src/index.js:97-111 | A page includes any sentence placed anywhere inside it. |
| Text.ExcludesWithoutFirstChar | src/index.js:97-111 | A page lacking the first character of a sentence does not include the sentence. |

## Left out

- `start`, the sign-in request, the request factory, `scrape` with its cheerio selectors, and `saveBills` with its deduplication keys. They do I/O against the shop or the user's storage. The model starts from the scraped rows and stops at the bill objects.
- The `log` calls in `validate`. `Login.LoggedError` models the message chosen, not the logging itself.
- `parseFloat` and floating point. An amount is a whole number of cents, so `toFixed(2)` has no rounding to model. A negative amount and a NaN are also not modelled.
- Date's rolling over of out-of-range fields (such as a day 32), invalid dates from non-digit text, and time zones. `Dates.NormalizeDate` therefore requires digits only, fields in range, and a year that is from 100 to 9999 after Date's 1900s rule.
- Date strings shorter than eight digits. The model takes the `YYYYMMDD[HHMMSS]` format named in the comment at src/index.js:204, so `Dates.NormalizeDate` requires at least eight digits.
- The source of `utils.formatDate`, from the connector library, is not available here. The function is modelled as the zero-padded `YYYY-MM-DD` of the date's calendar fields, as the file name example at line 222 shows.
- Dates.NormalizeDate: states the date fields only, and leaves the time fields to `Dates.FullStampTime` and `Dates.DateOnlyIsMidnight`.
- Documents.FormatFilename: its own contract states the day prefix and the currency-and-reference suffix. The full shape is in `Documents.FilenameParts`, and injectivity is in `Documents.FilenameDeterminesKey`.
- Documents.ParseDocuments: its own contract is the soundness half. Completeness and order are in `Documents.ParseDocumentsExact` and `Documents.InvoicedRowBilled`.
- An absent `href` (an undefined `fileurl`) is not told apart from a string. `fileurl` is carried through unchanged either way.
- The field `label` of the classification is called `classLabel` because `label` is a Dafny keyword.
- The code keeps "Commande passée", while the comment at line 154 lists "Commande acceptée" among the statuses. The model follows the code, and `Documents.OtherStatusDropped` states the consequence.
