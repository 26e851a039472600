# Suez Glossop ticket extractor, in Dafny

The Flask app in `suez-app/app.py` turns a scanned PDF of Suez weighbridge
tickets into a spreadsheet. Each page is rasterised and OCR'd. Then
`extract_ticket_from_text` reads one ticket record from the page's text: a
ticket number, a date and its weekday, the gross, tare and net weights, and
a waste category. The `generate` stream collects the records, reports
progress after every page, sorts the batch by date and writes an 11-column
sheet.

This project models both halves and proves what they promise.

- `wrappers.dfy`: `Option`.
- `chars.dfy`: the character classes the regular expressions use (`\d`, `\s`,
  `[\s\-]`, `[:\s]`, `[A-Za-z]`), ASCII case folding, `str.upper()`,
  substring search (`in`), and `int()` on digit runs.
- `dates.dfy`: the calendar, `strptime` with `%d-%b-%Y`, `date.toordinal()`,
  `weekday()` and `strftime('%A')`.
- `patterns.dfy`: every regular expression the extractor uses. Each one's
  language is a predicate saying that the pattern matches the text between
  two positions, with the positions of its variable parts as parameters. A
  fixed-start matcher is
  proved to return the one match the pattern admits at a position (for the
  weights, the greedy digit run). `re.search` is the leftmost position where
  the matcher succeeds.
- `extractor.dfy`: `extract_ticket_from_text` as a function `Extract`, with
  lemmas stating exactly when it returns a record and what the fields are.
- `pages.dfy`: two page texts run through the extractor. On one, the weights
  fail the cross-check. The other yields a complete record.
- `batch.dfy`: the body of `generate`.
  - The page loop (`CollectTickets`).
  - The in-place stable insertion sort on an array (`SortInPlace`), proved
    against the specification `SortByDate`. `SortByDate` is proved sorted,
    a permutation and stable.
  - The two sheet-filling loops (`WriteSheet`).
  - The report file name.
  - The whole run (`Generate`).

Facts about the code that the proofs show:

- The stored `ticket_no` is the nine digits that end the leftmost
  ticket-number match. The `[-9:]` slice cuts off the letter, so the
  `B`/`R` to `P` rewrite never reaches the stored number: `123456789`,
  not `P123456789` (`TicketNumber`, `FullPageExtract`).
- The `Ticket No` fallback search captures the same sub-pattern as the
  first search. So it cannot succeed when the first search failed
  (`TicketGroupIsLeftmostMatch`).
- When the labelled `Date` pattern matches, its fields decide the date, even
  when they are not a valid date. Only when the labelled pattern matches
  nowhere is the unlabelled pattern tried, and it reads only years 2024 and
  2025 (`DateOfFallback`).
- `net == gross - tare` is never checked. Only `net <= gross`,
  `tare <= gross` and `net > 0` are.

## Model

| member | source | states |
|---|---|---|
| Chars.UpperString | suez-app/app.py:88 | `str.upper()` keeps the length and upper-cases each ASCII letter in place, leaving other characters alone |
| Chars.Contains | suez-app/app.py:89-91 | `sub in s` holds exactly when `sub` occurs at some position of `s` |
| Chars.DigitsValue | suez-app/app.py:76-78 | `int()` of a run of n digits is below 10^n |
| Chars.FiveDigitsBound | suez-app/app.py:71-78 | a weight of at most five digits is at most 99999 |
| Chars.DigitsRoundTrip | suez-app/app.py:180 | reading back a zero-padded decimal field gives the number written |
| Dates.MonthNumber | suez-app/app.py:66 | `%b` accepts a text exactly when it spells a month abbreviation ignoring case, and then gives that month's number |
| Dates.AbbrevsDistinct | suez-app/app.py:66 | no text spells two different month abbreviations, so `%b` is unambiguous |
| Dates.LeadingZero | suez-app/app.py:61 | `zfill(2)` on a one-digit day keeps the digits and their value |
| Dates.ZeroFill2 | suez-app/app.py:61 | `zfill(2)` gives width `max(2, n)`: `'0'`s in front, then the original digits, with the value unchanged |
| Dates.ParseDay | suez-app/app.py:61-66 | the `%d` alternatives (`3[01]`, `[12]\d`, `0[1-9]`) accept a zero-filled two-digit day exactly when its value is 1 to 31, and read that value |
| Dates.ParseDate | suez-app/app.py:61-68 | `strptime` returns only valid calendar dates whose fields are the ones read, and returns every valid date the fields spell |
| Dates.FormatParseRoundTrip | suez-app/app.py:66 | parsing a valid date's day, month abbreviation and year gives the date back |
| Dates.Weekday | suez-app/app.py:97 | the weekday number is 0 to 6 |
| Dates.WeekdayName | suez-app/app.py:97 | `strftime('%A')` is one of the seven English weekday names |
| Dates.NextDay | suez-app/app.py:97 | the day after a valid date is a valid later date |
| Dates.NextDayOrdinal | suez-app/app.py:97 | consecutive days have consecutive ordinals |
| Dates.NextDayWeekday | suez-app/app.py:97 | from each day to the next the weekday advances by one, modulo 7 |
| Dates.SundayExample | suez-app/app.py:97 | 05-Jan-2025 is a Sunday |
| Dates.YearLength | suez-app/app.py:97 | the ordinal count of a year grows by the number of days in that year, 366 in leap years |
| Dates.OrdinalWithinYear | suez-app/app.py:97 | a date's ordinal falls within its year's range of ordinals |
| Dates.BeforeIsChronological | suez-app/app.py:145 | comparing dates field by field is comparing their ordinals, so the sort key orders by calendar time |
| Patterns.Leftmost | suez-app/app.py:42 | `re.search` reports the first position at which the pattern matches, and reports nothing only when it matches nowhere |
| Patterns.RunEnd | suez-app/app.py:44-73 | a greedy run (`\s*`, `[:\s]*`, `[^\d]*`) takes every character of its class and stops at the first one outside it |
| Patterns.RunEndUnique | suez-app/app.py:44-73 | a run of the class that cannot be extended is the one the greedy run takes |
| Patterns.TicketMatchEnd | suez-app/app.py:42 | every ticket-number match is 14 to 16 characters long, starts with a digit and ends in nine digits |
| Patterns.TicketMatchWord | suez-app/app.py:42-49 | the group cut out of the text is itself a whole ticket-number match |
| Patterns.TicketAt | suez-app/app.py:42 | a ticket-number match the matcher finds at a position is a match of the pattern |
| Patterns.TicketAtComplete | suez-app/app.py:42 | the ticket pattern matches at a position in one way only, and the matcher finds it |
| Patterns.TicketsSeen | suez-app/app.py:42 | wherever the ticket pattern matches, the matcher finds a match at that start |
| Patterns.FindTicket | suez-app/app.py:42 | the ticket search returns the leftmost position where the matcher succeeds, with a match at least 14 characters long, or nothing when no position matches |
| Patterns.FindTicketLeftmost | suez-app/app.py:42 | the ticket search fails exactly when the pattern matches nowhere in the text, and otherwise it reports a match and no match starts earlier |
| Patterns.LabelledTicketAt | suez-app/app.py:44 | a `Ticket No` match found at a position is a match of the labelled pattern (the label ignoring case, spaces, `No`, colons or spaces, a ticket number), and its group is the ticket-number match at that spot |
| Patterns.LabelledTicketAtComplete | suez-app/app.py:44 | the labelled ticket pattern matches at a position in one way only, and the matcher finds it |
| Patterns.FindLabelledTicket | suez-app/app.py:44 | the labelled ticket search returns a matching position, or nothing when no position matches |
| Patterns.LabelledNeedsUnlabelled | suez-app/app.py:42-47 | whenever the first ticket search fails, the `Ticket No` fallback fails too |
| Patterns.DateFieldsAt | suez-app/app.py:54-56 | the day, month and year fields found at a position have the shape both date patterns require |
| Patterns.DateFieldsAtComplete | suez-app/app.py:54-56 | the date fields can be read at a position in one way only, and the matcher finds it |
| Patterns.LabelledDateAt | suez-app/app.py:54 | a labelled date match found at a position is a match of the pattern: `Date` ignoring case, colons or spaces, then date fields |
| Patterns.LabelledDateAtComplete | suez-app/app.py:54 | the labelled date pattern matches at a position in one way only, and the matcher finds it |
| Patterns.LabelledDatesSeen | suez-app/app.py:54 | wherever the labelled date pattern matches, the matcher finds a match at that start |
| Patterns.FindLabelledDate | suez-app/app.py:54 | the labelled date search returns the leftmost matching position, or nothing when none matches |
| Patterns.FindLabelledDateLeftmost | suez-app/app.py:54 | the labelled date search fails exactly when no substring matches the pattern, and otherwise no match starts earlier |
| Patterns.BareDateAt | suez-app/app.py:56 | an unlabelled date match has date fields whose year is 2024 or 2025 |
| Patterns.BareDateAtComplete | suez-app/app.py:56 | the unlabelled date pattern matches at a position in one way only, and the matcher finds it |
| Patterns.BareDatesSeen | suez-app/app.py:56 | wherever the unlabelled date pattern matches, the matcher finds a match at that start |
| Patterns.FindBareDate | suez-app/app.py:56 | the unlabelled date search returns the leftmost matching position, or nothing when none matches |
| Patterns.FindBareDateLeftmost | suez-app/app.py:56 | the unlabelled date search fails exactly when no substring matches the pattern, and otherwise no match starts earlier |
| Patterns.DayGroup | suez-app/app.py:61 | group 1 of a date match is one or two digits |
| Patterns.MonthGroup | suez-app/app.py:62 | group 2 of a date match is three ASCII letters |
| Patterns.YearGroup | suez-app/app.py:63 | group 3 of a date match is four digits |
| Patterns.WeightAt | suez-app/app.py:71-73 | a weight match found at a position is the label, case-insensitive, then at most 20 non-digits, then the allowed number of digits |
| Patterns.WeightAtComplete | suez-app/app.py:71-73 | whatever weight match exists at a position, the matcher finds one with the same digit start that reaches at least as far (the greedy run) |
| Patterns.WeightsSeen | suez-app/app.py:71-73 | wherever a weight pattern matches, the matcher finds a match at that start reaching at least as far |
| Patterns.FindWeight | suez-app/app.py:71-73 | a weight search returns the leftmost position where a label occurrence admits a digit run, or nothing when none does |
| Patterns.FindWeightLeftmost | suez-app/app.py:71-73 | a weight search fails exactly when no substring matches the pattern, and otherwise no match starts earlier and the digit run is the longest |
| Extractor.Normalise | suez-app/app.py:39 | the clean-up never lengthens the text and leaves no pipe, backtick or apostrophe |
| Extractor.NormaliseKeepsClean | suez-app/app.py:39 | text with none of the three characters is unchanged by the clean-up |
| Extractor.NormaliseIdempotent | suez-app/app.py:39 | cleaning up twice is cleaning up once |
| Extractor.NormaliseAppend | suez-app/app.py:39 | the clean-up works character by character: it distributes over concatenation |
| Extractor.NormaliseChar | suez-app/app.py:39 | on one character, `|` becomes `I`, a backtick or apostrophe is dropped, and anything else is kept |
| Extractor.StripSpacesAndHyphens | suez-app/app.py:49 | removing spaces and hyphens never lengthens the text and leaves none of either |
| Extractor.StripDistributes | suez-app/app.py:49 | removing spaces and hyphens distributes over concatenation |
| Extractor.StripChar | suez-app/app.py:49 | on one character, a space or hyphen is dropped and anything else is kept |
| Extractor.CanonicaliseLetter | suez-app/app.py:50 | the rewrite replaces each `B` and `R` with `P` and keeps every other character in place |
| Extractor.LastNine | suez-app/app.py:51 | `[-9:]` is the suffix of length nine, or the whole text when it is shorter |
| Extractor.TicketNumber | suez-app/app.py:49-51 | the stored number has at most nine characters; for a whole ticket-number match it is exactly the match's last nine characters, all digits, so the letter never shows |
| Extractor.TicketLetterIrrelevant | suez-app/app.py:49-51 | two matches with the same nine digits give the same stored number, whatever their letter and separators |
| Extractor.TicketDigits | suez-app/app.py:42-51 | the stored number of a ticket-number match is the last nine characters of the match in the text |
| Extractor.TicketGroup | suez-app/app.py:42-47 | the group the ticket number is taken from is a ticket-number match within the text |
| Extractor.TicketGroupIsLeftmostMatch | suez-app/app.py:42-47 | with the fallback included, the ticket number still comes from the leftmost match of the first pattern |
| Extractor.DateMatchOf | suez-app/app.py:54-59 | the chosen date match lies within the text |
| Extractor.DateOf | suez-app/app.py:54-68 | the page's date, when there is one, is a valid calendar date |
| Extractor.YearOf202x | suez-app/app.py:56 | a year field `2024` or `2025` has the value 2024 or 2025 |
| Extractor.DateOfFallback | suez-app/app.py:54-59 | a labelled date match decides the date even when it is invalid; without one, the date's year is 2024 or 2025 |
| Extractor.WeightValue | suez-app/app.py:71-80 | a weight read from the text is at most 99999 |
| Extractor.Weights | suez-app/app.py:71-84 | weights that pass the cross-check satisfy `tare <= gross <= 99999` and `1 <= net <= gross` |
| Extractor.WeightValueReads | suez-app/app.py:71-78 | a weight search reads `v` exactly when its pattern matches and the leftmost match, taking the most digits there, captures the number `v` |
| Extractor.WeightsWhen | suez-app/app.py:71-84 | the weights are `(g, t, n)` exactly when the GROSS, TARE and NET patterns' first, longest matches capture `g`, `t` and `n`, and `n <= g`, `t <= g` and `n > 0` |
| Extractor.Category | suez-app/app.py:86-92 | Street/Litter exactly when a street keyword occurs; Compost exactly when none does but a compost keyword does; Flytip otherwise |
| Extractor.Extract | suez-app/app.py:35-102 | every record returned has a nine-digit ticket number, a valid date with its own weekday name, and `tare <= gross <= 99999`, `1 <= net <= gross` |
| Extractor.ExtractWhen | suez-app/app.py:35-102 | a record is returned exactly when the ticket pattern matches, a valid date is read, all three weights are found and they pass the cross-check |
| Extractor.ExtractFields | suez-app/app.py:53-102 | a returned record's date, weights and category are the ones read from the cleaned text |
| Extractor.ExtractTicketNo | suez-app/app.py:42-51 | a returned record's ticket number is the last nine characters of the leftmost ticket-number match in the cleaned text |
| SamplePages.CrossCheckPageHasNoWeights | suez-app/app.py:71-84 | on the page `GROSS 500 TARE 100 NET 600`, the net weight exceeds the gross weight, so no weights are reported |
| SamplePages.FullPageExtract | suez-app/app.py:35-102 | the page `1234P123456789 TARE 200 GROSS 1000 NET 800 Date 05-Jan-2025 LITTER` yields ticket `123456789` of Sunday 2025-01-05, with gross 1000, tare 200, net 800 and Street/Litter |
| Batch.Somes | suez-app/app.py:134-136 | the batch holds at most one record per page |
| Batch.PageResults | suez-app/app.py:126-134 | the extractor is run once per page |
| Batch.SomesFrom | suez-app/app.py:134-136 | every record of the batch was returned for some page |
| Batch.ExtractedValid | suez-app/app.py:134-136 | every record of the batch is a valid record |
| Batch.SomesAppend | suez-app/app.py:134-136 | each page appends its record, if it has one, to the batch collected so far |
| Batch.SomesStep | suez-app/app.py:134-138 | each page raises the count by one when it yields a record and leaves it alone otherwise |
| Batch.FoundStep | suez-app/app.py:126-138 | the `found` count of page k+1 is that of page k plus one exactly when page k+1 yields a record, so it never falls and grows by at most one |
| Batch.FoundEnds | suez-app/app.py:123-138 | the count starts at zero and ends at the size of the batch |
| Batch.SomesEmpty | suez-app/app.py:140 | the batch is empty exactly when every page's result is `None` |
| Batch.ExtractedEmpty | suez-app/app.py:140-142 | the batch is empty exactly when no page yields a record |
| Batch.InsertMultiset | suez-app/app.py:145 | inserting a record into a batch adds exactly that record |
| Batch.InsertSorted | suez-app/app.py:145 | inserting a record into a batch sorted by date keeps it sorted |
| Batch.InsertOnDate | suez-app/app.py:145 | inserting a record puts it after every record of its own date |
| Batch.SortByDateSpec | suez-app/app.py:145 | the sorted batch is ascending by date, a permutation of the batch, and keeps page order among records of the same date |
| Batch.InsertAt | suez-app/app.py:145 | putting a record just before the first later-dated record of a sorted batch is the stable insertion |
| Batch.InsertNext | suez-app/app.py:145 | one pass shifts the later-dated records right and drops the record in the gap, leaving the rest of the array alone |
| Batch.SortInPlace | suez-app/app.py:145 | the in-place sort leaves the array holding the stable date sort of its old contents |
| Batch.SheetLayout | suez-app/app.py:153-177 | row 1 holds the eleven titles; ticket i is on row i+2 with type, date, day, gross, tare, net in columns 2-7 and ticket number in 11; columns 1 and 8-10 and every cell outside are empty |
| Batch.SheetRows | suez-app/app.py:153-177 | the sheet is the header row followed by one row per record, record i on row i+2 |
| Batch.RowReadBack | suez-app/app.py:158-177 | reading a record's row gives the record back |
| Batch.SheetReadBack | suez-app/app.py:158-177 | every record can be read back from its row, so the layout loses nothing |
| Batch.WriteSheet | suez-app/app.py:153-177 | the two loops fill the sheet with the header row and one row per record in batch order |
| Batch.StampFields | suez-app/app.py:180 | the stamp is 15 characters: year, month, day, `-`, hour, minute, second, each zero-padded, in that order |
| Batch.FileNameFields | suez-app/app.py:180 | the report name is the fixed prefix, the date and time fields zero-padded in order, and `.xlsx` |
| Batch.FileNameRoundTrip | suez-app/app.py:180 | a report name is 41 characters long and gives back the clock reading it was made from |
| Batch.ProgressStep | suez-app/app.py:126-138 | each page appends one progress event to those of the pages before it |
| Batch.CollectTickets | suez-app/app.py:123-138 | the loop collects exactly the pages' records in page order and emits one progress event per page with page, total and the count so far |
| Batch.Report | suez-app/app.py:145-177 | sorting the batch in place and filling the sheet gives the sheet of the date-sorted batch |
| Batch.Generate | suez-app/app.py:123-184 | one progress event per page; then, for an empty batch, the `No tickets found` error and no sheet; otherwise the completion event with the batch size and file name, and the sheet of the date-sorted batch |

## Left out

- Image enhancement (`enhance_image`), PDF rasterisation and OCR: foreign
  libraries and floating point. Each page is given to the model as its OCR
  text.
- Flask routing, upload checks and `download_file`: HTTP and file-system
  plumbing.
- openpyxl cell styling (the date number format, right alignment), the
  sheet title and saving the workbook: the model keeps only the cell
  values.
- JSON and server-sent-event encoding of the progress events: events are
  a datatype.
- The clock: `datetime.now()` is a parameter of `Generate`.
- The catch-all `except Exception` that turns any runtime error into an
  error event: the model has no runtime errors to catch.
- Non-ASCII input: Python's `\d` and `int()` also accept non-ASCII decimal
  digits, `re.IGNORECASE` also folds a few non-ASCII letters onto ASCII
  ones, `str.upper()` changes non-ASCII letters, and `%b`/`%A` follow the
  locale. The model restricts digits and case to ASCII and uses the English
  month and weekday names.
- Batch.FileNameRoundTrip: does not cover clock years below 1000, because
  `%Y` does not zero-pad them on every platform.
