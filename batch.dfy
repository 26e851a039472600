/**
 * The body of `generate` in `process_pdf`: run the extractor over every
 * page's OCR text in order, report progress after each page, stop with an
 * error when nothing was found, otherwise sort the records by date (a
 * stable, in-place sort) and lay them out as the rows of the report sheet.
 * Rasterising, image clean-up and OCR happen before this: each page is
 * given here as the text the OCR engine produced for it.
 */
module Batch {
  import opened Wrappers
  import opened Chars
  import opened Dates
  import opened Extractor

  /** The payloads of the progress stream. */
  datatype Event =
    | Processing(page: nat, total: nat, found: nat)
    | Error(message: string)
    | Complete(tickets: nat, filename: string)

  const NoTicketsMessage: string := "No tickets found"

  // ---------------------------------------------------------------------
  // Collecting records

  /** The records among per-page results, in page order; a page without one adds nothing. */
  function Somes(rs: seq<Option<Ticket>>): (r: seq<Ticket>)
    ensures |r| <= |rs|
  {
    if rs == [] then []
    else
      var rest := Somes(rs[..|rs| - 1]);
      match rs[|rs| - 1]
      case Some(t) => rest + [t]
      case None => rest
  }

  /** What the extractor returns for each page. */
  function PageResults(pages: seq<string>): (r: seq<Option<Ticket>>)
    ensures |r| == |pages|
  {
    seq(|pages|, k requires 0 <= k < |pages| => Extract(pages[k]))
  }

  /** The batch `tickets` collected from `pages`. */
  function Extracted(pages: seq<string>): seq<Ticket>
  {
    Somes(PageResults(pages))
  }

  /** The `found` count reported after the first `k` pages. */
  function FoundAfter(pages: seq<string>, k: nat): nat
    requires k <= |pages|
  {
    |Somes(PageResults(pages)[..k])|
  }

  /** Every record of the batch was returned for one of the pages. */
  lemma {:induction false} SomesFrom(rs: seq<Option<Ticket>>, t: Ticket)
    requires t in Somes(rs)
    ensures exists k :: 0 <= k < |rs| && rs[k] == Some(t)
  {
    var init := rs[..|rs| - 1];
    if t in Somes(init) {
      SomesFrom(init, t);
      var k :| 0 <= k < |init| && init[k] == Some(t);
      assert rs[k] == Some(t);
    } else {
      assert rs[|rs| - 1] == Some(t);
    }
  }

  /** So every record of the batch is a valid one. */
  lemma ExtractedValid(pages: seq<string>)
    ensures forall t :: t in Extracted(pages) ==> IsValidTicket(t)
  {
    forall t | t in Extracted(pages) ensures IsValidTicket(t) {
      SomesFrom(PageResults(pages), t);
      var k :| 0 <= k < |pages| && PageResults(pages)[k] == Some(t);
    }
  }

  /** Each page raises the count by one when it yields a record and leaves it alone otherwise. */
  lemma SomesStep(rs: seq<Option<Ticket>>, k: nat)
    requires k < |rs|
    ensures |Somes(rs[..k + 1])| == |Somes(rs[..k])| + (if rs[k].Some? then 1 else 0)
  {
    assert rs[..k + 1][..k] == rs[..k];
  }

  /** Counting one more page appends that page's record, if any. */
  lemma SomesAppend(rs: seq<Option<Ticket>>, k: nat)
    requires k < |rs|
    ensures Somes(rs[..k + 1]) == Somes(rs[..k]) + (if rs[k].Some? then [rs[k].value] else [])
  {
    assert rs[..k + 1][..k] == rs[..k];
  }

  lemma FoundStep(pages: seq<string>, k: nat)
    requires k < |pages|
    ensures FoundAfter(pages, k + 1) == FoundAfter(pages, k) + (if Extract(pages[k]).Some? then 1 else 0)
    ensures FoundAfter(pages, k) <= FoundAfter(pages, k + 1) <= FoundAfter(pages, k) + 1
  {
    SomesStep(PageResults(pages), k);
  }

  /** The count starts at zero and ends at the size of the batch. */
  lemma FoundEnds(pages: seq<string>)
    ensures FoundAfter(pages, 0) == 0
    ensures FoundAfter(pages, |pages|) == |Extracted(pages)|
  {
    assert PageResults(pages)[..|pages|] == PageResults(pages);
  }

  lemma {:induction false} SomesEmpty(rs: seq<Option<Ticket>>)
    ensures Somes(rs) == [] <==> forall k :: 0 <= k < |rs| ==> rs[k].None?
  {
    if rs != [] {
      var init := rs[..|rs| - 1];
      SomesEmpty(init);
      assert forall k :: 0 <= k < |init| ==> init[k] == rs[k];
    }
  }

  /** The batch is empty exactly when no page yields a record. */
  lemma ExtractedEmpty(pages: seq<string>)
    ensures Extracted(pages) == [] <==> forall k :: 0 <= k < |pages| ==> Extract(pages[k]).None?
  {
    var rs := PageResults(pages);
    SomesEmpty(rs);
    assert forall k :: 0 <= k < |pages| ==> rs[k] == Extract(pages[k]);
  }

  // ---------------------------------------------------------------------
  // Sorting by date

  /** `tickets.sort(key=lambda x: x['date'])` as insertion: `x` goes after every record not later than it. */
  function InsertByDate(s: seq<Ticket>, x: Ticket): seq<Ticket>
  {
    if s == [] || !Before(x.date, s[|s| - 1].date) then s + [x]
    else InsertByDate(s[..|s| - 1], x) + [s[|s| - 1]]
  }

  /** The stable sort by date of `s`. */
  function SortByDate(s: seq<Ticket>): seq<Ticket>
  {
    if s == [] then [] else InsertByDate(SortByDate(s[..|s| - 1]), s[|s| - 1])
  }

  predicate SortedByDate(s: seq<Ticket>)
  {
    forall i, j :: 0 <= i < j < |s| ==> !Before(s[j].date, s[i].date)
  }

  /** The records of `s` dated `d`, in their order in `s`. */
  function OnDate(s: seq<Ticket>, d: Date): seq<Ticket>
  {
    if s == [] then []
    else OnDate(s[..|s| - 1], d) + (if s[|s| - 1].date == d then [s[|s| - 1]] else [])
  }

  lemma {:induction false} InsertMultiset(s: seq<Ticket>, x: Ticket)
    ensures multiset(InsertByDate(s, x)) == multiset(s) + multiset{x}
  {
    if s != [] && Before(x.date, s[|s| - 1].date) {
      InsertMultiset(s[..|s| - 1], x);
      assert s == s[..|s| - 1] + [s[|s| - 1]];
    }
  }

  lemma {:induction false} InsertSorted(s: seq<Ticket>, x: Ticket)
    requires SortedByDate(s)
    ensures SortedByDate(InsertByDate(s, x))
  {
    if s != [] && Before(x.date, s[|s| - 1].date) {
      var init, last := s[..|s| - 1], s[|s| - 1];
      InsertSorted(init, x);
      InsertMultiset(init, x);
      var r := InsertByDate(init, x);
      forall k | 0 <= k < |r| ensures !Before(last.date, r[k].date) {
        assert r[k] in multiset(r);
        assert r[k] in init || r[k] == x;
      }
    }
  }

  lemma {:induction false} InsertOnDate(s: seq<Ticket>, x: Ticket, d: Date)
    ensures OnDate(InsertByDate(s, x), d) == OnDate(s, d) + (if x.date == d then [x] else [])
  {
    if s == [] || !Before(x.date, s[|s| - 1].date) {
      assert (s + [x])[..|s|] == s;
    } else {
      var init, last := s[..|s| - 1], s[|s| - 1];
      InsertOnDate(init, x, d);
      var r := InsertByDate(init, x);
      assert (r + [last])[..|r|] == r;
    }
  }

  /**
   * The sorted batch is ordered by date, is a permutation of the batch, and
   * keeps the page order of records with the same date: it is the one
   * stable sort of the batch by date.
   */
  lemma {:induction false} SortByDateSpec(s: seq<Ticket>)
    ensures SortedByDate(SortByDate(s))
    ensures multiset(SortByDate(s)) == multiset(s)
    ensures forall d :: OnDate(SortByDate(s), d) == OnDate(s, d)
  {
    if s != [] {
      var init, last := s[..|s| - 1], s[|s| - 1];
      SortByDateSpec(init);
      InsertSorted(SortByDate(init), last);
      InsertMultiset(SortByDate(init), last);
      assert s == init + [last];
      forall d ensures OnDate(SortByDate(s), d) == OnDate(s, d) {
        InsertOnDate(SortByDate(init), last, d);
      }
    }
  }

  /** Inserting `x` where the later records begin is `InsertByDate`. */
  lemma {:induction false} InsertAt(s: seq<Ticket>, x: Ticket, j: nat)
    requires j <= |s|
    requires forall k :: j <= k < |s| ==> Before(x.date, s[k].date)
    requires j == 0 || !Before(x.date, s[j - 1].date)
    ensures InsertByDate(s, x) == s[..j] + [x] + s[j..]
    decreases |s|
  {
    if j < |s| {
      var init := s[..|s| - 1];
      assert forall k :: j <= k < |init| ==> init[k] == s[k];
      InsertAt(init, x, j);
      assert init[..j] == s[..j];
      assert init[j..] + [s[|s| - 1]] == s[j..];
    }
  }

  /**
   * One pass of the insertion sort: with `a[..i]` sorted, shifts the records
   * dated after `a[i]` one place right and puts `a[i]` in the gap.
   */
  method InsertNext(a: array<Ticket>, i: nat)
    requires i < a.Length
    modifies a
    ensures a[..i + 1] == InsertByDate(old(a[..i]), old(a[i]))
    ensures a[i + 1..] == old(a[i + 1..])
  {
    var x := a[i];
    ghost var sorted := a[..i];
    var j := i;
    while j > 0 && Before(x.date, a[j - 1].date)
      invariant 0 <= j <= i
      invariant forall k :: 0 <= k < j ==> a[k] == sorted[k]
      invariant forall k :: j < k <= i ==> a[k] == sorted[k - 1]
      invariant forall k :: j <= k < i ==> Before(x.date, sorted[k].date)
      invariant forall k :: i < k < a.Length ==> a[k] == old(a[k])
    {
      a[j] := a[j - 1];
      j := j - 1;
    }
    a[j] := x;
    InsertAt(sorted, x, j);
    ghost var inserted := sorted[..j] + [x] + sorted[j..];
    assert forall k :: 0 <= k <= i ==> a[k] == inserted[k];
    assert a[..i + 1] == inserted;
  }

  /** `tickets.sort(...)` on the list in place, as an insertion sort. */
  method SortInPlace(a: array<Ticket>)
    modifies a
    ensures a[..] == SortByDate(old(a[..]))
  {
    ghost var orig := a[..];
    var i := 0;
    while i < a.Length
      invariant 0 <= i <= a.Length
      invariant a[..i] == SortByDate(orig[..i])
      invariant a[i..] == orig[i..]
    {
      assert a[i] == orig[i] && a[i + 1..] == orig[i + 1..] by {
        assert a[i..][1..] == a[i + 1..] && orig[i..][1..] == orig[i + 1..];
      }
      assert SortByDate(orig[..i + 1]) == InsertByDate(SortByDate(orig[..i]), orig[i]) by {
        assert orig[..i + 1][..i] == orig[..i];
      }
      InsertNext(a, i);
      i := i + 1;
    }
    assert orig[..a.Length] == orig;
  }

  // ---------------------------------------------------------------------
  // The report sheet

  /** A worksheet cell's value; `Blank` is Python's `None`. */
  datatype Cell = Blank | Text(text: string) | Number(n: int) | DateValue(date: Date)

  type Sheet = seq<seq<Cell>>

  const Headers: seq<string> :=
    ["Week", "Type", "Date", "Day", "IN", "OUT", "Nett", "Street/Litter", "Flytip Monthly", "Compost", "Ticket No"]

  /** `ws.cell(row, col).value`, 1-based; a cell never written reads as `None`. */
  function CellAt(sheet: Sheet, row: int, col: int): Cell
  {
    if 1 <= row <= |sheet| && 1 <= col <= |sheet[row - 1]| then sheet[row - 1][col - 1] else Blank
  }

  function HeaderRow(): seq<Cell>
  {
    seq(|Headers|, c requires 0 <= c < |Headers| => Text(Headers[c]))
  }

  /** The eleven cells written for one record. */
  function Row(t: Ticket): seq<Cell>
  {
    [Blank, Text(TypeName(t.kind)), DateValue(t.date), Text(t.day), Number(t.gross), Number(t.tare),
     Number(t.net), Blank, Blank, Blank, Text(t.ticketNo)]
  }

  /** The sheet for a sorted batch: the header row, then one row per record. */
  function SheetOf(tickets: seq<Ticket>): Sheet
  {
    [HeaderRow()] + seq(|tickets|, i requires 0 <= i < |tickets| => Row(tickets[i]))
  }

  /**
   * Row 1 holds the eleven titles; record `i` is on row `i + 2` with its
   * type, date, weekday, gross, tare, net and ticket number in columns 2 to
   * 7 and 11, and columns 1 and 8 to 10 empty.
   */
  lemma SheetLayout(tickets: seq<Ticket>)
    ensures |SheetOf(tickets)| == |tickets| + 1
    ensures forall c :: 1 <= c <= 11 ==> CellAt(SheetOf(tickets), 1, c) == Text(Headers[c - 1])
    ensures forall i :: 0 <= i < |tickets| ==>
      var s, t := SheetOf(tickets), tickets[i];
      CellAt(s, i + 2, 2) == Text(TypeName(t.kind)) && CellAt(s, i + 2, 3) == DateValue(t.date) &&
      CellAt(s, i + 2, 4) == Text(t.day) && CellAt(s, i + 2, 5) == Number(t.gross) &&
      CellAt(s, i + 2, 6) == Number(t.tare) && CellAt(s, i + 2, 7) == Number(t.net) &&
      CellAt(s, i + 2, 11) == Text(t.ticketNo) &&
      CellAt(s, i + 2, 1) == Blank && CellAt(s, i + 2, 8) == Blank &&
      CellAt(s, i + 2, 9) == Blank && CellAt(s, i + 2, 10) == Blank
    ensures forall r, c :: (r < 1 || r > |tickets| + 1 || c < 1 || c > 11) ==> CellAt(SheetOf(tickets), r, c) == Blank
  {
    SheetRows(tickets);
  }

  /** The rows of the sheet: the header row first, then record `i` on row `i + 2`. */
  lemma SheetRows(tickets: seq<Ticket>)
    ensures |SheetOf(tickets)| == |tickets| + 1 && SheetOf(tickets)[0] == HeaderRow()
    ensures forall i :: 0 <= i < |tickets| ==> SheetOf(tickets)[i + 1] == Row(tickets[i])
  {
  }

  function KindNamed(name: string): Option<WasteType>
  {
    if name == "Street/Litter" then Some(StreetLitter)
    else if name == "Compost" then Some(Compost)
    else if name == "Flytip" then Some(Flytip)
    else None
  }

  /** Reads a record back from a data row of the sheet. */
  function ReadRow(row: seq<Cell>): Option<Ticket>
  {
    if |row| != 11 then None
    else
      match (row[1], row[2], row[3], row[4], row[5], row[6], row[10])
      case (Text(k), DateValue(d), Text(day), Number(g), Number(ta), Number(n), Text(no)) =>
        if g >= 0 && ta >= 0 && n >= 0 && KindNamed(k).Some? then
          Some(Ticket(no, d, day, g, ta, n, KindNamed(k).value))
        else None
      case _ => None
  }

  /** The sheet loses nothing: every record can be read back from its row. */
  lemma SheetReadBack(tickets: seq<Ticket>)
    ensures forall i :: 0 <= i < |tickets| ==> ReadRow(SheetOf(tickets)[i + 1]) == Some(tickets[i])
  {
    SheetRows(tickets);
    forall i | 0 <= i < |tickets| ensures ReadRow(SheetOf(tickets)[i + 1]) == Some(tickets[i]) {
      RowReadBack(tickets[i]);
    }
  }

  /** Reading a record's row gives the record back. */
  lemma RowReadBack(t: Ticket)
    ensures ReadRow(Row(t)) == Some(t)
  {
    assert KindNamed(TypeName(t.kind)) == Some(t.kind);
  }

  /** The two loops that fill the worksheet: the header row, then a row per record. */
  method WriteSheet(tickets: seq<Ticket>) returns (sheet: Sheet)
    ensures sheet == SheetOf(tickets)
  {
    var header: seq<Cell> := [];
    for col := 1 to |Headers| + 1
      invariant |header| == col - 1
      invariant forall c :: 0 <= c < col - 1 ==> header[c] == Text(Headers[c])
    {
      header := header + [Text(Headers[col - 1])];
    }
    sheet := [header];
    for rowNum := 2 to |tickets| + 2
      invariant |sheet| == rowNum - 1 && sheet[0] == HeaderRow()
      invariant forall i :: 0 <= i < rowNum - 2 ==> sheet[i + 1] == Row(tickets[i])
    {
      sheet := sheet + [Row(tickets[rowNum - 2])];
    }
  }

  // ---------------------------------------------------------------------
  // The report's file name

  /** A wall-clock reading, as `datetime.now()` gives it. */
  datatype Moment = Moment(year: nat, month: nat, day: nat, hour: nat, minute: nat, second: nat)

  /** A reading the clock can give; `%Y` pads no year below 1000, so those are left out. */
  predicate IsValidMoment(m: Moment)
  {
    1000 <= m.year <= 9999 && 1 <= m.month <= 12 && 1 <= m.day <= DaysInMonth(m.year, m.month) &&
    m.hour < 24 && m.minute < 60 && m.second < 60
  }

  const ReportPrefix: string := "suez-glossop-tickets-"
  const ReportSuffix: string := ".xlsx"

  /** `strftime('%Y%m%d-%H%M%S')`. */
  function Stamp(m: Moment): string
  {
    Digits(m.year, 4) + Digits(m.month, 2) + Digits(m.day, 2) + "-" +
    Digits(m.hour, 2) + Digits(m.minute, 2) + Digits(m.second, 2)
  }

  /** The name the report is saved under when the clock reads `m`. */
  function ReportFileName(m: Moment): string
  {
    ReportPrefix + Stamp(m) + ReportSuffix
  }

  /** Reads the clock reading back out of a report file name. */
  function ReadFileName(name: string): Option<Moment>
  {
    if |name| == 41 && name[..21] == ReportPrefix && name[29] == '-' && name[36..] == ReportSuffix &&
       All(name[21..25], IsDigit) && All(name[25..27], IsDigit) && All(name[27..29], IsDigit) &&
       All(name[30..32], IsDigit) && All(name[32..34], IsDigit) && All(name[34..36], IsDigit)
    then
      Some(Moment(DigitsValue(name[21..25]), DigitsValue(name[25..27]), DigitsValue(name[27..29]),
                  DigitsValue(name[30..32]), DigitsValue(name[32..34]), DigitsValue(name[34..36])))
    else None
  }

  /** Where each field sits in the stamp. */
  lemma StampFields(m: Moment)
    ensures |Stamp(m)| == 15 && Stamp(m)[8] == '-'
    ensures Stamp(m)[..4] == Digits(m.year, 4) && Stamp(m)[4..6] == Digits(m.month, 2)
    ensures Stamp(m)[6..8] == Digits(m.day, 2) && Stamp(m)[9..11] == Digits(m.hour, 2)
    ensures Stamp(m)[11..13] == Digits(m.minute, 2) && Stamp(m)[13..] == Digits(m.second, 2)
  {
    var y, mo, d := Digits(m.year, 4), Digits(m.month, 2), Digits(m.day, 2);
    var h, mi, se := Digits(m.hour, 2), Digits(m.minute, 2), Digits(m.second, 2);
    assert Stamp(m) == y + mo + d + "-" + h + mi + se;
  }

  /** Where each field of the stamp sits in the file name. */
  lemma FileNameFields(m: Moment)
    ensures |ReportFileName(m)| == 41
    ensures ReportFileName(m)[..21] == ReportPrefix && ReportFileName(m)[36..] == ReportSuffix
    ensures ReportFileName(m)[29] == '-'
    ensures ReportFileName(m)[21..25] == Digits(m.year, 4)
    ensures ReportFileName(m)[25..27] == Digits(m.month, 2) && ReportFileName(m)[27..29] == Digits(m.day, 2)
    ensures ReportFileName(m)[30..32] == Digits(m.hour, 2) && ReportFileName(m)[32..34] == Digits(m.minute, 2)
    ensures ReportFileName(m)[34..36] == Digits(m.second, 2)
  {
    StampFields(m);
    var st := Stamp(m);
    assert ReportFileName(m)[..21] == ReportPrefix;
    assert ReportFileName(m)[36..] == ReportSuffix;
    assert ReportFileName(m)[29] == st[8];
    InfixSlice(ReportPrefix, st, ReportSuffix, 0, 4);
    InfixSlice(ReportPrefix, st, ReportSuffix, 4, 6);
    InfixSlice(ReportPrefix, st, ReportSuffix, 6, 8);
    InfixSlice(ReportPrefix, st, ReportSuffix, 9, 11);
    InfixSlice(ReportPrefix, st, ReportSuffix, 11, 13);
    InfixSlice(ReportPrefix, st, ReportSuffix, 13, 15);
  }

  /** A slice of the middle part of `p + s + q`. */
  lemma InfixSlice(p: string, s: string, q: string, a: nat, b: nat)
    requires a <= b <= |s|
    ensures (p + s + q)[|p| + a..|p| + b] == s[a..b]
  {
    assert forall k :: |p| + a <= k < |p| + b ==> (p + s + q)[k] == s[k - |p|];
  }

  /** Every report file name is 41 characters long and gives back the clock reading it was made from. */
  lemma FileNameRoundTrip(m: Moment)
    requires IsValidMoment(m)
    ensures |ReportFileName(m)| == 41
    ensures ReadFileName(ReportFileName(m)) == Some(m)
  {
    FileNameFields(m);
    assert Pow10(2) == 100 && Pow10(4) == 10000;
    DigitsRoundTrip(m.year, 4);
    DigitsRoundTrip(m.month, 2);
    DigitsRoundTrip(m.day, 2);
    DigitsRoundTrip(m.hour, 2);
    DigitsRoundTrip(m.minute, 2);
    DigitsRoundTrip(m.second, 2);
  }

  // ---------------------------------------------------------------------
  // The whole run

  /** The progress events for the first `n` pages, given each page's result. */
  ghost function Progress(rs: seq<Option<Ticket>>, total: nat, n: nat): (r: seq<Event>)
    requires n <= |rs|
    ensures |r| == n
  {
    seq(n, p requires 0 <= p < n => Processing(p + 1, total, |Somes(rs[..p + 1])|))
  }

  lemma ProgressStep(rs: seq<Option<Ticket>>, total: nat, n: nat)
    requires n < |rs|
    ensures Progress(rs, total, n + 1) == Progress(rs, total, n) + [Processing(n + 1, total, |Somes(rs[..n + 1])|)]
  {
  }

  /** The page loop: extract each page's record and report progress after each page. */
  method CollectTickets(pages: seq<string>) returns (tickets: seq<Ticket>, events: seq<Event>)
    ensures tickets == Extracted(pages)
    ensures |events| == |pages|
    ensures forall p :: 1 <= p <= |pages| ==> events[p - 1] == Processing(p, |pages|, FoundAfter(pages, p))
  {
    ghost var results := PageResults(pages);
    var total := |pages|;
    tickets, events := [], [];
    for pageNum := 1 to total + 1
      invariant tickets == Somes(results[..pageNum - 1])
      invariant |events| == pageNum - 1
      invariant events == Progress(results, total, pageNum - 1)
    {
      var ticket := Extract(pages[pageNum - 1]);
      assert results[pageNum - 1] == ticket;
      SomesAppend(results, pageNum - 1);
      if ticket.Some? {
        tickets := tickets + [ticket.value];
      }
      ProgressStep(results, total, pageNum - 1);
      events := events + [Processing(pageNum, total, |tickets|)];
    }
    assert results[..total] == results;
    forall p | 1 <= p <= |pages| ensures events[p - 1] == Processing(p, |pages|, FoundAfter(pages, p)) {
      assert FoundAfter(pages, p) == |Somes(results[..p])|;
    }
  }

  /**
   * The events `generate` yields for the OCR texts of the pages, and the
   * sheet it saves, when the clock reads `now` at saving time. One progress event per page, then either an error and no
   * sheet, or a completion event and the sheet of the date-sorted batch.
   */
  method Generate(pages: seq<string>, now: Moment) returns (events: seq<Event>, sheet: Option<Sheet>)
    ensures |events| == |pages| + 1
    ensures forall p :: 1 <= p <= |pages| ==> events[p - 1] == Processing(p, |pages|, FoundAfter(pages, p))
    ensures Extracted(pages) == [] ==> events[|pages|] == Error(NoTicketsMessage) && sheet == None
    ensures Extracted(pages) != [] ==>
      events[|pages|] == Complete(|Extracted(pages)|, ReportFileName(now)) &&
      sheet == Some(SheetOf(SortByDate(Extracted(pages))))
  {
    var tickets;
    tickets, events := CollectTickets(pages);
    if tickets == [] {
      events := events + [Error(NoTicketsMessage)];
      sheet := None;
      return;
    }
    var rows := Report(tickets);
    var filename := ReportFileName(now);
    events := events + [Complete(|tickets|, filename)];
    sheet := Some(rows);
  }

  /** Sorts the collected records by date in place and writes the sheet from them. */
  method Report(tickets: seq<Ticket>) returns (sheet: Sheet)
    ensures sheet == SheetOf(SortByDate(tickets))
  {
    var a := new Ticket[|tickets|](i requires 0 <= i < |tickets| => tickets[i]);
    assert a[..] == tickets;
    SortInPlace(a);
    sheet := WriteSheet(a[..]);
  }
}
