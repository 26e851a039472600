/**
 * `extract_ticket_from_text`: one page of OCR text to a ticket record or
 * nothing. Every step short-circuits to `None` when a field is missing.
 */
module Extractor {
  import opened Wrappers
  import opened Chars
  import opened Dates
  import opened Patterns

  /** The closed set of waste categories. */
  datatype WasteType = StreetLitter | Compost | Flytip

  /** The category as the report writes it. */
  function TypeName(w: WasteType): string
  {
    match w
    case StreetLitter => "Street/Litter"
    case Compost => "Compost"
    case Flytip => "Flytip"
  }

  /** The record the extractor returns: `ticket_no`, `date`, `day`, `gross`, `tare`, `net`, `type`. */
  datatype Ticket = Ticket(ticketNo: string, date: Date, day: string, gross: nat, tare: nat, net: nat, kind: WasteType)

  /** What every extracted record satisfies. */
  predicate IsValidTicket(t: Ticket)
  {
    |t.ticketNo| == 9 && All(t.ticketNo, IsDigit) &&
    IsValidDate(t.date) && t.day == WeekdayName(t.date) &&
    t.tare <= t.gross <= 99999 && 1 <= t.net <= t.gross
  }

  // ---------------------------------------------------------------------
  // Text clean-up

  predicate IsCleanChar(c: char) { c != '|' && c != '`' && c != '\'' }

  /**
   * `text.replace('|', 'I').replace('`', '').replace("'", '')`. The three
   * replacements touch disjoint characters and insert none of them, so
   * they can be applied in one pass.
   */
  function Normalise(s: string): (r: string)
    ensures |r| <= |s| && All(r, IsCleanChar)
  {
    if s == [] then []
    else
      var c := s[0];
      (if c == '|' then "I" else if c == '`' || c == '\'' then "" else [c]) + Normalise(s[1..])
  }

  /** Text without pipes, backticks and apostrophes is left as it is. */
  lemma {:induction false} NormaliseKeepsClean(s: string)
    requires All(s, IsCleanChar)
    ensures Normalise(s) == s
  {
    if s != [] {
      NormaliseKeepsClean(s[1..]);
    }
  }

  /** Normalising twice is normalising once. */
  lemma NormaliseIdempotent(s: string)
    ensures Normalise(Normalise(s)) == Normalise(s)
  {
    NormaliseKeepsClean(Normalise(s));
  }

  /** The clean-up works character by character: it distributes over concatenation. */
  lemma {:induction false} NormaliseAppend(a: string, b: string)
    ensures Normalise(a + b) == Normalise(a) + Normalise(b)
  {
    if a != [] {
      assert (a + b)[1..] == a[1..] + b;
      NormaliseAppend(a[1..], b);
    } else {
      assert a + b == b;
    }
  }

  /** What the clean-up does to one character: a pipe becomes `I`, a backtick or apostrophe goes, anything else stays. */
  lemma NormaliseChar(c: char)
    ensures c == '|' ==> Normalise([c]) == "I"
    ensures c == '`' || c == '\'' ==> Normalise([c]) == ""
    ensures IsCleanChar(c) ==> Normalise([c]) == [c]
  {
    assert [c][1..] == [];
  }

  // ---------------------------------------------------------------------
  // Ticket number

  /** `.replace(' ', '').replace('-', '')`: only the space character and the hyphen go. */
  function StripSpacesAndHyphens(s: string): (r: string)
    ensures |r| <= |s| && forall k :: 0 <= k < |r| ==> r[k] != ' ' && r[k] != '-'
  {
    if s == [] then []
    else (if s[0] == ' ' || s[0] == '-' then [] else [s[0]]) + StripSpacesAndHyphens(s[1..])
  }

  /** `re.sub(r'[BR]', 'P', ...)`. */
  function CanonicaliseLetter(s: string): (r: string)
    ensures |r| == |s|
    ensures forall k :: 0 <= k < |s| ==> r[k] == (if s[k] == 'B' || s[k] == 'R' then 'P' else s[k])
  {
    if s == [] then [] else [if s[0] == 'B' || s[0] == 'R' then 'P' else s[0]] + CanonicaliseLetter(s[1..])
  }

  /** `s[-9:]`. */
  function LastNine(s: string): (r: string)
    ensures |r| == if |s| < 9 then |s| else 9
    ensures r == s[|s| - |r|..]
  {
    if |s| < 9 then s else s[|s| - 9..]
  }

  /**
   * The stored ticket number of a captured ticket-number group. Whatever
   * separators and letter the match holds, it is the trailing nine-digit
   * group: the letter is cut off by the `[-9:]` slice, so the `B`/`R` to
   * `P` rewrite never shows in it.
   */
  function TicketNumber(group: string): (r: string)
    ensures |r| <= 9
    ensures IsTicketWord(group) ==> r == group[|group| - 9..] && |r| == 9 && All(r, IsDigit)
  {
    var r := LastNine(CanonicaliseLetter(UpperString(StripSpacesAndHyphens(group))));
    assert IsTicketWord(group) ==> r == group[|group| - 9..] && All(r, IsDigit) by {
      if IsTicketWord(group) {
        DigitGroupSurvives(group);
      }
    }
    r
  }

  lemma {:induction false} StripDistributes(a: string, b: string)
    ensures StripSpacesAndHyphens(a + b) == StripSpacesAndHyphens(a) + StripSpacesAndHyphens(b)
  {
    if a != [] {
      assert (a + b)[1..] == a[1..] + b;
      StripDistributes(a[1..], b);
    } else {
      assert a + b == b;
    }
  }

  /** What the separator removal does to one character: a space or hyphen goes, anything else stays. */
  lemma StripChar(c: char)
    ensures c == ' ' || c == '-' ==> StripSpacesAndHyphens([c]) == ""
    ensures c != ' ' && c != '-' ==> StripSpacesAndHyphens([c]) == [c]
  {
    assert [c][1..] == [];
  }

  lemma {:induction false} StripKeepsDigits(d: string)
    requires All(d, IsDigit)
    ensures StripSpacesAndHyphens(d) == d
  {
    if d != [] {
      StripKeepsDigits(d[1..]);
    }
  }

  /** Upper-casing and the letter rewrite leave a trailing run of digits alone. */
  lemma DigitsSurviveRewrite(x: string, d: string)
    requires All(d, IsDigit)
    ensures UpperString(x + d) == UpperString(x) + d
    ensures CanonicaliseLetter(x + d) == CanonicaliseLetter(x) + d
  {
  }

  /** The clean-up of a ticket word keeps its trailing nine digits and cuts everything before them. */
  lemma DigitGroupSurvives(group: string)
    requires IsTicketWord(group)
    ensures LastNine(CanonicaliseLetter(UpperString(StripSpacesAndHyphens(group)))) == group[|group| - 9..]
    ensures All(group[|group| - 9..], IsDigit)
  {
    TicketMatchEnd(group, 0, |group|);
    RunAll(group, |group| - 9, |group|, IsDigit);
    var pre, d := group[..|group| - 9], group[|group| - 9..];
    assert group == pre + d;
    StripDistributes(pre, d);
    StripKeepsDigits(d);
    var x := StripSpacesAndHyphens(pre);
    DigitsSurviveRewrite(x, d);
    var y := UpperString(x);
    DigitsSurviveRewrite(y, d);
    var z := CanonicaliseLetter(y);
    assert LastNine(z + d) == d;
  }

  /** Ticket numbers read as B or R and as P give the same stored number. */
  lemma TicketLetterIrrelevant(g1: string, g2: string)
    requires IsTicketWord(g1) && IsTicketWord(g2) && g1[|g1| - 9..] == g2[|g2| - 9..]
    ensures TicketNumber(g1) == TicketNumber(g2)
  {
  }

  /** The ticket-number group: from the unlabelled search, else from the `Ticket No` search. */
  function TicketGroup(text: string): (r: Option<(nat, nat)>)
    ensures r.Some? ==> IsTicketMatch(text, r.value.0, r.value.1)
  {
    match FindTicket(text)
    case Some(m) => Some(m)
    case None =>
      match FindLabelledTicket(text)
      case None => None
      case Some((_, m)) => Some((m.group, m.end))
  }

  /** The `Ticket No` fallback never changes the outcome. */
  lemma TicketGroupIsLeftmostMatch(text: string)
    ensures TicketGroup(text) == FindTicket(text)
  {
    LabelledNeedsUnlabelled(text);
  }

  // ---------------------------------------------------------------------
  // Date

  /** The date match: the labelled pattern if it matches anywhere, else the unlabelled one. */
  function DateMatchOf(text: string): (r: Option<DateMatch>)
    ensures r.Some? ==> IsDateMatchIn(text, r.value)
  {
    match FindLabelledDate(text)
    case Some((_, m)) => Some(m)
    case None =>
      match FindBareDate(text)
      case Some((_, m)) => Some(m)
      case None => None
  }

  /** The parsed date of the page; `None` when no pattern matches or the fields are not a date. */
  function DateOf(text: string): (r: Option<Date>)
    ensures r.Some? ==> IsValidDate(r.value)
  {
    match DateMatchOf(text)
    case None => None
    case Some(m) => ParseDate(DayGroup(text, m), MonthGroup(text, m), YearGroup(text, m))
  }

  lemma YearOf202x(y: string)
    requires |y| == 4 && y[0] == '2' && y[1] == '0' && y[2] == '2' && (y[3] == '4' || y[3] == '5')
    ensures All(y, IsDigit) && DigitsValue(y) == 2020 + DigitValue(y[3])
  {
    var a, b, c := y[..1], y[..2], y[..3];
    assert a[..0] == [];
    assert DigitsValue(a) == 2;
    assert b[..1] == a;
    assert DigitsValue(b) == 20;
    assert c[..2] == b;
    assert DigitsValue(c) == 202;
    assert y[..3] == c;
  }

  /**
   * When the labelled date matches, its fields decide the date even if they
   * are not a valid date. Without it, only years 2024 and 2025 are read.
   */
  lemma DateOfFallback(text: string)
    ensures FindLabelledDate(text).Some? ==>
      var m := FindLabelledDate(text).value.1;
      DateOf(text) == ParseDate(DayGroup(text, m), MonthGroup(text, m), YearGroup(text, m))
    ensures FindLabelledDate(text).None? && DateOf(text).Some? ==>
      FindBareDate(text).Some? && (DateOf(text).value.year == 2024 || DateOf(text).value.year == 2025)
  {
    if FindLabelledDate(text).None? && DateOf(text).Some? {
      var (i, m) := FindBareDate(text).value;
      var y := YearGroup(text, m);
      YearOf202x(y);
    }
  }

  // ---------------------------------------------------------------------
  // Weights

  /** `int(match.group(1))` of the weight search for the label `lit`. */
  function WeightValue(text: string, lit: string, min: nat): (r: Option<nat>)
    requires 1 <= min <= 5
    ensures r.Some? ==> r.value <= 99999
  {
    match FindWeight(text, lit, min)
    case None => None
    case Some((i, m)) =>
      RunAll(text, m.digits, m.end, IsDigit);
      FiveDigitsBound(text[m.digits..m.end]);
      Some(DigitsValue(text[m.digits..m.end]))
  }
  /** A gross, tare and net weight, as `Weights` reports them. */
  datatype Weighing = Weighing(gross: nat, tare: nat, net: nat)

  /**
   * The three weight searches and the cross-check that follows them:
   * nothing unless all three match and `net <= gross`, `tare <= gross`,
   * `net > 0`.
   */
  function Weights(text: string): (r: Option<Weighing>)
    ensures r.Some? ==> r.value.tare <= r.value.gross <= 99999 && 1 <= r.value.net <= r.value.gross
  {
    var gross, tare, net := WeightValue(text, "gross", 3), WeightValue(text, "tare", 3), WeightValue(text, "net", 2);
    if gross.None? || tare.None? || net.None? then None
    else if net.value > gross.value || tare.value > gross.value || net.value <= 0 then None
    else Some(Weighing(gross.value, tare.value, net.value))
  }

  /**
   * `s..j` is the match `re.search` reports for the weight pattern of
   * `lit`: no match starts before `s`, and no match from `s` takes more
   * digits than the one whose digits are `d..j`.
   */
  ghost predicate FirstWeightMatch(text: string, lit: string, min: nat, s: nat, j: nat, d: nat)
  {
    WeightShape(text, s, j, lit, min, d) &&
    (forall k: nat, j': nat, d': nat :: k < s ==> !WeightShape(text, k, j', lit, min, d')) &&
    (forall j': nat, d': nat :: WeightShape(text, s, j', lit, min, d') ==> j' <= j)
  }

  /** The weight pattern of `lit` matches `text`, and the number its search captures is `v`. */
  ghost predicate ReadsWeight(text: string, lit: string, min: nat, v: nat)
  {
    exists s: nat, j: nat, d: nat :: FirstWeightMatch(text, lit, min, s, j, d) &&
      d <= j <= |text| && All(text[d..j], IsDigit) && DigitsValue(text[d..j]) == v
  }

  /** A weight search reads `v` exactly when the first, longest match of its pattern captures `v`. */
  lemma WeightValueReads(text: string, lit: string, min: nat, v: nat)
    requires 1 <= min <= 5
    ensures WeightValue(text, lit, min) == Some(v) <==> ReadsWeight(text, lit, min, v)
  {
    FindWeightLeftmost(text, lit, min);
    if WeightValue(text, lit, min) == Some(v) {
      var (s, m) := FindWeight(text, lit, min).value;
      RunAll(text, m.digits, m.end, IsDigit);
      assert FirstWeightMatch(text, lit, min, s, m.end, m.digits);
    }
    if ReadsWeight(text, lit, min, v) {
      var s: nat, j: nat, d: nat :| FirstWeightMatch(text, lit, min, s, j, d) &&
        d <= j <= |text| && All(text[d..j], IsDigit) && DigitsValue(text[d..j]) == v;
      var (s', m) := FindWeight(text, lit, min).value;
      assert s' == s;
      WeightAtComplete(text, s, lit, min, j, d);
    }
  }

  /**
   * Weights are reported exactly when each of the GROSS, TARE and NET
   * patterns matches, and the numbers their first, longest matches capture
   * pass the cross-check; they are those numbers.
   */
  lemma WeightsWhen(text: string, g: nat, t: nat, n: nat)
    ensures Weights(text) == Some(Weighing(g, t, n)) <==>
      ReadsWeight(text, "gross", 3, g) && ReadsWeight(text, "tare", 3, t) && ReadsWeight(text, "net", 2, n) &&
      n <= g && t <= g && n > 0
  {
    WeightValueReads(text, "gross", 3, g);
    WeightValueReads(text, "tare", 3, t);
    WeightValueReads(text, "net", 2, n);
  }

  // ---------------------------------------------------------------------
  // Category

  const StreetKeywords: seq<string> := ["STREET", "CLEAN", "LITTER"]
  const CompostKeywords: seq<string> := ["BIODEGRADABLE", "COMPOST", "KITCHEN"]

  /** Some keyword of the group occurs in `s`. */
  ghost predicate Mentions(s: string, keywords: seq<string>)
  {
    exists w, i :: w in keywords && OccursAt(s, w, i)
  }

  /**
   * The category of the upper-cased text: the first keyword group with a
   * hit wins, street/litter before compost, and flytip by default.
   */
  function Category(upper: string): (r: WasteType)
    ensures r == StreetLitter <==> Mentions(upper, StreetKeywords)
    ensures r == Compost <==> !Mentions(upper, StreetKeywords) && Mentions(upper, CompostKeywords)
    ensures r == Flytip <==> !Mentions(upper, StreetKeywords) && !Mentions(upper, CompostKeywords)
  {
    if Contains(upper, "STREET") || Contains(upper, "CLEAN") || Contains(upper, "LITTER") then StreetLitter
    else if Contains(upper, "BIODEGRADABLE") || Contains(upper, "COMPOST") || Contains(upper, "KITCHEN") then Compost
    else Flytip
  }

  // ---------------------------------------------------------------------
  // The extractor

  function Extract(raw: string): (r: Option<Ticket>)
    ensures r.Some? ==> IsValidTicket(r.value)
  {
    var text := Normalise(raw);
    match TicketGroup(text)
    case None => None
    case Some((s, e)) =>
      match DateOf(text)
      case None => None
      case Some(date) =>
        match Weights(text)
        case None => None
        case Some(w) =>
          TicketMatchWord(text, s, e);
          Some(Ticket(TicketNumber(text[s..e]), date, WeekdayName(date), w.gross, w.tare, w.net, Category(UpperString(text))))
  }

  /**
   * A record is returned exactly when a ticket number, a valid date and all
   * three weights are found and the weights pass the cross-check.
   * `net == gross - tare` is not checked.
   */
  lemma ExtractWhen(raw: string)
    ensures
      var text := Normalise(raw);
      var gross, tare, net := WeightValue(text, "gross", 3), WeightValue(text, "tare", 3), WeightValue(text, "net", 2);
      Extract(raw).Some? <==>
        FindTicket(text).Some? && DateOf(text).Some? && gross.Some? && tare.Some? && net.Some? &&
        net.value <= gross.value && tare.value <= gross.value && net.value > 0
  {
    var text := Normalise(raw);
    assert Extract(raw).Some? <==> TicketGroup(text).Some? && DateOf(text).Some? && Weights(text).Some?;
    TicketGroupIsLeftmostMatch(text);
  }

  /** The fields of a returned record are the ones found in the text. */
  lemma ExtractFields(raw: string)
    ensures
      var text := Normalise(raw);
      Extract(raw).Some? ==>
        var r := Extract(raw).value;
        Some(r.date) == DateOf(text) && Some(Weighing(r.gross, r.tare, r.net)) == Weights(text) &&
        r.kind == Category(UpperString(text))
  {
    if Extract(raw).Some? {
      ExtractRecord(raw);
    }
  }

  /** The ticket number of a returned record is the last nine characters of the leftmost ticket-number match. */
  lemma ExtractTicketNo(raw: string)
    ensures
      var text := Normalise(raw);
      Extract(raw).Some? ==>
        FindTicket(text).Some? &&
        var (s, e) := FindTicket(text).value;
        Extract(raw).value.ticketNo == text[e - 9..e]
  {
    var text := Normalise(raw);
    if Extract(raw).Some? {
      ExtractRecord(raw);
      TicketGroupIsLeftmostMatch(text);
      assert FindTicket(text).Some?;
      var (s, e) := FindTicket(text).value;
      assert TicketGroup(text) == Some((s, e));
      assert Extract(raw).value.ticketNo == TicketNumber(text[s..e]);
      assert IsTicketMatch(text, s, e);
      TicketDigits(text, s, e);
    }
  }

  /** The record `Extract` builds from the pieces it found. */
  lemma ExtractRecord(raw: string)
    requires Extract(raw).Some?
    ensures
      var text := Normalise(raw);
      TicketGroup(text).Some? && DateOf(text).Some? && Weights(text).Some? &&
      var (s, e) := TicketGroup(text).value;
      var date, w := DateOf(text).value, Weights(text).value;
      Extract(raw).value ==
        Ticket(TicketNumber(text[s..e]), date, WeekdayName(date), w.gross, w.tare, w.net, Category(UpperString(text)))
  {
  }

  /** The stored number of a ticket-number match is the last nine characters of the match in the text. */
  lemma TicketDigits(text: string, s: nat, e: nat)
    requires IsTicketMatch(text, s, e)
    ensures TicketNumber(text[s..e]) == text[e - 9..e]
  {
    TicketMatchWord(text, s, e);
    assert text[s..e][e - s - 9..] == text[e - 9..e];
  }
}
