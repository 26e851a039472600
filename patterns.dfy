/**
 * The regular expressions of `extract_ticket_from_text`, each given twice:
 * as the language it matches (a predicate saying that the pattern matches
 * the text `t` from position `i` to position `j`, with the positions of its
 * variable parts as parameters) and as a deterministic matcher at a fixed
 * start position. For these patterns every match at a given start has the
 * same shape except for how many digits a greedy digit run takes, so the
 * match Python's backtracking engine reports first is the longest one;
 * each matcher is proved to return exactly that match. `re.search` then
 * reports the leftmost start that has a match.
 */
module Patterns {
  import opened Wrappers
  import opened Chars

  /** `re.search`: the leftmost position in `from..n` at which `at` finds a match. */
  function Leftmost<M>(n: nat, at: nat -> Option<M>, from: nat): (r: Option<(nat, M)>)
    requires from <= n + 1
    decreases n + 1 - from
    ensures r.Some? ==> from <= r.value.0 <= n && at(r.value.0) == Some(r.value.1)
    ensures r.Some? ==> forall k :: from <= k < r.value.0 ==> at(k).None?
    ensures r.None? ==> forall k :: from <= k <= n ==> at(k).None?
  {
    if from > n then None
    else match at(from)
      case Some(m) => Some((from, m))
      case None => Leftmost(n, at, from + 1)
  }

  /** Every character of `t[p..q]` is a `keep` character. */
  predicate Run(t: string, p: nat, q: nat, keep: char -> bool)
  {
    p <= q <= |t| && forall k :: p <= k < q ==> keep(t[k])
  }

  lemma RunAll(t: string, p: nat, q: nat, keep: char -> bool)
    requires Run(t, p, q, keep)
    ensures All(t[p..q], keep)
  {
    assert forall k :: 0 <= k < q - p ==> t[p..q][k] == t[p + k];
  }

  /** The case-insensitive literal `lit` (written in lower case) at position `p` of `t`. */
  predicate LabelAt(t: string, p: nat, lit: string)
  {
    p + |lit| <= |t| && EqualsIgnoringCase(t[p..p + |lit|], lit)
  }

  /** A label that starts with a letter starts with a letter in the text too. */
  lemma LabelStartsWithLetter(t: string, p: nat, lit: string)
    requires LabelAt(t, p, lit) && |lit| > 0 && IsAsciiLetter(lit[0])
    ensures p < |t| && IsAsciiLetter(t[p])
  {
    assert t[p..p + |lit|][0] == t[p];
  }

  /** The end of the longest run of `keep` characters of `t` that starts at `p`. */
  function RunEnd(t: string, p: nat, keep: char -> bool): (q: nat)
    requires p <= |t|
    decreases |t| - p
    ensures Run(t, p, q, keep)
    ensures q < |t| ==> !keep(t[q])
  {
    if p < |t| && keep(t[p]) then RunEnd(t, p + 1, keep) else p
  }

  /** A run of `keep` characters that cannot be extended is the one `RunEnd` finds. */
  lemma RunEndUnique(t: string, p: nat, q: nat, keep: char -> bool)
    requires Run(t, p, q, keep)
    requires q < |t| ==> !keep(t[q])
    ensures RunEnd(t, p, keep) == q
  {
  }

  // ---------------------------------------------------------------------
  // Ticket number: \d{4}[\s\-]?[PpBbRr][\s\-]?\d{9}

  predicate IsTicketLetter(c: char)
  {
    c == 'P' || c == 'p' || c == 'B' || c == 'b' || c == 'R' || c == 'r'
  }

  /** The ticket pattern on `t[i..j]` with its optional separators present (1) or absent (0). */
  predicate TicketShape(t: string, i: nat, j: nat, s1: nat, s2: nat)
  {
    s1 <= 1 && s2 <= 1 && j == i + 14 + s1 + s2 && j <= |t| &&
    Run(t, i, i + 4, IsDigit) && (s1 == 1 ==> IsSep(t[i + 4])) && IsTicketLetter(t[i + 4 + s1]) &&
    (s2 == 1 ==> IsSep(t[i + 5 + s1])) && Run(t, i + 5 + s1 + s2, j, IsDigit)
  }

  /** The ticket pattern matches `t[i..j]`. */
  predicate IsTicketMatch(t: string, i: nat, j: nat)
  {
    TicketShape(t, i, j, 0, 0) || TicketShape(t, i, j, 0, 1) ||
    TicketShape(t, i, j, 1, 0) || TicketShape(t, i, j, 1, 1)
  }

  /** The ticket pattern matches all of `w`. */
  predicate IsTicketWord(w: string)
  {
    IsTicketMatch(w, 0, |w|)
  }

  /** Every ticket-number match ends in its nine-digit group. */
  lemma TicketMatchEnd(t: string, i: nat, j: nat)
    requires IsTicketMatch(t, i, j)
    ensures i + 14 <= j <= i + 16 && j <= |t| && IsDigit(t[i]) && Run(t, j - 9, j, IsDigit)
  {
  }

  /** A ticket-number match, cut out of the text, is a whole ticket-number word. */
  lemma TicketMatchWord(t: string, i: nat, j: nat)
    requires IsTicketMatch(t, i, j)
    ensures IsTicketWord(t[i..j])
  {
    assert forall k :: 0 <= k < j - i ==> t[i..j][k] == t[i + k];
  }

  /** The ticket-number match starting at `i`, as the position where it ends. */
  function TicketAt(t: string, i: nat): (r: Option<nat>)
    ensures r.Some? ==> IsTicketMatch(t, i, r.value)
  {
    if i + 4 > |t| || !Run(t, i, i + 4, IsDigit) then None
    else
      var p := if i + 4 < |t| && IsSep(t[i + 4]) then i + 5 else i + 4;
      if p >= |t| || !IsTicketLetter(t[p]) then None
      else
        var q := if p + 1 < |t| && IsSep(t[p + 1]) then p + 2 else p + 1;
        if q + 9 <= |t| && Run(t, q, q + 9, IsDigit) then
          assert TicketShape(t, i, q + 9, p - (i + 4), q - (p + 1));
          Some(q + 9)
        else None
  }

  /** A ticket-number match at `i` is the one `TicketAt` reports: the pattern admits only one. */
  lemma TicketAtComplete(t: string, i: nat, j: nat)
    requires IsTicketMatch(t, i, j)
    ensures TicketAt(t, i) == Some(j)
  {
    var s1 := if IsSep(t[i + 4]) then 1 else 0;
    var s2 := if IsSep(t[i + 5 + s1]) then 1 else 0;
    assert TicketShape(t, i, j, s1, s2);
  }

  /** `re.search` for the ticket-number pattern: where its leftmost match starts and ends. */
  function FindTicket(t: string): (r: Option<(nat, nat)>)
    ensures r.Some? ==> TicketAt(t, r.value.0) == Some(r.value.1) && r.value.0 + 14 <= r.value.1 <= |t|
    ensures r.Some? ==> forall k :: 0 <= k < r.value.0 ==> TicketAt(t, k).None?
    ensures r.None? ==> forall k :: 0 <= k <= |t| ==> TicketAt(t, k).None?
  {
    var at := i => TicketAt(t, i);
    assert forall k :: at(k) == TicketAt(t, k);
    var r := Leftmost(|t|, at, 0);
    if r.Some? then TicketMatchEnd(t, r.value.0, r.value.1); r else r
  }

  /** In terms of the pattern: the leftmost match, or no match anywhere. */
  lemma FindTicketLeftmost(t: string)
    ensures FindTicket(t).Some? ==>
      var (s, e) := FindTicket(t).value;
      IsTicketMatch(t, s, e) && forall k: nat, j: nat :: 0 <= k < s ==> !IsTicketMatch(t, k, j)
    ensures FindTicket(t).None? <==> forall k: nat, j: nat :: !IsTicketMatch(t, k, j)
  {
    TicketsSeen(t);
    if FindTicket(t).Some? {
      var (s, e) := FindTicket(t).value;
      assert TicketAt(t, s) == Some(e);
    }
  }

  /** Wherever a ticket number starts, `TicketAt` finds one. */
  lemma TicketsSeen(t: string)
    ensures forall k: nat, j: nat :: IsTicketMatch(t, k, j) ==> k <= |t| && TicketAt(t, k).Some?
  {
    forall k: nat, j: nat | IsTicketMatch(t, k, j) ensures k <= |t| && TicketAt(t, k).Some? {
      TicketAtComplete(t, k, j);
    }
  }

  // ---------------------------------------------------------------------
  // Labelled ticket number: Ticket\s*No[:\s]*(<ticket pattern>), ignoring case

  /** The labelled pattern on `t[i..j]` with `No` at position `a` and the ticket number from `g`. */
  predicate LabelledTicketShape(t: string, i: nat, j: nat, a: nat, g: nat)
  {
    LabelAt(t, i, "ticket") && Run(t, i + 6, a, IsSpace) &&
    LabelAt(t, a, "no") && Run(t, a + 2, g, IsColonOrSpace) && IsTicketMatch(t, g, j)
  }

  /** Positions of `No`, of the captured ticket number, and of the end of the match. */
  datatype LabelledTicket = LabelledTicket(no: nat, group: nat, end: nat)

  /** The labelled ticket-number match starting at `i`; what it captures is a ticket-number match. */
  function LabelledTicketAt(t: string, i: nat): (r: Option<LabelledTicket>)
    ensures r.Some? ==> LabelledTicketShape(t, i, r.value.end, r.value.no, r.value.group)
    ensures r.Some? ==> TicketAt(t, r.value.group) == Some(r.value.end)
  {
    if !LabelAt(t, i, "ticket") then None
    else
      var a := RunEnd(t, i + 6, IsSpace);
      if !LabelAt(t, a, "no") then None
      else
        var g := RunEnd(t, a + 2, IsColonOrSpace);
        match TicketAt(t, g)
        case None => None
        case Some(e) => Some(LabelledTicket(a, g, e))
  }

  /** The labelled pattern can match at `i` in one way only, and `LabelledTicketAt` finds it. */
  lemma LabelledTicketAtComplete(t: string, i: nat, j: nat, a: nat, g: nat)
    requires LabelledTicketShape(t, i, j, a, g)
    ensures LabelledTicketAt(t, i) == Some(LabelledTicket(a, g, j))
  {
    assert RunEnd(t, i + 6, IsSpace) == a by {
      LabelStartsWithLetter(t, a, "no");
      RunEndUnique(t, i + 6, a, IsSpace);
    }
    assert RunEnd(t, a + 2, IsColonOrSpace) == g by {
      TicketMatchEnd(t, g, j);
      RunEndUnique(t, a + 2, g, IsColonOrSpace);
    }
    assert TicketAt(t, g) == Some(j) by {
      TicketAtComplete(t, g, j);
    }
    LabelledTicketAtIs(t, i, a, g, j);
  }

  /** `LabelledTicketAt` when each of its steps is known. */
  lemma LabelledTicketAtIs(t: string, i: nat, a: nat, g: nat, j: nat)
    requires LabelAt(t, i, "ticket") && RunEnd(t, i + 6, IsSpace) == a
    requires LabelAt(t, a, "no") && RunEnd(t, a + 2, IsColonOrSpace) == g
    requires TicketAt(t, g) == Some(j)
    ensures LabelledTicketAt(t, i) == Some(LabelledTicket(a, g, j))
  {
    assert LabelAt(t, i, "ticket") && LabelAt(t, a, "no");
  }

  /** `re.search` for the labelled pattern: where it starts and where it matched. */
  function FindLabelledTicket(t: string): (r: Option<(nat, LabelledTicket)>)
    ensures r.Some? ==> LabelledTicketAt(t, r.value.0) == Some(r.value.1)
    ensures r.None? ==> forall k :: 0 <= k <= |t| ==> LabelledTicketAt(t, k).None?
  {
    var at := i => LabelledTicketAt(t, i);
    assert forall k :: at(k) == LabelledTicketAt(t, k);
    Leftmost(|t|, at, 0)
  }

  /**
   * The labelled pattern captures the same sub-pattern as the unlabelled
   * one, so it never matches a text in which the unlabelled one does not.
   */
  lemma LabelledNeedsUnlabelled(t: string)
    ensures FindTicket(t).None? ==> FindLabelledTicket(t).None?
  {
    if FindLabelledTicket(t).Some? {
      var (i, m) := FindLabelledTicket(t).value;
      assert TicketAt(t, m.group).Some?;
    }
  }

  // ---------------------------------------------------------------------
  // Dates: Date[:\s]*(\d{1,2})[\s\-]([A-Za-z]{3})[\s\-](\d{4}) ignoring case,
  // and (\d{1,2})[\s\-]([A-Za-z]{3})[\s\-](202[45])

  /** Day, month and year fields on `t[p..j]` with a day of `n` digits. */
  predicate DateShape(t: string, p: nat, j: nat, n: nat)
  {
    1 <= n <= 2 && j == p + n + 9 && j <= |t| &&
    Run(t, p, p + n, IsDigit) && IsSep(t[p + n]) && Run(t, p + n + 1, p + n + 4, IsAsciiLetter) &&
    IsSep(t[p + n + 4]) && Run(t, p + n + 5, j, IsDigit)
  }

  /** The length of the day field of the date fields starting at `p`. */
  function DateFieldsAt(t: string, p: nat): (r: Option<nat>)
    ensures r.Some? ==> DateShape(t, p, p + r.value + 9, r.value)
  {
    if p >= |t| || !IsDigit(t[p]) then None
    else
      var n := if p + 1 < |t| && IsDigit(t[p + 1]) then 2 else 1;
      if DateShape(t, p, p + n + 9, n) then Some(n) else None
  }

  /** Date fields at `p` can be read in one way only, and `DateFieldsAt` finds it. */
  lemma DateFieldsAtComplete(t: string, p: nat, j: nat, n: nat)
    requires DateShape(t, p, j, n)
    ensures DateFieldsAt(t, p) == Some(n)
  {
  }

  /** A date match: where its fields start, the length of its day field, where it ends. */
  datatype DateMatch = DateMatch(fields: nat, dayLen: nat, end: nat)

  predicate IsDateMatchIn(t: string, m: DateMatch)
  {
    DateShape(t, m.fields, m.end, m.dayLen)
  }

  /** The labelled pattern on `t[i..j]` with the date fields from position `f` and a day of `n` digits. */
  predicate LabelledDateShape(t: string, i: nat, j: nat, f: nat, n: nat)
  {
    LabelAt(t, i, "date") && Run(t, i + 4, f, IsColonOrSpace) && DateShape(t, f, j, n)
  }

  /** The labelled date match starting at `i`; its date fields are a date match. */
  function LabelledDateAt(t: string, i: nat): (r: Option<DateMatch>)
    ensures r.Some? ==> LabelledDateShape(t, i, r.value.end, r.value.fields, r.value.dayLen)
  {
    if !LabelAt(t, i, "date") then None
    else
      var f := RunEnd(t, i + 4, IsColonOrSpace);
      match DateFieldsAt(t, f)
      case None => None
      case Some(n) => Some(DateMatch(f, n, f + n + 9))
  }

  /** The labelled pattern can match at `i` in one way only, and `LabelledDateAt` finds it. */
  lemma LabelledDateAtComplete(t: string, i: nat, j: nat, f: nat, n: nat)
    requires LabelledDateShape(t, i, j, f, n)
    ensures LabelledDateAt(t, i) == Some(DateMatch(f, n, j))
  {
    RunEndUnique(t, i + 4, f, IsColonOrSpace);
    DateFieldsAtComplete(t, f, j, n);
  }

  function FindLabelledDate(t: string): (r: Option<(nat, DateMatch)>)
    ensures r.Some? ==> LabelledDateAt(t, r.value.0) == Some(r.value.1)
    ensures r.Some? ==> forall k :: 0 <= k < r.value.0 ==> LabelledDateAt(t, k).None?
    ensures r.None? ==> forall k :: 0 <= k <= |t| ==> LabelledDateAt(t, k).None?
  {
    var at := i => LabelledDateAt(t, i);
    assert forall k :: at(k) == LabelledDateAt(t, k);
    Leftmost(|t|, at, 0)
  }

  /** In terms of the pattern: the leftmost labelled date, or none anywhere. */
  lemma FindLabelledDateLeftmost(t: string)
    ensures FindLabelledDate(t).Some? ==>
      var (s, m) := FindLabelledDate(t).value;
      LabelledDateShape(t, s, m.end, m.fields, m.dayLen) &&
      forall k: nat, j: nat, f: nat, n: nat :: 0 <= k < s ==> !LabelledDateShape(t, k, j, f, n)
    ensures FindLabelledDate(t).None? <==> forall k: nat, j: nat, f: nat, n: nat :: !LabelledDateShape(t, k, j, f, n)
  {
    LabelledDatesSeen(t);
    if FindLabelledDate(t).Some? {
      var (s, m) := FindLabelledDate(t).value;
      assert LabelledDateAt(t, s) == Some(m);
    }
  }

  /** Wherever a labelled date starts, `LabelledDateAt` finds one. */
  lemma LabelledDatesSeen(t: string)
    ensures forall k: nat, j: nat, f: nat, n: nat :: LabelledDateShape(t, k, j, f, n) ==> k <= |t| && LabelledDateAt(t, k).Some?
  {
    forall k: nat, j: nat, f: nat, n: nat | LabelledDateShape(t, k, j, f, n) ensures k <= |t| && LabelledDateAt(t, k).Some? {
      LabelledDateAtComplete(t, k, j, f, n);
    }
  }

  /** The unlabelled, case-sensitive pattern on `t[i..j]`, whose year must be 2024 or 2025. */
  predicate BareDateShape(t: string, i: nat, j: nat, n: nat)
  {
    DateShape(t, i, j, n) && t[j - 4] == '2' && t[j - 3] == '0' && t[j - 2] == '2' &&
    (t[j - 1] == '4' || t[j - 1] == '5')
  }

  function BareDateAt(t: string, i: nat): (r: Option<DateMatch>)
    ensures r.Some? ==> r.value.fields == i && BareDateShape(t, i, r.value.end, r.value.dayLen)
  {
    match DateFieldsAt(t, i)
    case None => None
    case Some(n) =>
      var e := i + n + 9;
      if t[e - 4] == '2' && t[e - 3] == '0' && t[e - 2] == '2' && (t[e - 1] == '4' || t[e - 1] == '5') then
        Some(DateMatch(i, n, e))
      else None
  }

  /** The unlabelled pattern can match at `i` in one way only, and `BareDateAt` finds it. */
  lemma BareDateAtComplete(t: string, i: nat, j: nat, n: nat)
    requires BareDateShape(t, i, j, n)
    ensures BareDateAt(t, i) == Some(DateMatch(i, n, j))
  {
    DateFieldsAtComplete(t, i, j, n);
  }

  function FindBareDate(t: string): (r: Option<(nat, DateMatch)>)
    ensures r.Some? ==> BareDateAt(t, r.value.0) == Some(r.value.1)
    ensures r.Some? ==> forall k :: 0 <= k < r.value.0 ==> BareDateAt(t, k).None?
    ensures r.None? ==> forall k :: 0 <= k <= |t| ==> BareDateAt(t, k).None?
  {
    var at := i => BareDateAt(t, i);
    assert forall k :: at(k) == BareDateAt(t, k);
    Leftmost(|t|, at, 0)
  }

  /** In terms of the pattern: the leftmost unlabelled date, or none anywhere. */
  lemma FindBareDateLeftmost(t: string)
    ensures FindBareDate(t).Some? ==>
      var (s, m) := FindBareDate(t).value;
      s == m.fields && BareDateShape(t, s, m.end, m.dayLen) &&
      forall k: nat, j: nat, n: nat :: 0 <= k < s ==> !BareDateShape(t, k, j, n)
    ensures FindBareDate(t).None? <==> forall k: nat, j: nat, n: nat :: !BareDateShape(t, k, j, n)
  {
    BareDatesSeen(t);
    if FindBareDate(t).Some? {
      var (s, m) := FindBareDate(t).value;
      assert BareDateAt(t, s) == Some(m);
    }
  }

  /** Wherever an unlabelled date starts, `BareDateAt` finds one. */
  lemma BareDatesSeen(t: string)
    ensures forall k: nat, j: nat, n: nat :: BareDateShape(t, k, j, n) ==> k <= |t| && BareDateAt(t, k).Some?
  {
    forall k: nat, j: nat, n: nat | BareDateShape(t, k, j, n) ensures k <= |t| && BareDateAt(t, k).Some? {
      BareDateAtComplete(t, k, j, n);
    }
  }

  /** The three captured groups of a date match: day, month, year. */
  function DayGroup(t: string, m: DateMatch): (s: string)
    requires IsDateMatchIn(t, m)
    ensures 1 <= |s| <= 2 && All(s, IsDigit)
  {
    RunAll(t, m.fields, m.fields + m.dayLen, IsDigit);
    t[m.fields..m.fields + m.dayLen]
  }

  function MonthGroup(t: string, m: DateMatch): (s: string)
    requires IsDateMatchIn(t, m)
    ensures |s| == 3 && All(s, IsAsciiLetter)
  {
    RunAll(t, m.fields + m.dayLen + 1, m.fields + m.dayLen + 4, IsAsciiLetter);
    t[m.fields + m.dayLen + 1..m.fields + m.dayLen + 4]
  }

  function YearGroup(t: string, m: DateMatch): (s: string)
    requires IsDateMatchIn(t, m)
    ensures |s| == 4 && All(s, IsDigit)
  {
    RunAll(t, m.end - 4, m.end, IsDigit);
    t[m.end - 4..m.end]
  }

  // ---------------------------------------------------------------------
  // Weights: <LABEL>[^\d]{0,20}(\d{min,5}), ignoring case

  /**
   * The weight pattern for the lower-case label `lit` on `t[i..j]`: the
   * label, at most 20 noise characters, then digits from `d` to `j`.
   */
  predicate WeightShape(t: string, i: nat, j: nat, lit: string, min: nat, d: nat)
  {
    LabelAt(t, i, lit) && Run(t, i + |lit|, d, IsNonDigit) && d - (i + |lit|) <= 20 &&
    Run(t, d, j, IsDigit) && min <= j - d <= 5
  }

  /** Where the captured digits of a weight match start and end. */
  datatype WeightMatch = WeightMatch(digits: nat, end: nat)

  function WeightAt(t: string, i: nat, lit: string, min: nat): (r: Option<WeightMatch>)
    requires 1 <= min <= 5
    ensures r.Some? ==> WeightShape(t, i, r.value.end, lit, min, r.value.digits)
  {
    if !LabelAt(t, i, lit) then None
    else
      var d := RunEnd(t, i + |lit|, IsNonDigit);
      var run := RunEnd(t, d, IsDigit);
      var e := if run > d + 5 then d + 5 else run;
      if d - (i + |lit|) <= 20 && e - d >= min then Some(WeightMatch(d, e)) else None
  }

  /**
   * Every weight match at `i` has the same noise gap; `WeightAt` finds it
   * and takes the longest digit run, as the greedy `\d{min,5}` does.
   */
  lemma WeightAtComplete(t: string, i: nat, lit: string, min: nat, j: nat, d: nat)
    requires 1 <= min <= 5 && WeightShape(t, i, j, lit, min, d)
    ensures WeightAt(t, i, lit, min).Some?
    ensures WeightAt(t, i, lit, min).value.digits == d
    ensures j <= WeightAt(t, i, lit, min).value.end
  {
    assert IsDigit(t[d]);
    RunEndUnique(t, i + |lit|, d, IsNonDigit);
  }

  /** `re.search` for a weight pattern: where it starts and where its digits are. */
  function FindWeight(t: string, lit: string, min: nat): (r: Option<(nat, WeightMatch)>)
    requires 1 <= min <= 5
    ensures r.Some? ==> WeightAt(t, r.value.0, lit, min) == Some(r.value.1)
    ensures r.Some? ==> forall k :: 0 <= k < r.value.0 ==> WeightAt(t, k, lit, min).None?
    ensures r.None? ==> forall k :: 0 <= k <= |t| ==> WeightAt(t, k, lit, min).None?
  {
    var at := i => WeightAt(t, i, lit, min);
    assert forall k :: at(k) == WeightAt(t, k, lit, min);
    Leftmost(|t|, at, 0)
  }

  /**
   * In terms of the pattern: the match starts at the leftmost label
   * occurrence that admits one, and takes the most digits any match from
   * there can take; with no match anywhere there is no result.
   */
  lemma FindWeightLeftmost(t: string, lit: string, min: nat)
    requires 1 <= min <= 5
    ensures FindWeight(t, lit, min).Some? ==>
      var (s, m) := FindWeight(t, lit, min).value;
      WeightShape(t, s, m.end, lit, min, m.digits) &&
      (forall k: nat, j: nat, d: nat :: 0 <= k < s ==> !WeightShape(t, k, j, lit, min, d)) &&
      (forall j: nat, d: nat :: WeightShape(t, s, j, lit, min, d) ==> j <= m.end)
    ensures FindWeight(t, lit, min).None? <==> forall k: nat, j: nat, d: nat :: !WeightShape(t, k, j, lit, min, d)
  {
    WeightsSeen(t, lit, min);
    if FindWeight(t, lit, min).Some? {
      var (s, m) := FindWeight(t, lit, min).value;
      assert WeightAt(t, s, lit, min) == Some(m);
    }
  }

  /** Wherever a weight match starts, `WeightAt` finds one reaching at least as far. */
  lemma WeightsSeen(t: string, lit: string, min: nat)
    requires 1 <= min <= 5
    ensures forall k: nat, j: nat, d: nat :: WeightShape(t, k, j, lit, min, d) ==>
      k <= |t| && WeightAt(t, k, lit, min).Some? && j <= WeightAt(t, k, lit, min).value.end
  {
    forall k: nat, j: nat, d: nat | WeightShape(t, k, j, lit, min, d)
      ensures k <= |t| && WeightAt(t, k, lit, min).Some? && j <= WeightAt(t, k, lit, min).value.end
    {
      WeightAtComplete(t, k, lit, min, j, d);
    }
  }
}
