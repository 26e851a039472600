/**
 * Two page texts run through the extractor: one whose weights fail the
 * cross-check, and one that yields a complete record.
 */
module SamplePages {
  import opened Wrappers
  import opened Chars
  import opened Dates
  import opened Patterns
  import opened Extractor

  /** A label whose first letter does not occur in `t[..n]` matches nowhere before `n`. */
  lemma NoLabelBefore(t: string, lit: string, n: nat)
    requires |lit| > 0 && 'a' <= lit[0] <= 'z' && n <= |t|
    requires lit[0] !in t[..n] && Upper(lit[0]) !in t[..n]
    ensures forall k: nat :: k < n ==> !LabelAt(t, k, lit)
  {
    forall k: nat | k < n
      ensures !LabelAt(t, k, lit)
    {
      assert t[..n][k] == t[k];
      if k + |lit| <= |t| {
        assert t[k..k + |lit|][0] == t[k];
      }
    }
  }

  /** Where `t` holds `w` from `p` on, each part of `w` is the matching part of `t`. */
  lemma SliceOfLine(t: string, p: nat, w: string, i: nat, j: nat)
    requires p + |w| <= |t| && t[p..p + |w|] == w && i <= j <= |w|
    ensures t[p + i..p + j] == w[i..j]
  {
    forall k | 0 <= k < j - i
      ensures t[p + i..p + j][k] == w[i..j][k]
    {
      assert t[p + i..p + j][k] == t[p..p + |w|][i + k];
    }
  }

  lemma CharOfLine(t: string, p: nat, w: string, i: nat)
    requires p + |w| <= |t| && t[p..p + |w|] == w && i < |w|
    ensures t[p + i] == w[i]
  {
    assert t[p..p + |w|][i] == t[p + i];
  }

  /** A slice whose characters are all `keep` characters is a run. */
  lemma AllRun(t: string, p: nat, q: nat, keep: char -> bool)
    requires p <= q <= |t| && All(t[p..q], keep)
    ensures Run(t, p, q, keep)
  {
    forall k | p <= k < q
      ensures keep(t[k])
    {
      assert t[k] == t[p..q][k - p];
    }
  }

  /** The value of a three-digit run, digit by digit. */
  lemma ThreeDigits(s: string)
    requires |s| == 3 && All(s, IsDigit)
    ensures DigitsValue(s) == 100 * DigitValue(s[0]) + 10 * DigitValue(s[1]) + DigitValue(s[2])
  {
    var a, b := s[..1], s[..2];
    assert a[..0] == [] && b[..1] == a && s[..2] == b;
    assert DigitsValue(a) == DigitValue(s[0]);
    assert DigitsValue(b) == 10 * DigitValue(s[0]) + DigitValue(s[1]);
  }

  /** The value of a four-digit run, digit by digit. */
  lemma FourDigits(s: string)
    requires |s| == 4 && All(s, IsDigit)
    ensures DigitsValue(s) == 1000 * DigitValue(s[0]) + 100 * DigitValue(s[1]) + 10 * DigitValue(s[2]) + DigitValue(s[3])
  {
    ThreeDigits(s[..3]);
  }

  /**
   * A weight label first occurring at `s`, followed by a match whose digit
   * run cannot be extended, is what the weight search reads.
   */
  lemma WeightReadAt(t: string, lit: string, min: nat, s: nat, j: nat, d: nat)
    requires 1 <= min <= 5 && WeightShape(t, s, j, lit, min, d)
    requires j < |t| ==> !IsDigit(t[j])
    requires forall k: nat :: k < s ==> !LabelAt(t, k, lit)
    ensures All(t[d..j], IsDigit) && WeightValue(t, lit, min) == Some(DigitsValue(t[d..j]))
  {
    RunAll(t, d, j, IsDigit);
    forall j': nat, d': nat | WeightShape(t, s, j', lit, min, d')
      ensures j' <= j
    {
      WeightAtComplete(t, s, lit, min, j', d');
      WeightAtComplete(t, s, lit, min, j, d);
    }
    assert FirstWeightMatch(t, lit, min, s, j, d);
    WeightValueReads(t, lit, min, DigitsValue(t[d..j]));
  }

  /** A weight line `<label> <digits> ` held by `t` at `p` is a match of the weight pattern. */
  lemma WeightLineShape(t: string, p: nat, line: string, lit: string, min: nat, n: nat)
    requires 1 <= min <= n <= 5 && |line| == |lit| + n + 2 && p + |line| <= |t| && t[p..p + |line|] == line
    requires EqualsIgnoringCase(line[0..|lit|], lit) && line[|lit|] == ' ' && line[|lit| + n + 1] == ' '
    requires All(line[|lit| + 1..|lit| + n + 1], IsDigit)
    ensures WeightShape(t, p, p + |lit| + n + 1, lit, min, p + |lit| + 1)
    ensures !IsDigit(t[p + |lit| + n + 1])
    ensures t[p + |lit| + 1..p + |lit| + n + 1] == line[|lit| + 1..|lit| + n + 1]
  {
    SliceOfLine(t, p, line, 0, |lit|);
    SliceOfLine(t, p, line, |lit| + 1, |lit| + n + 1);
    CharOfLine(t, p, line, |lit|);
    CharOfLine(t, p, line, |lit| + n + 1);
    AllRun(t, p + |lit| + 1, p + |lit| + n + 1, IsDigit);
  }

  /**
   * A weight line `<label> <digits> ` held by `t` at `p`, with no earlier
   * occurrence of the label, is what the weight search reads.
   */
  lemma WeightLineRead(t: string, p: nat, line: string, lit: string, min: nat, n: nat)
    requires 1 <= min <= n <= 5 && |line| == |lit| + n + 2 && p + |line| <= |t| && t[p..p + |line|] == line
    requires EqualsIgnoringCase(line[0..|lit|], lit) && line[|lit|] == ' ' && line[|lit| + n + 1] == ' '
    requires All(line[|lit| + 1..|lit| + n + 1], IsDigit)
    requires forall k: nat :: k < p ==> !LabelAt(t, k, lit)
    ensures WeightValue(t, lit, min) == Some(DigitsValue(line[|lit| + 1..|lit| + n + 1]))
  {
    WeightLineShape(t, p, line, lit, min, n);
    WeightReadAt(t, lit, min, p, p + |lit| + n + 1, p + |lit| + 1);
  }

  // ---------------------------------------------------------------------
  // A page whose net weight exceeds its gross weight

  const CrossGross: string := "GROSS 500 "
  const CrossTare: string := "TARE 100 "
  const CrossNet: string := "NET 600 "
  const CrossCheckPage: string := CrossGross + CrossTare + CrossNet

  lemma CrossGrossLine()
    ensures EqualsIgnoringCase(CrossGross[0..5], "gross") && CrossGross[5] == ' ' && CrossGross[9] == ' '
    ensures All(CrossGross[6..9], IsDigit) && DigitsValue(CrossGross[6..9]) == 500
  {
    ThreeDigits(CrossGross[6..9]);
  }

  lemma CrossNetLine()
    ensures EqualsIgnoringCase(CrossNet[0..3], "net") && CrossNet[3] == ' ' && CrossNet[7] == ' '
    ensures All(CrossNet[4..7], IsDigit) && DigitsValue(CrossNet[4..7]) == 600
    ensures 'n' !in CrossGross + CrossTare && 'N' !in CrossGross + CrossTare
  {
    ThreeDigits(CrossNet[4..7]);
  }

  lemma CrossCheckGross(t: string)
    requires |t| == 27 && t[0..10] == CrossGross
    ensures WeightValue(t, "gross", 3) == Some(500)
  {
    CrossGrossLine();
    WeightLineRead(t, 0, CrossGross, "gross", 3, 3);
  }

  lemma CrossCheckNet(t: string)
    requires |t| == 27 && t[..19] == CrossGross + CrossTare && t[19..27] == CrossNet
    ensures WeightValue(t, "net", 2) == Some(600)
  {
    CrossNetLine();
    NoLabelBefore(t, "net", 19);
    WeightLineRead(t, 19, CrossNet, "net", 2, 3);
  }

  /** NET 600 against GROSS 500 fails the cross-check, so the page yields no weights. */
  lemma CrossCheckPageHasNoWeights()
    ensures Weights(CrossCheckPage) == None
  {
    var t := CrossCheckPage;
    var a := CrossGross + CrossTare;
    assert t == a + CrossNet && t[..19] == a && t[19..27] == CrossNet;
    assert a[..10] == CrossGross;
    CrossCheckGross(t);
    CrossCheckNet(t);
  }

  // ---------------------------------------------------------------------
  // A page that yields a complete record

  const TicketLine: string := "1234P123456789 "
  const TareLine: string := "TARE 200 "
  const GrossLine: string := "GROSS 1000 "
  const NetLine: string := "NET 800 "
  const DateLine: string := "Date 05-Jan-2025 "
  const KindLine: string := "LITTER"
  const FullPage: string := TicketLine + TareLine + GrossLine + NetLine + DateLine + KindLine

  /** `t` is laid out as `FullPage` is. */
  predicate FullPageLayout(t: string)
  {
    |t| == 66 && t[..15] == TicketLine && t[15..24] == TareLine && t[24..35] == GrossLine &&
    t[35..43] == NetLine && t[43..60] == DateLine && t[60..] == KindLine
  }

  lemma FullPageHasLayout()
    ensures FullPageLayout(FullPage)
  {
    var t := FullPage;
    var a := TicketLine + TareLine;
    var b := a + GrossLine;
    var c := b + NetLine;
    var d := c + DateLine;
    assert t == d + KindLine;
    assert t[..60] == d && t[60..] == KindLine;
    assert d[..43] == c && d[43..] == DateLine;
    assert c[..35] == b && c[35..] == NetLine;
    assert b[..24] == a && b[24..] == GrossLine;
    assert a[..15] == TicketLine && a[15..] == TareLine;
  }

  /** None of the lines holds a character the clean-up rewrites. */
  lemma FullPageIsClean()
    ensures Normalise(FullPage) == FullPage
  {
    assert All(TicketLine, IsCleanChar) && All(TareLine, IsCleanChar) && All(GrossLine, IsCleanChar);
    assert All(NetLine, IsCleanChar) && All(DateLine, IsCleanChar) && All(KindLine, IsCleanChar);
    NormaliseKeepsClean(TicketLine);
    NormaliseKeepsClean(TareLine);
    NormaliseKeepsClean(GrossLine);
    NormaliseKeepsClean(NetLine);
    NormaliseKeepsClean(DateLine);
    NormaliseKeepsClean(KindLine);
    var a := TicketLine + TareLine;
    var b := a + GrossLine;
    var c := b + NetLine;
    var d := c + DateLine;
    NormaliseAppend(TicketLine, TareLine);
    NormaliseAppend(a, GrossLine);
    NormaliseAppend(b, NetLine);
    NormaliseAppend(c, DateLine);
    NormaliseAppend(d, KindLine);
  }

  lemma TicketLineFacts()
    ensures All(TicketLine[0..4], IsDigit) && IsTicketLetter(TicketLine[4]) && All(TicketLine[5..14], IsDigit)
    ensures TicketLine[5..14] == "123456789"
  {
  }

  /** The ticket number opens the page. */
  lemma FullPageTicket(t: string)
    requires |t| == 66 && t[..15] == TicketLine
    ensures TicketGroup(t) == Some((0, 14))
    ensures TicketNumber(t[0..14]) == "123456789"
  {
    TicketLineFacts();
    SliceOfLine(t, 0, TicketLine, 0, 4);
    SliceOfLine(t, 0, TicketLine, 5, 14);
    CharOfLine(t, 0, TicketLine, 4);
    AllRun(t, 0, 4, IsDigit);
    AllRun(t, 5, 14, IsDigit);
    assert TicketShape(t, 0, 14, 0, 0);
    TicketAtComplete(t, 0, 14);
    TicketDigits(t, 0, 14);
  }

  lemma WeightLinesFacts()
    ensures EqualsIgnoringCase(TareLine[0..4], "tare") && TareLine[4] == ' ' && TareLine[8] == ' '
    ensures All(TareLine[5..8], IsDigit) && DigitsValue(TareLine[5..8]) == 200
    ensures EqualsIgnoringCase(GrossLine[0..5], "gross") && GrossLine[5] == ' ' && GrossLine[10] == ' '
    ensures All(GrossLine[6..10], IsDigit) && DigitsValue(GrossLine[6..10]) == 1000
    ensures EqualsIgnoringCase(NetLine[0..3], "net") && NetLine[3] == ' ' && NetLine[7] == ' '
    ensures All(NetLine[4..7], IsDigit) && DigitsValue(NetLine[4..7]) == 800
  {
    ThreeDigits(TareLine[5..8]);
    FourDigits(GrossLine[6..10]);
    ThreeDigits(NetLine[4..7]);
  }

  /** No weight label occurs before its own line. */
  lemma TareFirst(t: string)
    requires |t| == 66 && t[..15] == TicketLine
    ensures forall k: nat :: k < 15 ==> !LabelAt(t, k, "tare")
  {
    assert 't' !in TicketLine && 'T' !in TicketLine;
    NoLabelBefore(t, "tare", 15);
  }

  lemma GrossFirst(t: string)
    requires |t| == 66 && t[..15] == TicketLine && t[15..24] == TareLine
    ensures forall k: nat :: k < 24 ==> !LabelAt(t, k, "gross")
  {
    assert t[..24] == TicketLine + TareLine;
    assert 'g' !in TicketLine + TareLine && 'G' !in TicketLine + TareLine;
    NoLabelBefore(t, "gross", 24);
  }

  lemma NetFirst(t: string)
    requires |t| == 66 && t[..15] == TicketLine && t[15..24] == TareLine && t[24..35] == GrossLine
    ensures forall k: nat :: k < 35 ==> !LabelAt(t, k, "net")
  {
    assert t[..35] == TicketLine + TareLine + GrossLine;
    assert 'n' !in TicketLine + TareLine + GrossLine && 'N' !in TicketLine + TareLine + GrossLine;
    NoLabelBefore(t, "net", 35);
  }

  lemma FullPageTare(t: string)
    requires |t| == 66 && t[15..24] == TareLine && forall k: nat :: k < 15 ==> !LabelAt(t, k, "tare")
    ensures WeightValue(t, "tare", 3) == Some(200)
  {
    WeightLinesFacts();
    WeightLineRead(t, 15, TareLine, "tare", 3, 3);
  }

  lemma FullPageGross(t: string)
    requires |t| == 66 && t[24..35] == GrossLine && forall k: nat :: k < 24 ==> !LabelAt(t, k, "gross")
    ensures WeightValue(t, "gross", 3) == Some(1000)
  {
    WeightLinesFacts();
    WeightLineRead(t, 24, GrossLine, "gross", 3, 4);
  }

  lemma FullPageNet(t: string)
    requires |t| == 66 && t[35..43] == NetLine && forall k: nat :: k < 35 ==> !LabelAt(t, k, "net")
    ensures WeightValue(t, "net", 2) == Some(800)
  {
    WeightLinesFacts();
    WeightLineRead(t, 35, NetLine, "net", 2, 3);
  }

  lemma FullPageWeights(t: string)
    requires FullPageLayout(t)
    ensures Weights(t) == Some(Weighing(1000, 200, 800))
  {
    TareFirst(t);
    GrossFirst(t);
    NetFirst(t);
    FullPageTare(t);
    FullPageGross(t);
    FullPageNet(t);
  }

  // The date: the `Date` label, then the fields 05, Jan and 2025.

  lemma DateLineFacts()
    ensures EqualsIgnoringCase(DateLine[0..4], "date") && IsColonOrSpace(DateLine[4])
    ensures All(DateLine[5..7], IsDigit) && IsSep(DateLine[7]) && All(DateLine[8..11], IsAsciiLetter)
    ensures IsSep(DateLine[11]) && All(DateLine[12..16], IsDigit) && !IsColonOrSpace(DateLine[5])
    ensures DigitsValue(DateLine[5..7]) == 5 && DigitsValue(DateLine[12..16]) == 2025
    ensures EqualsIgnoringCase(DateLine[8..11], MonthAbbrevs[0])
  {
    assert DateLine[5..7][..1][..0] == [];
    FourDigits(DateLine[12..16]);
  }

  lemma DateFirst(t: string)
    requires |t| == 66 && t[..15] == TicketLine && t[15..24] == TareLine && t[24..35] == GrossLine && t[35..43] == NetLine
    ensures forall k: nat :: k < 43 ==> !LabelAt(t, k, "date")
  {
    var before := TicketLine + TareLine + GrossLine + NetLine;
    assert 'd' !in before && 'D' !in before;
    assert t[..43] == before;
    NoLabelBefore(t, "date", 43);
  }

  /** `t` holds `DateLine` at 43: a labelled date with its fields at 48, 51 and 55. */
  lemma DateFields(t: string)
    requires |t| == 66 && t[43..60] == DateLine
    ensures LabelledDateShape(t, 43, 59, 48, 2)
    ensures t[48..50] == DateLine[5..7] && t[51..54] == DateLine[8..11] && t[55..59] == DateLine[12..16]
  {
    DateLineFacts();
    SliceOfLine(t, 43, DateLine, 0, 4);
    SliceOfLine(t, 43, DateLine, 5, 7);
    SliceOfLine(t, 43, DateLine, 8, 11);
    SliceOfLine(t, 43, DateLine, 12, 16);
    CharOfLine(t, 43, DateLine, 4);
    CharOfLine(t, 43, DateLine, 5);
    CharOfLine(t, 43, DateLine, 7);
    CharOfLine(t, 43, DateLine, 11);
    AllRun(t, 48, 50, IsDigit);
    AllRun(t, 51, 54, IsAsciiLetter);
    AllRun(t, 55, 59, IsDigit);
  }

  /** The first labelled date is the one at 43. */
  lemma DateMatched(t: string)
    requires LabelledDateShape(t, 43, 59, 48, 2) && forall k: nat :: k < 43 ==> !LabelAt(t, k, "date")
    ensures DateMatchOf(t) == Some(DateMatch(48, 2, 59))
  {
    LabelledDateAtComplete(t, 43, 59, 48, 2);
    assert FindLabelledDate(t) == Some((43, DateMatch(48, 2, 59)));
  }

  lemma FullPageDate(t: string)
    requires |t| == 66 && t[43..60] == DateLine && forall k: nat :: k < 43 ==> !LabelAt(t, k, "date")
    ensures DateOf(t) == Some(Date(2025, 1, 5))
  {
    DateFields(t);
    DateMatched(t);
    DateLineFacts();
    SundayExample();
  }

  lemma KindLineFacts()
    ensures UpperString(KindLine) == KindLine == StreetKeywords[2]
  {
  }

  /** Upper-casing works character by character, so it commutes with taking a suffix. */
  lemma UpperSuffix(t: string, p: nat)
    requires p <= |t|
    ensures UpperString(t)[p..] == UpperString(t[p..])
  {
  }

  /** The category keyword closes the page, and upper-casing keeps it. */
  lemma FullPageKeyword(t: string)
    requires |t| == 66 && t[60..] == KindLine
    ensures UpperString(t)[60..] == StreetKeywords[2]
  {
    KindLineFacts();
    UpperSuffix(t, 60);
  }

  lemma EndsInKeyword(u: string)
    requires |u| == 66 && u[60..] == StreetKeywords[2]
    ensures Mentions(u, StreetKeywords)
  {
    assert u[60..60 + |StreetKeywords[2]|] == u[60..];
    assert OccursAt(u, StreetKeywords[2], 60);
  }

  lemma FullPageKind(t: string)
    requires |t| == 66 && t[60..] == KindLine
    ensures Category(UpperString(t)) == StreetLitter
  {
    FullPageKeyword(t);
    EndsInKeyword(UpperString(t));
  }

  /**
   * The page yields the record: ticket 123456789 of Sunday 5 January 2025,
   * 1000 gross, 200 tare, 800 net, street/litter waste.
   */
  lemma FullPageExtract()
    ensures Extract(FullPage) == Some(Ticket("123456789", Date(2025, 1, 5), "Sunday", 1000, 200, 800, StreetLitter))
  {
    var t := FullPage;
    FullPageHasLayout();
    FullPageIsClean();
    FullPageTicket(t);
    DateFirst(t);
    FullPageDate(t);
    FullPageWeights(t);
    FullPageKind(t);
    SundayExample();
  }
}
