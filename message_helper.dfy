/**
 * MessageHelper: the sentence the bot posts after a user exported a report.
 * Each enum contributes a phrase; a value outside its members contributes the
 * empty phrase the switch starts from.
 */
module MessageHelper {
  import opened Wrappers
  import opened DotNetText
  import opened ReportTypes
  import opened TeamsBotModels

  /** The period phrase, "" for an undefined period. */
  function PeriodPhrase(period: ReportPeriodType): string {
    if period == AllTime then "all conversations"
    else if period == Last7Days then "conversations from the last 7 days"
    else if period == LastDay then "conversations from the last 24 hours"
    else ""
  }

  /** The scope phrase, "" for an undefined source type. */
  function ScopePhrase(reportType: ReportSourceType): string {
    if reportType == Chat then "this chat"
    else if reportType == Conversation then "this conversation"
    else if reportType == Channel then "this channel"
    else ""
  }

  /** The format phrase, "" for an undefined format. */
  function FormatPhrase(format: ReportFormatType): string {
    if format == HTML then "an HTML file"
    else if format == PDF then "a PDF document"
    else if format == JSON then "a JSON file"
    else if format == TXT then "a text file"
    else ""
  }

  const Extracted: string := " extracted "
  const FromWord: string := " from "
  const IntoWord: string := " into "
  const Ending: string := " to their personal OneDrive."

  /** The sentence after the sender's name and " extracted ". */
  function Tail(period: ReportPeriodType, reportType: ReportSourceType, format: ReportFormatType): string {
    PeriodPhrase(period) + (FromWord + ScopeTail(reportType, format))
  }

  /** The sentence after " from ". */
  function ScopeTail(reportType: ReportSourceType, format: ReportFormatType): string {
    ScopePhrase(reportType) + (IntoWord + (FormatPhrase(format) + Ending))
  }

  /**
   * BuildUserExportedHistoryMessage: the sender's name (null prints as
   * nothing) and " extracted ", then the period phrase, " from ", the scope
   * phrase, " into ", the format phrase and the ending, each right after the
   * one before.
   */
  function BuildUserExportedHistoryMessage(fromName: Option<string>, report: ReportParameters): (m: string)
    reads report
    ensures Layout(m, Str(fromName), report.reportPeriod, report.reportType, report.format)
  {
    ExportedLayout(Str(fromName), report.reportPeriod, report.reportType, report.format);
    (Str(fromName) + Extracted) + Tail(report.reportPeriod, report.reportType, report.format)
  }

  /**
   * `m` is the sender's name and " extracted ", then the period phrase,
   * " from ", the scope phrase, " into ", the format phrase and the ending,
   * each right after the one before.
   */
  predicate Layout(m: string, name: string, period: ReportPeriodType, reportType: ReportSourceType, format: ReportFormatType) {
    var h := |name| + |Extracted|;
    var a := h + |PeriodPhrase(period)|;
    var b := a + |FromWord|;
    var c := b + |ScopePhrase(reportType)|;
    var e := c + |IntoWord|;
    var g := e + |FormatPhrase(format)|;
    && |m| == g + |Ending|
    && m[..h] == name + Extracted
    && m[h..a] == PeriodPhrase(period)
    && m[a..b] == FromWord
    && m[b..c] == ScopePhrase(reportType)
    && m[c..e] == IntoWord
    && m[e..g] == FormatPhrase(format)
    && m[g..] == Ending
  }

  lemma ExportedLayout(name: string, period: ReportPeriodType, reportType: ReportSourceType, format: ReportFormatType)
    ensures Layout((name + Extracted) + Tail(period, reportType, format), name, period, reportType, format)
  {
    Pieces(name + Extracted, PeriodPhrase(period), FromWord, ScopePhrase(reportType), IntoWord, FormatPhrase(format), Ending);
  }

  /** Each piece of a right-nested concatenation sits right after the pieces before it. */
  lemma Pieces(s0: string, s1: string, s2: string, s3: string, s4: string, s5: string, s6: string)
    ensures var m := s0 + (s1 + (s2 + (s3 + (s4 + (s5 + s6)))));
      var a := |s0| + |s1|;
      var b := a + |s2|;
      var c := b + |s3|;
      var e := c + |s4|;
      var g := e + |s5|;
      && |m| == g + |s6|
      && m[..|s0|] == s0 && m[|s0|..a] == s1 && m[a..b] == s2 && m[b..c] == s3
      && m[c..e] == s4 && m[e..g] == s5 && m[g..] == s6
  {
    var m := s0 + (s1 + (s2 + (s3 + (s4 + (s5 + s6)))));
    assert m[0..] == m;
    Piece(m, 0, s0, s1 + (s2 + (s3 + (s4 + (s5 + s6)))));
    Piece(m, |s0|, s1, s2 + (s3 + (s4 + (s5 + s6))));
    Piece(m, |s0| + |s1|, s2, s3 + (s4 + (s5 + s6)));
    Piece(m, |s0| + |s1| + |s2|, s3, s4 + (s5 + s6));
    Piece(m, |s0| + |s1| + |s2| + |s3|, s4, s5 + s6);
    Piece(m, |s0| + |s1| + |s2| + |s3| + |s4|, s5, s6);
  }

  /** A piece found at offset `k` of a string, followed by `rest`, is that string's slice at `k`. */
  lemma Piece<T>(m: seq<T>, k: nat, piece: seq<T>, rest: seq<T>)
    requires k <= |m| && m[k..] == piece + rest
    ensures m[k..k + |piece|] == piece && m[k + |piece|..] == rest
  {
    assert m[k..k + |piece|] == (piece + rest)[..|piece|];
    assert m[k + |piece|..] == (piece + rest)[|piece|..];
  }

  /** The period a phrase describes; the inverse of PeriodPhrase on the members. */
  function PeriodOfPhrase(phrase: string): Option<ReportPeriodType> {
    if phrase == "all conversations" then Some(AllTime)
    else if phrase == "conversations from the last 7 days" then Some(Last7Days)
    else if phrase == "conversations from the last 24 hours" then Some(LastDay)
    else None
  }

  /** The source type a phrase describes; the inverse of ScopePhrase on the members. */
  function ScopeOfPhrase(phrase: string): Option<ReportSourceType> {
    if phrase == "this chat" then Some(Chat)
    else if phrase == "this conversation" then Some(Conversation)
    else if phrase == "this channel" then Some(Channel)
    else None
  }

  /** The format a phrase describes; the inverse of FormatPhrase on the members. */
  function FormatOfPhrase(phrase: string): Option<ReportFormatType> {
    if phrase == "an HTML file" then Some(HTML)
    else if phrase == "a PDF document" then Some(PDF)
    else if phrase == "a JSON file" then Some(JSON)
    else if phrase == "a text file" then Some(TXT)
    else None
  }

  /**
   * Every member has its own non-empty phrase, which names it back; any other
   * value gets the empty phrase, which names nothing.
   */
  lemma PhrasesRoundTrip(period: ReportPeriodType, reportType: ReportSourceType, format: ReportFormatType)
    ensures (period == AllTime || period == Last7Days || period == LastDay) <==> PeriodPhrase(period) != ""
    ensures PeriodPhrase(period) != "" ==> PeriodOfPhrase(PeriodPhrase(period)) == Some(period)
    ensures (reportType == Chat || reportType == Conversation || reportType == Channel) <==> ScopePhrase(reportType) != ""
    ensures ScopePhrase(reportType) != "" ==> ScopeOfPhrase(ScopePhrase(reportType)) == Some(reportType)
    ensures IsDefined(format) <==> FormatPhrase(format) != ""
    ensures FormatPhrase(format) != "" ==> FormatOfPhrase(FormatPhrase(format)) == Some(format)
    ensures PeriodOfPhrase("") == None && ScopeOfPhrase("") == None && FormatOfPhrase("") == None
  {
  }

  /** Equal concatenations whose first parts have the same length, or whose second parts have, split the same way. */
  lemma {:induction false} Cancel(a1: string, b1: string, a2: string, b2: string)
    requires |a1| == |a2| || |b1| == |b2|
    requires a1 + b1 == a2 + b2
    ensures a1 == a2 && b1 == b2
  {
    assert |a1| == |a2|;
    assert a1 == (a1 + b1)[..|a1|] && b1 == (a1 + b1)[|a1|..];
    assert a2 == (a2 + b2)[..|a2|] && b2 == (a2 + b2)[|a2|..];
  }

  /**
   * The sentence after " from " names its scope and format: the scope
   * phrases differ in length and none is a prefix of another followed by a
   * space, and the format phrase is what remains before the ending.
   */
  lemma {:induction false} ScopeTailDetermines(s1: ReportSourceType, f1: ReportFormatType,
                                               s2: ReportSourceType, f2: ReportFormatType)
    requires ScopePhrase(s1) != "" && FormatPhrase(f1) != "" && ScopePhrase(s2) != "" && FormatPhrase(f2) != ""
    requires ScopeTail(s1, f1) == ScopeTail(s2, f2)
    ensures s1 == s2 && f1 == f2
  {
    var t1, t2 := ScopeTail(s1, f1), ScopeTail(s2, f2);
    ScopeByLength(s1);
    ScopeByLength(s2);
    PhrasesRoundTrip(0, s1, f1);
    PhrasesRoundTrip(0, s2, f2);
    if |ScopePhrase(s1)| == |ScopePhrase(s2)| {
      Cancel(ScopePhrase(s1), IntoWord + (FormatPhrase(f1) + Ending), ScopePhrase(s2), IntoWord + (FormatPhrase(f2) + Ending));
      Cancel(IntoWord, FormatPhrase(f1) + Ending, IntoWord, FormatPhrase(f2) + Ending);
      Cancel(FormatPhrase(f1), Ending, FormatPhrase(f2), Ending);
    } else {
      ScopesDiffer(s1, f1, s2, f2);
      assert false;
    }
  }

  /**
   * Scope phrases of different lengths give different sentences: just after
   * the shorter phrase one has the space of " into ", the other a letter.
   */
  lemma ScopesDiffer(s1: ReportSourceType, f1: ReportFormatType, s2: ReportSourceType, f2: ReportFormatType)
    requires ScopePhrase(s1) != "" && ScopePhrase(s2) != "" && |ScopePhrase(s1)| != |ScopePhrase(s2)|
    ensures ScopeTail(s1, f1) != ScopeTail(s2, f2)
  {
    var t1, t2 := ScopeTail(s1, f1), ScopeTail(s2, f2);
    var a, b := |ScopePhrase(s1)|, |ScopePhrase(s2)|;
    ScopeByLength(s1);
    ScopeByLength(s2);
    if a < b {
      assert t1[a] == ' ' != t2[a];
    } else {
      assert t2[b] == ' ' != t1[b];
    }
  }

  /** The scope phrases of the members have different lengths, none with a space at the critical places. */
  lemma ScopeByLength(s: ReportSourceType)
    requires ScopePhrase(s) != ""
    ensures |ScopePhrase(s)| == 9 <==> s == Chat
    ensures |ScopePhrase(s)| == 17 <==> s == Conversation
    ensures |ScopePhrase(s)| == 12 <==> s == Channel
  {
  }

  /** The period phrases of the members have different lengths. */
  lemma PeriodByLength(p: ReportPeriodType)
    requires PeriodPhrase(p) != ""
    ensures |PeriodPhrase(p)| == 17 <==> p == AllTime
    ensures |PeriodPhrase(p)| == 34 <==> p == Last7Days
    ensures |PeriodPhrase(p)| == 36 <==> p == LastDay
  {
  }

  /** Periods whose phrases differ in length give different sentences: one has " from " where the other has a letter. */
  lemma PeriodsDiffer(p1: ReportPeriodType, rest1: string, p2: ReportPeriodType, rest2: string)
    requires PeriodPhrase(p1) != "" && PeriodPhrase(p2) != "" && |PeriodPhrase(p1)| != |PeriodPhrase(p2)|
    ensures PeriodPhrase(p1) + (FromWord + rest1) != PeriodPhrase(p2) + (FromWord + rest2)
  {
    var t1, t2 := PeriodPhrase(p1) + (FromWord + rest1), PeriodPhrase(p2) + (FromWord + rest2);
    var a, b := |PeriodPhrase(p1)|, |PeriodPhrase(p2)|;
    PeriodByLength(p1);
    PeriodByLength(p2);
    if a < b {
      assert t1[a] == ' ' != t2[a];
    } else {
      assert t2[b] == ' ' != t1[b];
    }
  }

  /** The sentence after the sender's name and " extracted " names the period, the scope and the format. */
  lemma {:induction false} TailDetermines(p1: ReportPeriodType, s1: ReportSourceType, f1: ReportFormatType,
                                          p2: ReportPeriodType, s2: ReportSourceType, f2: ReportFormatType)
    requires PeriodPhrase(p1) != "" && ScopePhrase(s1) != "" && FormatPhrase(f1) != ""
    requires PeriodPhrase(p2) != "" && ScopePhrase(s2) != "" && FormatPhrase(f2) != ""
    requires Tail(p1, s1, f1) == Tail(p2, s2, f2)
    ensures p1 == p2 && s1 == s2 && f1 == f2
  {
    if |PeriodPhrase(p1)| == |PeriodPhrase(p2)| {
      Cancel(PeriodPhrase(p1), FromWord + ScopeTail(s1, f1), PeriodPhrase(p2), FromWord + ScopeTail(s2, f2));
      Cancel(FromWord, ScopeTail(s1, f1), FromWord, ScopeTail(s2, f2));
      PhrasesRoundTrip(p1, s1, f1);
      PhrasesRoundTrip(p2, s2, f2);
      ScopeTailDetermines(s1, f1, s2, f2);
    } else {
      PeriodsDiffer(p1, ScopeTail(s1, f1), p2, ScopeTail(s2, f2));
      assert false;
    }
  }

  /**
   * For the same sender, the sentence of one report with members in all
   * three fields is the sentence of no other: it names the report's period,
   * scope and format.
   */
  lemma {:induction false} SentenceDeterminesReport(fromName: Option<string>, r1: ReportParameters, r2: ReportParameters)
    requires PeriodPhrase(r1.reportPeriod) != "" && ScopePhrase(r1.reportType) != "" && FormatPhrase(r1.format) != ""
    requires PeriodPhrase(r2.reportPeriod) != "" && ScopePhrase(r2.reportType) != "" && FormatPhrase(r2.format) != ""
    requires BuildUserExportedHistoryMessage(fromName, r1) == BuildUserExportedHistoryMessage(fromName, r2)
    ensures r1.reportPeriod == r2.reportPeriod && r1.reportType == r2.reportType && r1.format == r2.format
  {
    var head := Str(fromName) + Extracted;
    Cancel(head, Tail(r1.reportPeriod, r1.reportType, r1.format), head, Tail(r2.reportPeriod, r2.reportType, r2.format));
    TailDetermines(r1.reportPeriod, r1.reportType, r1.format, r2.reportPeriod, r2.reportType, r2.format);
  }
}
