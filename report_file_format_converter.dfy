/**
 * ReportFileFormatConverter: between a ReportFormatType and the label the bot
 * shows for it. The labels are resource strings whose text is not part of this
 * model, so they are a parameter; the round trip needs them pairwise distinct.
 */
module ReportFileFormatConverter {
  import opened Wrappers
  import opened DotNetText
  import opened ReportTypes

  /** Resources.Strings.ReportHtmlFormat, ReportPdfFormat, ReportJsonFormat and ReportTextFormat. */
  datatype FormatLabels = FormatLabels(html: string, pdf: string, json: string, text: string)

  /** No two formats share a label. */
  predicate Distinct(labels: FormatLabels) {
    && labels.html != labels.pdf && labels.html != labels.json && labels.html != labels.text
    && labels.pdf != labels.json && labels.pdf != labels.text
    && labels.json != labels.text
  }

  /** GetReportFormat: the label of a member, null for any other value. */
  function GetReportFormat(labels: FormatLabels, format: ReportFormatType): (r: Option<string>)
    ensures r.Some? <==> IsDefined(format)
    ensures r.Some? ==> r.value in {labels.html, labels.pdf, labels.json, labels.text}
  {
    if format == HTML then Some(labels.html)
    else if format == PDF then Some(labels.pdf)
    else if format == JSON then Some(labels.json)
    else if format == TXT then Some(labels.text)
    else None
  }

  /** TryParse's return value and its out parameter. */
  datatype Parsed = Parsed(parsed: bool, format: ReportFormatType)

  /**
   * TryParse: null reads as ""; the labels are compared ordinally in the order
   * HTML, PDF, JSON, TXT and the first equal one wins; no match is false, with
   * TXT in the out parameter.
   */
  function TryParse(labels: FormatLabels, str: Option<string>): (r: Parsed)
    ensures r.parsed ==> GetReportFormat(labels, r.format) == Some(Str(str))
    ensures r.parsed <==> Str(str) in {labels.html, labels.pdf, labels.json, labels.text}
    ensures !r.parsed ==> r.format == TXT
  {
    var s := Str(str);
    if s == labels.html then Parsed(true, HTML)
    else if s == labels.pdf then Parsed(true, PDF)
    else if s == labels.json then Parsed(true, JSON)
    else if s == labels.text then Parsed(true, TXT)
    else Parsed(false, TXT)
  }

  /** With distinct labels, parsing the label of a format gives that format back. */
  lemma LabelRoundTrip(labels: FormatLabels, format: ReportFormatType)
    requires Distinct(labels) && IsDefined(format)
    ensures TryParse(labels, GetReportFormat(labels, format)) == Parsed(true, format)
  {
  }

  /** A parsed string is the label of the format it gives, and so prints back unchanged. */
  lemma ParseRoundTrip(labels: FormatLabels, str: string)
    requires TryParse(labels, Some(str)).parsed
    ensures GetReportFormat(labels, TryParse(labels, Some(str)).format) == Some(str)
  {
  }

  /** When two labels coincide, the earlier format in the comparison order wins. */
  lemma FirstLabelWins(labels: FormatLabels, str: Option<string>)
    ensures Str(str) == labels.html ==> TryParse(labels, str).format == HTML
    ensures Str(str) == labels.pdf && Str(str) != labels.html ==> TryParse(labels, str).format == PDF
    ensures TryParse(labels, str).format == TXT && TryParse(labels, str).parsed ==>
      Str(str) == labels.text && Str(str) !in {labels.html, labels.pdf, labels.json}
  {
  }

  /** null parses as the empty string does. */
  lemma NullIsEmpty(labels: FormatLabels)
    ensures TryParse(labels, None) == TryParse(labels, Some(""))
  {
  }
}
