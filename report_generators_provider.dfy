/**
 * ReportGeneratorsProvider: the registry of report body generators, fixed at
 * construction, and the lookup by format that PrepareDocument dispatches on.
 * Only the TXT generator is modelled; the documents of the HTML, PDF and JSON
 * generators are the parameter render.
 */
module ReportGeneratorsProvider {
  import opened Wrappers
  import opened DotNetText
  import opened ReportTypes
  import TxtGenerator

  /** The four generator classes. */
  datatype Generator = HtmlGen | PdfGen | TxtGen | JsonGen

  /** IReportBodyGenerator.Type of each generator (PdfGenerator's explicit implementation says PDF). */
  function TypeOf(g: Generator): ReportFormatType {
    match g
    case HtmlGen => HTML
    case PdfGen => PDF
    case TxtGen => TxtGenerator.Type
    case JsonGen => JSON
  }

  /** The registration order of the constructor. */
  const Generators: seq<Generator> := [HtmlGen, PdfGen, TxtGen, JsonGen]

  /** this.GetType().FullName, as the error message spells it. */
  const ProviderFullName: string := "Microsoft.Teams.Apps.TeamHistoryManagement.ReportsGenerators.Services.ReportGeneratorsProvider"

  /** FirstOrDefault(x => x.Type == format). */
  function FirstOfType(gs: seq<Generator>, format: ReportFormatType): (r: Option<Generator>)
    ensures r.Some? <==> exists i :: 0 <= i < |gs| && TypeOf(gs[i]) == format
    ensures r.Some? ==> exists i :: (&& 0 <= i < |gs| && gs[i] == r.value && TypeOf(gs[i]) == format
                                    && forall j :: 0 <= j < i ==> TypeOf(gs[j]) != format)
  {
    if |gs| == 0 then None
    else if TypeOf(gs[0]) == format then Some(gs[0])
    else
      var r := FirstOfType(gs[1..], format);
      assert forall i :: 1 <= i < |gs| ==> gs[i] == gs[1..][i - 1];
      r
  }

  /** The InvalidOperationException message when no generator is registered for the format. */
  function NotRegisteredMessage(format: ReportFormatType): string {
    "Can't find " + FormatName(format) + " report genarator. It is not registered in " + ProviderFullName + "."
  }

  /** GetGenerator: the first registered generator of the format, or the exception. */
  function GetGenerator(format: ReportFormatType): (r: Result<Generator, string>)
    ensures r.Success? ==> TypeOf(r.value) == format && r.value in Generators
    ensures r.Failure? ==> r.error == NotRegisteredMessage(format) && forall g :: g in Generators ==> TypeOf(g) != format
  {
    match FirstOfType(Generators, format)
    case Some(g) => Success(g)
    case None => Failure(NotRegisteredMessage(format))
  }

  /**
   * Every format of the enum has exactly one registered generator, so the
   * lookup finds it; any other value of the underlying integer has none.
   */
  lemma RegistrationComplete(format: ReportFormatType)
    ensures IsDefined(format) <==> GetGenerator(format).Success?
    ensures IsDefined(format) ==> exists i :: (&& 0 <= i < |Generators| && TypeOf(Generators[i]) == format
                                               && forall j :: 0 <= j < |Generators| && j != i ==> TypeOf(Generators[j]) != format)
  {
    assert |Generators| == 4;
    assert TypeOf(Generators[0]) == HTML && TypeOf(Generators[1]) == PDF;
    assert TypeOf(Generators[2]) == TXT && TypeOf(Generators[3]) == JSON;
    if IsDefined(format) {
      var i := if format == HTML then 0 else if format == PDF then 1 else if format == TXT then 2 else 3;
      forall j | 0 <= j < |Generators| && j != i
        ensures TypeOf(Generators[j]) != format
      {
        assert j == 0 || j == 1 || j == 2 || j == 3;
      }
    } else {
      forall g | g in Generators
        ensures TypeOf(g) != format
      {
        assert g == Generators[0] || g == Generators[1] || g == Generators[2] || g == Generators[3];
      }
    }
  }

  /** The document a generator produces; None when the TXT generator dereferences a missing body or sender. */
  function GeneratorDocument(g: Generator, d: ReportBodyDetails, now: int, fmt: int -> string,
                             render: (Generator, ReportBodyDetails) -> string): Option<string> {
    if g == TxtGen then TxtGenerator.DocumentText(d, now, fmt) else Some(render(g, d))
  }

  /** The outcome of PrepareDocument: the document, or the exception it throws. */
  datatype Outcome = Document(text: string) | NotRegistered(message: string) | NullReference

  function ProvidedDocument(d: ReportBodyDetails, format: ReportFormatType, now: int, fmt: int -> string,
                            render: (Generator, ReportBodyDetails) -> string): Outcome {
    match GetGenerator(format)
    case Failure(message) => NotRegistered(message)
    case Success(g) =>
      var doc := GeneratorDocument(g, d, now, fmt, render);
      if doc.Some? then Document(doc.value) else NullReference
  }

  /** PrepareDocument: the selected generator's document. */
  method PrepareDocument(d: ReportBodyDetails, format: ReportFormatType, now: int, fmt: int -> string,
                         render: (Generator, ReportBodyDetails) -> string) returns (r: Outcome)
    ensures r == ProvidedDocument(d, format, now, fmt, render)
  {
    var generator := GetGenerator(format);
    if generator.Failure? {
      return NotRegistered(generator.error);
    }
    if generator.value == TxtGen {
      var doc := TxtGenerator.PrepareDocument(d, now, fmt);
      if doc.None? {
        return NullReference;
      }
      r := Document(doc.value);
    } else {
      r := Document(render(generator.value, d));
    }
  }

  /**
   * A TXT report is the text generator's document; the other defined formats
   * are rendered by the generator of that format; an undefined format is the
   * not-registered exception, naming the format.
   */
  lemma ProvidedDocumentMeaning(d: ReportBodyDetails, format: ReportFormatType, now: int, fmt: int -> string,
                                render: (Generator, ReportBodyDetails) -> string)
    ensures format == TXT ==>
      ProvidedDocument(d, format, now, fmt, render) ==
        (if TxtGenerator.DocumentText(d, now, fmt).Some? then Document(TxtGenerator.DocumentText(d, now, fmt).value) else NullReference)
    ensures IsDefined(format) && format != TXT ==>
      exists g :: TypeOf(g) == format && ProvidedDocument(d, format, now, fmt, render) == Document(render(g, d))
    ensures !IsDefined(format) ==> ProvidedDocument(d, format, now, fmt, render) == NotRegistered(NotRegisteredMessage(format))
  {
    RegistrationComplete(format);
  }
}
