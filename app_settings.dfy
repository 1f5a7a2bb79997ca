/**
 * AppSettings: the bot's settings, read once from the configuration when the
 * object is built. The configuration is a map from key to value; a
 * connection string is the value under "ConnectionStrings:" and its name.
 */
module TeamsBotSettings {
  import opened Wrappers
  import opened DotNetText
  import opened ReportTypes

  /**
   * The configuration's key-value pairs, provider after provider in the order
   * they were added; keys compare ignoring case.
   */
  type Configuration = seq<(string, string)>

  /**
   * configuration[key]: the value of the last pair whose key equals key
   * ignoring case, since a later provider overrides an earlier one; null when
   * no key matches.
   */
  function Lookup(configuration: Configuration, key: string): Option<string> {
    if |configuration| == 0 then None
    else if EqualsIgnoreCase(configuration[|configuration| - 1].0, key) then Some(configuration[|configuration| - 1].1)
    else Lookup(configuration[..|configuration| - 1], key)
  }

  /**
   * A value is found exactly when some key matches ignoring case, and it is
   * the value of the last matching pair.
   */
  lemma {:induction false} LookupMeaning(configuration: Configuration, key: string)
    ensures Lookup(configuration, key).Some? <==> exists i :: 0 <= i < |configuration| && EqualsIgnoreCase(configuration[i].0, key)
    ensures Lookup(configuration, key).Some? ==>
      exists i :: (&& 0 <= i < |configuration|
                   && EqualsIgnoreCase(configuration[i].0, key)
                   && Lookup(configuration, key).value == configuration[i].1
                   && forall j :: i < j < |configuration| ==> !EqualsIgnoreCase(configuration[j].0, key))
  {
    if |configuration| > 0 {
      var n := |configuration| - 1;
      var front := configuration[..n];
      if !EqualsIgnoreCase(configuration[n].0, key) {
        LookupMeaning(front, key);
        if exists i :: 0 <= i < |configuration| && EqualsIgnoreCase(configuration[i].0, key) {
          var i :| 0 <= i < |configuration| && EqualsIgnoreCase(configuration[i].0, key);
          assert front[i] == configuration[i];
        }
        if Lookup(configuration, key).Some? {
          var i :| && 0 <= i < |front|
                   && EqualsIgnoreCase(front[i].0, key)
                   && Lookup(front, key).value == front[i].1
                   && forall j :: i < j < |front| ==> !EqualsIgnoreCase(front[j].0, key);
          assert configuration[i] == front[i];
          forall j | i < j < |configuration|
            ensures !EqualsIgnoreCase(configuration[j].0, key)
          {
            if j < n {
              assert configuration[j] == front[j];
            }
          }
        }
      }
    }
  }

  /** Keys that differ only in the case of their letters read the same value. */
  lemma {:induction false} LookupIgnoresCase(configuration: Configuration, key: string, other: string)
    requires EqualsIgnoreCase(key, other)
    ensures Lookup(configuration, key) == Lookup(configuration, other)
  {
    if |configuration| > 0 {
      LookupIgnoresCase(configuration[..|configuration| - 1], key, other);
    }
  }

  const DefaultBlobStorageContainerName: string := "botstatestorage"

  /** Five minutes to sign in, in seconds. */
  const DefaultSignInTimeout: int := 300

  /** Trimming removes everything exactly when everything is white space. */
  lemma TrimToEmpty(s: string)
    ensures Trim(s) == "" <==> AllWhiteSpace(s)
  {
    var t := TrimStartWhere(s, IsWhiteSpace);
    if t == "" {
      assert AllWhiteSpace(s);
    } else {
      assert !IsWhiteSpace(t[0]);
      assert TrimEndWhere(t, IsWhiteSpace) != "";
      assert t[0] == s[|s| - |t|];
    }
  }

  /** Invariant case mapping leaves white space alone. */
  lemma LowerWhiteSpace(s: string)
    ensures AllWhiteSpace(ToLowerInvariant(s)) <==> AllWhiteSpace(s)
  {
    assert forall i :: 0 <= i < |s| ==> (IsWhiteSpace(s[i]) <==> IsWhiteSpace(ToLowerInvariant(s)[i]));
  }

  lemma UpperWhiteSpace(s: string)
    ensures AllWhiteSpace(ToUpperInvariant(s)) <==> AllWhiteSpace(s)
  {
    assert forall i :: 0 <= i < |s| ==> (IsWhiteSpace(s[i]) <==> IsWhiteSpace(ToUpperInvariant(s)[i]));
  }

  /**
   * ParseBool: a missing or blank value gives the default; otherwise the
   * value, lowercased and trimmed, must be "true", "yes" or "1".
   */
  function ParseBool(value: Option<string>, defaultValue: bool): (r: bool)
    ensures IsNullOrWhiteSpace(value) ==> r == defaultValue
  {
    var boolStr := Trim(ToLowerInvariant(Str(value)));
    TrimToEmpty(ToLowerInvariant(Str(value)));
    LowerWhiteSpace(Str(value));
    TrimToEmpty(boolStr);
    if IsNullOrWhiteSpace(Some(boolStr)) then defaultValue
    else boolStr == "true" || boolStr == "yes" || boolStr == "1"
  }

  /**
   * A value that is not blank is read by its spelling alone: the default
   * plays no part, and the result is true exactly for "true", "yes" or "1"
   * once lower-cased and trimmed.
   */
  lemma ParseBoolMeaning(value: Option<string>)
    ensures !IsNullOrWhiteSpace(value) ==>
      && ParseBool(value, true) == ParseBool(value, false)
      && (ParseBool(value, true) <==> Trim(ToLowerInvariant(Str(value))) in {"true", "yes", "1"})
  {
    TrimToEmpty(ToLowerInvariant(Str(value)));
    LowerWhiteSpace(Str(value));
  }

  /** Surrounding white space and letter case do not matter. */
  lemma ParseBoolPadded()
    ensures ParseBool(Some(" Yes "), false)
  {
    var lower := ToLowerInvariant(" Yes ");
    assert lower == " yes " by {
      assert lower[1] == 'y' && lower[2] == 'e' && lower[3] == 's';
    }
    assert TrimStartWhere(lower, IsWhiteSpace) == "yes " by {
      assert !IsWhiteSpace(lower[1]);
    }
    assert Trim(lower) == "yes" by {
      assert !IsWhiteSpace("yes "[2]);
    }
    ParseBoolMeaning(Some(" Yes "));
  }

  /** A non-blank word other than the three spellings is false, whatever the default. */
  lemma ParseBoolOther()
    ensures !ParseBool(Some("no"), true)
  {
    var lower := ToLowerInvariant("no");
    assert lower == "no";
    TrimNothing(lower, IsWhiteSpace);
    ParseBoolMeaning(Some("no"));
  }

  /** The upper-case mapping followed by the lower-case one is the lower-case one. */
  lemma LowerOfUpper(s: string)
    ensures ToLowerInvariant(ToUpperInvariant(s)) == ToLowerInvariant(s)
  {
    assert forall i :: 0 <= i < |s| ==> LowerChar(UpperChar(s[i])) == LowerChar(s[i]);
  }

  lemma UpperOfLower(s: string)
    ensures ToUpperInvariant(ToLowerInvariant(s)) == ToUpperInvariant(s)
  {
    assert forall i :: 0 <= i < |s| ==> UpperChar(LowerChar(s[i])) == UpperChar(s[i]);
  }

  /** The spelling of a boolean setting does not depend on the case of its letters. */
  lemma ParseBoolIgnoresCase(s: string, defaultValue: bool)
    ensures ParseBool(Some(ToUpperInvariant(s)), defaultValue) == ParseBool(Some(s), defaultValue)
  {
    LowerOfUpper(s);
    UpperWhiteSpace(s);
  }

  /** ParseInt: the lowercased, trimmed value read as an Int32, or the default. */
  function ParseInt(value: Option<string>, defaultValue: int): (r: int)
    ensures IsNullOrWhiteSpace(value) ==> r == defaultValue
    ensures r == defaultValue || Int32Min <= r <= Int32Max
  {
    var intStr := Trim(ToLowerInvariant(Str(value)));
    TrimToEmpty(ToLowerInvariant(Str(value)));
    LowerWhiteSpace(Str(value));
    if !IsNullOrWhiteSpace(Some(intStr)) && TryParseInt32(intStr).Some? then TryParseInt32(intStr).value
    else defaultValue
  }

  /** An Int32 written in decimal has no letters and no surrounding white space. */
  lemma NumeralShape(n: int)
    requires Int32Min <= n <= Int32Max
    ensures var s := Int32ToString(n); ToLowerInvariant(s) == s && Trim(s) == s
  {
    var s := Int32ToString(n);
    var m: nat := if n < 0 then -n else n;
    var d := NatToDigits(m);
    assert ToLowerInvariant(s) == s by {
      assert forall i :: 0 <= i < |d| ==> IsDigit(d[i]);
      if n < 0 {
        assert s == "-" + d;
        assert forall i :: 0 < i < |s| ==> s[i] == d[i - 1];
      }
      assert forall i :: 0 <= i < |s| ==> LowerChar(s[i]) == s[i];
    }
    assert !IsWhiteSpace(s[0]) && !IsWhiteSpace(s[|s| - 1]) by {
      assert IsDigit(d[|d| - 1]);
      if n < 0 {
        assert s == "-" + d;
        assert s[|s| - 1] == d[|d| - 1];
      }
    }
    TrimNothing(s, IsWhiteSpace);
  }

  /** Every Int32 written in decimal is read back, whatever the default. */
  lemma ParseIntRoundTrip(n: int, defaultValue: int)
    requires Int32Min <= n <= Int32Max
    ensures ParseInt(Some(Int32ToString(n)), defaultValue) == n
  {
    NumeralShape(n);
    Int32RoundTrip(n);
  }

  /**
   * Enum.TryParse for ReportFormatType on a trimmed piece, where its own
   * trimming changes nothing; case-sensitive: a member name, or a numeral,
   * which yields any Int32 value, named or not.
   */
  function EnumTryParse(t: string): Option<ReportFormatType> {
    if t == "HTML" then Some(HTML)
    else if t == "PDF" then Some(PDF)
    else if t == "JSON" then Some(JSON)
    else if t == "TXT" then Some(TXT)
    else if |t| > 0 && (IsDigit(t[0]) || t[0] == '-' || t[0] == '+') && TryParseInt32(t).Some? then
      Some(TryParseInt32(t).value as ReportFormatType)
    else None
  }

  /** Each member's name reads back as that member. */
  lemma EnumNames(f: ReportFormatType)
    requires IsDefined(f)
    ensures EnumTryParse(FormatName(f)) == Some(f)
  {
  }

  /** Every Int32 numeral reads back as that value of the enum, named or not. */
  lemma EnumNumerals(n: int)
    requires Int32Min <= n <= Int32Max
    ensures EnumTryParse(Int32ToString(n)) == Some(n as ReportFormatType)
  {
    var s := Int32ToString(n);
    var m: nat := if n < 0 then -n else n;
    var d := NatToDigits(m);
    assert IsDigit(d[0]);
    if n < 0 {
      assert s == "-" + d;
    }
    assert s[0] == '-' || IsDigit(s[0]);
    Int32RoundTrip(n);
  }

  /** The formats the pieces name, in order, the unreadable ones skipped. */
  function FormatsOf(pieces: seq<string>): (r: seq<ReportFormatType>)
    ensures |r| <= |pieces|
  {
    if |pieces| == 0 then []
    else
      var r := FormatsOf(pieces[..|pieces| - 1]);
      match EnumTryParse(pieces[|pieces| - 1])
      case Some(f) => r + [f]
      case None => r
  }

  /** One more piece adds its format, if it names one. */
  lemma FormatsOfSnoc(pieces: seq<string>, p: string)
    ensures FormatsOf(pieces + [p]) == FormatsOf(pieces) + (if EnumTryParse(p).Some? then [EnumTryParse(p).value] else [])
  {
    assert (pieces + [p])[..|pieces|] == pieces;
  }

  /** Reading one piece more of the same list adds its format, if it names one. */
  lemma FormatsOfPrefix(pieces: seq<string>, i: nat)
    requires i < |pieces|
    ensures FormatsOf(pieces[..i + 1])
      == FormatsOf(pieces[..i]) + (if EnumTryParse(pieces[i]).Some? then [EnumTryParse(pieces[i]).value] else [])
  {
    assert pieces[..i + 1] == pieces[..i] + [pieces[i]];
    FormatsOfSnoc(pieces[..i], pieces[i]);
  }

  /** Every format read comes from one of the pieces, and every piece that reads as a format contributes it. */
  lemma {:induction false} FormatsOfMembers(pieces: seq<string>)
    ensures forall f :: f in FormatsOf(pieces) ==> exists j :: 0 <= j < |pieces| && EnumTryParse(pieces[j]) == Some(f)
    ensures forall j :: 0 <= j < |pieces| && EnumTryParse(pieces[j]).Some? ==> EnumTryParse(pieces[j]).value in FormatsOf(pieces)
    decreases |pieces|
  {
    if |pieces| > 0 {
      var init := pieces[..|pieces| - 1];
      var p := pieces[|pieces| - 1];
      FormatsOfMembers(init);
      assert pieces == init + [p];
      FormatsOfSnoc(init, p);
      assert forall j :: 0 <= j < |init| ==> init[j] == pieces[j];
    }
  }

  /** Pieces are read one by one: the formats of a concatenation are the concatenation of the formats. */
  lemma {:induction false} FormatsOfConcat(a: seq<string>, b: seq<string>)
    ensures FormatsOf(a + b) == FormatsOf(a) + FormatsOf(b)
    decreases |b|
  {
    if |b| > 0 {
      var b' := b[..|b| - 1];
      FormatsOfConcat(a, b');
      assert (a + b)[..|a + b| - 1] == a + b';
      assert (a + b)[|a + b| - 1] == b[|b| - 1];
    } else {
      assert a + b == a;
    }
  }

  /** Select(x => x.Trim()). */
  function TrimAll(pieces: seq<string>): (r: seq<string>)
    ensures |r| == |pieces|
  {
    seq(|pieces|, j requires 0 <= j < |pieces| => Trim(pieces[j]))
  }

  /** The pieces between the ';' separators, the empty ones dropped, each trimmed. */
  function FormatPieces(formatsStr: string): seq<string> {
    TrimAll(RemoveEmpty(Split(formatsStr, ';')))
  }

  /** The list ParseReportFormats returns for a configured value. */
  function ReportFormats(value: Option<string>, defaultFormat: ReportFormatType): (r: seq<ReportFormatType>)
    ensures IsNullOrWhiteSpace(value) ==> r == [defaultFormat]
  {
    var formatsStr := Trim(ToUpperInvariant(Str(value)));
    TrimToEmpty(ToUpperInvariant(Str(value)));
    UpperWhiteSpace(Str(value));
    TrimToEmpty(formatsStr);
    if !IsNullOrWhiteSpace(Some(formatsStr)) then FormatsOf(FormatPieces(formatsStr))
    else [defaultFormat]
  }

  /** ParseReportFormats: a missing or blank value gives the default alone; otherwise the pieces are read. */
  method ParseReportFormats(value: Option<string>, defaultFormat: ReportFormatType) returns (result: seq<ReportFormatType>)
    ensures result == ReportFormats(value, defaultFormat)
  {
    var formatsStr := Trim(ToUpperInvariant(Str(value)));
    if IsNullOrWhiteSpace(Some(formatsStr)) {
      return [defaultFormat];
    }
    var formatsList := FormatPieces(formatsStr);
    result := ParsePieces(formatsList);
  }

  /** The ForEach over the pieces: each one that parses adds its format. */
  method ParsePieces(formatsList: seq<string>) returns (result: seq<ReportFormatType>)
    ensures result == FormatsOf(formatsList)
  {
    result := [];
    var i := 0;
    while i < |formatsList|
      invariant 0 <= i <= |formatsList|
      invariant result == FormatsOf(formatsList[..i])
    {
      FormatsOfPrefix(formatsList, i);
      var parsed := EnumTryParse(formatsList[i]);
      if parsed.Some? {
        result := result + [parsed.value];
      }
      i := i + 1;
    }
    assert formatsList[..i] == formatsList;
  }

  /** The names of the formats, in order. */
  function Names(fs: seq<ReportFormatType>): (ns: seq<string>)
    ensures |ns| == |fs| && forall j :: 0 <= j < |fs| ==> ns[j] == FormatName(fs[j])
  {
    seq(|fs|, j requires 0 <= j < |fs| => FormatName(fs[j]))
  }

  /** A format name is its own trim, its own upper case and holds no separator. */
  lemma NameShape(f: ReportFormatType)
    requires IsDefined(f)
    ensures var n := FormatName(f);
      |n| > 0 && Trim(n) == n && ToUpperInvariant(n) == n && ';' !in n
      && forall i :: 0 <= i < |n| ==> 'A' <= n[i] <= 'Z'
  {
    var n := FormatName(f);
    UpperWordShape(n);
  }

  /** A non-empty word of upper-case ASCII letters is its own trim and its own upper case. */
  lemma UpperWordShape(n: string)
    requires |n| > 0 && forall i :: 0 <= i < |n| ==> 'A' <= n[i] <= 'Z'
    ensures Trim(n) == n && ToUpperInvariant(n) == n && ';' !in n
  {
    TrimNothing(n, IsWhiteSpace);
    assert forall i :: 0 <= i < |n| ==> UpperChar(n[i]) == n[i];
  }

  /**
   * A configured list of format names separated by ';' reads back as exactly
   * those formats, in that order and with their repetitions.
   */
  lemma ReportFormatsRoundTrip(fs: seq<ReportFormatType>, defaultFormat: ReportFormatType)
    requires |fs| > 0 && forall j :: 0 <= j < |fs| ==> IsDefined(fs[j])
    ensures ReportFormats(Some(Join(Names(fs), ';')), defaultFormat) == fs
  {
    var ns := Names(fs);
    var s := Join(ns, ';');
    NameListShape(fs);
    assert !IsNullOrWhiteSpace(Some(s));
    NameListPieces(fs);
    NamesRead(fs);
  }

  /** A list of names is its own upper case and its own trim. */
  /** Every defined member's name is a non-empty run of upper-case letters. */
  lemma NamesLetters(fs: seq<ReportFormatType>)
    requires forall j :: 0 <= j < |fs| ==> IsDefined(fs[j])
    ensures forall j :: 0 <= j < |fs| ==> Names(fs)[j] != "" && forall i :: 0 <= i < |Names(fs)[j]| ==> 'A' <= Names(fs)[j][i] <= 'Z'
  {
    var ns := Names(fs);
    forall j | 0 <= j < |fs|
      ensures ns[j] != "" && forall i :: 0 <= i < |ns[j]| ==> 'A' <= ns[j][i] <= 'Z'
    {
      NameShape(fs[j]);
    }
  }

  /** Joining runs of upper-case letters with ';' gives only letters and separators. */
  lemma JoinedLetters(ns: seq<string>)
    requires |ns| > 0
    requires forall j :: 0 <= j < |ns| ==> forall i :: 0 <= i < |ns[j]| ==> 'A' <= ns[j][i] <= 'Z'
    ensures forall i :: 0 <= i < |Join(ns, ';')| ==> Join(ns, ';')[i] == ';' || 'A' <= Join(ns, ';')[i] <= 'Z'
  {
    var s := Join(ns, ';');
    forall i | 0 <= i < |s|
      ensures s[i] == ';' || 'A' <= s[i] <= 'Z'
    {
      JoinChars(ns, ';', i);
    }
  }

  lemma NameListShape(fs: seq<ReportFormatType>)
    requires |fs| > 0 && forall j :: 0 <= j < |fs| ==> IsDefined(fs[j])
    ensures var s := Join(Names(fs), ';'); Trim(ToUpperInvariant(s)) == s && |s| > 0 && !IsWhiteSpace(s[0])
  {
    var ns := Names(fs);
    var s := Join(ns, ';');
    NamesLetters(fs);
    JoinedLetters(ns);
    UpperOfSeparatedLetters(s);
    JoinLength(ns, ';');
    assert !IsWhiteSpace(s[0]) && !IsWhiteSpace(s[|s| - 1]) by {
      LetterNotWhite(s[0]);
      LetterNotWhite(s[|s| - 1]);
    }
    TrimNothing(s, IsWhiteSpace);
  }

  /** A capital letter or ';' is no white space. */
  lemma LetterNotWhite(c: char)
    requires c == ';' || 'A' <= c <= 'Z'
    ensures !IsWhiteSpace(c)
  {
  }

  /** Capital letters and ';' are their own upper case. */
  lemma UpperOfSeparatedLetters(s: string)
    requires forall i :: 0 <= i < |s| ==> s[i] == ';' || 'A' <= s[i] <= 'Z'
    ensures ToUpperInvariant(s) == s
  {
    assert forall i :: 0 <= i < |s| ==> UpperChar(s[i]) == s[i];
  }

  /** The pieces of a list of names are the names. */
  lemma NameListPieces(fs: seq<ReportFormatType>)
    requires |fs| > 0 && forall j :: 0 <= j < |fs| ==> IsDefined(fs[j])
    ensures FormatPieces(Join(Names(fs), ';')) == Names(fs)
  {
    var ns := Names(fs);
    forall j | 0 <= j < |fs|
      ensures ns[j] != "" && Trim(ns[j]) == ns[j] && ';' !in ns[j]
    {
      NameShape(fs[j]);
    }
    JoinSplit(ns, ';');
    NoEmptyRemoved(ns);
    assert TrimAll(ns) == ns;
  }

  /** A join is at least as long as its first piece, and its first and last characters come from its ends. */
  lemma {:induction false} JoinLength(pieces: seq<string>, c: char)
    requires |pieces| > 0 && forall j :: 0 <= j < |pieces| ==> pieces[j] != ""
    ensures var s := Join(pieces, c);
      |s| > 0 && s[0] == pieces[0][0] && s[|s| - 1] == pieces[|pieces| - 1][|pieces[|pieces| - 1]| - 1]
    decreases |pieces|
  {
    if |pieces| > 1 {
      JoinLength(pieces[1..], c);
    }
  }

  lemma {:induction false} NoEmptyRemoved(pieces: seq<string>)
    requires forall j :: 0 <= j < |pieces| ==> pieces[j] != ""
    ensures RemoveEmpty(pieces) == pieces
    decreases |pieces|
  {
    if |pieces| > 0 {
      NoEmptyRemoved(pieces[1..]);
    }
  }

  /** The names of defined formats read back as the formats. */
  lemma {:induction false} NamesRead(fs: seq<ReportFormatType>)
    requires forall j :: 0 <= j < |fs| ==> IsDefined(fs[j])
    ensures FormatsOf(Names(fs)) == fs
    decreases |fs|
  {
    if |fs| > 0 {
      var init := fs[..|fs| - 1];
      NamesRead(init);
      assert Names(fs)[..|fs| - 1] == Names(init);
      var f := fs[|fs| - 1];
      EnumNames(f);
      assert fs == init + [f];
    }
  }

  /** Letters in a list of formats may be written in either case. */
  lemma ReportFormatsIgnoreCase(s: string, defaultFormat: ReportFormatType)
    ensures ReportFormats(Some(ToLowerInvariant(s)), defaultFormat) == ReportFormats(Some(s), defaultFormat)
  {
    UpperOfLower(s);
  }

  /**
   * GraphEndpointBaseUrl: trailing white space dropped, then every trailing
   * '/', then lowercased; a missing value stays missing.
   */
  function NormalizeBaseUrl(value: Option<string>): Option<string> {
    match value
    case None => None
    case Some(s) => Some(ToLowerInvariant(TrimEndWhere(TrimEnd(s), IsSlash)))
  }

  /**
   * The normalised URL is the lowercased start of the configured one, what
   * was cut off is white space and '/', and it neither ends in '/' nor holds
   * an upper-case letter.
   */
  lemma NormalizeBaseUrlMeaning(value: Option<string>)
    ensures value.None? <==> NormalizeBaseUrl(value).None?
    ensures value.Some? ==> var r := NormalizeBaseUrl(value).value;
      && |r| <= |value.value|
      && r == ToLowerInvariant(value.value[..|r|])
      && (forall i :: |r| <= i < |value.value| ==> IsWhiteSpace(value.value[i]) || value.value[i] == '/')
      && (|r| == 0 || r[|r| - 1] != '/')
      && forall i :: 0 <= i < |r| ==> !('A' <= r[i] <= 'Z')
  {
    if value.Some? {
      var s := value.value;
      var t := TrimEndWhere(TrimEnd(s), IsSlash);
      assert t == s[..|t|];
    }
  }

  /** The configuration keys ParseConfig reads. */
  const TenantIdKey: string := "TenantId"
  const MicrosoftAppIdKey: string := "MicrosoftAppId"
  const MicrosoftAppPasswordKey: string := "MicrosoftAppPassword"
  const ConnectionNameKey: string := "ConnectionName"
  const BlobStorageContainerNameKey: string := "BlobStorageContainerName"
  const ReportsFolderNameKey: string := "ReportsFolderName"
  const GraphEndpointBaseUrlKey: string := "GraphEndpointBaseUrl"
  const BlobStorageConnectionKey: string := "ConnectionStrings:BlobStorage"
  const UseCardUpdatingKey: string := "UseCardUpdating"
  const SignInTimeoutSecKey: string := "SignInTimeoutSec"
  const ReportFileFormatsKey: string := "ReportFileFormats"

  class AppSettings {
    var tenantId: string
    var microsoftAppId: string
    var microsoftAppPassword: string
    var connectionName: string
    var blobStorageConnectionString: Option<string>
    var blobStorageContainerName: string
    var useCardUpdating: bool
    var graphEndpointBaseUrl: Option<string>
    var signInTimeout: int
    var reportFormats: seq<ReportFormatType>
    var reportsFolderName: string

    /** The plain string settings: the configured value, or the default when the key is missing. */
    ghost predicate StringsParsed(configuration: Configuration)
      reads this`tenantId, this`microsoftAppId, this`microsoftAppPassword, this`connectionName
      reads this`blobStorageContainerName, this`reportsFolderName
    {
      && tenantId == Lookup(configuration, TenantIdKey).GetOr("")
      && microsoftAppId == Lookup(configuration, MicrosoftAppIdKey).GetOr("")
      && microsoftAppPassword == Lookup(configuration, MicrosoftAppPasswordKey).GetOr("")
      && connectionName == Lookup(configuration, ConnectionNameKey).GetOr("")
      && blobStorageContainerName == Lookup(configuration, BlobStorageContainerNameKey).GetOr(DefaultBlobStorageContainerName)
      && reportsFolderName == Lookup(configuration, ReportsFolderNameKey).GetOr("")
    }

    /** The Graph endpoint, normalized, and the blob storage connection string. */
    ghost predicate UrlsParsed(configuration: Configuration)
      reads this`graphEndpointBaseUrl, this`blobStorageConnectionString
    {
      && graphEndpointBaseUrl == NormalizeBaseUrl(Lookup(configuration, GraphEndpointBaseUrlKey))
      && blobStorageConnectionString == Lookup(configuration, BlobStorageConnectionKey)
    }

    /** The card-updating flag, through ParseBool with false as the default. */
    ghost predicate FlagParsed(configuration: Configuration)
      reads this`useCardUpdating
    {
      useCardUpdating == ParseBool(Lookup(configuration, UseCardUpdatingKey), false)
    }

    /** The sign-in timeout, through ParseInt with five minutes as the default. */
    ghost predicate TimeoutParsed(configuration: Configuration)
      reads this`signInTimeout
    {
      signInTimeout == ParseInt(Lookup(configuration, SignInTimeoutSecKey), DefaultSignInTimeout)
    }

    /** The card-updating flag and the sign-in timeout. */
    ghost predicate SwitchesParsed(configuration: Configuration)
      reads this`useCardUpdating, this`signInTimeout
    {
      FlagParsed(configuration) && TimeoutParsed(configuration)
    }

    /** The report formats, through ParseReportFormats with TXT as the default. */
    ghost predicate FormatsParsed(configuration: Configuration)
      reads this`reportFormats
    {
      reportFormats == ReportFormats(Lookup(configuration, ReportFileFormatsKey), TXT)
    }

    /** The options: the two switches and the report formats. */
    ghost predicate OptionsParsed(configuration: Configuration)
      reads this`useCardUpdating, this`signInTimeout, this`reportFormats
    {
      SwitchesParsed(configuration) && FormatsParsed(configuration)
    }

    /** The settings read through a parser. */
    ghost predicate ValuesParsed(configuration: Configuration)
      reads this`graphEndpointBaseUrl, this`blobStorageConnectionString, this`useCardUpdating
      reads this`signInTimeout, this`reportFormats
    {
      UrlsParsed(configuration) && OptionsParsed(configuration)
    }

    /** Every setting is what ParseConfig derives from the configuration. */
    ghost predicate ParsedFrom(configuration: Configuration)
      reads this
    {
      StringsParsed(configuration) && ValuesParsed(configuration)
    }

    constructor (configuration: Configuration)
      ensures ParsedFrom(configuration)
    {
      new;
      ParseConfig(configuration);
    }

    /**
     * ParseConfig: the plain string settings, then the base URL and the
     * connection string, the two switches and the report formats, each group
     * leaving the ones before it as they are.
     */
    method ParseConfig(configuration: Configuration)
      modifies this
      ensures ParsedFrom(configuration)
    {
      ParseStrings(configuration);
      ParseUrls(configuration);
      ParseSwitches(configuration);
      ParseFormats(configuration);
    }

    method ParseStrings(configuration: Configuration)
      modifies this`tenantId, this`microsoftAppId, this`microsoftAppPassword, this`connectionName
      modifies this`blobStorageContainerName, this`reportsFolderName
      ensures StringsParsed(configuration)
    {
      tenantId := Lookup(configuration, TenantIdKey).GetOr("");
      microsoftAppId := Lookup(configuration, MicrosoftAppIdKey).GetOr("");
      microsoftAppPassword := Lookup(configuration, MicrosoftAppPasswordKey).GetOr("");
      connectionName := Lookup(configuration, ConnectionNameKey).GetOr("");
      blobStorageContainerName := Lookup(configuration, BlobStorageContainerNameKey).GetOr(DefaultBlobStorageContainerName);
      reportsFolderName := Lookup(configuration, ReportsFolderNameKey).GetOr("");
    }

    method ParseUrls(configuration: Configuration)
      modifies this`graphEndpointBaseUrl, this`blobStorageConnectionString
      ensures UrlsParsed(configuration)
      ensures unchanged(this`tenantId, this`microsoftAppId, this`microsoftAppPassword, this`connectionName)
      ensures unchanged(this`blobStorageContainerName, this`reportsFolderName)
    {
      graphEndpointBaseUrl := NormalizeBaseUrl(Lookup(configuration, GraphEndpointBaseUrlKey));
      blobStorageConnectionString := Lookup(configuration, BlobStorageConnectionKey);
    }

    method ParseSwitches(configuration: Configuration)
      modifies this`useCardUpdating, this`signInTimeout
      ensures SwitchesParsed(configuration)
      ensures unchanged(this`tenantId, this`microsoftAppId, this`microsoftAppPassword, this`connectionName)
      ensures unchanged(this`blobStorageContainerName, this`reportsFolderName)
      ensures unchanged(this`graphEndpointBaseUrl, this`blobStorageConnectionString)
    {
      useCardUpdating := ParseBool(Lookup(configuration, UseCardUpdatingKey), false);
      signInTimeout := ParseInt(Lookup(configuration, SignInTimeoutSecKey), DefaultSignInTimeout);
    }

    method ParseFormats(configuration: Configuration)
      modifies this`reportFormats
      ensures FormatsParsed(configuration)
      ensures unchanged(this`tenantId, this`microsoftAppId, this`microsoftAppPassword, this`connectionName)
      ensures unchanged(this`blobStorageContainerName, this`reportsFolderName)
      ensures unchanged(this`graphEndpointBaseUrl, this`blobStorageConnectionString)
      ensures unchanged(this`useCardUpdating, this`signInTimeout)
    {
      reportFormats := ParseReportFormats(Lookup(configuration, ReportFileFormatsKey), TXT);
    }
  }
}
