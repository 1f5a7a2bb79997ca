/**
 * MSGraphClient.MapResult: turning the drive item that an upload returns into
 * the service's own DriveItemResponse. Id, web URL and MIME type are copied;
 * the download URL (the Graph key wins over the content key) is cut down to
 * its path plus its UniqueId query parameter; without a download URL the
 * UniqueId comes from the first {...} token of the ETag.
 *
 * URLs are strings split the way System.Uri splits them: the fragment starts
 * at the first '#', the query at the first '?' before it.
 */
module MSGraphClient {
  import opened Wrappers
  import opened DotNetText
  import OneDriveService

  const ContentDownloadUrlKey: string := "@content.downloadUrl"
  const GraphDownloadUrlKey: string := "@microsoft.graph.downloadUrl"
  const UniqueIdKey: string := "UniqueId"

  /** The fields of the Graph DriveItem that MapResult reads; AdditionalData values are given as their ToString(). */
  datatype DriveItem = DriveItem(
    id: Option<string>,
    webUrl: Option<string>,
    mimeType: Option<string>,
    additionalData: map<string, string>,
    eTag: string)

  /** The service's IDriveItem, filled field by field. */
  class DriveItemResponse {
    var contentUrl: Option<string>
    var downloadUrl: Option<string>
    var fileName: Option<string>
    var uniqueId: Option<string>
    var mimeType: Option<string>
    var id: Option<string>

    constructor ()
      ensures contentUrl == None && downloadUrl == None && fileName == None
      ensures uniqueId == None && mimeType == None && id == None
    {
      contentUrl := None;
      downloadUrl := None;
      fileName := None;
      uniqueId := None;
      mimeType := None;
      id := None;
    }
  }

  // ---------------------------------------------------------------------------
  // The download URL
  // ---------------------------------------------------------------------------

  /**
   * The two ifs of MapResult: the content key is read first and the Graph key
   * overwrites it. The result is the Graph key's value when that key is
   * present, else the content key's, else "".
   */
  method DownloadUrlOf(data: map<string, string>) returns (downloadUrl: string)
    ensures GraphDownloadUrlKey in data ==> downloadUrl == data[GraphDownloadUrlKey]
    ensures GraphDownloadUrlKey !in data && ContentDownloadUrlKey in data ==> downloadUrl == data[ContentDownloadUrlKey]
    ensures GraphDownloadUrlKey !in data && ContentDownloadUrlKey !in data ==> downloadUrl == ""
  {
    downloadUrl := "";
    if ContentDownloadUrlKey in data {
      downloadUrl := data[ContentDownloadUrlKey];
    }
    if GraphDownloadUrlKey in data {
      downloadUrl := data[GraphDownloadUrlKey];
    }
  }

  /** The part of a URL before its fragment. */
  function BeforeFragment(url: string): (r: string)
    ensures forall i :: 0 <= i < |r| ==> r[i] != '#'
  {
    url[..FirstIndexOfChar(url, '#')]
  }

  /** Uri.GetLeftPart(UriPartial.Path): scheme, authority and path, without query or fragment. */
  function LeftPartPath(url: string): string {
    var pre := BeforeFragment(url);
    pre[..FirstIndexOfChar(pre, '?')]
  }

  /** Uri.Query without its leading '?', which ParseQueryString drops: "" when there is no query. */
  function QueryPart(url: string): string {
    var pre := BeforeFragment(url);
    var q := FirstIndexOfChar(pre, '?');
    if q == |pre| then "" else pre[q + 1..]
  }

  /**
   * The left part holds neither '?' nor '#' and is a prefix of the URL; with
   * a query, the part before the fragment is the left part, '?' and the query;
   * a URL without '?' and '#' is its own left part.
   */
  lemma UrlParts(url: string)
    ensures var left := LeftPartPath(url);
      && (forall i :: 0 <= i < |left| ==> left[i] != '?' && left[i] != '#')
      && left <= url
      && ('?' in BeforeFragment(url) ==> BeforeFragment(url) == left + "?" + QueryPart(url))
      && ('?' !in BeforeFragment(url) ==> BeforeFragment(url) == left && QueryPart(url) == "")
      && ('?' !in url && '#' !in url ==> left == url)
  {
    var pre := BeforeFragment(url);
    var q := FirstIndexOfChar(pre, '?');
    if q < |pre| {
      assert pre == pre[..q] + "?" + pre[q + 1..];
    }
  }

  // ---------------------------------------------------------------------------
  // HttpUtility.ParseQueryString(...).Get(key)
  // ---------------------------------------------------------------------------

  /** The value of a hexadecimal digit of either case; None for any other character. */
  function HexDigit(c: char): (r: Option<nat>)
    ensures r.Some? ==> r.value < 16
  {
    if '0' <= c <= '9' then Some(c as int - '0' as int)
    else if 'a' <= c <= 'f' then Some(c as int - 'a' as int + 10)
    else if 'A' <= c <= 'F' then Some(c as int - 'A' as int + 10)
    else None
  }

  /** The character a %XX escape stands for; None when the digits are not hex or the byte is not ASCII. */
  function ByteEscape(h: char, l: char): Option<char> {
    if HexDigit(h).None? || HexDigit(l).None? then None
    else
      var b := 16 * HexDigit(h).value + HexDigit(l).value;
      if b < 0x80 then Some(b as char) else None
  }

  /** The character a %uXXXX escape stands for; None when the digits are not hex or the unit is a surrogate. */
  function UnitEscape(a: char, b: char, c: char, d: char): Option<char> {
    if HexDigit(a).None? || HexDigit(b).None? || HexDigit(c).None? || HexDigit(d).None? then None
    else
      var u := 4096 * HexDigit(a).value + 256 * HexDigit(b).value + 16 * HexDigit(c).value + HexDigit(d).value;
      if u < 0xD800 || 0xDFFF < u then Some(u as char) else None
  }

  /**
   * HttpUtility.UrlDecode: '+' is a space, %uXXXX and %XX are the characters
   * they encode, and any other character (a '%' that starts no valid escape
   * included) stands for itself.
   */
  function UrlDecode(s: string): (r: string)
    ensures |r| <= |s|
  {
    if |s| == 0 then []
    else if s[0] == '+' then " " + UrlDecode(s[1..])
    else if s[0] == '%' && |s| >= 6 && s[1] == 'u' && UnitEscape(s[2], s[3], s[4], s[5]).Some? then
      [UnitEscape(s[2], s[3], s[4], s[5]).value] + UrlDecode(s[6..])
    else if s[0] == '%' && |s| >= 3 && ByteEscape(s[1], s[2]).Some? then
      [ByteEscape(s[1], s[2]).value] + UrlDecode(s[3..])
    else [s[0]] + UrlDecode(s[1..])
  }

  /** Text with neither '%' nor '+' decodes to itself. */
  lemma {:induction false} DecodeClean(s: string)
    requires '%' !in s && '+' !in s
    ensures UrlDecode(s) == s
  {
    if |s| > 0 {
      DecodeClean(s[1..]);
      assert s == [s[0]] + s[1..];
    }
  }

  /** Every '+' decodes to a space, and text without '%' changes in nothing else. */
  lemma {:induction false} DecodePlus(s: string)
    requires '%' !in s
    ensures |UrlDecode(s)| == |s|
    ensures forall i :: 0 <= i < |s| ==> UrlDecode(s)[i] == if s[i] == '+' then ' ' else s[i]
  {
    if |s| > 0 {
      DecodePlus(s[1..]);
      forall i | 1 <= i < |s|
        ensures UrlDecode(s)[i] == if s[i] == '+' then ' ' else s[i]
      {
        assert s[i] == s[1..][i - 1];
      }
    }
  }

  /** One '&'-separated piece: a name up to its first '=', or no name at all; both are URL-decoded. */
  function QueryPair(piece: string): (Option<string>, string) {
    var e := FirstIndexOfChar(piece, '=');
    if e == |piece| then (None, UrlDecode(piece)) else (Some(UrlDecode(piece[..e])), UrlDecode(piece[e + 1..]))
  }

  /** The values, in order, of the pieces whose name equals key ignoring case. */
  function ValuesOf(pieces: seq<string>, key: string): (vs: seq<string>)
    ensures |vs| <= |pieces|
  {
    if |pieces| == 0 then []
    else
      var (name, value) := QueryPair(pieces[0]);
      (if name.Some? && EqualsIgnoreCase(name.value, key) then [value] else []) + ValuesOf(pieces[1..], key)
  }

  /** NameValueCollection.Get: all values of the key joined by ',', or null when the key is absent. */
  function QueryGet(query: string, key: string): Option<string> {
    var vs := ValuesOf(Split(query, '&'), key);
    if |vs| == 0 then None else Some(Join(vs, ','))
  }

  /** A value is found exactly when some piece names the key (ignoring case). */
  lemma {:induction false} ValuesOfPresent(pieces: seq<string>, key: string)
    ensures |ValuesOf(pieces, key)| > 0 <==>
      exists j :: 0 <= j < |pieces| && QueryPair(pieces[j]).0.Some? && EqualsIgnoreCase(QueryPair(pieces[j]).0.value, key)
  {
    if |pieces| > 0 {
      ValuesOfPresent(pieces[1..], key);
      if exists j :: 0 <= j < |pieces| && QueryPair(pieces[j]).0.Some? && EqualsIgnoreCase(QueryPair(pieces[j]).0.value, key) {
        var j :| 0 <= j < |pieces| && QueryPair(pieces[j]).0.Some? && EqualsIgnoreCase(QueryPair(pieces[j]).0.value, key);
        if j > 0 {
          assert pieces[1..][j - 1] == pieces[j];
        }
      }
      if |ValuesOf(pieces[1..], key)| > 0 {
        var j :| 0 <= j < |pieces[1..]| && QueryPair(pieces[1..][j]).0.Some? && EqualsIgnoreCase(QueryPair(pieces[1..][j]).0.value, key);
        assert pieces[j + 1] == pieces[1..][j];
      }
    }
  }

  /** A query that is one key=value piece gives back the decoded value. */
  lemma SinglePair(name: string, value: string)
    requires '=' !in name && '&' !in name && '&' !in value
    requires '%' !in name && '+' !in name
    ensures QueryGet(name + "=" + value, name) == Some(UrlDecode(value))
  {
    DecodeClean(name);
    var s := name + "=" + value;
    var k := FirstIndexOfChar(s, '&');
    assert k == |s|;
    assert Split(s, '&') == [s];
    var e := FirstIndexOfChar(s, '=');
    assert s[|name|] == '=';
    assert e == |name|;
    assert s[..e] == name && s[e + 1..] == value;
    assert ValuesOf([s], name) == [UrlDecode(value)] by {
      var none: seq<string> := [];
      assert [s][1..] == none;
    }
  }

  // ---------------------------------------------------------------------------
  // The ETag token
  // ---------------------------------------------------------------------------

  /** The characters of [a-zA-Z0-9-]. */
  predicate IsTokenChar(c: char) {
    ('a' <= c <= 'z') || ('A' <= c <= 'Z') || ('0' <= c <= '9') || c == '-'
  }

  /** The regex {[a-zA-Z0-9-]+} matches s[i..j+1]. */
  predicate TokenSpan(s: string, i: int, j: int) {
    && 0 <= i && i + 1 < j < |s|
    && s[i] == '{' && s[j] == '}'
    && forall m :: i < m < j ==> IsTokenChar(s[m])
  }

  /** The end of the run of token characters starting at k. */
  function RunEnd(s: string, k: nat): (j: nat)
    requires k <= |s|
    ensures k <= j <= |s|
    ensures forall m :: k <= m < j ==> IsTokenChar(s[m])
    ensures j < |s| ==> !IsTokenChar(s[j])
    decreases |s| - k
  {
    if k == |s| || !IsTokenChar(s[k]) then k else RunEnd(s, k + 1)
  }

  /** A match starting at i can only end at the end of the run after the brace. */
  lemma TokenSpanAt(s: string, i: nat, j: int)
    requires i < |s|
    ensures TokenSpan(s, i, j) <==>
      && s[i] == '{' && j == RunEnd(s, i + 1) && j > i + 1 && j < |s| && s[j] == '}'
  {
  }

  /** The inner text of the leftmost match starting at or after from. */
  function TokenFrom(s: string, from: nat): Option<string>
    requires from <= |s|
    decreases |s| - from
  {
    if from == |s| then None
    else
      var j := RunEnd(s, from + 1);
      if s[from] == '{' && j > from + 1 && j < |s| && s[j] == '}' then Some(s[from + 1..j])
      else TokenFrom(s, from + 1)
  }

  /** The first match's value with '{' and '}' removed; None when the regex does not match. */
  function ETagToken(eTag: string): Option<string> {
    TokenFrom(eTag, 0)
  }

  /**
   * TokenFrom finds the leftmost match at or after from, and finds nothing
   * exactly when there is none there.
   */
  lemma {:induction false} TokenFromLeftmost(s: string, from: nat)
    requires from <= |s|
    ensures TokenFrom(s, from).None? ==> forall i, j :: from <= i && TokenSpan(s, i, j) ==> false
    ensures TokenFrom(s, from).Some? ==>
      exists i, j :: (&& from <= i && TokenSpan(s, i, j)
                      && TokenFrom(s, from).value == s[i + 1..j]
                      && forall i', j' :: from <= i' < i ==> !TokenSpan(s, i', j'))
    decreases |s| - from
  {
    if from < |s| {
      var j := RunEnd(s, from + 1);
      TokenSpanAt(s, from, j);
      if s[from] == '{' && j > from + 1 && j < |s| && s[j] == '}' {
        assert TokenSpan(s, from, j);
      } else {
        forall j' ensures !TokenSpan(s, from, j') {
          TokenSpanAt(s, from, j');
        }
        TokenFromLeftmost(s, from + 1);
      }
    }
  }

  /** The ETag token is the inner text of the leftmost match, and there is none exactly when nothing matches. */
  lemma ETagTokenMeaning(eTag: string)
    ensures ETagToken(eTag).None? <==> forall i, j :: !TokenSpan(eTag, i, j)
    ensures ETagToken(eTag).Some? ==>
      exists i, j :: (&& TokenSpan(eTag, i, j)
                      && ETagToken(eTag).value == eTag[i + 1..j]
                      && forall i', j' :: 0 <= i' < i ==> !TokenSpan(eTag, i', j'))
  {
    TokenFromLeftmost(eTag, 0);
  }

  /** string.Replace(c, ""): every occurrence of c removed. */
  function RemoveChar(s: string, c: char): (r: string)
    ensures c !in r
  {
    if |s| == 0 then []
    else (if s[0] == c then [] else [s[0]]) + RemoveChar(s[1..], c)
  }

  /** A string without c is left alone by RemoveChar. */
  lemma {:induction false} RemoveAbsent(s: string, c: char)
    requires c !in s
    ensures RemoveChar(s, c) == s
  {
    if |s| > 0 {
      RemoveAbsent(s[1..], c);
      assert s == [s[0]] + s[1..];
    }
  }

  /** Token characters are never braces. */
  lemma TokenHasNoBraces(t: string)
    requires forall m :: 0 <= m < |t| ==> IsTokenChar(t[m])
    ensures '{' !in t && '}' !in t
  {
    forall m | 0 <= m < |t|
      ensures t[m] != '{' && t[m] != '}'
    {
      assert IsTokenChar(t[m]);
    }
  }

  /** Removing the braces from a match "{t}" leaves its inner text t. */
  lemma StripBraces(t: string)
    requires forall m :: 0 <= m < |t| ==> IsTokenChar(t[m])
    ensures RemoveChar(RemoveChar("{" + t + "}", '{'), '}') == t
  {
    TokenHasNoBraces(t);
    StripOpen(t);
    StripClose(t);
  }

  /** Removing '{' from "{t}" leaves t followed by the closing brace. */
  lemma StripOpen(t: string)
    requires '{' !in t
    ensures RemoveChar("{" + t + "}", '{') == t + "}"
  {
    assert RemoveChar("{" + t, '{') == t by {
      RemoveAppend("{", t, '{');
      RemoveAbsent(t, '{');
      assert RemoveChar("{", '{') == [];
    }
    assert RemoveChar("}", '{') == "}";
    RemoveAppend("{" + t, "}", '{');
  }

  /** Removing '}' from t followed by '}' leaves t. */
  lemma StripClose(t: string)
    requires '}' !in t
    ensures RemoveChar(t + "}", '}') == t
  {
    RemoveAppend(t, "}", '}');
    RemoveAbsent(t, '}');
    assert RemoveChar("}", '}') == [];
  }

  /** Removing the braces from a match leaves the text between them. */
  lemma SpanStripped(s: string, i: int, j: int)
    requires TokenSpan(s, i, j)
    ensures RemoveChar(RemoveChar(s[i..j + 1], '{'), '}') == s[i + 1..j]
  {
    var t := s[i + 1..j];
    forall m | 0 <= m < |t|
      ensures IsTokenChar(t[m])
    {
      assert t[m] == s[i + 1 + m];
    }
    assert s[i..j + 1] == "{" + t + "}";
    StripBraces(t);
  }

  /** RemoveChar distributes over concatenation. */
  lemma {:induction false} RemoveAppend(a: string, b: string, c: char)
    ensures RemoveChar(a + b, c) == RemoveChar(a, c) + RemoveChar(b, c)
  {
    if |a| > 0 {
      RemoveAppend(a[1..], b, c);
      assert (a + b)[1..] == a[1..] + b;
    } else {
      assert a + b == b;
    }
  }

  /** The DownloadUrl MapResult builds: the left part, then "?UniqueId=" and the value. */
  function DownloadUrlFor(left: string, uniqueId: string): string {
    left + "?" + (UniqueIdKey + "=" + uniqueId)
  }

  // ---------------------------------------------------------------------------
  // MapResult
  // ---------------------------------------------------------------------------

  /** The fields MapResult fills from the item, all but the file name. */
  predicate MappedFields(r: DriveItemResponse, item: DriveItem)
    reads r
  {
    var d := if GraphDownloadUrlKey in item.additionalData then item.additionalData[GraphDownloadUrlKey]
             else if ContentDownloadUrlKey in item.additionalData then item.additionalData[ContentDownloadUrlKey]
             else "";
    && r.id == item.id && r.contentUrl == item.webUrl && r.mimeType == item.mimeType
    && (d != "" ==>
          && r.uniqueId == Some(QueryGet(QueryPart(d), UniqueIdKey).GetOr(""))
          && r.downloadUrl == Some(DownloadUrlFor(LeftPartPath(d), r.uniqueId.value)))
    && (d == "" ==> r.uniqueId == ETagToken(item.eTag) && r.downloadUrl == None)
  }

  /**
   * MapResult. Id, content URL and MIME type are copied. With a download URL,
   * UniqueId is its UniqueId query value ("" when absent) and DownloadUrl is
   * the URL's left part with only that parameter; without one, UniqueId is the
   * ETag token and DownloadUrl stays null.
   */
  method MapResult(item: DriveItem) returns (result: DriveItemResponse)
    ensures fresh(result)
    ensures result.fileName == None
    ensures MappedFields(result, item)
  {
    result := new DriveItemResponse();
    result.id := item.id;
    result.contentUrl := item.webUrl;
    result.mimeType := item.mimeType;
    var downloadUrl := DownloadUrlOf(item.additionalData);
    if downloadUrl != "" {
      var uniqueId := QueryGet(QueryPart(downloadUrl), UniqueIdKey).GetOr("");
      result.uniqueId := Some(uniqueId);
      result.downloadUrl := Some(DownloadUrlFor(LeftPartPath(downloadUrl), uniqueId));
    } else {
      var uniqueId := UniqueIdFromETag(item.eTag);
      if uniqueId.Some? {
        result.uniqueId := uniqueId;
      }
    }
  }

  /**
   * UploadFileInPersonalOneDrive: the OneDrive upload into the user's drive;
   * its failure is the operation's, and the item it returns is mapped.
   */
  method UploadFileInPersonalOneDrive<S>(length: nat, filePath: string, answers: OneDriveService.DriveAnswers<S, DriveItem>)
    returns (result: Result<DriveItemResponse, string>, sent: seq<OneDriveService.DriveRequest<S>>)
    requires OneDriveService.Fits(answers, length)
    ensures sent == OneDriveService.UploadRequests(OneDriveService.PersonalDrive, length, filePath, answers.session, answers.firstPass, answers.secondPass)
    ensures var up := OneDriveService.Answered(answers, length);
      && (up.Failure? ==> result == Failure(up.error))
      && (up.Success? ==> result.Success? && fresh(result.value) && result.value.fileName == None && MappedFields(result.value, up.value))
  {
    var res;
    res, sent := OneDriveService.UploadToPersonalOneDrive(length, filePath, answers.putResult, answers.session, answers.firstPass, answers.secondPass);
    if res.Failure? {
      return Failure(res.error), sent;
    }
    var item := MapResult(res.value);
    result := Success(item);
  }

  /** UploadFileInTeamDrive: the same, into the drive of the team's group. */
  method UploadFileInTeamDrive<S>(teamId: string, length: nat, filePath: string, answers: OneDriveService.DriveAnswers<S, DriveItem>)
    returns (result: Result<DriveItemResponse, string>, sent: seq<OneDriveService.DriveRequest<S>>)
    requires OneDriveService.Fits(answers, length)
    ensures sent == OneDriveService.UploadRequests(OneDriveService.GroupDrive(teamId), length, filePath, answers.session, answers.firstPass, answers.secondPass)
    ensures var up := OneDriveService.Answered(answers, length);
      && (up.Failure? ==> result == Failure(up.error))
      && (up.Success? ==> result.Success? && fresh(result.value) && result.value.fileName == None && MappedFields(result.value, up.value))
  {
    var res;
    res, sent := OneDriveService.UploadToChannelFolder(teamId, length, filePath, answers.putResult, answers.session, answers.firstPass, answers.secondPass);
    if res.Failure? {
      return Failure(res.error), sent;
    }
    var item := MapResult(res.value);
    result := Success(item);
  }

  /**
   * The else branch of MapResult: the first match of {[a-zA-Z0-9-]+} in the
   * ETag with its braces replaced by nothing, or nothing when it does not match.
   */
  method UniqueIdFromETag(eTag: string) returns (uniqueId: Option<string>)
    ensures uniqueId == ETagToken(eTag)
  {
    var token := ETagToken(eTag);
    if token.Some? {
      ETagTokenMeaning(eTag);
      var i, j :| TokenSpan(eTag, i, j) && token.value == eTag[i + 1..j];
      SpanStripped(eTag, i, j);
      uniqueId := Some(RemoveChar(RemoveChar(eTag[i..j + 1], '{'), '}'));
    } else {
      uniqueId := None;
    }
  }

  /**
   * The DownloadUrl MapResult builds carries exactly one query parameter:
   * parsing it again gives back the UniqueId, provided that value holds no
   * '&' and no '#', and neither '%' nor '+', since the value is put back
   * without being encoded again.
   */
  lemma DownloadUrlReparse(url: string, uniqueId: string)
    requires '&' !in uniqueId && '#' !in uniqueId && '%' !in uniqueId && '+' !in uniqueId
    ensures var built := DownloadUrlFor(LeftPartPath(url), uniqueId);
      && LeftPartPath(built) == LeftPartPath(url)
      && QueryPart(built) == UniqueIdKey + "=" + uniqueId
      && QueryGet(QueryPart(built), UniqueIdKey) == Some(uniqueId)
  {
    var left := LeftPartPath(url);
    LeftPartClean(url);
    ReparseQuery(left, UniqueIdKey, uniqueId);
  }

  /** The left part of a URL holds neither '?' nor '#'. */
  lemma LeftPartClean(url: string)
    ensures forall i :: 0 <= i < |LeftPartPath(url)| ==> LeftPartPath(url)[i] != '?' && LeftPartPath(url)[i] != '#'
  {
    UrlParts(url);
  }

  /** A URL built from a clean left part and one key=value pair parses back into both. */
  lemma ReparseQuery(left: string, key: string, value: string)
    requires forall i :: 0 <= i < |left| ==> left[i] != '?' && left[i] != '#'
    requires '=' !in key && '&' !in key && '#' !in key && '%' !in key && '+' !in key
    requires '&' !in value && '#' !in value && '%' !in value && '+' !in value
    ensures LeftPartPath(left + "?" + (key + "=" + value)) == left
    ensures QueryPart(left + "?" + (key + "=" + value)) == key + "=" + value
    ensures QueryGet(key + "=" + value, key) == Some(value)
  {
    DecodeClean(value);
    NotInAppend(key, "=", '#');
    NotInAppend(key + "=", value, '#');
    SplitUrl(left, key + "=" + value);
    SinglePair(key, value);
  }

  /** An element in neither part is not in their concatenation. */
  lemma NotInAppend<T>(a: seq<T>, b: seq<T>, x: T)
    requires x !in a && x !in b
    ensures x !in a + b
  {
  }

  /** A left part followed by '?' and a query without '#' splits back into the two. */
  lemma SplitUrl(left: string, query: string)
    requires forall i :: 0 <= i < |left| ==> left[i] != '?' && left[i] != '#'
    requires '#' !in query
    ensures LeftPartPath(left + "?" + query) == left
    ensures QueryPart(left + "?" + query) == query
  {
    var built := left + "?" + query;
    assert BeforeFragment(built) == built by {
      forall m | 0 <= m < |built| ensures built[m] != '#' {
        if m < |left| { assert built[m] == left[m]; }
        else if m > |left| { assert built[m] == query[m - |left| - 1]; }
      }
      assert FirstIndexOfChar(built, '#') == |built|;
    }
    assert FirstIndexOfChar(built, '?') == |left| by {
      assert built[|left|] == '?';
      forall m | 0 <= m < |left| ensures built[m] != '?' {
        assert built[m] == left[m];
      }
    }
    assert built[..|left|] == left;
    assert built[|left| + 1..] == query;
  }

}
