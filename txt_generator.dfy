/**
 * TxtGenerator: the plain-text report. A header (scope, period, author),
 * a blank line, then one block per reconstructed thread in MessageSorter's
 * order; each block is an optional "conversation started before" warning and
 * the rendered messages, the first one as a root when the thread is whole and
 * the report is a thread view.
 *
 * Every StringBuilder.AppendLine is modelled as appending the line and
 * Environment.NewLine. Date formatting (ToInternational) is the parameter fmt;
 * the time the report is generated is the parameter now. A message without a
 * body or a sender makes MessageDetails dereference null: that rendering, and
 * the whole document, fails (None).
 */
module TxtGenerator {
  import opened Wrappers
  import opened DotNetText
  import opened Linq
  import opened GraphModels
  import opened MessageSorter
  import opened ReportTypes

  /** Environment.NewLine on the Windows host the bot runs on. */
  const NewLine: string := "\r\n"

  /** The generator's Type. */
  const Type: ReportFormatType := TXT

  /** The text a StringBuilder holds after AppendLine of each line in turn. */
  function Lines(ls: seq<string>): string {
    if |ls| == 0 then "" else Lines(ls[..|ls| - 1]) + ls[|ls| - 1] + NewLine
  }

  lemma LinesSnoc(ls: seq<string>, x: string)
    ensures Lines(ls + [x]) == Lines(ls) + x + NewLine
  {
    assert (ls + [x])[..|ls|] == ls;
  }

  /** Appending lines to a builder is appending their text. */
  lemma {:induction false} LinesConcat(a: seq<string>, b: seq<string>)
    ensures Lines(a + b) == Lines(a) + Lines(b)
    decreases |b|
  {
    if |b| > 0 {
      var b' := b[..|b| - 1];
      LinesConcat(a, b');
      assert (a + b)[..|a + b| - 1] == a + b';
    } else {
      assert a + b == a;
    }
  }

  // ---------------------------------------------------------------------------
  // Line prefixes and sender lines
  // ---------------------------------------------------------------------------

  /** The indentation of a message's detail lines. */
  function Prefix(isRoot: bool, threadView: bool): string {
    if isRoot then "" else if threadView then "            " else "    "
  }

  /** The marker before a message's text. */
  function TextPrefix(isRoot: bool, threadView: bool): string {
    if isRoot then "" else if threadView then ">>          " else ">>  "
  }

  /** A root has no indentation; a reply is indented by 12 spaces in a thread view and 4 otherwise. */
  lemma PrefixWidths(isRoot: bool, threadView: bool)
    ensures |Prefix(isRoot, threadView)| == (if isRoot then 0 else if threadView then 12 else 4)
    ensures |TextPrefix(isRoot, threadView)| == |Prefix(isRoot, threadView)|
    ensures TextPrefix(isRoot, threadView) == "" || TextPrefix(isRoot, threadView)[..2] == ">>"
    ensures forall i :: 0 <= i < |Prefix(isRoot, threadView)| ==> Prefix(isRoot, threadView)[i] == ' '
  {
  }

  /** The "- by" line for one identity of the sender, when it is set. */
  function ByLine(prefix: string, identity: Option<Identity>): seq<string> {
    if identity.Some? then [prefix + "- by " + Str(identity.value.displayName)] else []
  }

  /** The four "- by" checks, in the order Application, Conversation, User, Device. */
  function ByLines(prefix: string, from: IdentitySet): seq<string> {
    ByLine(prefix, from.application) + ByLine(prefix, from.conversation)
    + ByLine(prefix, from.user) + ByLine(prefix, from.device)
  }

  /** The identities of a sender that are set, in the order Application, Conversation, User, Device. */
  function Present(from: IdentitySet): seq<Identity> {
    (if from.application.Some? then [from.application.value] else [])
    + (if from.conversation.Some? then [from.conversation.value] else [])
    + (if from.user.Some? then [from.user.value] else [])
    + (if from.device.Some? then [from.device.value] else [])
  }

  /** There is one "- by" line per identity that is set, naming it, in that order. */
  lemma ByLinesPresent(prefix: string, from: IdentitySet)
    ensures |ByLines(prefix, from)| == |Present(from)| <= 4
    ensures forall i :: 0 <= i < |Present(from)| ==>
      ByLines(prefix, from)[i] == prefix + "- by " + Str(Present(from)[i].displayName)
  {
  }

  // ---------------------------------------------------------------------------
  // Reactions and attachments
  // ---------------------------------------------------------------------------

  /** The reaction types, in order. */
  function ReactionTypes(rs: seq<Reaction>): (ts: seq<Option<string>>)
    ensures |ts| == |rs| && forall i :: 0 <= i < |rs| ==> ts[i] == rs[i].reactionType
  {
    seq(|rs|, i requires 0 <= i < |rs| => rs[i].reactionType)
  }

  /** string.Join with a separator string. */
  function JoinWith(pieces: seq<string>, sep: string): string {
    if |pieces| == 0 then "" else if |pieces| == 1 then pieces[0] else pieces[0] + sep + JoinWith(pieces[1..], sep)
  }

  /** "type(count)" for each group, in group order. */
  function GroupEntries(keys: seq<Option<string>>, types: seq<Option<string>>): (es: seq<string>)
    ensures |es| == |keys|
    ensures forall i :: 0 <= i < |keys| ==> es[i] == Str(keys[i]) + "(" + Int32ToString(CountOf(types, keys[i])) + ")"
  {
    seq(|keys|, i requires 0 <= i < |keys| => Str(keys[i]) + "(" + Int32ToString(CountOf(types, keys[i])) + ")")
  }

  /** GroupBy(ReactionType), rendered as "type(count)" joined by ", ". */
  function ReactionSummary(rs: seq<Reaction>): string {
    var types := ReactionTypes(rs);
    JoinWith(GroupEntries(Distinct(types), types), ", ")
  }

  /**
   * The reaction groups: one per distinct type, in order of first occurrence,
   * each with the number of reactions of that type; the counts add up to the
   * number of reactions.
   */
  lemma ReactionGroups(rs: seq<Reaction>)
    ensures var types := ReactionTypes(rs); var keys := Distinct(types);
      && (forall t :: t in keys <==> t in types)
      && (forall i, j :: 0 <= i < j < |keys| ==> keys[i] != keys[j])
      && (forall i, j :: 0 <= i < j < |keys| ==> FirstIndex(types, keys[i]) < FirstIndex(types, keys[j]))
      && SumCounts(keys, types) == |rs|
  {
    var types := ReactionTypes(rs);
    DistinctMembers(types);
    DistinctUnique(types);
    DistinctOrder(types);
    DistinctCounts(types);
  }

  /** Regex.Replace(s, @"\s+", " "): every run of white space becomes one space. */
  function CollapseWhiteSpace(s: string): string
    decreases |s|
  {
    if |s| == 0 then ""
    else if IsWhiteSpace(s[0]) then " " + CollapseWhiteSpace(TrimStartWhere(s[1..], IsWhiteSpace))
    else [s[0]] + CollapseWhiteSpace(s[1..])
  }

  /** The characters of s that are not white space, in order. */
  function Visible(s: string): string {
    if |s| == 0 then "" else (if IsWhiteSpace(s[0]) then "" else [s[0]]) + Visible(s[1..])
  }

  /** Dropping leading white space keeps the visible characters. */
  lemma {:induction false} VisibleTrimStart(s: string)
    ensures Visible(TrimStartWhere(s, IsWhiteSpace)) == Visible(s)
    decreases |s|
  {
    if |s| > 0 && IsWhiteSpace(s[0]) {
      VisibleTrimStart(s[1..]);
      assert TrimStartWhere(s, IsWhiteSpace) == TrimStartWhere(s[1..], IsWhiteSpace) by {
        assert LeadingFrom(s, IsWhiteSpace, 0) == 1 + LeadingFrom(s[1..], IsWhiteSpace, 0) by {
          LeadingShift(s, 0);
        }
      }
    }
  }

  lemma {:induction false} LeadingShift(s: string, i: nat)
    requires |s| > 0 && IsWhiteSpace(s[0]) && i < |s|
    requires forall j :: 0 <= j <= i ==> IsWhiteSpace(s[j])
    ensures LeadingFrom(s, IsWhiteSpace, i + 1) == 1 + LeadingFrom(s[1..], IsWhiteSpace, i)
    decreases |s| - i
  {
    if i + 1 < |s| && IsWhiteSpace(s[i + 1]) {
      LeadingShift(s, i + 1);
    }
  }

  lemma FirstLeading(s: string)
    requires |s| > 0 && IsWhiteSpace(s[0])
    ensures LeadingFrom(s, IsWhiteSpace, 0) == LeadingFrom(s, IsWhiteSpace, 1)
  {
  }

  /**
   * Collapsing white space keeps every other character in order, leaves only
   * ' ' as white space, never two in a row, and keeps a leading space.
   */
  lemma {:induction false} CollapseMeaning(s: string)
    ensures var r := CollapseWhiteSpace(s);
      && Visible(r) == Visible(s)
      && (forall i :: 0 <= i < |r| && IsWhiteSpace(r[i]) ==> r[i] == ' ')
      && (forall i :: 0 <= i < |r| - 1 ==> !(IsWhiteSpace(r[i]) && IsWhiteSpace(r[i + 1])))
      && (|s| > 0 <==> |r| > 0)
      && (|s| > 0 ==> (IsWhiteSpace(r[0]) <==> IsWhiteSpace(s[0])))
    decreases |s|
  {
    if |s| > 0 {
      if IsWhiteSpace(s[0]) {
        var t := TrimStartWhere(s[1..], IsWhiteSpace);
        CollapseMeaning(t);
        VisibleTrimStart(s[1..]);
        var c := CollapseWhiteSpace(t);
        assert CollapseWhiteSpace(s) == " " + c;
        assert Visible(" " + c) == Visible(c) by {
          assert (" " + c)[1..] == c;
        }
        forall i | 0 <= i < |" " + c| - 1
          ensures !(IsWhiteSpace((" " + c)[i]) && IsWhiteSpace((" " + c)[i + 1]))
        {
          if i > 0 {
            assert (" " + c)[i] == c[i - 1] && (" " + c)[i + 1] == c[i];
          }
        }
        forall i | 0 <= i < |" " + c| && IsWhiteSpace((" " + c)[i])
          ensures (" " + c)[i] == ' '
        {
          if i > 0 {
            assert (" " + c)[i] == c[i - 1];
          }
        }
      } else {
        CollapseMeaning(s[1..]);
        var c := CollapseWhiteSpace(s[1..]);
        assert CollapseWhiteSpace(s) == [s[0]] + c;
        assert ([s[0]] + c)[1..] == c;
        forall i | 0 <= i < |[s[0]] + c| - 1
          ensures !(IsWhiteSpace(([s[0]] + c)[i]) && IsWhiteSpace(([s[0]] + c)[i + 1]))
        {
          if i > 0 {
            assert ([s[0]] + c)[i] == c[i - 1] && ([s[0]] + c)[i + 1] == c[i];
          }
        }
        forall i | 0 <= i < |[s[0]] + c| && IsWhiteSpace(([s[0]] + c)[i])
          ensures ([s[0]] + c)[i] == ' '
        {
          assert i > 0;
          assert ([s[0]] + c)[i] == c[i - 1];
        }
      }
    }
  }

  /** string.Replace: the occurrences of pattern, left to right, replaced by replacement. */
  function ReplaceAll(s: string, pattern: string, replacement: string): string
    requires |pattern| > 0
    decreases |s|
  {
    if |s| < |pattern| then s
    else if s[..|pattern|] == pattern then replacement + ReplaceAll(s[|pattern|..], pattern, replacement)
    else [s[0]] + ReplaceAll(s[1..], pattern, replacement)
  }

  /** A field of an attachment line: the caption, the value and a space, when the value is set. */
  function Field(caption: string, value: Option<string>): string {
    if !IsNullOrEmpty(value) then caption + value.value + " " else ""
  }

  /** The content field: line breaks turned into spaces and white space collapsed. */
  function ContentField(content: Option<string>): string {
    if !IsNullOrEmpty(content) then CollapseWhiteSpace("Content: " + ReplaceAll(content.value, NewLine, " ") + " ") else ""
  }

  /** One attachment: the doubled prefix, then url, content, type, name and thumbnail fields. */
  function AttachmentLine(prefix: string, a: Attachment): string {
    prefix + prefix + Field("ContentUrl: ", a.contentUrl) + ContentField(a.content)
    + (if !IsNullOrEmpty(a.contentType) then "ContentType: " + a.contentType.value else "")
    + Field("Name: ", a.name) + Field("ThumbnailUrl: ", a.thumbnailUrl)
  }

  /** The line of each item, in order. */
  function MapLines<T>(items: seq<T>, lineOf: T -> string): (ls: seq<string>)
    ensures |ls| == |items| && forall i :: 0 <= i < |items| ==> ls[i] == lineOf(items[i])
  {
    if |items| == 0 then [] else MapLines(items[..|items| - 1], lineOf) + [lineOf(items[|items| - 1])]
  }

  /** Mapping one more item appends its line. */
  lemma MapLinesStep<T>(pre: seq<string>, items: seq<T>, lineOf: T -> string, k: nat)
    requires k < |items|
    ensures pre + MapLines(items[..k + 1], lineOf) == pre + MapLines(items[..k], lineOf) + [lineOf(items[k])]
  {
    assert items[..k + 1][..k] == items[..k];
    AppendAssoc(pre, MapLines(items[..k], lineOf), [lineOf(items[k])]);
  }

  /** AttachmentLine for one prefix, as a function of the attachment. */
  function AttachmentLineOf(prefix: string): Attachment -> string {
    a => AttachmentLine(prefix, a)
  }

  /** One line per attachment, in order. */
  function AttachmentLines(prefix: string, atts: seq<Attachment>): seq<string> {
    MapLines(atts, AttachmentLineOf(prefix))
  }

  /** The content field never holds two white-space characters in a row, and keeps all visible text of the content. */
  lemma ContentFieldShape(content: string)
    requires content != ""
    ensures var f := ContentField(Some(content));
      && (forall i :: 0 <= i < |f| - 1 ==> !(IsWhiteSpace(f[i]) && IsWhiteSpace(f[i + 1])))
      && Visible(f) == Visible("Content: " + ReplaceAll(content, NewLine, " ") + " ")
  {
    CollapseMeaning("Content: " + ReplaceAll(content, NewLine, " ") + " ");
  }

  // ---------------------------------------------------------------------------
  // MessageDetails
  // ---------------------------------------------------------------------------

  /** A message MessageDetails can render: it has a body and a sender. */
  predicate Renderable(m: Message) {
    m.body.Some? && m.from.Some?
  }

  function SubjectLines(m: Message, isRoot: bool, prefix: string): seq<string> {
    if isRoot && !IsNullOrEmpty(m.subject) then [SubjectLine(m, prefix)] else []
  }

  function OptionalTimeLine(prefix: string, caption: string, t: Option<int>, fmt: int -> string): seq<string> {
    if t.Some? then [prefix + caption + fmt(t.value)] else []
  }

  function ReactionLines(m: Message, prefix: string): seq<string> {
    if m.reactions.Some? && |m.reactions.value| > 0 then [prefix + "- reactions: " + ReactionSummary(m.reactions.value)] else []
  }

  function AttachmentSection(m: Message, prefix: string): seq<string> {
    if m.attachments.Some? && |m.attachments.value| > 0 then [prefix + "- attachments:"] + AttachmentLines(prefix, m.attachments.value) else []
  }

  function SubjectLine(m: Message, prefix: string): string
    requires m.subject.Some?
  {
    prefix + "Subject: " + m.subject.value
  }

  function TextLine(m: Message, isRoot: bool, threadView: bool): string
    requires m.body.Some?
  {
    TextPrefix(isRoot, threadView) + "Message text: " + Str(m.body.value.content)
  }

  function PostedLine(m: Message, prefix: string, fmt: int -> string): string {
    prefix + "- posted at " + fmt(m.createdDateTime)
  }

  function PriorityLine(m: Message, prefix: string): string {
    prefix + "- priority - " + Str(m.importance)
  }

  /** The lines MessageDetails appends, or None when it dereferences a missing body or sender. */
  function MessageLines(m: Message, isRoot: bool, threadView: bool, fmt: int -> string): Option<seq<string>> {
    if !Renderable(m) then None
    else
      var prefix := Prefix(isRoot, threadView);
      Some(SubjectLines(m, isRoot, prefix)
        + [TextLine(m, isRoot, threadView)] + [PostedLine(m, prefix, fmt)]
        + OptionalTimeLine(prefix, "- last modified at ", m.lastModifiedDateTime, fmt)
        + OptionalTimeLine(prefix, "- deleted at ", m.deletedDateTime, fmt)
        + ByLines(prefix, m.from.value)
        + [PriorityLine(m, prefix)]
        + ReactionLines(m, prefix)
        + AttachmentSection(m, prefix))
  }

  /** The text of one rendered message. */
  function MessageText(m: Message, isRoot: bool, threadView: bool, fmt: int -> string): Option<string> {
    var ls := MessageLines(m, isRoot, threadView, fmt);
    if ls.Some? then Some(Lines(ls.value)) else None
  }

  /**
   * The lines of a rendered message: a subject line first exactly for a root
   * with a subject; then the text and the posting time; the priority line is
   * always there; a message renders exactly when it has a body and a sender.
   */
  lemma MessageLinesShape(m: Message, isRoot: bool, threadView: bool, fmt: int -> string)
    ensures MessageLines(m, isRoot, threadView, fmt).Some? <==> Renderable(m)
    ensures Renderable(m) ==>
      var ls := MessageLines(m, isRoot, threadView, fmt).value;
      var prefix := Prefix(isRoot, threadView);
      var s := if isRoot && !IsNullOrEmpty(m.subject) then 1 else 0;
      && |ls| >= s + 3
      && (s == 1 ==> ls[0] == SubjectLine(m, prefix))
      && ls[s] == TextLine(m, isRoot, threadView)
      && ls[s + 1] == PostedLine(m, prefix, fmt)
      && PriorityLine(m, prefix) in ls
  {
    if Renderable(m) {
      var prefix := Prefix(isRoot, threadView);
      var s := if isRoot && !IsNullOrEmpty(m.subject) then 1 else 0;
      var p1 := SubjectLines(m, isRoot, prefix) + [TextLine(m, isRoot, threadView)] + [PostedLine(m, prefix, fmt)];
      assert |p1| == s + 2 && p1[s] == TextLine(m, isRoot, threadView) && p1[s + 1] == PostedLine(m, prefix, fmt);
      assert s == 1 ==> p1[0] == SubjectLine(m, prefix);
      LinesLayout(SubjectLines(m, isRoot, prefix), [TextLine(m, isRoot, threadView)], [PostedLine(m, prefix, fmt)],
        OptionalTimeLine(prefix, "- last modified at ", m.lastModifiedDateTime, fmt),
        OptionalTimeLine(prefix, "- deleted at ", m.deletedDateTime, fmt),
        ByLines(prefix, m.from.value), PriorityLine(m, prefix), ReactionLines(m, prefix), AttachmentSection(m, prefix));
    }
  }

  /** The shape of MessageLines' concatenation: its first three parts lead it, and the priority line is in it. */
  lemma LinesLayout<T>(a: seq<T>, b: seq<T>, c: seq<T>, d: seq<T>, e: seq<T>, f: seq<T>, x: T, g: seq<T>, h: seq<T>)
    ensures var ls := a + b + c + d + e + f + [x] + g + h;
      |ls| >= |a + b + c| && ls[..|a + b + c|] == a + b + c && x in ls
  {
    var ls := a + b + c + d + e + f + [x] + g + h;
    assert ls[|a + b + c + d + e + f|] == x;
    assert ls[..|a + b + c|] == a + b + c;
  }

  /** StringBuilder.AppendLine: the line, then a line break. */
  method AppendLine(text: string, ghost lines: seq<string>, line: string) returns (text': string, ghost lines': seq<string>)
    requires text == Lines(lines)
    ensures lines' == lines + [line] && text' == Lines(lines')
  {
    LinesSnoc(lines, line);
    text', lines' := text + line + NewLine, lines + [line];
  }

  /**
   * MessageDetails, appending line by line as the source does; the result is
   * the text of MessageLines, and nothing when a body or a sender is missing.
   */
  method MessageDetails(m: Message, isRoot: bool, threadView: bool, fmt: int -> string) returns (r: Option<string>)
    ensures r == MessageText(m, isRoot, threadView, fmt)
  {
    var prefix := Prefix(isRoot, threadView);
    var str := "";
    ghost var written: seq<string> := [];
    if isRoot && !IsNullOrEmpty(m.subject) {
      str, written := AppendLine(str, written, SubjectLine(m, prefix));
    }
    if m.body.None? || m.from.None? {
      return None;
    }
    assert written == SubjectLines(m, isRoot, prefix);
    str := AppendMessageBody(str, written, m, isRoot, threadView, fmt);
    r := Some(str);
  }

  /** MessageDetails after the subject, for a message with a body and a sender: its lines from the text on. */
  method AppendMessageBody(str: string, ghost written: seq<string>, m: Message, isRoot: bool, threadView: bool, fmt: int -> string)
    returns (str': string)
    requires Renderable(m)
    requires written == SubjectLines(m, isRoot, Prefix(isRoot, threadView)) && str == Lines(written)
    ensures str' == Lines(MessageLines(m, isRoot, threadView, fmt).value)
  {
    var prefix := Prefix(isRoot, threadView);
    ghost var w := written;
    str', w := AppendLine(str, w, TextLine(m, isRoot, threadView));
    str', w := AppendLine(str', w, PostedLine(m, prefix, fmt));
    str', w := AppendTimes(str', w, m, prefix, fmt);
    str', w := AppendByLines(str', w, prefix, m.from.value);
    str', w := AppendTail(str', w, m, prefix);
  }

  /** The modification and deletion times of MessageDetails. */
  method AppendTimes(str: string, ghost written: seq<string>, m: Message, prefix: string, fmt: int -> string)
    returns (str': string, ghost written': seq<string>)
    requires str == Lines(written)
    ensures written' == written + OptionalTimeLine(prefix, "- last modified at ", m.lastModifiedDateTime, fmt)
      + OptionalTimeLine(prefix, "- deleted at ", m.deletedDateTime, fmt)
    ensures str' == Lines(written')
  {
    str', written' := str, written;
    if m.lastModifiedDateTime.Some? {
      str', written' := AppendLine(str', written', prefix + "- last modified at " + fmt(m.lastModifiedDateTime.value));
    }
    ghost var w1 := written';
    assert w1 == written + OptionalTimeLine(prefix, "- last modified at ", m.lastModifiedDateTime, fmt);
    if m.deletedDateTime.Some? {
      str', written' := AppendLine(str', written', prefix + "- deleted at " + fmt(m.deletedDateTime.value));
    }
    assert written' == w1 + OptionalTimeLine(prefix, "- deleted at ", m.deletedDateTime, fmt);
  }

  /** The priority, reactions and attachments of MessageDetails. */
  method AppendTail(str: string, ghost written: seq<string>, m: Message, prefix: string)
    returns (str': string, ghost written': seq<string>)
    requires str == Lines(written)
    ensures written' == written + [PriorityLine(m, prefix)] + ReactionLines(m, prefix) + AttachmentSection(m, prefix)
    ensures str' == Lines(written')
  {
    str', written' := AppendLine(str, written, PriorityLine(m, prefix));
    if m.reactions.Some? && |m.reactions.value| > 0 {
      str', written' := AppendLine(str', written', prefix + "- reactions: " + ReactionSummary(m.reactions.value));
    }
    ghost var w1 := written';
    assert w1 == written + [PriorityLine(m, prefix)] + ReactionLines(m, prefix);
    if m.attachments.Some? && |m.attachments.value| > 0 {
      str', written' := AppendLine(str', written', prefix + "- attachments:");
      str', written' := AppendAttachments(str', written', prefix, m.attachments.value);
      AppendAssoc(w1, [prefix + "- attachments:"], AttachmentLines(prefix, m.attachments.value));
    }
    assert written' == w1 + AttachmentSection(m, prefix);
  }

  /** The four sender checks of MessageDetails. */
  method AppendByLines(str: string, ghost written: seq<string>, prefix: string, from: IdentitySet)
    returns (str': string, ghost written': seq<string>)
    requires str == Lines(written)
    ensures written' == written + ByLines(prefix, from) && str' == Lines(written')
  {
    str', written' := AppendByLine(str, written, prefix, from.application);
    str', written' := AppendByLine(str', written', prefix, from.conversation);
    str', written' := AppendByLine(str', written', prefix, from.user);
    str', written' := AppendByLine(str', written', prefix, from.device);
  }

  /** One sender check of MessageDetails: a "- by" line for an identity that is set. */
  method AppendByLine(str: string, ghost written: seq<string>, prefix: string, identity: Option<Identity>)
    returns (str': string, ghost written': seq<string>)
    requires str == Lines(written)
    ensures written' == written + ByLine(prefix, identity) && str' == Lines(written')
  {
    str', written' := str, written;
    if identity.Some? {
      str', written' := AppendLine(str', written', prefix + "- by " + Str(identity.value.displayName));
    }
  }

  /** The attachments ForEach of MessageDetails. */
  method AppendAttachments(str: string, ghost written: seq<string>, prefix: string, atts: seq<Attachment>)
    returns (str': string, ghost written': seq<string>)
    requires str == Lines(written)
    ensures written' == written + AttachmentLines(prefix, atts) && str' == Lines(written')
  {
    str', written' := AppendEach(str, written, atts, AttachmentLineOf(prefix));
  }

  /** A foreach that appends one line per item. */
  method AppendEach<T>(str: string, ghost written: seq<string>, items: seq<T>, lineOf: T -> string)
    returns (str': string, ghost written': seq<string>)
    requires str == Lines(written)
    ensures written' == written + MapLines(items, lineOf) && str' == Lines(written')
  {
    str', written' := str, written;
    var k := 0;
    while k < |items|
      invariant k <= |items|
      invariant written' == written + MapLines(items[..k], lineOf) && str' == Lines(written')
    {
      MapLinesStep(written, items, lineOf, k);
      str', written' := AppendLine(str', written', lineOf(items[k]));
      k := k + 1;
    }
    assert items[..k] == items;
  }

  // ---------------------------------------------------------------------------
  // PrepareContentPart and ConversationWarning
  // ---------------------------------------------------------------------------

  /** One item of a thread's block: the warning, or a message rendered as root or not. */
  datatype Block = Warning(since: int) | Rendered(message: Message, isRoot: bool)

  /** Every message rendered as a non-root. */
  function RenderAll(ms: seq<Message>): (bs: seq<Block>)
    ensures |bs| == |ms| && forall i :: 0 <= i < |ms| ==> bs[i] == Rendered(ms[i], false)
  {
    if |ms| == 0 then [] else RenderAll(ms[..|ms| - 1]) + [Rendered(ms[|ms| - 1], false)]
  }

  function WarningIf(since: Option<int>): seq<Block> {
    if since.Some? then [Warning(since.value)] else []
  }

  /** What PrepareContentPart appends for a thread, in order. */
  function ContentPlan(thread: ThreadDetails, since: Option<int>, threadView: bool): seq<Block>
    requires |thread.messages| > 0
  {
    var ms := thread.messages;
    if threadView then
      (if thread.isFull then [Rendered(ms[0], true)] else WarningIf(since) + [Rendered(ms[0], false)])
      + RenderAll(ms[1..])
    else
      (if !thread.isFull then WarningIf(since) else []) + RenderAll(ms)
  }

  /** The messages a plan renders, in order. */
  function Rendering(bs: seq<Block>): seq<Message> {
    if |bs| == 0 then []
    else Rendering(bs[..|bs| - 1]) + (if bs[|bs| - 1].Rendered? then [bs[|bs| - 1].message] else [])
  }

  lemma {:induction false} RenderingConcat(a: seq<Block>, b: seq<Block>)
    ensures Rendering(a + b) == Rendering(a) + Rendering(b)
    decreases |b|
  {
    if |b| > 0 {
      RenderingConcat(a, b[..|b| - 1]);
      assert (a + b)[..|a + b| - 1] == a + b[..|b| - 1];
    } else {
      assert a + b == a;
    }
  }

  lemma {:induction false} RenderingAll(ms: seq<Message>)
    ensures Rendering(RenderAll(ms)) == ms
  {
    if |ms| > 0 {
      RenderingAll(ms[..|ms| - 1]);
      RenderingConcat(RenderAll(ms[..|ms| - 1]), [Rendered(ms[|ms| - 1], false)]);
      assert ms == ms[..|ms| - 1] + [ms[|ms| - 1]];
    }
  }

  lemma RenderingOne(b: Block)
    ensures Rendering([b]) == (if b.Rendered? then [b.message] else [])
  {
    assert [b][..0] == [];
  }

  lemma RenderingWarning(since: Option<int>)
    ensures Rendering(WarningIf(since)) == []
  {
    if since.Some? {
      RenderingOne(Warning(since.value));
    }
  }

  /** A thread's block renders all the thread's messages, in order. */
  lemma ContentPlanRendering(thread: ThreadDetails, since: Option<int>, threadView: bool)
    requires |thread.messages| > 0
    ensures Rendering(ContentPlan(thread, since, threadView)) == thread.messages
  {
    var ms := thread.messages;
    RenderingWarning(since);
    if threadView {
      RenderingAll(ms[1..]);
      var first := if thread.isFull then [Rendered(ms[0], true)] else WarningIf(since) + [Rendered(ms[0], false)];
      RenderingConcat(first, RenderAll(ms[1..]));
      RenderingOne(Rendered(ms[0], true));
      RenderingOne(Rendered(ms[0], false));
      RenderingConcat(WarningIf(since), [Rendered(ms[0], false)]);
      assert ms == [ms[0]] + ms[1..];
    } else {
      RenderingAll(ms);
      var first := if !thread.isFull then WarningIf(since) else [];
      RenderingConcat(first, RenderAll(ms));
    }
  }

  /**
   * A thread's block carries a warning exactly when the thread is partial and
   * the report has a start; the warning then comes first, and there is no other.
   */
  lemma ContentPlanWarning(thread: ThreadDetails, since: Option<int>, threadView: bool)
    requires |thread.messages| > 0
    ensures var plan := ContentPlan(thread, since, threadView);
      && ((exists i :: 0 <= i < |plan| && plan[i].Warning?) <==> !thread.isFull && since.Some?)
      && (forall i :: 0 <= i < |plan| && plan[i].Warning? ==> i == 0 && plan[i] == Warning(since.value))
  {
    var plan := ContentPlan(thread, since, threadView);
    if !thread.isFull && since.Some? {
      assert plan[0].Warning?;
    }
  }

  /** Only the first message of a whole thread in a thread view is rendered as a root. */
  lemma ContentPlanRoot(thread: ThreadDetails, since: Option<int>, threadView: bool)
    requires |thread.messages| > 0
    ensures var plan := ContentPlan(thread, since, threadView);
      && (forall i :: 0 <= i < |plan| && plan[i].Rendered? && plan[i].isRoot ==> i == 0 && threadView && thread.isFull)
      && (threadView && thread.isFull ==> plan[0] == Rendered(thread.messages[0], true))
  {
  }

  /** ConversationWarning: the warning line and an empty line. */
  function ConversationWarning(since: int, fmt: int -> string): string {
    Lines(["<<Conversation started before " + fmt(since) + ">>", ""])
  }

  function BlockText(b: Block, threadView: bool, fmt: int -> string): Option<string> {
    match b
    case Warning(since) => Some(ConversationWarning(since, fmt))
    case Rendered(m, isRoot) => MessageText(m, isRoot, threadView, fmt)
  }

  /** The builder's text after AppendLine of each block's text; None once a block fails. */
  function PlanText(bs: seq<Block>, threadView: bool, fmt: int -> string): Option<string> {
    if |bs| == 0 then Some("")
    else
      var front := PlanText(bs[..|bs| - 1], threadView, fmt);
      var last := BlockText(bs[|bs| - 1], threadView, fmt);
      if front.Some? && last.Some? then Some(front.value + last.value + NewLine) else None
  }

  lemma PlanTextSnoc(bs: seq<Block>, b: Block, threadView: bool, fmt: int -> string)
    ensures PlanText(bs + [b], threadView, fmt) ==
      (if PlanText(bs, threadView, fmt).Some? && BlockText(b, threadView, fmt).Some?
       then Some(PlanText(bs, threadView, fmt).value + BlockText(b, threadView, fmt).value + NewLine) else None)
  {
    assert (bs + [b])[..|bs|] == bs;
  }

  /** A plan fails exactly when it renders a message without body or sender. */
  lemma {:induction false} PlanTextFails(bs: seq<Block>, threadView: bool, fmt: int -> string)
    ensures PlanText(bs, threadView, fmt).None? <==> exists m :: m in Rendering(bs) && !Renderable(m)
  {
    if |bs| > 0 {
      var front := bs[..|bs| - 1];
      var b := bs[|bs| - 1];
      PlanTextFails(front, threadView, fmt);
      assert bs == front + [b];
      RenderingConcat(front, [b]);
      RenderingOne(b);
      BlockTextFails(b, threadView, fmt);
    }
  }

  /** A block fails exactly when it renders a message without body or sender. */
  lemma BlockTextFails(b: Block, threadView: bool, fmt: int -> string)
    ensures BlockText(b, threadView, fmt).None? <==> b.Rendered? && !Renderable(b.message)
  {
  }

  /** AppendLine of ConversationWarning. */
  method AppendWarning(text: string, ghost done: seq<Block>, since: int, threadView: bool, fmt: int -> string)
    returns (text': string, ghost done': seq<Block>)
    requires PlanText(done, threadView, fmt) == Some(text)
    ensures done' == done + [Warning(since)] && PlanText(done', threadView, fmt) == Some(text')
  {
    PlanTextSnoc(done, Warning(since), threadView, fmt);
    text', done' := text + ConversationWarning(since, fmt) + NewLine, done + [Warning(since)];
  }

  /** AppendLine of MessageDetails; None when the message cannot be rendered. */
  method AppendMessage(text: string, ghost done: seq<Block>, m: Message, isRoot: bool, threadView: bool, fmt: int -> string)
    returns (text': Option<string>, ghost done': seq<Block>)
    requires PlanText(done, threadView, fmt) == Some(text)
    ensures done' == done + [Rendered(m, isRoot)] && PlanText(done', threadView, fmt) == text'
  {
    var md := MessageDetails(m, isRoot, threadView, fmt);
    PlanTextSnoc(done, Rendered(m, isRoot), threadView, fmt);
    done' := done + [Rendered(m, isRoot)];
    if md.None? {
      text' := None;
    } else {
      text' := Some(text + md.value + NewLine);
    }
  }

  /** The loop over the remaining messages, each rendered as a non-root; None once one fails. */
  method AppendReplies(text: string, ghost done: seq<Block>, ms: seq<Message>, threadView: bool, fmt: int -> string)
    returns (r: Option<string>)
    requires PlanText(done, threadView, fmt) == Some(text)
    ensures r == PlanText(done + RenderAll(ms), threadView, fmt)
  {
    var body := text;
    ghost var written := done;
    var k := 0;
    while k < |ms|
      invariant k <= |ms|
      invariant written == done + RenderAll(ms[..k])
      invariant PlanText(written, threadView, fmt) == Some(body)
    {
      var next;
      next, written := AppendMessage(body, written, ms[k], false, threadView, fmt);
      RenderStep(done, ms, k);
      if next.None? {
        RepliesFailOn(done, ms, k, threadView, fmt);
        return None;
      }
      body := next.value;
      k := k + 1;
    }
    assert ms[..k] == ms;
    r := Some(body);
  }

  /**
   * PrepareContentPart, as the source appends: the root, or the warning and the
   * first message, then the other messages one by one.
   */
  method PrepareContentPart(thread: ThreadDetails, since: Option<int>, threadView: bool, fmt: int -> string)
    returns (r: Option<string>)
    requires |thread.messages| > 0
    ensures r == PlanText(ContentPlan(thread, since, threadView), threadView, fmt)
  {
    if threadView {
      r := ThreadViewContent(thread, since, fmt);
    } else {
      r := ListContent(thread, since, fmt);
    }
  }

  /** The thread view: the first message as root of a whole thread, or after the warning of a partial one. */
  method ThreadViewContent(thread: ThreadDetails, since: Option<int>, fmt: int -> string) returns (r: Option<string>)
    requires |thread.messages| > 0
    ensures r == PlanText(ContentPlan(thread, since, true), true, fmt)
  {
    var ms := thread.messages;
    var mBody := "";
    ghost var done: seq<Block> := [];
    var first;
    EmptyPlan(true, fmt);
    if thread.isFull {
      first, done := AppendMessage(mBody, done, ms[0], true, true, fmt);
    } else {
      if since.Some? {
        mBody, done := AppendWarning(mBody, done, since.value, true, fmt);
      }
      first, done := AppendMessage(mBody, done, ms[0], false, true, fmt);
    }
    ThreadViewPlan(thread, since, done);
    if first.None? {
      PlanTextFailsOn(done, RenderAll(ms[1..]), true, fmt);
      return None;
    }
    r := AppendReplies(first.value, done, ms[1..], true, fmt);
  }

  /** The thread view's plan is its first blocks, the root or the warning and the first message, then the rest. */
  lemma ThreadViewPlan(thread: ThreadDetails, since: Option<int>, done: seq<Block>)
    requires |thread.messages| > 0
    requires thread.isFull ==> done == [] + [Rendered(thread.messages[0], true)]
    requires !thread.isFull ==> done == (if since.Some? then [] + [Warning(since.value)] else []) + [Rendered(thread.messages[0], false)]
    ensures ContentPlan(thread, since, true) == done + RenderAll(thread.messages[1..])
  {
  }

  /** The list view: the warning of a partial thread, then every message as a reply. */
  method ListContent(thread: ThreadDetails, since: Option<int>, fmt: int -> string) returns (r: Option<string>)
    requires |thread.messages| > 0
    ensures r == PlanText(ContentPlan(thread, since, false), false, fmt)
  {
    var ms := thread.messages;
    var mBody := "";
    ghost var done: seq<Block> := [];
    EmptyPlan(false, fmt);
    if !thread.isFull && since.Some? {
      mBody, done := AppendWarning(mBody, done, since.value, false, fmt);
    }
    ListPlan(thread, since, done);
    r := AppendReplies(mBody, done, ms, false, fmt);
  }

  /** The empty plan renders as the empty text. */
  lemma EmptyPlan(threadView: bool, fmt: int -> string)
    ensures PlanText([], threadView, fmt) == Some("")
  {
  }

  /** The list view's plan is its first blocks, the warning or none, then every message. */
  lemma ListPlan(thread: ThreadDetails, since: Option<int>, done: seq<Block>)
    requires |thread.messages| > 0
    requires done == if !thread.isFull && since.Some? then [Warning(since.value)] else []
    ensures ContentPlan(thread, since, false) == done + RenderAll(thread.messages)
  {
  }

  lemma RenderAllSnoc(ms: seq<Message>, m: Message)
    ensures RenderAll(ms + [m]) == RenderAll(ms) + [Rendered(m, false)]
  {
    assert (ms + [m])[..|ms|] == ms;
  }

  lemma RenderAllConcat(a: seq<Message>, b: seq<Message>)
    ensures RenderAll(a + b) == RenderAll(a) + RenderAll(b)
  {
  }

  /** Rendering one more message of ms adds its block. */
  lemma RenderStep(done: seq<Block>, ms: seq<Message>, k: nat)
    requires k < |ms|
    ensures done + RenderAll(ms[..k + 1]) == done + RenderAll(ms[..k]) + [Rendered(ms[k], false)]
  {
    TakeSnoc(ms, k);
    RenderAllSnoc(ms[..k], ms[k]);
    AppendAssoc(done, RenderAll(ms[..k]), [Rendered(ms[k], false)]);
  }

  /** When the first k + 1 messages fail to render, so do all of them. */
  lemma RepliesFailOn(done: seq<Block>, ms: seq<Message>, k: nat, threadView: bool, fmt: int -> string)
    requires k < |ms| && PlanText(done + RenderAll(ms[..k + 1]), threadView, fmt).None?
    ensures PlanText(done + RenderAll(ms), threadView, fmt).None?
  {
    SplitAt(ms, k + 1);
    RenderAllConcat(ms[..k + 1], ms[k + 1..]);
    AppendAssoc(done, RenderAll(ms[..k + 1]), RenderAll(ms[k + 1..]));
    PlanTextFailsOn(done + RenderAll(ms[..k + 1]), RenderAll(ms[k + 1..]), threadView, fmt);
  }

  /** Once a prefix of a plan fails, the whole plan fails. */
  lemma {:induction false} PlanTextFailsOn(a: seq<Block>, b: seq<Block>, threadView: bool, fmt: int -> string)
    requires PlanText(a, threadView, fmt).None?
    ensures PlanText(a + b, threadView, fmt).None?
    decreases |b|
  {
    if |b| > 0 {
      PlanTextFailsOn(a, b[..|b| - 1], threadView, fmt);
      assert (a + b)[..|a + b| - 1] == a + b[..|b| - 1];
    } else {
      assert a + b == a;
    }
  }

  // ---------------------------------------------------------------------------
  // PrepareHeaderPart and PrepareDocument
  // ---------------------------------------------------------------------------

  function ChannelScope(d: ReportBodyDetails): seq<string> {
    if d.isChannel then ["History bot backup from '" + Str(d.teamName) + "' team, '" + Str(d.channelName) + "' channel"] else []
  }

  function ConversationScope(d: ReportBodyDetails): seq<string> {
    if d.isConversation then ["History bot backup of conversation(thread) from '" + Str(d.teamName) + "' team, '" + Str(d.channelName) + "' channel"] else []
  }

  function GroupChatScope(d: ReportBodyDetails): seq<string> {
    if d.isGroupChat then ["History bot backup from group chat"] else []
  }

  /** The scope lines: three independent checks. */
  function ScopeLines(d: ReportBodyDetails): seq<string> {
    ChannelScope(d) + ConversationScope(d) + GroupChatScope(d)
  }

  /** The period line: "between since and till" with a start, "till" without. */
  function PeriodLine(d: ReportBodyDetails, fmt: int -> string): string {
    if d.since.Some? then "Showing all messages posted between " + fmt(d.since.value) + " and " + fmt(d.till)
    else "Showing all messages posted till " + fmt(d.till)
  }

  function GeneratedLine(d: ReportBodyDetails, now: int, fmt: int -> string): string {
    "Generated at " + fmt(now) + " by " + Str(d.author)
  }

  function HeaderLines(d: ReportBodyDetails, now: int, fmt: int -> string): seq<string> {
    ScopeLines(d) + [PeriodLine(d, fmt)] + [GeneratedLine(d, now, fmt)]
  }

  /** The header has one scope line per flag set, then the period line, then the generation line. */
  lemma HeaderShape(d: ReportBodyDetails, now: int, fmt: int -> string)
    ensures var h := HeaderLines(d, now, fmt);
      var n := (if d.isChannel then 1 else 0) + (if d.isConversation then 1 else 0) + (if d.isGroupChat then 1 else 0);
      && |h| == n + 2
      && h[n] == PeriodLine(d, fmt)
      && h[n + 1] == GeneratedLine(d, now, fmt)
  {
  }

  /** PrepareHeaderPart: the scope lines, the period and who generated the report when. */
  method PrepareHeaderPart(d: ReportBodyDetails, now: int, fmt: int -> string) returns (header: string)
    ensures header == Lines(HeaderLines(d, now, fmt))
  {
    header := "";
    ghost var written: seq<string> := [];
    if d.isChannel {
      header, written := AppendLine(header, written, "History bot backup from '" + Str(d.teamName) + "' team, '" + Str(d.channelName) + "' channel");
    }
    assert written == ChannelScope(d);
    if d.isConversation {
      header, written := AppendLine(header, written, "History bot backup of conversation(thread) from '" + Str(d.teamName) + "' team, '" + Str(d.channelName) + "' channel");
    }
    assert written == ChannelScope(d) + ConversationScope(d);
    if d.isGroupChat {
      header, written := AppendLine(header, written, "History bot backup from group chat");
    }
    assert written == ScopeLines(d);
    var period;
    if d.since.Some? {
      period := "Showing all messages posted between " + fmt(d.since.value) + " and " + fmt(d.till);
    } else {
      period := "Showing all messages posted till " + fmt(d.till);
    }
    header, written := AppendLine(header, written, period);
    header, written := AppendLine(header, written, "Generated at " + fmt(now) + " by " + Str(d.author));
  }

  /** The threads' blocks, each appended as a line; None once one fails. */
  function ThreadsText(ts: seq<ThreadDetails>, since: Option<int>, threadView: bool, fmt: int -> string): Option<string>
    requires forall i :: 0 <= i < |ts| ==> |ts[i].messages| > 0
  {
    if |ts| == 0 then Some("")
    else
      var front := ThreadsText(ts[..|ts| - 1], since, threadView, fmt);
      var last := PlanText(ContentPlan(ts[|ts| - 1], since, threadView), threadView, fmt);
      if front.Some? && last.Some? then Some(front.value + last.value + NewLine) else None
  }

  /** The document text: the header as a line, an empty line, then the threads of Reconstruct. */
  function DocumentText(d: ReportBodyDetails, now: int, fmt: int -> string): Option<string> {
    var threads := Reconstruct(d.messages);
    ReconstructWellFormed(d.messages);
    var body := ThreadsText(threads, d.since, d.isChannel, fmt);
    if body.Some? then Some(Lines([Lines(HeaderLines(d, now, fmt)), ""]) + body.value) else None
  }

  /** PrepareDocument: sort the messages into threads, write the header, then each thread. */
  method PrepareDocument(d: ReportBodyDetails, now: int, fmt: int -> string) returns (doc: Option<string>)
    ensures doc == DocumentText(d, now, fmt)
  {
    var threads := ProcessMessages(d.messages);
    var header := PrepareHeaderPart(d, now, fmt);
    var report := "";
    ghost var written: seq<string> := [];
    report, written := AppendLine(report, written, header);
    report, written := AppendLine(report, written, "");
    assert written == [header, ""];
    var body := AppendThreads(threads, d.since, d.isChannel, fmt);
    if body.None? {
      return None;
    }
    doc := Some(report + body.value);
  }

  /** The threads' ForEach of PrepareDocument. */
  method AppendThreads(threads: seq<ThreadDetails>, since: Option<int>, threadView: bool, fmt: int -> string)
    returns (r: Option<string>)
    requires forall i :: 0 <= i < |threads| ==> |threads[i].messages| > 0
    ensures r == ThreadsText(threads, since, threadView, fmt)
  {
    var body := "";
    var k := 0;
    while k < |threads|
      invariant k <= |threads|
      invariant ThreadsText(threads[..k], since, threadView, fmt) == Some(body)
    {
      ThreadsTextStep(threads, k, since, threadView, fmt);
      var part := PrepareContentPart(threads[k], since, threadView, fmt);
      if part.None? {
        ThreadsTextFailsOn(threads, k + 1, since, threadView, fmt);
        return None;
      }
      body := body + part.value + NewLine;
      k := k + 1;
    }
    assert threads[..k] == threads;
    r := Some(body);
  }

  lemma ThreadsTextStep(ts: seq<ThreadDetails>, n: nat, since: Option<int>, threadView: bool, fmt: int -> string)
    requires forall i :: 0 <= i < |ts| ==> |ts[i].messages| > 0
    requires n < |ts|
    ensures var front := ThreadsText(ts[..n], since, threadView, fmt);
      var last := PlanText(ContentPlan(ts[n], since, threadView), threadView, fmt);
      ThreadsText(ts[..n + 1], since, threadView, fmt) ==
        if front.Some? && last.Some? then Some(front.value + last.value + NewLine) else None
  {
    assert ts[..n + 1][..n] == ts[..n];
  }

  /** A failing thread makes every longer list of threads fail. */
  lemma {:induction false} ThreadsTextFailsOn(ts: seq<ThreadDetails>, n: nat, since: Option<int>, threadView: bool, fmt: int -> string)
    requires forall i :: 0 <= i < |ts| ==> |ts[i].messages| > 0
    requires n <= |ts|
    requires ThreadsText(ts[..n], since, threadView, fmt).None?
    ensures ThreadsText(ts, since, threadView, fmt).None?
    decreases |ts| - n
  {
    if n < |ts| {
      ThreadsTextStep(ts, n, since, threadView, fmt);
      ThreadsTextFailsOn(ts, n + 1, since, threadView, fmt);
    } else {
      assert ts[..n] == ts;
    }
  }

  /** The threads fail exactly when one of their messages has no body or no sender. */
  lemma {:induction false} ThreadsTextFails(ts: seq<ThreadDetails>, since: Option<int>, threadView: bool, fmt: int -> string)
    requires forall i :: 0 <= i < |ts| ==> |ts[i].messages| > 0
    ensures ThreadsText(ts, since, threadView, fmt).None? <==> HasUnrenderable(ts)
  {
    if |ts| > 0 {
      var front := ts[..|ts| - 1];
      var t := ts[|ts| - 1];
      ThreadsTextFails(front, since, threadView, fmt);
      ContentPlanRendering(t, since, threadView);
      PlanTextFails(ContentPlan(t, since, threadView), threadView, fmt);
      UnrenderableLast(ts);
    }
  }

  /** Some message of the threads has no body or no sender. */
  predicate HasUnrenderable(ts: seq<ThreadDetails>) {
    exists i, m :: 0 <= i < |ts| && m in ts[i].messages && !Renderable(m)
  }

  /** A message that cannot be rendered is in the last thread or in the ones before it. */
  lemma UnrenderableLast(ts: seq<ThreadDetails>)
    requires |ts| > 0
    ensures HasUnrenderable(ts) <==>
      HasUnrenderable(ts[..|ts| - 1]) || exists m :: m in ts[|ts| - 1].messages && !Renderable(m)
  {
    var front := ts[..|ts| - 1];
    if HasUnrenderable(ts) {
      var i, m :| 0 <= i < |ts| && m in ts[i].messages && !Renderable(m);
      if i < |front| {
        assert front[i] == ts[i];
      }
    }
    if HasUnrenderable(front) {
      var i, m :| 0 <= i < |front| && m in front[i].messages && !Renderable(m);
      assert ts[i] == front[i];
    }
  }

  /**
   * The document is produced exactly when every message of every
   * reconstructed thread has a body and a sender.
   */
  lemma DocumentFails(d: ReportBodyDetails, now: int, fmt: int -> string)
    ensures var threads := Reconstruct(d.messages);
      DocumentText(d, now, fmt).None? <==>
        exists i, m :: 0 <= i < |threads| && m in threads[i].messages && !Renderable(m)
  {
    ReconstructWellFormed(d.messages);
    ThreadsTextFails(Reconstruct(d.messages), d.since, d.isChannel, fmt);
  }

  lemma HeaderBlock(header: string, rest: string)
    ensures header + NewLine + NewLine <= Lines([header, ""]) + rest
  {
    LinesSnoc([header], "");
    LinesSnoc([], header);
    assert [header] + [""] == [header, ""];
    assert [] + [header] == [header];
  }

  /** The document starts with the header, as a line, and an empty line. */
  lemma DocumentStartsWithHeader(d: ReportBodyDetails, now: int, fmt: int -> string)
    ensures DocumentText(d, now, fmt).Some? ==>
      Lines(HeaderLines(d, now, fmt)) + NewLine + NewLine <= DocumentText(d, now, fmt).value
  {
    ReconstructWellFormed(d.messages);
    var body := ThreadsText(Reconstruct(d.messages), d.since, d.isChannel, fmt);
    if body.Some? {
      HeaderBlock(Lines(HeaderLines(d, now, fmt)), body.value);
    }
  }
}
