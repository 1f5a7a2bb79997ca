/**
 * SimpleRecognizer: the intent of a message's plain text (the text without
 * the bot's mention, given as the input). Every command of IntentStrings.All
 * is tried, in order, as the regular expression ^command$ ignoring case; the
 * first that matches is the only intent. The commands are literal patterns
 * (letters, spaces and one escaped '?'), for which such a match is a
 * case-insensitive comparison of the whole text with the unescaped command, or
 * with the command and one final newline, which .NET's $ also accepts.
 */
module SimpleRecognizer {
  import opened Wrappers
  import opened DotNetText
  import opened IntentStrings

  /** RecognizerResult: the text and the intents with their scores. */
  datatype RecognizerResult = RecognizerResult(text: string, intents: map<string, real>)

  /** The result for text that is blank or matches no command. */
  const EmptyResult: RecognizerResult := RecognizerResult("", map["None" := 1.0])

  /** The characters with a meaning in a .NET regular expression. */
  predicate IsMeta(c: char) {
    c == '\\' || c == '*' || c == '+' || c == '?' || c == '|' || c == '{' || c == '['
    || c == '(' || c == ')' || c == '^' || c == '$' || c == '.' || c == '#'
  }

  /** A pattern of plain characters and escaped metacharacters only. */
  predicate IsLiteralPattern(p: string)
    decreases |p|
  {
    if |p| == 0 then true
    else if p[0] == '\\' then |p| >= 2 && IsMeta(p[1]) && IsLiteralPattern(p[2..])
    else !IsMeta(p[0]) && IsLiteralPattern(p[1..])
  }

  /** The text a literal pattern stands for: each escape gives the character it escapes. */
  function Unescape(p: string): (r: string)
    ensures |r| <= |p|
    decreases |p|
  {
    if |p| == 0 then ""
    else if p[0] == '\\' && |p| >= 2 then [p[1]] + Unescape(p[2..])
    else [p[0]] + Unescape(p[1..])
  }

  /**
   * Regex.Match(text) succeeds for ^pattern$ with RegexOptions.IgnoreCase, when
   * the pattern is literal (as every command is: see AllLiteral).
   */
  predicate Matches(pattern: string, text: string) {
    EqualsIgnoreCase(text, Unescape(pattern)) || EqualsIgnoreCase(text, Unescape(pattern) + "\n")
  }

  /** A pattern without metacharacters is literal and stands for itself. */
  lemma {:induction false} PlainLiteral(p: string)
    requires forall i :: 0 <= i < |p| ==> !IsMeta(p[i])
    ensures IsLiteralPattern(p) && Unescape(p) == p
    decreases |p|
  {
    if |p| > 0 {
      PlainLiteral(p[1..]);
    }
  }

  /** Every command of All is a literal pattern; the escaped question mark stands for "?", the others for themselves. */
  lemma AllLiteral()
    ensures forall i :: 0 <= i < |All()| ==> IsLiteralPattern(All()[i])
    ensures forall i :: 0 <= i < |All()| && All()[i] != "\\?" ==> Unescape(All()[i]) == All()[i]
    ensures Unescape("\\?") == "?"
  {
    AllIs();
    forall i | 0 <= i < |All()| && All()[i] != "\\?"
      ensures IsLiteralPattern(All()[i]) && Unescape(All()[i]) == All()[i]
    {
      PlainLiteral(All()[i]);
    }
    assert "\\?"[2..] == "";
  }

  /** The commands in the order of All. */
  lemma AllIs()
    ensures All() == ["I need a help", "Help me", "Help", "\\?", "I want to logout", "Logout", "Cancel", "Abort", "Stop"]
  {
  }

  /** The first of the patterns that matches the text, if any. */
  function FirstMatch(patterns: seq<string>, text: string): (r: Option<nat>)
    ensures r.Some? ==> r.value < |patterns| && Matches(patterns[r.value], text)
    ensures r.Some? ==> forall j :: 0 <= j < r.value ==> !Matches(patterns[j], text)
    ensures r.None? ==> forall j :: 0 <= j < |patterns| ==> !Matches(patterns[j], text)
  {
    if |patterns| == 0 then None
    else if Matches(patterns[0], text) then Some(0)
    else
      var r := FirstMatch(patterns[1..], text);
      if r.Some? then Some(r.value + 1) else None
  }

  /** What RecognizeInternalAsync yields for the plain text; null counts as blank. */
  function Recognition(text: Option<string>): RecognizerResult {
    if IsNullOrWhiteSpace(text) then EmptyResult
    else
      match FirstMatch(All(), text.value)
      case Some(i) => RecognizerResult(text.value, map[All()[i] := 1.0])
      case None => EmptyResult
  }

  /**
   * RecognizeInternalAsync: blank text gives the empty result; otherwise the
   * commands are tried in order and the first that matches gives the text
   * with that single intent, scored 1.0; when none matches, the empty result.
   */
  method RecognizeInternal(text: Option<string>) returns (result: RecognizerResult)
    ensures result == Recognition(text)
  {
    if IsNullOrWhiteSpace(text) {
      return EmptyResult;
    }
    var commands := All();
    var found := FindFirstMatch(commands, text.value);
    if found.Some? {
      return RecognizerResult(text.value, map[commands[found.value] := 1.0]);
    }
    return EmptyResult;
  }

  /** The foreach over the commands: the index of the first that matches, or none. */
  method FindFirstMatch(patterns: seq<string>, text: string) returns (found: Option<nat>)
    ensures found == FirstMatch(patterns, text)
  {
    var i := 0;
    while i < |patterns|
      invariant 0 <= i <= |patterns|
      invariant forall j :: 0 <= j < i ==> !Matches(patterns[j], text)
    {
      if Matches(patterns[i], text) {
        FirstMatchIsFirst(patterns, text, i);
        return Some(i);
      }
      i := i + 1;
    }
    return None;
  }

  /** A matching pattern with no match before it is the first match. */
  lemma FirstMatchIsFirst(patterns: seq<string>, text: string, i: nat)
    requires i < |patterns| && Matches(patterns[i], text)
    requires forall j :: 0 <= j < i ==> !Matches(patterns[j], text)
    ensures FirstMatch(patterns, text) == Some(i)
  {
  }

  /**
   * The result is either the empty result, for blank text or text that no
   * command matches, or the input text with exactly one intent, a command of
   * All that matches it, scored 1.0.
   */
  lemma RecognitionMeaning(text: Option<string>)
    ensures IsNullOrWhiteSpace(text) ==> Recognition(text) == EmptyResult
    ensures !IsNullOrWhiteSpace(text) ==>
      (Recognition(text) == EmptyResult <==> forall i :: 0 <= i < |All()| ==> !Matches(All()[i], text.value))
    ensures Recognition(text) != EmptyResult ==>
      && text.Some? && Recognition(text).text == text.value
      && exists i :: (&& 0 <= i < |All()| && Matches(All()[i], text.value)
                      && Recognition(text).intents == map[All()[i] := 1.0])
  {
    if !IsNullOrWhiteSpace(text) {
      var r := FirstMatch(All(), text.value);
      if r.Some? {
        RecognitionOfMatch(text.value, r.value);
        assert |text.value| > 0;
      }
    }
  }

  /** The text each command of All stands for. */
  const UnescapedCommands: seq<string> :=
    ["I need a help", "Help me", "Help", "?", "I want to logout", "Logout", "Cancel", "Abort", "Stop"]

  lemma UnescapedAll(i: nat)
    requires i < |All()|
    ensures Unescape(All()[i]) == UnescapedCommands[i]
  {
    AllLiteral();
    AllIs();
  }

  /** A text that matches a command is as long as its text, or one longer, and starts with its first letter in either case. */
  lemma MatchShape(pattern: string, text: string)
    requires Matches(pattern, text) && |Unescape(pattern)| > 0
    ensures |text| == |Unescape(pattern)| || |text| == |Unescape(pattern)| + 1
    ensures LowerChar(text[0]) == LowerChar(Unescape(pattern)[0])
  {
    var u := Unescape(pattern);
    assert ToLowerInvariant(text)[0] == LowerChar(text[0]);
    if EqualsIgnoreCase(text, u) {
      assert ToLowerInvariant(u)[0] == LowerChar(u[0]);
    } else {
      assert ToLowerInvariant(u + "\n")[0] == LowerChar((u + "\n")[0]);
    }
  }

  /** Two commands of All differ in length by more than one or in their first letter, ignoring case. */
  lemma Distinguished(i: nat, j: nat)
    requires i < |UnescapedCommands| && j < |UnescapedCommands| && i != j
    ensures var a, b := UnescapedCommands[i], UnescapedCommands[j];
      |a| > |b| + 1 || |b| > |a| + 1 || LowerChar(a[0]) != LowerChar(b[0])
  {
  }

  /**
   * No text matches two commands of All, so the first match is the only one:
   * the order in which All is tried never changes the intent.
   */
  lemma MatchUnique(text: string, i: nat, j: nat)
    requires i < |All()| && j < |All()|
    requires Matches(All()[i], text) && Matches(All()[j], text)
    ensures i == j
  {
    UnescapedAll(i);
    UnescapedAll(j);
    MatchShape(All()[i], text);
    MatchShape(All()[j], text);
    if i != j {
      Distinguished(i, j);
    }
  }

  /** "?" is recognised as the help command written \\?. */
  lemma QuestionMarkIsHelp()
    ensures Recognition(Some("?")) == RecognizerResult("?", map["\\?" := 1.0])
  {
    AllIs();
    UnescapedAll(3);
    assert Matches(All()[3], "?");
    forall j | 0 <= j < 3
      ensures !Matches(All()[j], "?")
    {
      UnescapedAll(j);
      if Matches(All()[j], "?") {
        MatchShape(All()[j], "?");
      }
    }
    assert !AllWhiteSpace("?") by {
      assert !IsWhiteSpace("?"[0]);
    }
    FirstMatchIsFirst(All(), "?", 3);
    RecognitionOfMatch("?", 3);
  }

  /** A text that is not blank and whose first match is the i-th command is recognised as that command. */
  lemma RecognitionOfMatch(text: string, i: nat)
    requires !AllWhiteSpace(text) && i < |All()| && FirstMatch(All(), text) == Some(i)
    ensures Recognition(Some(text)) == RecognizerResult(text, map[All()[i] := 1.0])
  {
  }

  /** One final newline is accepted by $: "HELP\n" is the help command. */
  lemma FinalNewlineAccepted()
    ensures Recognition(Some("HELP\n")) == RecognizerResult("HELP\n", map["Help" := 1.0])
  {
    HelpNewlineMatches();
    HelpNewlineNotEarlier();
    HelpNewlineNotBlank();
    FirstMatchIsFirst(All(), "HELP\n", 2);
    RecognitionOfMatch("HELP\n", 2);
    HelpIsThird();
  }

  /** "HELP\n" is not blank. */
  lemma HelpNewlineNotBlank()
    ensures !AllWhiteSpace("HELP\n")
  {
    assert !IsWhiteSpace("HELP\n"[0]);
  }

  /** The third command is Help. */
  lemma HelpIsThird()
    ensures All()[2] == "Help"
  {
    AllIs();
  }

  /** "HELP\n" matches the third command, Help, by its final newline. */
  lemma HelpNewlineMatches()
    ensures Matches(All()[2], "HELP\n")
  {
    UnescapedAll(2);
    LowerLiteral("HELP\n", "help\n");
    LowerLiteral("Help\n", "help\n");
  }

  /** Neither command before Help matches "HELP\n". */
  lemma HelpNewlineNotEarlier()
    ensures forall j :: 0 <= j < 2 ==> !Matches(All()[j], "HELP\n")
  {
    forall j | 0 <= j < 2
      ensures !Matches(All()[j], "HELP\n")
    {
      UnescapedAll(j);
      if Matches(All()[j], "HELP\n") {
        MatchShape(All()[j], "HELP\n");
      }
    }
  }

  /** A string lower-cases to the string of its lower-cased characters. */
  lemma LowerLiteral(u: string, l: string)
    requires |u| == |l| && forall k :: 0 <= k < |u| ==> LowerChar(u[k]) == l[k]
    ensures ToLowerInvariant(u) == l
  {
  }

  /** Matching is not trimmed: a command with a leading space matches no command. */
  lemma LeadingSpaceNotTrimmed()
    ensures Recognition(Some(" Help")) == EmptyResult
  {
    LeadingSpaceNoMatch();
    assert !AllWhiteSpace(" Help") by {
      assert !IsWhiteSpace(" Help"[1]);
    }
  }

  /** No command of All matches " Help". */
  lemma LeadingSpaceNoMatch()
    ensures forall j :: 0 <= j < |All()| ==> !Matches(All()[j], " Help")
  {
    forall j | 0 <= j < |All()|
      ensures !Matches(All()[j], " Help")
    {
      UnescapedAll(j);
      if Matches(All()[j], " Help") {
        MatchShape(All()[j], " Help");
      }
    }
  }
}
