/**
 * IntentStrings: the commands the bot recognises, as regular expression
 * patterns, in three lists, and All, the order in which the recognizer tries
 * them.
 */
module IntentStrings {
  /** HelpCommands; the last one is the escaped question mark. */
  const HelpCommands: seq<string> := ["I need a help", "Help me", "Help", "\\?"]

  /** CancelCommands. */
  const CancelCommands: seq<string> := ["Cancel", "Abort", "Stop"]

  /** LogoutCommands. */
  const LogoutCommands: seq<string> := ["I want to logout", "Logout"]

  /** All: a new list holding the help, then the logout, then the cancel commands. */
  function All(): seq<string> {
    HelpCommands + LogoutCommands + CancelCommands
  }

  /** The three kinds of command. */
  datatype Category = Help | Logout | Cancel

  /** The list a category's commands are in. */
  function Commands(c: Category): seq<string> {
    match c
    case Help => HelpCommands
    case Logout => LogoutCommands
    case Cancel => CancelCommands
  }

  /**
   * All is the three lists one after another: help at 0..3, logout at 4..5,
   * cancel at 6..8, so an intent is in All exactly when it is in one of them.
   */
  lemma AllLayout()
    ensures |All()| == 9
    ensures All()[..4] == Commands(Help) && All()[4..6] == Commands(Logout) && All()[6..] == Commands(Cancel)
    ensures forall intent :: intent in All() <==> exists c :: intent in Commands(c)
  {
    forall intent | intent in All()
      ensures exists c :: intent in Commands(c)
    {
      var i :| 0 <= i < |All()| && All()[i] == intent;
      if i < 4 {
        assert intent == Commands(Help)[i];
      } else if i < 6 {
        assert intent == Commands(Logout)[i - 4];
      } else {
        assert intent == Commands(Cancel)[i - 6];
      }
    }
    forall intent, c | intent in Commands(c)
      ensures intent in All()
    {
      var i :| 0 <= i < |Commands(c)| && Commands(c)[i] == intent;
      var offset := match c case Help => 0 case Logout => 4 case Cancel => 6;
      assert All()[offset + i] == intent;
    }
  }

  /** No command is in two lists, so every command of All has exactly one category. */
  lemma CategoriesDisjoint(intent: string, c1: Category, c2: Category)
    requires intent in Commands(c1) && intent in Commands(c2)
    ensures c1 == c2
  {
  }

  /** All has no command twice, so its index of a command is unique. */
  lemma AllDistinct()
    ensures forall i, j :: 0 <= i < j < |All()| ==> All()[i] != All()[j]
  {
    assert All() == ["I need a help", "Help me", "Help", "\\?", "I want to logout", "Logout", "Cancel", "Abort", "Stop"];
  }
}
