/**
 * The Tk password generator: a fixed 94-character alphabet, a length that
 * must parse and be positive, a read-only entry that is unlocked only while
 * its text is replaced, and a copy to the clipboard.
 */
module PwdGen {
  import opened Wrappers
  import opened Ascii
  import opened IntLiteral
  import opened RandomChoice
  import opened Desktop
  import Pwd1

  /** string.ascii_letters + string.digits + string.punctuation */
  const Characters: string := AsciiLetters + Digits + Punctuation

  /** The fixed alphabet is the wx generator's alphabet with every class enabled. */
  lemma CharactersAreFullCharSet()
    ensures Characters == Pwd1.CharSet(true, true, true)
    ensures |Characters| == 94
    ensures forall c :: c in Characters <==> IsGraphic(c)
  {
    Pwd1.DefaultCharSetIsGraphicAscii();
  }

  const NonPositiveLengthMessage: string := "Length must be a positive integer."

  /** The fixed start of the message of the ValueError raised by int(text). */
  const InvalidLiteralPrefix: string := "invalid literal for int() with base 10: "

  /**
   * str(e) of the ValueError raised by int(text): the fixed start, then the
   * quoted text cut to at most 200 characters, as the "%.200R" format does.
   */
  function InvalidLiteralMessage(text: string): (message: string)
    ensures |InvalidLiteralPrefix| < |message| <= |InvalidLiteralPrefix| + 200
    ensures message[..|InvalidLiteralPrefix|] == InvalidLiteralPrefix
    ensures |text| <= 198 ==> message[|InvalidLiteralPrefix|..] == "'" + text + "'"
    ensures |text| > 198 ==> message[|InvalidLiteralPrefix|..] == "'" + text[..199]
  {
    var quoted := "'" + text + "'";
    InvalidLiteralPrefix + (if |quoted| <= 200 then quoted else quoted[..200])
  }

  /** The draws a generation from this length text consumes, whenever it gets that far. */
  predicate DrawsSuffice(lengthText: string, draws: seq<nat>)
  {
    ParseInt(lengthText).Some? && ParseInt(lengthText).value > 0 ==>
      ValidDraws(draws, ParseInt(lengthText).value, |Characters|)
  }

  /**
   * The body of generate_password up to the entry update: parse the length,
   * reject it unless positive, then draw that many characters.
   */
  function NewPassword(lengthText: string, draws: seq<nat>): (r: Result<string, string>)
    requires DrawsSuffice(lengthText, draws)
    ensures ParseInt(lengthText).None? ==> r == Err(InvalidLiteralMessage(lengthText))
    ensures ParseInt(lengthText).Some? && ParseInt(lengthText).value <= 0 ==> r == Err(NonPositiveLengthMessage)
    ensures ParseInt(lengthText).Some? && ParseInt(lengthText).value > 0 ==> r.Ok?
    ensures r.Ok? ==> |r.value| == ParseInt(lengthText).value >= 1
    ensures r.Ok? ==> forall k :: 0 <= k < |r.value| ==> r.value[k] == Characters[draws[k]]
  {
    match ParseInt(lengthText)
    case None => Err(InvalidLiteralMessage(lengthText))
    case Some(length) =>
      if length <= 0 then Err(NonPositiveLengthMessage)
      else Ok(JoinChoices(Characters, length, draws))
  }

  /** Every character of a generated password is graphic ASCII, and so is in the wx generator's full alphabet. */
  lemma NewPasswordIsGraphicAscii(lengthText: string, draws: seq<nat>)
    requires DrawsSuffice(lengthText, draws)
    ensures NewPassword(lengthText, draws).Ok? ==>
      forall c :: c in NewPassword(lengthText, draws).value ==> IsGraphic(c) && c in Pwd1.CharSet(true, true, true)
  {
    var r := NewPassword(lengthText, draws);
    if r.Ok? {
      CharactersAreFullCharSet();
      forall c | c in r.value ensures IsGraphic(c) && c in Pwd1.CharSet(true, true, true) {
        var k :| 0 <= k < |r.value| && r.value[k] == c;
        assert c in Characters;
      }
    }
  }

  /**
   * For any length text that parses to a positive length the two generators
   * agree: given the same draws, this one yields what the wx one yields for
   * that length with every class enabled.
   */
  lemma AgreesWithFullCharSet(lengthText: string, draws: seq<nat>)
    requires ParseInt(lengthText).Some? && ParseInt(lengthText).value > 0
    requires ValidDraws(draws, ParseInt(lengthText).value, 94)
    ensures DrawsSuffice(lengthText, draws)
    ensures NewPassword(lengthText, draws) == Ok(Pwd1.GeneratePassword(ParseInt(lengthText).value, true, true, true, draws))
  {
    CharactersAreFullCharSet();
  }

  /**
   * For a length that parses but is not positive the two generators part
   * ways: the wx one yields the empty password, this one an error.
   */
  lemma NonPositiveLengthRejected(lengthText: string, draws: seq<nat>)
    requires ParseInt(lengthText).Some? && ParseInt(lengthText).value <= 0
    ensures Pwd1.GeneratePassword(ParseInt(lengthText).value, true, true, true, draws) == ""
    ensures NewPassword(lengthText, draws) == Err(NonPositiveLengthMessage)
  {
  }

  datatype EntryState = Normal | ReadOnly

  /** A ttk.Entry: its text and whether widget commands may change it. */
  class Entry {
    var text: string
    var state: EntryState

    constructor (state: EntryState)
      ensures text == "" && this.state == state
    {
      text := "";
      this.state := state;
    }

    /** config(state=...) */
    method Configure(state: EntryState)
      modifies this
      ensures this.state == state && text == old(text)
    {
      this.state := state;
    }

    /** delete(first, END); a read-only entry ignores it. */
    method DeleteToEnd(first: nat)
      modifies this
      ensures state == old(state)
      ensures old(state) == Normal && first < |old(text)| ==> text == old(text)[..first]
      ensures old(state) == ReadOnly || first >= |old(text)| ==> text == old(text)
    {
      if state == Normal && first < |text| {
        text := text[..first];
      }
    }

    /** insert(index, s), with index clamped to the end; a read-only entry ignores it. */
    method Insert(index: nat, s: string)
      modifies this
      ensures state == old(state)
      ensures old(state) == Normal ==>
        var at := if index < |old(text)| then index else |old(text)|;
        text == old(text)[..at] + s + old(text)[at..]
      ensures old(state) == ReadOnly ==> text == old(text)
    {
      if state == Normal {
        var at := if index < |text| then index else |text|;
        text := text[..at] + s + text[at..];
      }
    }
  }

  const CopiedNotice: Notice := Notice(Information, "Copied", "Password copied to clipboard!")
  const NothingToCopyNotice: Notice := Notice(Warning, "Warning", "No password to copy!")

  /** The script's window: the length entry, the read-only password entry and the root's clipboard. */
  class PasswordGeneratorWindow {
    const lengthEntry: Entry
    const passwordEntry: Entry
    const clipboard: Clipboard

    /** Two distinct entries, and the password entry read-only between events. */
    ghost predicate Valid()
      reads passwordEntry
    {
      lengthEntry != passwordEntry && passwordEntry.state == ReadOnly
    }

    /**
     * The window as built on the root's existing clipboard: both entries
     * empty, the password entry read-only, the clipboard untouched.
     */
    constructor (rootClipboard: Clipboard)
      ensures Valid() && fresh(lengthEntry) && fresh(passwordEntry)
      ensures lengthEntry.text == "" && lengthEntry.state == Normal
      ensures passwordEntry.text == ""
      ensures clipboard == rootClipboard
    {
      lengthEntry := new Entry(Normal);
      passwordEntry := new Entry(ReadOnly);
      clipboard := rootClipboard;
    }

    /**
     * generate_password: on any ValueError the error box shows its message
     * and the password entry is untouched; on success the entry is unlocked,
     * emptied, given the password and locked again.
     */
    method GeneratePassword(draws: seq<nat>) returns (notice: Option<Notice>)
      requires Valid()
      requires DrawsSuffice(lengthEntry.text, draws)
      modifies passwordEntry
      ensures Valid()
      ensures lengthEntry.text == old(lengthEntry.text)
      ensures NewPassword(lengthEntry.text, draws).Ok? ==>
        passwordEntry.text == NewPassword(lengthEntry.text, draws).value && notice == None
      ensures NewPassword(lengthEntry.text, draws).Err? ==>
        passwordEntry.text == old(passwordEntry.text) &&
        notice == Some(Notice(Error, "Error", NewPassword(lengthEntry.text, draws).error))
    {
      var result := NewPassword(lengthEntry.text, draws);
      match result
      case Err(message) =>
        notice := Some(Notice(Error, "Error", message));
      case Ok(password) =>
        passwordEntry.Configure(Normal);
        passwordEntry.DeleteToEnd(0);
        passwordEntry.Insert(0, password);
        passwordEntry.Configure(ReadOnly);
        notice := None;
    }

    /**
     * copy_to_clipboard: an empty entry only raises a warning; otherwise the
     * clipboard is cleared and then holds exactly the entry's text.
     */
    method CopyToClipboard() returns (notice: Notice)
      requires Valid()
      modifies clipboard
      ensures Valid()
      ensures passwordEntry.text == "" ==> clipboard.text == old(clipboard.text) && notice == NothingToCopyNotice
      ensures passwordEntry.text != "" ==> clipboard.text == passwordEntry.text && notice == CopiedNotice
    {
      var password := passwordEntry.text;
      if password != "" {
        clipboard.Clear();
        clipboard.Append(password);
        notice := CopiedNotice;
      } else {
        notice := NothingToCopyNotice;
      }
    }
  }

  /**
   * A session with a freshly built window: the user types a length that is
   * accepted, presses Generate Password, then Copy to Clipboard. The root's
   * clipboard ends up holding exactly the new password.
   */
  method GenerateThenCopy(rootClipboard: Clipboard, lengthText: string, draws: seq<nat>) returns (password: string)
    requires DrawsSuffice(lengthText, draws) && NewPassword(lengthText, draws).Ok?
    modifies rootClipboard
    ensures password == NewPassword(lengthText, draws).value
    ensures rootClipboard.text == password
  {
    var window := new PasswordGeneratorWindow(rootClipboard);
    window.lengthEntry.text := lengthText;
    var generated := window.GeneratePassword(draws);
    password := window.passwordEntry.text;
    var copied := window.CopyToClipboard();
  }
}
