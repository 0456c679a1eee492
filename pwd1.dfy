/**
 * The wx password generator: an alphabet assembled from optional character
 * classes, a sampler over it, and a frame whose two buttons generate into a
 * read-only display and copy that display to the clipboard.
 */
module Pwd1 {
  import opened Wrappers
  import opened Ascii
  import opened IntLiteral
  import opened RandomChoice
  import opened Desktop

  /** The initial value of the frame's length field. */
  const DefaultLength: int := 12

  /**
   * generate_password's char_set: the lowercase letters, then each enabled
   * class appended in turn.
   */
  function CharSet(useUppercase: bool, useDigits: bool, useSymbols: bool): (r: string)
    ensures |r| == 26 + (if useUppercase then 26 else 0) + (if useDigits then 10 else 0) + (if useSymbols then 32 else 0)
    ensures |r| >= 26 && r[..26] == AsciiLowercase
    ensures !useUppercase && !useDigits && !useSymbols ==> r == AsciiLowercase
  {
    var withUppercase := if useUppercase then AsciiLowercase + AsciiUppercase else AsciiLowercase;
    var withDigits := if useDigits then withUppercase + Digits else withUppercase;
    if useSymbols then withDigits + Punctuation else withDigits
  }

  /** A character is in the alphabet exactly when it is lowercase or belongs to an enabled class. */
  lemma CharSetMembership(useUppercase: bool, useDigits: bool, useSymbols: bool, c: char)
    ensures c in CharSet(useUppercase, useDigits, useSymbols) <==>
      IsLowercase(c) || (useUppercase && IsUppercase(c)) || (useDigits && IsDigit(c)) || (useSymbols && IsPunctuation(c))
  {
    ClassMembership(c);
  }

  /**
   * The alphabet lists the lowercase letters, then the uppercase letters,
   * then the digits, then the punctuation, each class in code order, and
   * never repeats a character.
   */
  lemma CharSetInClassOrder(useUppercase: bool, useDigits: bool, useSymbols: bool)
    ensures InClassOrder(CharSet(useUppercase, useDigits, useSymbols))
    ensures forall i, j :: 0 <= i < j < |CharSet(useUppercase, useDigits, useSymbols)| ==>
      CharSet(useUppercase, useDigits, useSymbols)[i] != CharSet(useUppercase, useDigits, useSymbols)[j]
  {
    LowercaseOrdered();
    UppercaseOrdered();
    DigitsOrdered();
    PunctuationOrdered();
    var withUppercase := AsciiLowercase;
    if useUppercase {
      OrderedAppend(AsciiLowercase, AsciiUppercase, 1);
      withUppercase := AsciiLowercase + AsciiUppercase;
    }
    var withDigits := withUppercase;
    if useDigits {
      OrderedAppend(withUppercase, Digits, 2);
      withDigits := withUppercase + Digits;
    }
    var r := withDigits;
    if useSymbols {
      OrderedAppend(withDigits, Punctuation, 3);
      r := withDigits + Punctuation;
    }
    assert r == CharSet(useUppercase, useDigits, useSymbols);
    InClassOrderDistinct(r);
  }

  /** With every class enabled (the defaults) the alphabet is the 94 graphic ASCII characters, each once. */
  lemma DefaultCharSetIsGraphicAscii()
    ensures |CharSet(true, true, true)| == 94
    ensures forall c :: c in CharSet(true, true, true) <==> IsGraphic(c)
    ensures forall i, j :: 0 <= i < j < 94 ==> CharSet(true, true, true)[i] != CharSet(true, true, true)[j]
  {
    forall c ensures c in CharSet(true, true, true) <==> IsGraphic(c) {
      CharSetMembership(true, true, true, c);
      GraphicPartition(c);
    }
    CharSetInClassOrder(true, true, true);
  }

  /**
   * generate_password(length, ...): length choices from the alphabet; for a
   * length that is not positive, range(length) is empty and so is the password.
   */
  function GeneratePassword(length: int, useUppercase: bool, useDigits: bool, useSymbols: bool, draws: seq<nat>): (password: string)
    requires ValidDraws(draws, RangeLength(length), |CharSet(useUppercase, useDigits, useSymbols)|)
    ensures length >= 0 ==> |password| == length
    ensures length <= 0 ==> password == ""
    ensures forall c :: c in password ==> c in CharSet(useUppercase, useDigits, useSymbols)
    ensures forall k :: 0 <= k < |password| ==> password[k] == CharSet(useUppercase, useDigits, useSymbols)[draws[k]]
  {
    JoinChoices(CharSet(useUppercase, useDigits, useSymbols), RangeLength(length), draws)
  }

  /** Every character of a password is lowercase or of a class that was enabled. */
  lemma PasswordRespectsOptions(length: int, useUppercase: bool, useDigits: bool, useSymbols: bool, draws: seq<nat>)
    requires ValidDraws(draws, RangeLength(length), |CharSet(useUppercase, useDigits, useSymbols)|)
    ensures forall c :: c in GeneratePassword(length, useUppercase, useDigits, useSymbols, draws) ==>
      IsGraphic(c) &&
      (IsLowercase(c) || (useUppercase && IsUppercase(c)) || (useDigits && IsDigit(c)) || (useSymbols && IsPunctuation(c)))
  {
    forall c | c in GeneratePassword(length, useUppercase, useDigits, useSymbols, draws)
      ensures IsGraphic(c)
      ensures IsLowercase(c) || (useUppercase && IsUppercase(c)) || (useDigits && IsDigit(c)) || (useSymbols && IsPunctuation(c))
    {
      CharSetMembership(useUppercase, useDigits, useSymbols, c);
      GraphicPartition(c);
    }
  }

  const InvalidLengthNotice: Notice := Notice(Error, "Error", "Please enter a valid number for the password length.")
  const CopiedNotice: Notice := Notice(Information, "Success", "Password copied to clipboard!")
  const NothingToCopyNotice: Notice := Notice(Error, "Error", "No password to copy. Generate a password first.")

  /** The draws a generation from the given field values consumes, whenever the length parses. */
  predicate DrawsSuffice(lengthText: string, useUppercase: bool, useDigits: bool, useSymbols: bool, draws: seq<nat>)
  {
    ParseInt(lengthText).Some? ==>
      ValidDraws(draws, RangeLength(ParseInt(lengthText).value), |CharSet(useUppercase, useDigits, useSymbols)|)
  }

  /** PasswordGeneratorFrame: the state of its input field, check boxes and read-only display. */
  class PasswordGeneratorFrame {
    var lengthInput: string
    var uppercaseChecked: bool
    var digitsChecked: bool
    var symbolsChecked: bool
    var passwordDisplay: string

    /** The frame as built: length "12", every class checked, nothing displayed. */
    constructor ()
      ensures lengthInput == "12" && ParseInt(lengthInput) == Some(DefaultLength)
      ensures uppercaseChecked && digitsChecked && symbolsChecked
      ensures passwordDisplay == ""
    {
      lengthInput := "12";
      uppercaseChecked, digitsChecked, symbolsChecked := true, true, true;
      passwordDisplay := "";
      ParseIntOfDecimal(DefaultLength);
      assert IntToDecimal(DefaultLength) == "12";
    }

    /**
     * on_generate_password: a length that does not parse raises ValueError
     * before the display is touched, so only the error box appears; otherwise
     * the display is replaced by the new password and no box appears.
     */
    method OnGeneratePassword(draws: seq<nat>) returns (notice: Option<Notice>)
      requires DrawsSuffice(lengthInput, uppercaseChecked, digitsChecked, symbolsChecked, draws)
      modifies this`passwordDisplay
      ensures ParseInt(lengthInput).None? ==> passwordDisplay == old(passwordDisplay) && notice == Some(InvalidLengthNotice)
      ensures ParseInt(lengthInput).Some? ==>
        passwordDisplay == GeneratePassword(ParseInt(lengthInput).value, uppercaseChecked, digitsChecked, symbolsChecked, draws) &&
        notice == None
    {
      var parsed := ParseInt(lengthInput);
      match parsed
      case None =>
        notice := Some(InvalidLengthNotice);
      case Some(length) =>
        var password := GeneratePassword(length, uppercaseChecked, digitsChecked, symbolsChecked, draws);
        passwordDisplay := password;
        notice := None;
    }

    /**
     * on_copy_to_clipboard: an empty display is refused with an error box and
     * the clipboard keeps its text; otherwise the clipboard holds exactly the
     * displayed password.
     */
    method OnCopyToClipboard(clipboard: Clipboard) returns (notice: Notice)
      modifies clipboard
      ensures passwordDisplay == "" ==> clipboard.text == old(clipboard.text) && notice == NothingToCopyNotice
      ensures passwordDisplay != "" ==> clipboard.text == passwordDisplay && notice == CopiedNotice
    {
      var password := passwordDisplay;
      if password != "" {
        clipboard.Copy(password);
        notice := CopiedNotice;
      } else {
        notice := NothingToCopyNotice;
      }
    }
  }
}
