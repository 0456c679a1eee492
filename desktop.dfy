/** The two pieces of the desktop the generators touch: message boxes and the clipboard. */
module Desktop {

  datatype Severity = Error | Warning | Information

  /** A blocking message box: its icon, its title and its text. */
  datatype Notice = Notice(severity: Severity, title: string, message: string)

  /** The system clipboard, reduced to the text it holds. */
  class Clipboard {
    var text: string

    constructor (initial: string)
      ensures text == initial
    {
      text := initial;
    }

    /** pyperclip.copy: the clipboard holds exactly s. */
    method Copy(s: string)
      modifies this
      ensures text == s
    {
      text := s;
    }

    /** Tk's clipboard_clear. */
    method Clear()
      modifies this
      ensures text == ""
    {
      text := "";
    }

    /** Tk's clipboard_append: s is added after what the clipboard holds. */
    method Append(s: string)
      modifies this
      ensures text == old(text) + s
    {
      text := text + s;
    }
  }
}
