# Random password generators

A model of the two password generators of the repository: `pwd1.py`, a wx
window whose generator takes a length and three switches (uppercase, digits,
symbols), and `pwd_gen.py`, a Tk window with one fixed alphabet and a length
that must be positive. Each builds an alphabet from the character classes of
Python's `string` module, draws a password from it, shows the password in a
read-only field, and copies that field to the clipboard on request.

The modules:

- `Ascii` (`ascii.dfy`): `string.ascii_lowercase`, `ascii_uppercase`,
  `ascii_letters`, `digits` and `punctuation` as the literal strings Python
  defines, proved equal to their code-point ranges in US-ASCII
  (ANSI X3.4-1968, reproduced in RFC 20). Also the class order that both
  alphabets follow: lowercase, uppercase, digits, punctuation.
- `IntLiteral` (`int_literal.dfy`): `int()` applied to the text of the length
  field, for the literals listed below. The result is `None` for text outside
  that form; Python raises `ValueError` for most such text (see Left out).
- `RandomChoice` (`random_choice.dfy`): `''.join(random.choice(a) for _ in
  range(n))`. The random generator is replaced by the indices it picks: the
  k-th call of `random.choice(a)` returns `a[draws[k]]`. The draws must be
  valid indices, as `random.choice` guarantees.
- `Desktop` (`desktop.dfy`): message boxes as `Notice` values, and the
  clipboard as a class holding its text.
- `Pwd1` (`pwd1.dfy`): `generate_password` and the frame `PasswordGeneratorFrame`
  with its two button handlers.
- `PwdGen` (`pwd_gen.py`'s model, `pwd_gen.dfy`): the try-body of
  `generate_password` as a function, the `ttk.Entry` widget, and the
  script's window with its two button handlers.

The `pwd1.py` generator has no positivity check. A length of 0 or less gives
an empty password, because `range(length)` is empty. An empty display then
makes the copy button refuse. `pwd_gen.py` rejects such a length
(pwd_gen.py:10-11); `pwd1.py` does not. The lemma `PwdGen.NonPositiveLengthRejected` states where
the two generators differ.

Only `pwd_gen.py` unlocks its read-only entry before it changes the text.
In Tk, `insert` and `delete` are ignored by an entry whose state is
`readonly`. `PwdGen.Entry` models that rule, so the unlock at line 16 is
needed for the new password to appear.

## Model

| member | source | states |
|---|---|---|
| `Ascii.ClassesAreRanges` | pwd1.py:8-14 | each `string` constant used for the alphabet is the run of consecutive ASCII codes it spells: `a`–`z`, `A`–`Z`, `0`–`9`, and the four punctuation runs `!`–`/`, `:`–`@`, `[`–`` ` ``, `{`–`~` |
| `Ascii.ClassMembership` | pwd1.py:8-14 | a character is in `ascii_lowercase`, `ascii_uppercase`, `digits` or `punctuation` exactly when it belongs to that class |
| `Ascii.GraphicPartition` | pwd_gen.py:13 | the four classes are disjoint and together cover exactly the graphic ASCII characters 0x21–0x7E |
| `IntLiteral.ParseInt` | pwd1.py:69 | the modelled `int(text)` succeeds exactly on an optional `-` followed by one or more ASCII decimal digits (no digit limit, see Left out); the value is negative only with the sign |
| `IntLiteral.ParseIntOfDecimal` | pwd_gen.py:9 | the decimal text of every integer parses back to that integer, so every length can be entered |
| `RandomChoice.JoinChoices` | pwd1.py:16 | the joined string has one character per draw, the k-th being the alphabet character at the k-th drawn index, and no character from outside the alphabet |
| `Pwd1.CharSet` | pwd1.py:8-14 | the alphabet has 26 + 26·u + 10·d + 32·s characters, always starts with the 26 lowercase letters (so `random.choice` never sees an empty alphabet), and is exactly the lowercase letters when every switch is off |
| `Pwd1.CharSetMembership` | pwd1.py:8-14 | a character is in the alphabet exactly when it is lowercase, or uppercase with uppercase enabled, or a digit with digits enabled, or punctuation with symbols enabled |
| `Pwd1.CharSetInClassOrder` | pwd1.py:8-14 | the alphabet lists lowercase, then uppercase, then digits, then punctuation, each class in code order, with no character repeated |
| `Pwd1.DefaultCharSetIsGraphicAscii` | pwd1.py:6-14 | with the default switches (all on) the alphabet has 94 distinct characters and holds exactly the graphic ASCII characters 0x21–0x7E |
| `Pwd1.GeneratePassword` | pwd1.py:6-16 | a length L ≥ 0 gives exactly L characters; a length ≤ 0 gives the empty password and no error; every character is the alphabet character at its draw |
| `Pwd1.PasswordRespectsOptions` | pwd1.py:8-16 | every password character is graphic ASCII and is lowercase or of an enabled class |
| `Pwd1.PasswordGeneratorFrame.constructor` | pwd1.py:19-65 | the frame starts with length text "12" (which parses to 12), all three boxes checked and an empty display |
| `Pwd1.PasswordGeneratorFrame.OnGeneratePassword` | pwd1.py:67-77 | unparsable length text shows the error box and leaves the display unchanged; otherwise the display becomes exactly the generated password and no box appears |
| `Pwd1.PasswordGeneratorFrame.OnCopyToClipboard` | pwd1.py:79-85 | an empty display shows the error box and leaves the clipboard alone; otherwise the clipboard holds exactly the displayed text and the success box appears |
| `Desktop.Clipboard.Copy` | pwd1.py:82 | after `pyperclip.copy(s)` the clipboard holds exactly `s` |
| `Desktop.Clipboard.Clear` | pwd_gen.py:27 | after `clipboard_clear` the clipboard is empty |
| `Desktop.Clipboard.Append` | pwd_gen.py:28 | `clipboard_append(s)` adds `s` after the clipboard's text |
| `PwdGen.CharactersAreFullCharSet` | pwd_gen.py:13 | the fixed alphabet is the 94 graphic ASCII characters and equals `pwd1.py`'s alphabet with every class enabled |
| `PwdGen.NewPassword` | pwd_gen.py:9-14 | unparsable text fails with `int()`'s message (the fixed start, then the quoted text cut to 200 characters); a length ≤ 0 fails with "Length must be a positive integer."; a length L ≥ 1 succeeds with exactly L characters drawn from the fixed alphabet |
| `PwdGen.NewPasswordIsGraphicAscii` | pwd_gen.py:13-14 | every character of a successful password is graphic ASCII and in `pwd1.py`'s full alphabet |
| `PwdGen.AgreesWithFullCharSet` | pwd_gen.py:9-14 | for any length text that parses to a positive length (leading zeros included) and the same draws, this generator yields what `pwd1.py`'s yields for that length with every class enabled |
| `PwdGen.NonPositiveLengthRejected` | pwd_gen.py:10-11 | a parsed length ≤ 0 is an error here, where `pwd1.py`'s generator returns the empty password |
| `PwdGen.Entry.constructor` | pwd_gen.py:62 | a new entry is empty, in the state it was created with |
| `PwdGen.Entry.Configure` | pwd_gen.py:16 | `config(state=...)` changes the state and not the text |
| `PwdGen.Entry.DeleteToEnd` | pwd_gen.py:17 | `delete(first, END)` cuts the text at `first` when the entry is writable and does nothing when it is read-only |
| `PwdGen.Entry.Insert` | pwd_gen.py:18 | `insert(i, s)` puts `s` at `i` (clamped to the end) when the entry is writable and does nothing when it is read-only |
| `PwdGen.PasswordGeneratorWindow.constructor` | pwd_gen.py:53-62 | the window starts with an empty writable length entry and an empty read-only password entry, on the root's existing clipboard, which it does not touch |
| `PwdGen.PasswordGeneratorWindow.GeneratePassword` | pwd_gen.py:7-21 | any `ValueError` shows an error box with its message and leaves the password entry untouched; success leaves exactly the new password in the entry, with no earlier content; the entry is read-only again afterwards and the length entry is unchanged |
| `PwdGen.PasswordGeneratorWindow.CopyToClipboard` | pwd_gen.py:24-32 | an empty entry shows the warning and leaves the clipboard alone; otherwise the clipboard is cleared and then holds exactly the entry text |
| `PwdGen.GenerateThenCopy` | pwd_gen.py:7-32 | in a freshly built window, an accepted length followed by Generate Password and Copy to Clipboard leaves the root's clipboard holding exactly the new password |

## Left out

- Probability: `random.choice` is uniform and independent. The model takes the drawn indices as a parameter and proves only length, order and membership.
- `int()` quirks: surrounding whitespace, a `+` sign, underscores between digits and non-ASCII digits are accepted by Python and rejected by `IntLiteral.ParseInt`.
- `IntLiteral.ParseInt` has no digit limit. Python 3.11 and later raise `ValueError` for a literal of more than 4300 digits, leading zeros included; the model parses such text, so for it `Pwd1.PasswordGeneratorFrame.OnGeneratePassword` and `PwdGen.NewPassword` produce a password where the program shows the error box.
- The default arguments of `generate_password` at pwd1.py:6 (`length=12` and all three switches on): no caller relies on them, and `Pwd1.GeneratePassword` takes every argument explicitly. `Pwd1.DefaultCharSetIsGraphicAscii` states the alphabet for the default switches.
- `PwdGen.InvalidLiteralMessage` quotes the text between plain single quotes before cutting it to 200 characters. Python uses `repr`, which escapes some characters and may pick double quotes, so for such text the cut and the quotes can differ.
- `root.update()` (pwd_gen.py:29) only flushes Tk's event queue so the clipboard survives the program. Clipboard ownership is not modelled.
- The user's typing into the length field and ticking of the check boxes: they are the fields `lengthInput`, `uppercaseChecked`, `digitsChecked`, `symbolsChecked` and `PwdGen.Entry.text`, set from outside.
- Widget layout, styling, window sizes and the wx/Tk event loops (pwd1.py:20-65 apart from initial values, pwd1.py:87-91, pwd_gen.py:34-69 apart from the two entries).
- The Tk entry state `disabled` is not used by the program and is not modelled.
- `ml_app.py`, `ml_app2.py`, `notepad.py`, `ip_finder.py` and `fake_data.py` are not part of this model: they wrap pandas, scikit-learn, plotting, file I/O, DNS resolution and a MySQL/Faker seeder, whose behaviour is outside the repository.
