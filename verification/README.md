# QR generator page: state logic in Dafny

This project models the state logic of the single-page QR code generator, which
lives in the React component `App` (`src/App.tsx`). The page keeps a small record
of state:

- the text and title form fields;
- the displayed code: its value and its image data URL;
- a history of the three most recent generations, newest first;
- four transient flags: busy, success banner, history panel open, and copied.

User actions change that record. They are generate, pick a history entry, copy
the text, toggle the history panel and edit a field. Export composes the code
onto a canvas with a title band and a watermark band, then saves it as PNG or JPG.

The model has four modules, plus a helper module `Wrappers` (`wrappers.dfy`)
holding the `Option` type:

- `Text` (`text.dfy`): JavaScript `String.prototype.trim` and the whitespace set it
  strips (ECMAScript WhiteSpace and LineTerminator code points). It also has the
  truth test `!s.trim()` used as the generate guard.
- `History` (`history.dfy`): the history entry record and the prepend-and-truncate
  update `[newItem, ...prev.slice(0, 2)]`. It includes a reference definition:
  after any sequence of generations, the history holds the last three, newest first.
- `Export` (`export.dfy`): the export canvas layout and the MIME type. It also
  covers the saved file name and how that name splits back into base and
  extension, plus the decision whether a save happens.
- `App` (`app.dfy`): the state record and one pure transition per action. It has
  an invariant that every action preserves, and lemmas that relate the actions
  to each other.

The outside world enters as parameters:

- the encoder's answer: a data URL, or a failure;
- the clipboard's answer;
- whether the canvas context is obtained, the image decodes and the blob is
  produced;
- the clock readings used for a history entry's id and timestamp.

In these details the model follows what `src/App.tsx` does:

- The encoder receives the untrimmed input. The trim is only the guard, not the
  encoded text.
- On the non-blank path the busy flag ends false even when encoding fails. On the
  blank path no field changes at all, the busy flag included.
- The copied indicator is raised only when the clipboard write succeeds. The copy
  guard tests for the literally empty string. It does not trim.
- Export names the file after the title in the form at export time. It does not
  use the title recorded in the history entry.

## Model

| member | source | states |
|---|---|---|
| `Text.TrimEmptyIffBlank` | src/App.tsx:32 | `trim()` of a string is empty exactly when every character of it is JavaScript whitespace |
| `Text.TrimmedEmpty` | src/App.tsx:32 | the generate guard `!inputText.trim()` holds exactly for blank input (empty or whitespace-only) |
| `Text.Trim` | src/App.tsx:32 | `trim()` yields a contiguous slice of the input with only whitespace cut from both ends, and the slice neither starts nor ends with whitespace |
| `History.Prepend` | src/App.tsx:58 | the new history has length min(3, old length + 1), the new item first, then the old entries in their old order; below the cap nothing is dropped |
| `History.ReplayKeepsMostRecent` | src/App.tsx:52-58 | after any sequence of insertions into an empty history, it holds exactly the last min(3, n) items inserted, newest first |
| `History.FullInsertEvictsOldest` | src/App.tsx:58 | inserting into a full history of three keeps the length at three and drops exactly the oldest entry |
| `Export.TitleHeight` | src/App.tsx:81 | the title band is 60 pixels exactly when the title is non-empty and 20 exactly when it is empty |
| `Export.LayoutFor` | src/App.tsx:80-109 | the canvas is 280 wide and 370 or 330 high; the 200-pixel QR sits at (40, 40 + title band), inside the canvas, centred horizontally, between the title band and the watermark band; the watermark anchor is (width - 40, height - 10), below the QR; a title anchor exists exactly when the title is non-empty and sits centred above the QR |
| `Export.MimeType` | src/App.tsx:116 | the serialiser MIME type is `image/jpeg` exactly for JPG and `image/png` exactly for PNG |
| `Export.BaseName` | src/App.tsx:114 | the file's base name is the title when non-empty, otherwise `qr-code`, and never empty |
| `Export.FileName` | src/App.tsx:114 | the file name is the base name, one dot, then the three-letter extension of the requested format |
| `Export.FileNameSplits` | src/App.tsx:114 | splitting the saved name at its last dot recovers the base name and the format's extension, even for titles that contain dots |
| `Export.Download` | src/App.tsx:71-118 | a save happens exactly when an image is stored, a 2D context is obtained, the image loads and a blob is produced; the save receives the current title's file name, the format's MIME type, the stored image and the title's layout |
| `Export.SavedNameMatchesMime` | src/App.tsx:112-116 | whatever is saved, its name ends in `.jpg` exactly when its MIME type is JPEG, and in `.png` exactly when PNG |
| `App.Generate` | src/App.tsx:31-69 | blank input issues no encoder call and changes nothing; otherwise the untrimmed input is encoded with width 200, margin 2, the two colours and level M; success stores the data URL and the input, prepends an entry with the current text and title (capped at three) and raises the banner; failure leaves image, value, history and banner alone; the page is not busy afterwards; form fields, panel and copied flag never change |
| `App.LoadFromHistory` | src/App.tsx:136-140 | the entry's text and title go into the form and the panel closes; history, image, displayed value and the other flags are unchanged |
| `App.Copy` | src/App.tsx:124-134 | a clipboard write of the input is issued exactly when the input is not the empty string (whitespace-only text is copied); the copied flag is raised only if the write succeeds; nothing else changes |
| `App.ToggleHistory` | src/App.tsx:183 | the history button flips the panel's visibility and changes nothing else |
| `App.EditText` | src/App.tsx:250 | typing sets the text field and changes nothing else |
| `App.EditTitle` | src/App.tsx:234 | typing sets the title field and changes nothing else |
| `App.Download` | src/App.tsx:71-72 | with no stored image nothing is saved; a save uses the title currently in the form, the format's MIME type and the stored image |
| `App.InitialConsistent` | src/App.tsx:21-29 | the initial page state satisfies the state invariant |
| `App.StepPreservesConsistent` | src/App.tsx:31-140 | every action preserves the invariant: history within the cap, every entry with non-blank text, the displayed value equal to the newest entry's text, and no image before the first generation |
| `App.RunPreservesConsistent` | src/App.tsx:31-140 | any sequence of actions from a consistent state ends in a consistent state |
| `App.HistoryNeverExceedsCap` | src/App.tsx:58 | in every reachable state the history holds at most three entries |
| `App.ExportBeforeAnyCodeIsNoop` | src/App.tsx:72 | in any reachable state with an empty history, that is, before any successful generation, export saves nothing |
| `App.ReloadAndRegenerate` | src/App.tsx:136-140 | picking any entry of a reachable history and generating again encodes that entry's text, whatever the encoder answers; on success the new front entry carries its text and title |
| `App.ExportUsesCurrentTitle` | src/App.tsx:114 | after a title edit, export saves under the new title while the history entries keep the old one |
| `App.CopyAndGenerateGuardsDiffer` | src/App.tsx:32 | on every non-empty whitespace-only input, copy still writes that input to the clipboard (whatever the clipboard answers) but generate issues no encoder call and leaves the state unchanged |
| `App.RegenerateAllReplays` | src/App.tsx:52-58 | a session of successful generations from an empty history leaves the same history as inserting each entry in turn |
| `App.SessionKeepsMostRecentThree` | src/App.tsx:58 | after any session of successful generations the history shows the three most recent entries, newest first; a fourth generation evicts the oldest |
| `App.ExampleSession` | src/App.tsx:31-118 | text `https://example.com` with title `My Site` generates one history entry, and a PNG export saves `My Site.png` as `image/png` |

## Left out

- QR encoding (the `qrcode` library's `toDataURL`) is an external library. Its
  answer is a parameter of `App.Generate`. Only the request it receives is
  modelled: the text and the fixed options.
- Canvas drawing is left out: fill, fonts, text alignment, `drawImage`, the
  watermark caption text and `toBlob` rasterisation. Only the computed
  coordinates, sizes, MIME type and file name are modelled, plus whether each
  platform step succeeded.
- The `file-saver` save call and `navigator.clipboard.writeText` are external.
  They appear only as the call issued (`SaveCall`, the clipboard write) and as a
  success parameter.
- The two-second timers that reset the banner and the copied flag are not
  modelled. Only the raising of the flag is.
- Asynchronous interleaving is not modelled. A generate or export runs as one
  atomic step. Overlapping encoder calls that resolve out of order, and export
  image loads, are concurrency concerns outside this model.
- `Date.now()` and `new Date()` are clock reads. They are parameters of the
  generate action. The model makes no claim that entry ids are unique, because
  the code does not ensure it.
- JSX rendering and styling are left out. This covers the disabled state of the
  generate button and the display condition of the code panel.
- Text and title edits are modelled as whole-value replacements. Keyboard events,
  such as Enter triggering generate, are left out.
- `App.Step` accepts any history entry for `LoadAction`, not only one taken from
  the current history. The page only offers current entries, so this over-approximates
  it. Every stated property holds for any entry.
- Export: the canvas's own `width / 2` is floating-point division. The width is
  280 and even, so the title anchor's x is the exact integer 140.
- Strings are modelled as sequences of Unicode code points, not UTF-16 code
  units, so a JavaScript string holding a lone surrogate has no counterpart in
  the model. Trimming is unaffected, since every whitespace code point is a
  single code unit.
- The `console.error` logging in the three catch blocks (generate, export and
  copy) is a side effect with no state change, so it is left out; the caught
  failures themselves are modelled as the failure outcomes.
