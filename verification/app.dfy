/**
 The state of the QR generator page and one transition per user action:
 generate, pick a history entry, copy the input, toggle the history panel,
 edit the two form fields, and export. Each transition is a pure function
 from the old state (plus whatever the outside world answered) to the new one.
 */
module App {
  import opened Wrappers
  import opened Text
  import opened History
  import Export

  /** Everything the page keeps between events. */
  datatype State = State(
    inputText: string,
    qrTitle: string,
    qrValue: string,
    qrDataURL: string,
    isGenerating: bool,
    showThankYou: bool,
    showHistory: bool,
    history: seq<Item>,
    copied: bool)

  /** The page as first rendered. */
  const Initial: State := State("", "", "", "", false, false, false, [], false)

  /** The fixed configuration passed to the QR encoder. */
  datatype EncodeOptions = EncodeOptions(width: int, margin: int, dark: string, light: string,
                                         errorCorrectionLevel: char)

  const QrOptions: EncodeOptions := EncodeOptions(200, 2, "#1f2937", "#ffffff", 'M')

  /** A call to the encoder: the text to encode and its options. */
  datatype EncodeRequest = EncodeRequest(text: string, options: EncodeOptions)

  /** What the encoder answered: a data URL, or a rejection. */
  datatype EncodeOutcome = Encoded(dataURL: string) | EncodeFailed

  /** The encoder call issued by a generate action (if any) and the state after it. */
  datatype GenerateStep = GenerateStep(request: Option<EncodeRequest>, next: State)

  /** The clipboard write issued by a copy action (if any) and the state after it. */
  datatype CopyStep = CopyStep(write: Option<string>, next: State)

  /** The generate action, with the encoder's answer, the clock reading used as
      the entry id and the creation time supplied from outside.
      Blank input (empty after `trim`) issues no encoder call and changes
      nothing. Otherwise the untrimmed input is encoded with the fixed options.
      On success the image and displayed value are replaced, a history entry for
      the current input and title is prepended (keeping at most three), and the
      success banner is raised. On failure only the busy flag changes. Either
      way the page is not busy afterwards, and the form fields, the panel and
      the copied indicator are untouched. */
  function Generate(s: State, outcome: EncodeOutcome, id: string, timestamp: int): (r: GenerateStep)
    ensures r.request.None? <==> IsBlank(s.inputText)
    ensures r.request.None? ==> r.next == s
    ensures r.request.Some? ==> r.request.value == EncodeRequest(s.inputText, QrOptions)
    ensures r.request.Some? ==> !r.next.isGenerating
    ensures r.next.inputText == s.inputText && r.next.qrTitle == s.qrTitle
    ensures r.next.showHistory == s.showHistory && r.next.copied == s.copied
    ensures r.request.Some? && outcome.Encoded? ==>
              && r.next.qrDataURL == outcome.dataURL
              && r.next.qrValue == s.inputText
              && r.next.showThankYou
              && |r.next.history| == Min(Capacity, |s.history| + 1)
              && r.next.history[0] == Item(id, s.inputText, s.qrTitle, timestamp)
              && r.next.history[1..] == s.history[..|r.next.history| - 1]
    ensures r.request.Some? && outcome.EncodeFailed? ==>
              && r.next.qrDataURL == s.qrDataURL
              && r.next.qrValue == s.qrValue
              && r.next.history == s.history
              && r.next.showThankYou == s.showThankYou
  {
    if TrimmedEmpty(s.inputText) then
      GenerateStep(None, s)
    else
      var request := EncodeRequest(s.inputText, QrOptions);
      match outcome
      case EncodeFailed =>
        GenerateStep(Some(request), s.(isGenerating := false))
      case Encoded(url) =>
        var item := Item(id, s.inputText, s.qrTitle, timestamp);
        GenerateStep(Some(request), s.(qrDataURL := url, qrValue := s.inputText,
                                       history := Prepend(item, s.history),
                                       showThankYou := true, isGenerating := false))
  }

  /** Picking a history entry puts its text and title back into the form and
      closes the panel; it issues no encoder call, so the displayed code and
      the history stay as they were. */
  function LoadFromHistory(s: State, item: Item): (r: State)
    ensures r.inputText == item.text && r.qrTitle == item.title && !r.showHistory
    ensures r.history == s.history && r.qrDataURL == s.qrDataURL && r.qrValue == s.qrValue
    ensures r.isGenerating == s.isGenerating && r.showThankYou == s.showThankYou
    ensures r.copied == s.copied
  {
    s.(inputText := item.text, qrTitle := item.title, showHistory := false)
  }

  /** The copy action, given whether the clipboard accepted the write. Only a
      literally empty input is skipped: whitespace-only text is copied. The
      copied indicator is raised only when the write succeeds; nothing else
      changes. */
  function Copy(s: State, clipboardAccepts: bool): (r: CopyStep)
    ensures r.write.None? <==> s.inputText == ""
    ensures r.write.Some? ==> r.write.value == s.inputText
    ensures r.next.copied <==> s.copied || (s.inputText != "" && clipboardAccepts)
    ensures r.next.(copied := s.copied) == s
  {
    if s.inputText == "" then CopyStep(None, s)
    else if clipboardAccepts then CopyStep(Some(s.inputText), s.(copied := true))
    else CopyStep(Some(s.inputText), s)
  }

  /** The history button flips the panel's visibility and nothing else. */
  function ToggleHistory(s: State): (r: State)
    ensures r.showHistory != s.showHistory
    ensures r.(showHistory := s.showHistory) == s
  {
    s.(showHistory := !s.showHistory)
  }

  /** Typing into the text field. */
  function EditText(s: State, text: string): (r: State)
    ensures r.inputText == text
    ensures r.(inputText := s.inputText) == s
  {
    s.(inputText := text)
  }

  /** Typing into the title field. */
  function EditTitle(s: State, title: string): (r: State)
    ensures r.qrTitle == title
    ensures r.(qrTitle := s.qrTitle) == s
  {
    s.(qrTitle := title)
  }

  /** The export action: it reads the stored image and the title currently in
      the form (not the title recorded when the code was generated) and changes
      no state. */
  function Download(s: State, f: Export.Format, p: Export.Platform): (r: Option<Export.SaveCall>)
    ensures s.qrDataURL == "" ==> r.None?
    ensures r.Some? ==> r.value.fileName == Export.FileName(s.qrTitle, f)
                        && r.value.mimeType == Export.MimeType(f)
                        && r.value.image == s.qrDataURL
  {
    Export.Download(s.qrDataURL, s.qrTitle, f, p)
  }

  /** The user actions of the page, with the outside world's answers. */
  datatype Action =
    | GenerateAction(outcome: EncodeOutcome, id: string, timestamp: int)
    | LoadAction(item: Item)
    | CopyAction(clipboardAccepts: bool)
    | ToggleAction
    | EditTextAction(text: string)
    | EditTitleAction(title: string)

  function Step(s: State, a: Action): State
  {
    match a
    case GenerateAction(o, id, t) => Generate(s, o, id, t).next
    case LoadAction(item) => LoadFromHistory(s, item)
    case CopyAction(ok) => Copy(s, ok).next
    case ToggleAction => ToggleHistory(s)
    case EditTextAction(t) => EditText(s, t)
    case EditTitleAction(t) => EditTitle(s, t)
  }

  /** The state after a sequence of actions, first action first. */
  function Run(s: State, actions: seq<Action>): State
    decreases |actions|
  {
    if actions == [] then s else Run(Step(s, actions[0]), actions[1..])
  }

  /** What holds of every state the page can reach: the history is within its
      cap and every entry holds non-blank text; the displayed value is the
      newest entry's text; nothing is displayed before the first generation. */
  predicate Consistent(s: State)
  {
    && |s.history| <= Capacity
    && (forall i :: 0 <= i < |s.history| ==> !IsBlank(s.history[i].text))
    && (s.history == [] <==> s.qrValue == "")
    && (s.history != [] ==> s.history[0].text == s.qrValue)
    && (s.qrValue == "" ==> s.qrDataURL == "")
  }

  lemma InitialConsistent()
    ensures Consistent(Initial)
  {
  }

  /** Every action keeps the state consistent. */
  lemma StepPreservesConsistent(s: State, a: Action)
    requires Consistent(s)
    ensures Consistent(Step(s, a))
  {
    match a
    case GenerateAction(o, id, t) =>
      var r := Generate(s, o, id, t);
      if r.request.Some? && o.Encoded? {
        var h := r.next.history;
        forall i | 0 <= i < |h|
          ensures !IsBlank(h[i].text)
        {
          if i > 0 {
            assert h[i] == h[1..][i - 1] == s.history[i - 1];
          }
        }
      }
    case _ =>
  }

  /** Any sequence of actions from a consistent state ends in one. */
  lemma {:induction false} RunPreservesConsistent(s: State, actions: seq<Action>)
    requires Consistent(s)
    ensures Consistent(Run(s, actions))
    decreases |actions|
  {
    if actions != [] {
      StepPreservesConsistent(s, actions[0]);
      RunPreservesConsistent(Step(s, actions[0]), actions[1..]);
    }
  }

  /** Every reachable page keeps at most three history entries. */
  lemma HistoryNeverExceedsCap(actions: seq<Action>)
    ensures |Run(Initial, actions).history| <= Capacity
  {
    RunPreservesConsistent(Initial, actions);
  }

  /** Until a generation has succeeded, exporting saves nothing. */
  lemma ExportBeforeAnyCodeIsNoop(actions: seq<Action>, f: Export.Format, p: Export.Platform)
    requires Run(Initial, actions).history == []
    ensures Download(Run(Initial, actions), f, p).None?
  {
    RunPreservesConsistent(Initial, actions);
  }

  /** Picking any entry of a reachable history and generating again issues an
      encoder call for that entry's text and, on success, records a new entry
      with the entry's text and title at the front. */
  lemma ReloadAndRegenerate(s: State, i: nat, outcome: EncodeOutcome, id: string, timestamp: int)
    requires Consistent(s) && i < |s.history|
    ensures var item := s.history[i];
            var r := Generate(LoadFromHistory(s, item), outcome, id, timestamp);
            && r.request == Some(EncodeRequest(item.text, QrOptions))
            && (outcome.Encoded? ==> r.next.history[0] == Item(id, item.text, item.title, timestamp)
                                     && r.next.qrValue == item.text)
  {
  }

  /** The export names the file after the title in the form at export time:
      editing the title after generating changes the saved name, even though
      the history entry keeps the old title. */
  lemma ExportUsesCurrentTitle(s: State, title: string, f: Export.Format, p: Export.Platform)
    requires Download(s, f, p).Some?
    ensures Download(EditTitle(s, title), f, p).Some?
    ensures Download(EditTitle(s, title), f, p).value.fileName == Export.FileName(title, f)
    ensures EditTitle(s, title).history == s.history
  {
  }

  /** Whitespace-only input is copied but does not generate: the two guards
      differ, since copy tests for the empty string and generate trims. */
  lemma CopyAndGenerateGuardsDiffer(s: State, clipboardAccepts: bool,
                                    outcome: EncodeOutcome, id: string, timestamp: int)
    requires s.inputText != "" && IsBlank(s.inputText)
    ensures Copy(s, clipboardAccepts).write == Some(s.inputText)
    ensures Generate(s, outcome, id, timestamp).request.None?
    ensures Generate(s, outcome, id, timestamp).next == s
  {
  }

  /** Fill the form with an entry's text and title, then generate successfully
      with the given data URL. */
  function Regenerate(s: State, item: Item, url: string): State
  {
    Generate(EditTitle(EditText(s, item.text), item.title), Encoded(url), item.id, item.timestamp).next
  }

  /** A session of successful generations, oldest first. */
  function RegenerateAll(s: State, items: seq<Item>, urls: seq<string>): State
    requires |urls| == |items|
  {
    if items == [] then s
    else Regenerate(RegenerateAll(s, items[..|items| - 1], urls[..|urls| - 1]),
                    items[|items| - 1], urls[|urls| - 1])
  }

  /** A session of successful generations from an empty history leaves exactly
      the history that prepending each entry in turn produces. */
  lemma {:induction false} RegenerateAllReplays(s: State, items: seq<Item>, urls: seq<string>)
    requires |urls| == |items| && s.history == []
    requires forall i :: 0 <= i < |items| ==> !IsBlank(items[i].text)
    ensures RegenerateAll(s, items, urls).history == Replay(items)
  {
    if items != [] {
      var init := items[..|items| - 1];
      RegenerateAllReplays(s, init, urls[..|urls| - 1]);
      var last := items[|items| - 1];
      assert !IsBlank(last.text);
    }
  }

  /** After any session of successful generations the history shows the most
      recent three, newest first: a fourth generation evicts the oldest. */
  lemma SessionKeepsMostRecentThree(s: State, items: seq<Item>, urls: seq<string>)
    requires |urls| == |items| && s.history == []
    requires forall i :: 0 <= i < |items| ==> !IsBlank(items[i].text)
    ensures RegenerateAll(s, items, urls).history == Reverse(items)[..Min(Capacity, |items|)]
  {
    RegenerateAllReplays(s, items, urls);
    ReplayKeepsMostRecent(items);
  }

  /** The worked example: text "https://example.com" with title "My Site",
      generated successfully, records exactly one history entry and shows the
      code; exporting it as PNG then saves "My Site.png" as a PNG image. */
  lemma ExampleSession(url: string, id: string, timestamp: int)
    requires url != ""
    ensures var s := Generate(EditTitle(EditText(Initial, "https://example.com"), "My Site"),
                              Encoded(url), id, timestamp).next;
            && s.history == [Item(id, "https://example.com", "My Site", timestamp)]
            && Download(s, Export.Png, Export.Platform(true, true, true)).Some?
            && Download(s, Export.Png, Export.Platform(true, true, true)).value.fileName == "My Site.png"
            && Download(s, Export.Png, Export.Platform(true, true, true)).value.mimeType == "image/png"
  {
    var text := "https://example.com";
    assert text[0] == 'h' && !IsWhitespace('h');
    var form := EditTitle(EditText(Initial, text), "My Site");
    var r := Generate(form, Encoded(url), id, timestamp);
    assert r.request.Some?;
    assert r.next.history == [Item(id, text, "My Site", timestamp)];
    assert r.next.qrTitle == "My Site" && r.next.qrDataURL == url;
    assert Export.FileName("My Site", Export.Png) == "My Site.png";
  }
}
