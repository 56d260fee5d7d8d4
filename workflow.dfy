/**
  The session workflow of the translator: the five session-state fields,
  the "Traduire" action that detects the source language and fills the
  candidate translations, and the "Approve Translation" action that saves
  one candidate to the CSV file and, on success, resets the session.

  The language detector and the two translation engines are opaque: the
  detected code is a parameter, and each engine is a function parameter,
  `marian(modelName, text)` and `nllb(text, srcCode, tgtCode)`.
 */
module Workflow {
  import opened Wrappers
  import opened Languages
  import opened Records

  /** The five session-state fields. */
  datatype SessionState = SessionState(
    userText: string,
    translatedTextNllb: string,
    translatedTextMarian: string,
    srcLang: string,
    destLangIso: string)

  /** The state a new session starts in and a successful approval returns to. */
  const Initial: SessionState := SessionState("", "", "", "en", "")

  /** What the "Traduire" action reports. */
  datatype Notice =
    | PleaseEnterText
    | UnsupportedLanguageCode
    | Ran(engines: seq<Engine>)

  /**
    The session after "Traduire" with `text` and destination `dest`, where the
    detector returned `detected`. Every engine that runs overwrites its own
    candidate field; a candidate of an engine that does not run keeps whatever
    an earlier submission left in it.
   */
  function Submitted(s: SessionState, text: string, dest: string, detected: string,
                     marian: (string, string) -> string,
                     nllb: (string, string, string) -> string): (r: (SessionState, Notice))
    ensures text == "" ==> r == (s, PleaseEnterText)
    ensures text != "" ==> r.0.userText == text && r.0.srcLang == detected && r.1 != PleaseEnterText
    ensures r.0.destLangIso == s.destLangIso
    ensures r.1 == UnsupportedLanguageCode <==>
              text != "" && (detected !in NllbCodes || dest !in NllbCodes)
    ensures r.1.Ran? ==> r.1.engines == SelectEngines(detected, dest)
    ensures r.1.Ran? && MarianMT in r.1.engines ==>
              r.0.translatedTextMarian == marian(MarianModelName(MarianCodes[detected], MarianCodes[dest]), text)
    ensures r.1.Ran? && NLLB in r.1.engines ==>
              r.0.translatedTextNllb == nllb(text, NllbCodes[detected], NllbCodes[dest])
    ensures !(r.1.Ran? && MarianMT in r.1.engines) ==> r.0.translatedTextMarian == s.translatedTextMarian
    ensures !(r.1.Ran? && NLLB in r.1.engines) ==> r.0.translatedTextNllb == s.translatedTextNllb
  {
    if text == "" then (s, PleaseEnterText)
    else
      var s' := s.(userText := text, srcLang := detected);
      if Get(NllbCodes, detected) == "" || Get(NllbCodes, dest) == "" then
        (s', UnsupportedLanguageCode)
      else
        var engines := SelectEngines(detected, dest);
        var marianText :=
          if MarianMT in engines
          then marian(MarianModelName(MarianCodes[detected], MarianCodes[dest]), text)
          else s.translatedTextMarian;
        var nllbText :=
          if NLLB in engines
          then nllb(text, NllbCodes[detected], NllbCodes[dest])
          else s.translatedTextNllb;
        (s'.(translatedTextMarian := marianText, translatedTextNllb := nllbText), Ran(engines))
  }

  /**
    The row "Approve Translation" would save, or None when no candidate is
    non-empty (the button is then not shown). With two candidates the radio
    choice decides; with one, that one is saved under its engine's label.
    The target language is the destination selected at approval time.
   */
  function ApprovalRow(s: SessionState, choice: Engine, dest: string): (r: Option<Row>)
    ensures r.Some? <==> s.translatedTextNllb != "" || s.translatedTextMarian != ""
    ensures r.Some? ==>
              && r.value.sourceLanguage == s.srcLang
              && r.value.targetLanguage == dest
              && r.value.originalText == s.userText
              && r.value.translatedText != ""
    ensures r.Some? ==>
              || (r.value.model == Label(NLLB) && r.value.translatedText == s.translatedTextNllb)
              || (r.value.model == Label(MarianMT) && r.value.translatedText == s.translatedTextMarian)
    ensures s.translatedTextNllb != "" && s.translatedTextMarian != "" ==>
              r.Some? && r.value.model == Label(choice)
    ensures s.translatedTextNllb != "" && s.translatedTextMarian == "" ==>
              r.Some? && r.value.model == "NLLB" && r.value.translatedText == s.translatedTextNllb
    ensures s.translatedTextNllb == "" && s.translatedTextMarian != "" ==>
              r.Some? && r.value.model == "MarianMT" && r.value.translatedText == s.translatedTextMarian
  {
    if s.translatedTextNllb != "" && s.translatedTextMarian != "" then
      var chosen := if choice == NLLB then s.translatedTextNllb else s.translatedTextMarian;
      Some(Row(s.srcLang, dest, s.userText, chosen, Label(choice)))
    else if s.translatedTextNllb != "" || s.translatedTextMarian != "" then
      var engine := if s.translatedTextNllb != "" then NLLB else MarianMT;
      var chosen := if s.translatedTextNllb != "" then s.translatedTextNllb else s.translatedTextMarian;
      Some(Row(s.srcLang, dest, s.userText, chosen, Label(engine)))
    else
      None
  }

  /** The session together with the CSV file. */
  datatype App = App(session: SessionState, csv: Table)

  /** What the "Approve Translation" action reports. */
  datatype ApproveResult = NothingToApprove | SavedOk | SaveFailed

  /**
    The application after "Approve Translation"; `ok` is whether writing the
    file succeeds. Only a successful save resets the session; a failed one
    leaves the session and the file as they were, so the user can retry.
   */
  function Approved(a: App, choice: Engine, dest: string, ok: bool): (r: (App, ApproveResult))
    ensures r.1 == SavedOk <==> ok && (a.session.translatedTextNllb != "" || a.session.translatedTextMarian != "")
    ensures r.1 == SaveFailed <==> !ok && (a.session.translatedTextNllb != "" || a.session.translatedTextMarian != "")
    ensures r.1 != SavedOk ==> r.0 == a
    ensures r.1 == SavedOk ==>
              r.0.session == Initial
              && Loaded(r.0.csv) == Loaded(a.csv) + [ApprovalRow(a.session, choice, dest).value]
    ensures WellFormed(a.csv) ==> WellFormed(r.0.csv)
  {
    match ApprovalRow(a.session, choice, dest)
    case None => (a, NothingToApprove)
    case Some(row) =>
      if ok then (App(Initial, Saved(a.csv, row, true)), SavedOk)
      else (a, SaveFailed)
  }

  /** The `st.session_state` of one browser session. */
  class Session {
    var userText: string
    var translatedTextNllb: string
    var translatedTextMarian: string
    var srcLang: string
    var destLangIso: string

    function State(): SessionState
      reads this
    {
      SessionState(userText, translatedTextNllb, translatedTextMarian, srcLang, destLangIso)
    }

    /** The defaults a fresh session is given. */
    constructor ()
      ensures State() == Initial
    {
      userText := "";
      translatedTextNllb := "";
      translatedTextMarian := "";
      srcLang := "en";
      destLangIso := "";
    }

    /** The "Traduire" button. */
    method Submit(text: string, dest: string, detected: string,
                  marian: (string, string) -> string,
                  nllb: (string, string, string) -> string) returns (notice: Notice)
      modifies this
      ensures (State(), notice) == Submitted(old(State()), text, dest, detected, marian, nllb)
    {
      if text != "" {
        userText := text;
        srcLang := detected;
        var srcNllb := Get(NllbCodes, detected);
        var destNllb := Get(NllbCodes, dest);
        var srcMarian := Get(MarianCodes, detected);
        var destMarian := Get(MarianCodes, dest);
        if srcNllb == "" || destNllb == "" {
          notice := UnsupportedLanguageCode;
        } else if detected == "ar" && dest == "fr" {
          translatedTextMarian := marian(MarianModelName(srcMarian, destMarian), text);
          notice := Ran([MarianMT]);
        } else if detected == "ar" && dest == "en" {
          translatedTextNllb := nllb(text, srcNllb, destNllb);
          notice := Ran([NLLB]);
        } else if detected == "fr" && dest == "ar" {
          translatedTextMarian := marian(MarianModelName(srcMarian, destMarian), text);
          translatedTextNllb := nllb(text, srcNllb, destNllb);
          notice := Ran([MarianMT, NLLB]);
        } else if detected == "fr" && dest == "en" {
          translatedTextNllb := nllb(text, srcNllb, destNllb);
          notice := Ran([NLLB]);
        } else if detected == "en" && dest == "fr" {
          translatedTextMarian := marian(MarianModelName(srcMarian, destMarian), text);
          translatedTextNllb := nllb(text, srcNllb, destNllb);
          notice := Ran([MarianMT, NLLB]);
        } else if detected == "en" && dest == "ar" {
          translatedTextMarian := marian(MarianModelName(srcMarian, destMarian), text);
          notice := Ran([MarianMT]);
        } else {
          notice := Ran([]);
        }
      } else {
        notice := PleaseEnterText;
      }
    }

    /** Clears the session after a successful save. */
    method Reset()
      modifies this
      ensures State() == Initial
    {
      userText := "";
      translatedTextNllb := "";
      translatedTextMarian := "";
      srcLang := "en";
      destLangIso := "";
    }

    /**
      The "Approve Translation" button: `choice` is the radio selection, `dest`
      the destination currently selected, `ok` whether the write succeeds.
     */
    method Approve(choice: Engine, dest: string, file: CsvFile, ok: bool) returns (result: ApproveResult)
      requires file.Valid()
      modifies this, file
      ensures file.Valid()
      ensures (App(State(), file.View()), result)
              == Approved(App(old(State()), old(file.View())), choice, dest, ok)
    {
      if translatedTextNllb != "" && translatedTextMarian != "" {
        var chosen := if choice == NLLB then translatedTextNllb else translatedTextMarian;
        var row := Row(srcLang, dest, userText, chosen, Label(choice));
        var saved := file.Save(row, ok);
        if saved {
          Reset();
          result := SavedOk;
        } else {
          result := SaveFailed;
        }
      } else if translatedTextNllb != "" || translatedTextMarian != "" {
        var engine := if translatedTextNllb != "" then NLLB else MarianMT;
        var chosen := if translatedTextNllb != "" then translatedTextNllb else translatedTextMarian;
        var row := Row(srcLang, dest, userText, chosen, Label(engine));
        var saved := file.Save(row, ok);
        if saved {
          Reset();
          result := SavedOk;
        } else {
          result := SaveFailed;
        }
      } else {
        result := NothingToApprove;
      }
    }
  }

  /** One user action. */
  datatype Event =
    | SubmitText(text: string, dest: string, detected: string)
    | ApproveChoice(choice: Engine, dest: string, ok: bool)

  function Step(a: App, e: Event,
                marian: (string, string) -> string,
                nllb: (string, string, string) -> string): App
  {
    match e
    case SubmitText(text, dest, detected) =>
      a.(session := Submitted(a.session, text, dest, detected, marian, nllb).0)
    case ApproveChoice(choice, dest, ok) =>
      Approved(a, choice, dest, ok).0
  }

  /** The application after a series of user actions, first to last. */
  function Run(a: App, events: seq<Event>,
               marian: (string, string) -> string,
               nllb: (string, string, string) -> string): App
    decreases |events|
  {
    if events == [] then a
    else Run(Step(a, events[0], marian, nllb), events[1..], marian, nllb)
  }

  /**
    What every reachable session satisfies: a candidate is only ever present
    together with a non-empty submitted text (not necessarily the text it was
    produced from, see `StaleCandidateIsSaved`), and `destLangIso` is never
    anything but the empty string.
   */
  predicate Coherent(s: SessionState)
  {
    && (s.translatedTextNllb != "" || s.translatedTextMarian != "" ==> s.userText != "")
    && s.destLangIso == ""
  }

  /** A saved row records non-empty text, a non-empty translation and an engine label. */
  predicate GoodRow(row: Row)
  {
    row.originalText != "" && row.translatedText != "" && (row.model == "MarianMT" || row.model == "NLLB")
  }

  lemma InitialCoherent()
    ensures Coherent(Initial)
  {
  }

  /** One action keeps the session coherent and only appends good rows to the file. */
  lemma StepAppendsGoodRows(a: App, e: Event,
                            marian: (string, string) -> string,
                            nllb: (string, string, string) -> string)
    requires Coherent(a.session) && WellFormed(a.csv)
    ensures var b := Step(a, e, marian, nllb);
            && Coherent(b.session) && WellFormed(b.csv)
            && Loaded(a.csv) <= Loaded(b.csv)
            && forall i :: |Loaded(a.csv)| <= i < |Loaded(b.csv)| ==> GoodRow(Loaded(b.csv)[i])
  {
    match e
    case SubmitText(text, dest, detected) =>
    case ApproveChoice(choice, dest, ok) =>
      var r := Approved(a, choice, dest, ok);
      if r.1 == SavedOk {
        var row := ApprovalRow(a.session, choice, dest).value;
        assert Loaded(r.0.csv) == Loaded(a.csv) + [row];
        assert GoodRow(row);
      }
  }

  /**
    Over any series of actions from a coherent session, the session stays
    coherent, the rows already in the file are never changed or removed, and
    every row added is a good row.
   */
  lemma {:induction false} RunAppendsGoodRows(a: App, events: seq<Event>,
                                              marian: (string, string) -> string,
                                              nllb: (string, string, string) -> string)
    requires Coherent(a.session) && WellFormed(a.csv)
    ensures var b := Run(a, events, marian, nllb);
            && Coherent(b.session) && WellFormed(b.csv)
            && Loaded(a.csv) <= Loaded(b.csv)
            && forall i :: |Loaded(a.csv)| <= i < |Loaded(b.csv)| ==> GoodRow(Loaded(b.csv)[i])
    decreases |events|
  {
    if events != [] {
      var a' := Step(a, events[0], marian, nllb);
      StepAppendsGoodRows(a, events[0], marian, nllb);
      RunAppendsGoodRows(a', events[1..], marian, nllb);
    }
  }

  /**
    A submission does not clear the candidate of an engine that does not run:
    after en->fr left a MarianMT candidate, a French text sent to English runs
    only NLLB, and approving MarianMT saves the older translation next to the
    new original text.
   */
  lemma StaleCandidateIsSaved(s: SessionState, text: string,
                              marian: (string, string) -> string,
                              nllb: (string, string, string) -> string)
    requires s.translatedTextMarian != "" && text != ""
    requires nllb(text, "fra_Latn", "eng_Latn") != ""
    ensures var s' := Submitted(s, text, "en", "fr", marian, nllb).0;
            && s'.translatedTextMarian == s.translatedTextMarian
            && ApprovalRow(s', MarianMT, "en") == Some(Row("fr", "en", text, s.translatedTextMarian, "MarianMT"))
  {
  }

  /**
    Arabic text sent to French runs MarianMT alone; approving it saves one row
    labelled MarianMT whatever the radio holds, and the session is reset.
   */
  lemma ArabicToFrenchScenario(text: string, choice: Engine, csv: Table,
                               marian: (string, string) -> string,
                               nllb: (string, string, string) -> string)
    requires text != "" && WellFormed(csv)
    requires marian(MarianModelName("ar", "fr"), text) != ""
    ensures var (s, n) := Submitted(Initial, text, "fr", "ar", marian, nllb);
            && n == Ran([MarianMT])
            && var (b, res) := Approved(App(s, csv), choice, "fr", true);
            && res == SavedOk && b.session == Initial
            && Loaded(b.csv) == Loaded(csv) + [Row("ar", "fr", text, marian(MarianModelName("ar", "fr"), text), "MarianMT")]
  {
  }

  /**
    English text sent to French runs MarianMT then NLLB; choosing NLLB saves
    the NLLB output labelled NLLB.
   */
  lemma EnglishToFrenchScenario(text: string, csv: Table,
                                marian: (string, string) -> string,
                                nllb: (string, string, string) -> string)
    requires text != "" && WellFormed(csv)
    requires marian(MarianModelName("en", "fr"), text) != ""
    requires nllb(text, "eng_Latn", "fra_Latn") != ""
    ensures var (s, n) := Submitted(Initial, text, "fr", "en", marian, nllb);
            && n == Ran([MarianMT, NLLB])
            && var (b, res) := Approved(App(s, csv), NLLB, "fr", true);
            && res == SavedOk
            && Loaded(b.csv) == Loaded(csv) + [Row("en", "fr", text, nllb(text, "eng_Latn", "fra_Latn"), "NLLB")]
  {
  }

  /**
    Text detected as an unsupported language runs no engine and reports it;
    from a fresh session there is then nothing to approve and the file is untouched.
   */
  lemma UnsupportedSourceScenario(text: string, choice: Engine, dest: string, ok: bool, csv: Table,
                                  marian: (string, string) -> string,
                                  nllb: (string, string, string) -> string)
    requires text != ""
    ensures var (s, n) := Submitted(Initial, text, "en", "de", marian, nllb);
            && n == UnsupportedLanguageCode
            && s == Initial.(userText := text, srcLang := "de")
            && Approved(App(s, csv), choice, dest, ok) == (App(s, csv), NothingToApprove)
  {
  }
}
