/** The tajwid screen: a speech-recognition result becomes a transcript,
    and a placeholder check turns the transcript into one of three fixed
    messages. */
module TajwidScreen {
  import opened Results
  import Text

  const QafMessage: string := "Bonne récitation, pensez à l'emphase sur la lettre ق (Qaf)."
  const RetryMessage: string := "Aucune donnée reconnue. Veuillez réessayer."
  const BetaMessage: string := "Texte reçu. Aucune faute de tajwid détectée dans cette version bêta."

  /** The word the check looks for: "qul". */
  const Qul: string := "قل"

  /** `simulateCorrection`: the Qaf hint when the text contains "qul", the
      retry message when the text is blank, the beta message otherwise. */
  function SimulateCorrection(text: string): (msg: string)
    ensures Text.Contains(text, Qul) ==> msg == QafMessage
    ensures !Text.Contains(text, Qul) && Text.IsBlank(text) ==> msg == RetryMessage
    ensures !Text.Contains(text, Qul) && !Text.IsBlank(text) ==> msg == BetaMessage
  {
    if Text.Contains(text, Qul) then QafMessage
    else if Text.IsBlank(text) then RetryMessage
    else BetaMessage
  }

  /** A blank text cannot contain "qul", whose letters are not spaces. */
  lemma BlankHasNoQul(text: string)
    requires Text.IsBlank(text)
    ensures !Text.Contains(text, Qul)
  {
    Text.ContainsFoldedIsOccurs(text, Qul, Text.Exact);
    forall i: nat | i + |Qul| <= |text|
      ensures !Text.MatchesAt(text, Qul, i, Text.Exact)
    {
      assert Text.IsWhitespace(text[i]) && !Text.IsWhitespace(Qul[0]);
    }
  }

  /** Which message comes out depends only on two facts of the text, and the
      order of the two tests does not matter: every blank text gets the retry
      message, every text with "qul" the Qaf hint. */
  lemma CorrectionClassifies(text: string)
    ensures SimulateCorrection(text) == RetryMessage <==> Text.IsBlank(text)
    ensures SimulateCorrection(text) == QafMessage <==> Text.Contains(text, Qul)
    ensures SimulateCorrection(text) == BetaMessage <==> !Text.IsBlank(text) && !Text.Contains(text, Qul)
  {
    if Text.IsBlank(text) {
      BlankHasNoQul(text);
    }
  }

  /** The transcript: the recognizer's first hypothesis, or "" when it gave
      none. */
  function Transcript(spokenText: Option<seq<string>>): (t: string)
    ensures spokenText.Some? && |spokenText.value| > 0 ==> t == spokenText.value[0]
    ensures spokenText.None? || |spokenText.value| == 0 ==> t == ""
  {
    if spokenText.Some? && |spokenText.value| > 0 then spokenText.value[0] else ""
  }

  datatype TajwidState = TajwidState(transcript: string, correction: string)

  const Initial: TajwidState := TajwidState("", "")

  /** The recognizer's answer: ignored unless it reports success; on success
      the transcript and its correction are both replaced. */
  function OnResult(st: TajwidState, resultOk: bool, spokenText: Option<seq<string>>): (r: TajwidState)
    ensures !resultOk ==> r == st
    ensures resultOk ==> r.transcript == Transcript(spokenText)
    ensures resultOk ==> r.correction == SimulateCorrection(r.transcript)
  {
    if resultOk then
      var t := Transcript(spokenText);
      TajwidState(t, SimulateCorrection(t))
    else st
  }

  /** What the screen shows under the button: each block only when its
      text is not blank. */
  function Shown(st: TajwidState): (r: (Option<string>, Option<string>))
    ensures r.0.Some? <==> !Text.IsBlank(st.transcript)
    ensures r.1.Some? <==> !Text.IsBlank(st.correction)
    ensures r.0.Some? ==> r.0.value == st.transcript
    ensures r.1.Some? ==> r.1.value == st.correction
  {
    (if !Text.IsBlank(st.transcript) then Some(st.transcript) else None,
     if !Text.IsBlank(st.correction) then Some(st.correction) else None)
  }

  /** After any successful recognition a correction is shown, and an empty
      answer from the recognizer shows only the retry message. */
  lemma SuccessAlwaysShowsCorrection(st: TajwidState, spokenText: Option<seq<string>>)
    ensures Shown(OnResult(st, true, spokenText)).1.Some?
    ensures spokenText.None? ==>
      Shown(OnResult(st, true, spokenText)) == (None, Some(RetryMessage))
  {
    assert QafMessage[|QafMessage| - 1] == '.';
    assert RetryMessage[|RetryMessage| - 1] == '.';
    assert BetaMessage[|BetaMessage| - 1] == '.';
    CorrectionClassifies("");
  }
}
