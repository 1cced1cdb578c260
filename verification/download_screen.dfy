/** The download screen's flags and the panel they select. The download
    itself is an outcome the screen is told about. */
module DownloadScreen {

  datatype Flags = Flags(isDownloading: bool, downloadStatus: string, isCompleted: bool, hasError: bool)

  const Initial: Flags := Flags(false, "", false, false)

  /** The four panels of the screen's `when`. */
  datatype Panel = Completed | Downloading | Failed | Ready

  /** The first matching flag wins: completed, then downloading, then error. */
  function PanelOf(f: Flags): (p: Panel)
    ensures p == Completed <==> f.isCompleted
    ensures p == Downloading <==> !f.isCompleted && f.isDownloading
    ensures p == Failed <==> !f.isCompleted && !f.isDownloading && f.hasError
    ensures p == Ready <==> !f.isCompleted && !f.isDownloading && !f.hasError
  {
    if f.isCompleted then Completed
    else if f.isDownloading then Downloading
    else if f.hasError then Failed
    else Ready
  }

  /** What happens on the screen: the ready panel's download button, the
      error panel's retry button, a status line from the running download,
      and the download's end (true for success). */
  datatype Event = PressDownload | PressRetry | Status(message: string) | Finished(ok: bool)

  /** A started or restarted download: the error is cleared and the
      download runs. */
  function Start(f: Flags): (r: Flags)
    ensures r.isDownloading && !r.hasError
    ensures r.isCompleted == f.isCompleted && r.downloadStatus == f.downloadStatus
  {
    f.(hasError := false, isDownloading := true)
  }

  /** The end of a download: success marks it completed, failure raises the
      error; either way it is no longer running. */
  function Finish(f: Flags, ok: bool): (r: Flags)
    ensures !r.isDownloading
    ensures ok ==> r.isCompleted && r.hasError == f.hasError
    ensures !ok ==> r.hasError && r.isCompleted == f.isCompleted
    ensures r.downloadStatus == f.downloadStatus
  {
    if ok then f.(isDownloading := false, isCompleted := true)
    else f.(isDownloading := false, hasError := true)
  }

  /** An event acts only where it can happen: each button exists only in
      its panel, and status lines and the end arrive only from a running
      download. */
  function Step(f: Flags, e: Event): (r: Flags)
    ensures e == PressDownload && PanelOf(f) == Ready ==> r == Start(f)
    ensures e == PressRetry && PanelOf(f) == Failed ==> r == Start(f)
    ensures e.Status? && f.isDownloading ==> r == f.(downloadStatus := e.message)
    ensures e.Finished? && f.isDownloading ==> r == Finish(f, e.ok)
    ensures e == PressDownload && PanelOf(f) != Ready ==> r == f
    ensures e == PressRetry && PanelOf(f) != Failed ==> r == f
    ensures (e.Status? || e.Finished?) && !f.isDownloading ==> r == f
  {
    match e
    case PressDownload => if PanelOf(f) == Ready then Start(f) else f
    case PressRetry => if PanelOf(f) == Failed then Start(f) else f
    case Status(m) => if f.isDownloading then f.(downloadStatus := m) else f
    case Finished(ok) => if f.isDownloading then Finish(f, ok) else f
  }

  /** A running download never shows alongside an error or a completion. */
  predicate Consistent(f: Flags) {
    f.isDownloading ==> !f.hasError && !f.isCompleted
  }

  function Run(f: Flags, es: seq<Event>): (r: Flags)
    ensures Consistent(f) ==> Consistent(r)
    ensures f.isCompleted ==> r.isCompleted
    decreases |es|
  {
    if |es| == 0 then f else Run(Step(f, es[0]), es[1..])
  }

  /** From the start the flags stay consistent, so each panel corresponds
      to exactly one flag being set; once completed, the screen stays on the
      completed panel. */
  lemma PanelsFollowFlags(es: seq<Event>, more: seq<Event>)
    ensures var f := Run(Initial, es);
      && Consistent(f)
      && (PanelOf(f) == Downloading <==> f.isDownloading)
      && (PanelOf(f) == Failed <==> f.hasError && !f.isCompleted)
      && (PanelOf(f) == Completed ==> PanelOf(Run(f, more)) == Completed)
  {
  }

  /** The typical runs: download then success, and download, failure, retry,
      success. */
  lemma TypicalRuns()
    ensures PanelOf(Run(Initial, [])) == Ready
    ensures PanelOf(Run(Initial, [PressDownload])) == Downloading
    ensures PanelOf(Run(Initial, [PressDownload, Finished(true)])) == Completed
    ensures PanelOf(Run(Initial, [PressDownload, Finished(false)])) == Failed
    ensures PanelOf(Run(Initial, [PressDownload, Finished(false), PressRetry])) == Downloading
    ensures PanelOf(Run(Initial, [PressDownload, Finished(false), PressRetry, Finished(true)])) == Completed
  {
    assert [PressDownload, Finished(false), PressRetry, Finished(true)][1..] == [Finished(false), PressRetry, Finished(true)];
  }
}
