/** The timed messages of main.go: the status line set by `showStatus` and
    counted down by `updateStatusMessage`, and the win banner counted down
    by `handlePlayingInput`. Both count frames. */
module Status {

  /** The text of a status line; its colour follows from the kind. */
  datatype Notice =
    | NoNotice
    | Incorrect(count: int)     // "Found %d incorrect numbers", red
    | CellsLeft(count: int)     // "%d cells left to fill", blue
    | CompletedCorrectly        // "Puzzle completed correctly!", green

  datatype StatusMessage = StatusMessage(notice: Notice, timer: int, isVisible: bool)

  /** Frames a status line stays up (`showStatus`). */
  const StatusFrames := 120
  /** Frames the win banner stays up (`messageTimer = 180`). */
  const WinFrames := 180

  /** The status line of a new game: empty, hidden, timer 0. */
  const Hidden := StatusMessage(NoNotice, 0, false)

  /** `showStatus`: replace the line and restart its timer. */
  function Show(n: Notice): (m: StatusMessage)
    ensures m.notice == n && m.isVisible && m.timer == StatusFrames
  {
    StatusMessage(n, StatusFrames, true)
  }

  /** One frame of a countdown: a shown message loses one frame and is hidden
      once none is left; a hidden message is left as it is. */
  function Countdown(visible: bool, timer: int): (bool, int) {
    if !visible then (visible, timer)
    else (timer - 1 > 0, timer - 1)
  }

  /** `updateStatusMessage` */
  function UpdateStatus(m: StatusMessage): (m': StatusMessage)
    ensures m'.notice == m.notice
  {
    var (v, t) := Countdown(m.isVisible, m.timer);
    m.(isVisible := v, timer := t)
  }

  /** `k` frames of countdown. */
  function CountdownTimes(visible: bool, timer: int, k: nat): (bool, int)
  {
    if k == 0 then (visible, timer)
    else
      var (v, t) := CountdownTimes(visible, timer, k - 1);
      Countdown(v, t)
  }

  /** A message shown with `n` frames on its timer is visible after exactly
      the first `n - 1` countdown frames, and hidden from frame `n` on. */
  lemma {:induction false} VisibleForTimer(n: int, k: nat)
    requires n >= 1
    ensures CountdownTimes(true, n, k).0 <==> k < n
    ensures k <= n ==> CountdownTimes(true, n, k).1 == n - k
    ensures k >= n ==> CountdownTimes(true, n, k).1 == 0
  {
    if k > 0 {
      VisibleForTimer(n, k - 1);
    }
  }

  /** A status line from `showStatus` disappears on its 120th frame. */
  lemma StatusLineLasts(n: Notice, k: nat)
    ensures CountdownTimes(Show(n).isVisible, Show(n).timer, k).0 <==> k < StatusFrames
  {
    VisibleForTimer(StatusFrames, k);
  }
}
