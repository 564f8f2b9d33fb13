/**
 The state the puzzle component keeps: the board and whether play has
 started. The two one-shot timers and the button presses are the events that
 replace it; each event replaces the whole state.
 */
module App {
  import opened Geometry
  import opened Board
  import opened Adjacency
  import opened Move
  import opened Shuffle

  datatype AppState = AppState(pieces: seq<Piece>, isStarted: bool)

  /**
   What can happen to the component: the shuffle timer fires with the order
   the random sort produced, the start timer fires, or the button of piece
   `k` is pressed.
   */
  datatype Event =
    | ShuffleTimer(perm: seq<int>)
    | StartTimer
    | Press(k: int)

  predicate ValidEvent(e: Event) {
    e.ShuffleTimer? ==> IsCellPermutation(e.perm)
  }

  /**
   The state when the component mounts: the solved board, valid, with the
   last cell open, and play not yet started.
   */
  function Initial(): (s: AppState)
    ensures ValidBoard(s.pieces)
    ensures FindOpenPosition(s.pieces) == SquareCount - 1
    ensures !s.isStarted
  {
    InitialBoard();
    AppState(InitPieceArray(), false)
  }

  /** The button of piece `k` is enabled: play has started and the piece borders the open cell. */
  predicate Enabled(s: AppState, k: int) {
    && 0 <= k < |s.pieces|
    && IsPieceBorderingOpenPosition(s.pieces[k], FindOpenPosition(s.pieces))
    && s.isStarted
  }

  /**
   The state after one event. The start timer starts play and leaves the
   board alone; the shuffle timer replaces the board by its shuffle; a press
   on an enabled button replaces it by the move of that piece, and a press on
   a disabled one changes nothing. No event changes the number of pieces or
   their labels.
   */
  function Step(s: AppState, e: Event): (t: AppState)
    requires ValidEvent(e)
    requires |s.pieces| <= SquareCount
    ensures Labels(t.pieces) == Labels(s.pieces)
    ensures e.StartTimer? ==> t == s.(isStarted := true)
    ensures e.ShuffleTimer? ==> t == s.(pieces := ShufflePieces(s.pieces, e.perm))
    ensures e.Press? && Enabled(s, e.k) ==> t == s.(pieces := MovePiece(s.pieces, e.k))
    ensures e.Press? && !Enabled(s, e.k) ==> t == s
  {
    match e
    case ShuffleTimer(perm) => s.(pieces := ShufflePieces(s.pieces, perm))
    case StartTimer => s.(isStarted := true)
    case Press(k) => if Enabled(s, k) then s.(pieces := MovePiece(s.pieces, k)) else s
  }

  /**
   The state after a sequence of events: the labels stay, and play has
   started exactly when it had before or the start timer is among the events.
   */
  function Run(s: AppState, events: seq<Event>): (t: AppState)
    requires |s.pieces| <= SquareCount
    requires forall i :: 0 <= i < |events| ==> ValidEvent(events[i])
    decreases |events|
    ensures Labels(t.pieces) == Labels(s.pieces)
    ensures t.isStarted <==> s.isStarted || StartTimer in events
  {
    if events == [] then s else Run(Step(s, events[0]), events[1..])
  }

  /** Every event keeps the board valid. */
  lemma StepPreservesValid(s: AppState, e: Event)
    requires ValidEvent(e)
    requires ValidBoard(s.pieces)
    ensures ValidBoard(Step(s, e).pieces)
  {
    match e
    case ShuffleTimer(perm) => ShuffleValid(s.pieces, perm);
    case StartTimer =>
    case Press(k) =>
      if Enabled(s, k) {
        MovePreservesValid(s.pieces, k);
      }
  }

  /** Any sequence of events keeps the board valid and the labels as they were. */
  lemma {:induction false} RunPreservesValid(s: AppState, events: seq<Event>)
    requires ValidBoard(s.pieces)
    requires forall i :: 0 <= i < |events| ==> ValidEvent(events[i])
    ensures ValidBoard(Run(s, events).pieces)
    ensures Labels(Run(s, events).pieces) == Labels(s.pieces)
    decreases |events|
  {
    if events != [] {
      StepPreservesValid(s, events[0]);
      RunPreservesValid(Step(s, events[0]), events[1..]);
    }
  }

  /**
   Every state the component can reach holds a valid board with the labels of
   the solved board, so it always has exactly one open cell.
   */
  lemma ReachableStatesValid(events: seq<Event>)
    requires forall i :: 0 <= i < |events| ==> ValidEvent(events[i])
    ensures ValidBoard(Run(Initial(), events).pieces)
    ensures Labels(Run(Initial(), events).pieces) == Labels(InitPieceArray())
  {
    InitialBoard();
    RunPreservesValid(Initial(), events);
  }

  /** Before the start timer fires no button is enabled. */
  lemma NothingEnabledBeforeStart(s: AppState, k: int)
    requires !s.isStarted
    ensures !Enabled(s, k)
  {
  }

  /**
   Pressing an enabled button moves the piece to the open cell, its old cell
   becomes the open one, the same button stays enabled, and pressing it again
   gives back the state before the first press.
   */
  lemma PressIsUndoable(s: AppState, k: int)
    requires ValidBoard(s.pieces)
    requires Enabled(s, k)
    ensures Step(s, Press(k)).pieces[k].position == FindOpenPosition(s.pieces)
    ensures FindOpenPosition(Step(s, Press(k)).pieces) == s.pieces[k].position
    ensures Enabled(Step(s, Press(k)), k)
    ensures Step(Step(s, Press(k)), Press(k)) == s
  {
    MovePreservesValid(s.pieces, k);
    MovedPieceStillBorders(s.pieces, k);
    MoveTwiceRestores(s.pieces, k);
  }

  /**
   Once started on the solved board, exactly the buttons of the pieces on
   cells 5 and 7 are enabled.
   */
  lemma SolvedBoardEnabled(k: int)
    ensures Enabled(AppState(InitPieceArray(), true), k) <==> k == 5 || k == 7
  {
    InitialBoard();
    if 0 <= k < PieceCount {
      CornerNeighbours(InitPieceArray()[k]);
    }
  }

  /**
   When the start timer fires on the freshly mounted component, exactly the
   buttons of the pieces on cells 5 and 7 become enabled.
   */
  lemma StartTimerEnablesCornerNeighbours(k: int)
    ensures Run(Initial(), [StartTimer]).isStarted
    ensures Run(Initial(), [StartTimer]).pieces == InitPieceArray()
    ensures Enabled(Run(Initial(), [StartTimer]), k) <==> k == 5 || k == 7
  {
  }
}
