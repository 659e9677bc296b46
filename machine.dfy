/** The card-counting session as a value: one transition function per user command,
    the invariant every command keeps, and what each command does to the state. */
module Machine {
  import opened Deck
  import opened Ev

  datatype Mode = Discard | Calculator

  /** The whole session state: `cardCounter`, `discardHistory`, `calculatorHistory`
      (each entry one completed pair), `tiangs` (the selection in progress) and `mode`. */
  datatype Snapshot = Snapshot(
    counts: Counts,
    discards: seq<int>,
    rounds: seq<seq<int>>,
    tiangs: seq<int>,
    mode: Mode)

  function Last<T>(s: seq<T>): T
    requires |s| > 0
  {
    s[|s| - 1]
  }

  function DropLast<T>(s: seq<T>): seq<T>
    requires |s| > 0
  {
    s[..|s| - 1]
  }

  /** The state set up on load: full counts, empty histories, discard mode. */
  function Initial(deckCount: int): Snapshot {
    Snapshot(Full(deckCount), [], [], [], Discard)
  }

  /** All the pairs of earlier rounds, one after the other. */
  function Flat(rounds: seq<seq<int>>): seq<int> {
    if rounds == [] then [] else Flat(DropLast(rounds)) + Last(rounds)
  }

  /** Every card the session has taken out of the counts and still remembers. */
  function Pool(s: Snapshot): seq<int> {
    s.discards + s.tiangs + Flat(s.rounds)
  }

  /** The table covers every rank and every remembered card is a rank. */
  predicate Shape(s: Snapshot) {
    && Covers(s.counts)
    && AllRanks(s.discards)
    && AllRanks(s.tiangs)
    && forall i :: 0 <= i < |s.rounds| ==> AllRanks(s.rounds[i])
  }

  /** The current selection is a full pair, so the status text computes an EV. */
  predicate Completed(s: Snapshot) {
    s.mode == Calculator && |s.tiangs| == 2
  }

  /** `calculateEV` on the current pair, with the history lengths taken before the pair is pushed. */
  function EvOf(deckCount: int, s: Snapshot): EvResult
    requires Shape(s) && |s.tiangs| == 2
  {
    Expected(deckCount, s.counts, s.tiangs[0], s.tiangs[1], |s.rounds|, |s.discards|)
  }

  /** The completion step of `updateText`: a full pair is pushed (as a copy) onto the
      calculator history and the selection is emptied; otherwise nothing changes. */
  function Settle(s: Snapshot): Snapshot {
    if Completed(s) then s.(rounds := s.rounds + [s.tiangs], tiangs := []) else s
  }

  /** The card-click handler after its zero-count guard, before `updateText`. */
  function SelectBody(s: Snapshot, r: int): Snapshot
    requires r in s.counts
  {
    match s.mode
    case Discard =>
      s.(discards := s.discards + [r], counts := s.counts[r := s.counts[r] - 1])
    case Calculator =>
      if |s.tiangs| < 2 then s.(tiangs := s.tiangs + [r], counts := s.counts[r := s.counts[r] - 1])
      else s
  }

  /** Selecting rank r: refused (state unchanged) when no copy is left. */
  function Select(s: Snapshot, r: int): Snapshot
    requires r in s.counts
  {
    if s.counts[r] == 0 then s else Settle(SelectBody(s, r))
  }

  /** The EV a select shows, when it completes a pair. */
  function SelectReport(deckCount: int, s: Snapshot, r: int): Option<EvResult>
    requires Shape(s) && IsRank(r)
  {
    if s.counts[r] != 0 && Completed(SelectBody(s, r)) then
      assert AllRanks(SelectBody(s, r).tiangs);
      Some(EvOf(deckCount, SelectBody(s, r)))
    else None
  }

  /** The undo handler before `updateText`. */
  function UndoBody(s: Snapshot): Snapshot
    requires Shape(s)
  {
    match s.mode
    case Discard =>
      if s.discards == [] then s
      else
        var r := Last(s.discards);
        s.(discards := DropLast(s.discards), counts := s.counts[r := s.counts[r] + 1])
    case Calculator =>
      if |s.tiangs| == 0 then
        var popped := if s.rounds == [] then [] else Last(s.rounds);
        s.(rounds := if s.rounds == [] then [] else DropLast(s.rounds),
           tiangs := if popped == [] then [] else DropLast(popped))
      else if |s.tiangs| == 1 then
        var r := s.tiangs[0];
        s.(tiangs := [], counts := s.counts[r := s.counts[r] + 1])
      else s
  }

  /** Undo raises its "Something wrong" alert (selection of two or more cards). */
  predicate UndoAlerts(s: Snapshot) {
    s.mode == Calculator && |s.tiangs| >= 2
  }

  /** Undo with an empty selection in calculator mode and a non-empty history:
      the last pair is reopened. */
  predicate Reopens(s: Snapshot) {
    s.mode == Calculator && s.tiangs == [] && s.rounds != []
  }

  function Undo(s: Snapshot): Snapshot
    requires Shape(s)
  {
    Settle(UndoBody(s))
  }

  /** Leaving calculator mode is refused while cards are selected. */
  predicate ToggleRefused(s: Snapshot) {
    s.mode == Calculator && |s.tiangs| > 0
  }

  function Toggle(s: Snapshot): Snapshot {
    match s.mode
    case Discard => Settle(s.(mode := Calculator))
    case Calculator => if |s.tiangs| > 0 then s else Settle(s.(mode := Discard))
  }

  /** Reset refills the counts and empties selection and histories; the mode is kept. */
  function Reset(deckCount: int, s: Snapshot): Snapshot {
    Settle(Snapshot(Full(deckCount), [], [], [], s.mode))
  }

  /** The cards the session still owes to the counts: zero until a pair is reopened. */
  function Deficit(deckCount: int, s: Snapshot): int
    requires Covers(s.counts)
  {
    52 * deckCount - (Total(s.counts) + |s.discards| + 2 * |s.rounds| + |s.tiangs|)
  }

  /** Count of rank r plus the remembered copies of r that were taken from it. */
  function Accounted(s: Snapshot, r: int): int
    requires r in s.counts
  {
    s.counts[r] + multiset(Pool(s))[r]
  }

  /** Rank r still has a non-negative count, and its count plus its remembered copies
      does not exceed the 4 * deckCount copies in play. */
  predicate RankAccounted(deckCount: int, s: Snapshot, r: int)
    requires r in s.counts
  {
    0 <= s.counts[r] && Accounted(s, r) <= 4 * deckCount
  }

  /** Every rank is accounted. */
  ghost predicate AllAccounted(deckCount: int, s: Snapshot)
    requires Covers(s.counts)
  {
    forall r :: 1 <= r <= 13 ==> RankAccounted(deckCount, s, r)
  }

  /** Every calculator-history entry holds exactly two cards. */
  predicate PairsOnly(rounds: seq<seq<int>>) {
    forall i :: 0 <= i < |rounds| ==> |rounds[i]| == 2
  }

  /** What holds inside a command, before the completion step of `updateText` runs:
      the shape, every rank accounted, no card owed beyond those in play, at most two
      cards selected and none in discard mode, and every history entry a pair. */
  ghost predicate Sound(deckCount: int, s: Snapshot) {
    && deckCount >= 1
    && Shape(s)
    && AllAccounted(deckCount, s)
    && Deficit(deckCount, s) >= 0
    && |s.tiangs| <= 2
    && (s.mode == Discard ==> s.tiangs == [])
    && PairsOnly(s.rounds)
  }

  /** The session invariant, kept by every command: between commands at most one card
      is selected. */
  ghost predicate Inv(deckCount: int, s: Snapshot) {
    Sound(deckCount, s) && |s.tiangs| <= 1
  }
}
