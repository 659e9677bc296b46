/** Sequences of user commands: the invariant after every run, and the card balance
    over a run, which moves only at reopening undos and at resets. */
module Runs {
  import opened Deck
  import opened Machine
  import opened Laws

  /** One user action: a card button, the undo or reset button, or the mode banner. */
  datatype Command = ClickCard(rank: int) | ClickUndo | ClickReset | ClickBanner

  /** A card button carries one of the thirteen ranks. */
  predicate CommandOk(c: Command) {
    c.ClickCard? ==> IsRank(c.rank)
  }

  predicate AllOk(cmds: seq<Command>) {
    forall i :: 0 <= i < |cmds| ==> CommandOk(cmds[i])
  }

  /** The snapshot after one command. */
  function Step(deckCount: int, s: Snapshot, c: Command): Snapshot
    requires Shape(s) && CommandOk(c)
  {
    match c
    case ClickCard(r) => Select(s, r)
    case ClickUndo => Undo(s)
    case ClickReset => Reset(deckCount, s)
    case ClickBanner => Toggle(s)
  }

  /** Every command keeps the invariant. A reset clears the balance; an undo that
      reopens a pair owes one more card; every other command keeps the balance. */
  lemma StepInv(deckCount: int, s: Snapshot, c: Command)
    requires Inv(deckCount, s) && CommandOk(c)
    ensures Inv(deckCount, Step(deckCount, s, c))
    ensures Deficit(deckCount, Step(deckCount, s, c)) ==
              if c == ClickReset then 0
              else Deficit(deckCount, s) + (if c == ClickUndo && Reopens(s) then 1 else 0)
  {
    match c
    case ClickCard(r) => SelectInv(deckCount, s, r);
    case ClickUndo => UndoInv(deckCount, s);
    case ClickReset => ResetFresh(deckCount, s);
    case ClickBanner => ToggleInv(deckCount, s);
  }

  /** The snapshot after a sequence of commands; the invariant holds at its end. */
  function Run(deckCount: int, s: Snapshot, cmds: seq<Command>): (t: Snapshot)
    requires Inv(deckCount, s) && AllOk(cmds)
    ensures Inv(deckCount, t)
    decreases |cmds|
  {
    if cmds == [] then s
    else
      StepInv(deckCount, s, cmds[0]);
      Run(deckCount, Step(deckCount, s, cmds[0]), cmds[1..])
  }

  /** How many undos in the run reopen a completed pair. */
  function Reopenings(deckCount: int, s: Snapshot, cmds: seq<Command>): nat
    requires Inv(deckCount, s) && AllOk(cmds)
    decreases |cmds|
  {
    if cmds == [] then 0
    else
      StepInv(deckCount, s, cmds[0]);
      (if cmds[0] == ClickUndo && Reopens(s) then 1 else 0)
        + Reopenings(deckCount, Step(deckCount, s, cmds[0]), cmds[1..])
  }

  /** Over a run without resets, the cards the session owes grow by exactly the number
      of reopening undos. */
  lemma {:induction false} RunBalance(deckCount: int, s: Snapshot, cmds: seq<Command>)
    requires Inv(deckCount, s) && AllOk(cmds)
    requires forall i :: 0 <= i < |cmds| ==> cmds[i] != ClickReset
    ensures Deficit(deckCount, Run(deckCount, s, cmds)) == Deficit(deckCount, s) + Reopenings(deckCount, s, cmds)
    decreases |cmds|
  {
    if cmds != [] {
      StepInv(deckCount, s, cmds[0]);
      RunBalance(deckCount, Step(deckCount, s, cmds[0]), cmds[1..]);
    }
  }

  /** A run, resets included, from a state that owes nothing and without reopening
      undos ends in a state that owes nothing. */
  lemma {:induction false} BalanceKept(deckCount: int, s: Snapshot, cmds: seq<Command>)
    requires Inv(deckCount, s) && AllOk(cmds) && Deficit(deckCount, s) == 0
    requires Reopenings(deckCount, s, cmds) == 0
    ensures Deficit(deckCount, Run(deckCount, s, cmds)) == 0
    decreases |cmds|
  {
    if cmds != [] {
      StepInv(deckCount, s, cmds[0]);
      BalanceKept(deckCount, Step(deckCount, s, cmds[0]), cmds[1..]);
    }
  }

  /** From page load, as long as no undo has reopened a pair, the remaining, discarded,
      paired and selected cards add up to exactly the cards in play, whatever resets
      the run contains. */
  lemma FreshRunBalanced(deckCount: int, cmds: seq<Command>)
    requires deckCount >= 1 && AllOk(cmds)
    ensures Inv(deckCount, Initial(deckCount))
    ensures Reopenings(deckCount, Initial(deckCount), cmds) == 0 ==>
              var t := Run(deckCount, Initial(deckCount), cmds);
              Total(t.counts) + |t.discards| + 2 * |t.rounds| + |t.tiangs| == 52 * deckCount
  {
    InitialInv(deckCount);
    if Reopenings(deckCount, Initial(deckCount), cmds) == 0 {
      BalanceKept(deckCount, Initial(deckCount), cmds);
    }
  }
}
