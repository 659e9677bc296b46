/** The card-counting page as an object: the globals of the script are the fields of a
    session, and the load step, the reset and undo buttons, the mode banner and the card
    buttons are its methods. Each method is proved to perform the transition of the
    same name on the session's snapshot and to keep the session invariant. */
module Tiang {
  import opened Deck
  import opened Ev
  import opened Machine
  import opened Laws

  class Session {
    /** The number of decks in play, fixed when the page loads. */
    const deckCount: int
    var cardCounter: Counts
    var discardHistory: seq<int>
    var calculatorHistory: seq<seq<int>>
    var tiangs: seq<int>
    var mode: Mode

    /** The session state as a value. */
    function Snap(): Snapshot
      reads this
    {
      Snapshot(cardCounter, discardHistory, calculatorHistory, tiangs, mode)
    }

    /** The session invariant holds between commands. */
    ghost predicate Valid()
      reads this
    {
      Inv(deckCount, Snap())
    }

    /** Page load (`setup`): full counts, empty histories and selection, discard mode. */
    constructor (deckCount: int)
      requires deckCount >= 1
      ensures this.deckCount == deckCount
      ensures Snap() == Initial(deckCount)
      ensures Valid()
    {
      this.deckCount := deckCount;
      cardCounter := map[];
      discardHistory := [];
      calculatorHistory := [];
      tiangs := [];
      mode := Discard;
      new;
      ResetCounter();
      InitialInv(deckCount);
      var _ := UpdateText();
    }

    /** Rebuilds the count table with 4 * deckCount copies of every rank. */
    method ResetCounter()
      modifies this
      ensures Snap() == old(Snap()).(counts := Full(deckCount))
    {
      cardCounter := map[];
      var i := 1;
      while i <= 13
        invariant 1 <= i <= 14
        invariant forall r :: r in cardCounter <==> 1 <= r < i
        invariant forall r :: r in cardCounter ==> cardCounter[r] == 4 * deckCount
        invariant Snap() == old(Snap()).(counts := cardCounter)
      {
        cardCounter := cardCounter[i := 4 * deckCount];
        i := i + 1;
      }
      FullAt(deckCount);
      assert cardCounter.Keys == Full(deckCount).Keys;
      assert forall r :: r in cardCounter ==> cardCounter[r] == Full(deckCount)[r];
    }

    /** The EV of the two selected cards, with the histories as they are before the
        pair is pushed. */
    method CalculateEV() returns (ev: EvResult)
      requires Shape(Snap()) && |tiangs| == 2
      ensures ev == EvOf(deckCount, Snap())
    {
      var winOuts := 0;
      var min := Min(tiangs[0], tiangs[1]);
      var max := Max(tiangs[0], tiangs[1]);
      var i := min + 1;
      while i < max
        invariant min + 1 <= i && (i <= max || i == min + 1)
        invariant winOuts == Sum(cardCounter, min + 1, i)
      {
        winOuts := winOuts + cardCounter[i];
        i := i + 1;
      }
      var tiangOuts := cardCounter[tiangs[0]];
      if tiangs[0] != tiangs[1] {
        tiangOuts := tiangOuts + cardCounter[tiangs[1]];
      }
      var totalOuts := 52 * deckCount - 2 - |calculatorHistory| * 2 - |discardHistory|;
      if totalOuts == 0 {
        ev := DivisionUndefined;
      } else {
        ev := Value((2 * winOuts - tiangOuts) as real / totalOuts as real - 1.0);
      }
    }

    /** The status text: in calculator mode with two cards selected it shows their EV,
        pushes the pair onto the history and empties the selection. */
    method UpdateText() returns (shown: Option<EvResult>)
      requires Shape(Snap())
      modifies this
      ensures Snap() == Settle(old(Snap()))
      ensures shown == if Completed(old(Snap())) then Some(EvOf(deckCount, old(Snap()))) else None
    {
      shown := None;
      if mode == Calculator && |tiangs| == 2 {
        var ev := CalculateEV();
        shown := Some(ev);
        calculatorHistory := calculatorHistory + [tiangs];
        tiangs := [];
      }
    }

    /** The reset button: full counts, everything forgotten, the mode kept. */
    method Reset()
      requires Valid()
      modifies this
      ensures Snap() == Machine.Reset(deckCount, old(Snap()))
      ensures Valid()
    {
      ghost var s := Snap();
      ResetFresh(deckCount, s);
      ResetCounter();
      tiangs := [];
      discardHistory := [];
      calculatorHistory := [];
      var _ := UpdateText();
    }

    /** The undo button. Its "Something wrong" alert is never raised. */
    method Undo() returns (alerted: bool)
      requires Valid()
      modifies this
      ensures Snap() == Machine.Undo(old(Snap()))
      ensures !alerted
      ensures Valid()
    {
      ghost var s := Snap();
      alerted := false;
      if mode == Discard {
        if discardHistory != [] {
          var lastDiscard := discardHistory[|discardHistory| - 1];
          discardHistory := discardHistory[..|discardHistory| - 1];
          cardCounter := cardCounter[lastDiscard := cardCounter[lastDiscard] + 1];
        }
      } else if |tiangs| == 0 {
        var popped := [];
        if calculatorHistory != [] {
          popped := calculatorHistory[|calculatorHistory| - 1];
          calculatorHistory := calculatorHistory[..|calculatorHistory| - 1];
        }
        tiangs := popped;
        if tiangs != [] {
          tiangs := tiangs[..|tiangs| - 1];
        }
      } else if |tiangs| == 1 {
        var lastCard := tiangs[0];
        tiangs := [];
        cardCounter := cardCounter[lastCard := cardCounter[lastCard] + 1];
      } else {
        alerted := true;
      }
      assert Snap() == UndoBody(s);
      UndoBodyShape(s);
      UndoInv(deckCount, s);
      var _ := UpdateText();
    }

    /** A click on the mode banner: discard to calculator, or calculator to discard
        unless cards are selected, in which case the switch is refused. */
    method ToggleMode() returns (refused: bool)
      requires Valid()
      modifies this
      ensures Snap() == Toggle(old(Snap()))
      ensures refused == ToggleRefused(old(Snap()))
      ensures Valid()
    {
      ghost var s := Snap();
      ToggleInv(deckCount, s);
      if mode == Discard {
        mode := Calculator;
      } else {
        if |tiangs| > 0 {
          return true;
        }
        mode := Discard;
      }
      refused := false;
      var _ := UpdateText();
    }

    /** A click on the button of rank r: refused when no copy is left; otherwise the
        card is discarded or added to the selection, and a completed pair shows its EV. */
    method SelectCard(r: int) returns (refused: bool, shown: Option<EvResult>)
      requires Valid() && IsRank(r)
      modifies this
      ensures Snap() == Select(old(Snap()), r)
      ensures refused == (old(cardCounter[r]) == 0)
      ensures shown == SelectReport(deckCount, old(Snap()), r)
      ensures Valid()
    {
      ghost var s := Snap();
      SelectInv(deckCount, s, r);
      if cardCounter[r] == 0 {
        return true, None;
      }
      refused := false;
      if mode == Discard {
        discardHistory := discardHistory + [r];
        cardCounter := cardCounter[r := cardCounter[r] - 1];
      } else if |tiangs| < 2 {
        tiangs := tiangs + [r];
        cardCounter := cardCounter[r := cardCounter[r] - 1];
      }
      assert Snap() == SelectBody(s, r);
      SelectBodyShape(s, r);
      shown := UpdateText();
    }
  }
}
