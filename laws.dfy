/** What the four commands promise: the invariant they keep, the conservation of
    cards, the round trips, the three undo cases and the EV they report. */
module Laws {
  import opened Deck
  import opened Ev
  import opened Machine

  /** Appending a pair to the history appends its cards to the flattened history. */
  lemma FlatAppend(rounds: seq<seq<int>>, p: seq<int>)
    ensures Flat(rounds + [p]) == Flat(rounds) + p
  {
    assert DropLast(rounds + [p]) == rounds;
  }

  /** The completion step moves the pair from the selection to the history: the same
      cards are remembered, the shape is kept and the deficit does not move. */
  lemma SettleKeeps(deckCount: int, t: Snapshot)
    requires Shape(t)
    ensures Shape(Settle(t))
    ensures Settle(t).counts == t.counts && Settle(t).discards == t.discards && Settle(t).mode == t.mode
    ensures multiset(Pool(Settle(t))) == multiset(Pool(t))
    ensures Deficit(deckCount, Settle(t)) == Deficit(deckCount, t)
  {
    if Completed(t) {
      FlatAppend(t.rounds, t.tiangs);
    }
  }

  /** The state set up on load satisfies the invariant and owes no card. */
  lemma InitialInv(deckCount: int)
    requires deckCount >= 1
    ensures Inv(deckCount, Initial(deckCount))
    ensures Deficit(deckCount, Initial(deckCount)) == 0
  {
    TotalFull(deckCount);
  }

  /** Reset yields the initial state except that the mode is kept, from any state. */
  lemma ResetFresh(deckCount: int, s: Snapshot)
    requires deckCount >= 1
    ensures Reset(deckCount, s) == Initial(deckCount).(mode := s.mode)
    ensures forall r :: 1 <= r <= 13 ==> Reset(deckCount, s).counts[r] == 4 * deckCount
    ensures Inv(deckCount, Reset(deckCount, s))
    ensures Deficit(deckCount, Reset(deckCount, s)) == 0
  {
    TotalFull(deckCount);
  }

  /** Taking one copy of rank r from the counts into the remembered cards keeps every
      rank accounted. */
  lemma TakeKeeps(deckCount: int, s: Snapshot, t: Snapshot, r: int)
    requires Covers(s.counts) && IsRank(r) && s.counts[r] > 0 && AllAccounted(deckCount, s)
    requires t.counts == s.counts[r := s.counts[r] - 1]
    requires multiset(Pool(t)) == multiset(Pool(s)) + multiset{r}
    ensures Covers(t.counts) && AllAccounted(deckCount, t)
  {
    forall x | 1 <= x <= 13
      ensures RankAccounted(deckCount, t, x)
    {
      assert RankAccounted(deckCount, s, x);
    }
  }

  /** Returning one remembered copy of rank r to the counts keeps every rank accounted. */
  lemma ReturnKeeps(deckCount: int, s: Snapshot, t: Snapshot, r: int)
    requires Covers(s.counts) && IsRank(r) && AllAccounted(deckCount, s)
    requires t.counts == s.counts[r := s.counts[r] + 1]
    requires multiset(Pool(s)) == multiset(Pool(t)) + multiset{r}
    ensures Covers(t.counts) && AllAccounted(deckCount, t)
  {
    forall x | 1 <= x <= 13
      ensures RankAccounted(deckCount, t, x)
    {
      assert RankAccounted(deckCount, s, x);
    }
  }

  /** Forgetting one remembered copy of rank b, without returning it, keeps every rank
      accounted (the count plus the copies only goes down). */
  lemma ForgetKeeps(deckCount: int, s: Snapshot, t: Snapshot, b: int)
    requires Covers(s.counts) && AllAccounted(deckCount, s)
    requires t.counts == s.counts
    requires multiset(Pool(s)) == multiset(Pool(t)) + multiset{b}
    ensures Covers(t.counts) && AllAccounted(deckCount, t)
  {
    forall x | 1 <= x <= 13
      ensures RankAccounted(deckCount, t, x)
    {
      assert RankAccounted(deckCount, s, x);
    }
  }

  /** A state with the same counts and the same remembered cards is accounted alike. */
  lemma SameAccounted(deckCount: int, s: Snapshot, t: Snapshot)
    requires Covers(s.counts) && AllAccounted(deckCount, s)
    requires t.counts == s.counts && multiset(Pool(t)) == multiset(Pool(s))
    ensures Covers(t.counts) && AllAccounted(deckCount, t)
  {
    forall x | 1 <= x <= 13
      ensures RankAccounted(deckCount, t, x)
    {
      assert RankAccounted(deckCount, s, x);
    }
  }

  /** The completion step turns a sound state into one satisfying the invariant. */
  lemma SettleInv(deckCount: int, t: Snapshot)
    requires Sound(deckCount, t)
    ensures Inv(deckCount, Settle(t))
    ensures Settle(t).counts == t.counts
    ensures Deficit(deckCount, Settle(t)) == Deficit(deckCount, t)
  {
    SettleKeeps(deckCount, t);
    SameAccounted(deckCount, t, Settle(t));
    if Completed(t) {
      assert Settle(t).rounds == t.rounds + [t.tiangs];
    }
  }

  /** The card-click handler keeps the shape. */
  lemma SelectBodyShape(s: Snapshot, r: int)
    requires Shape(s) && IsRank(r)
    ensures Shape(SelectBody(s, r))
  {
  }

  /** The card-click handler takes at most one copy of r into the remembered cards. */
  lemma SelectBodyAccounted(deckCount: int, s: Snapshot, r: int)
    requires Covers(s.counts) && IsRank(r) && s.counts[r] > 0 && AllAccounted(deckCount, s)
    ensures Covers(SelectBody(s, r).counts) && AllAccounted(deckCount, SelectBody(s, r))
  {
    if s.mode == Discard {
      DiscardTakes(deckCount, s, r);
    } else if |s.tiangs| < 2 {
      SelectionTakes(deckCount, s, r);
    }
  }

  /** A discard takes one copy of r from the counts into the discard history. */
  lemma DiscardTakes(deckCount: int, s: Snapshot, r: int)
    requires Covers(s.counts) && IsRank(r) && s.counts[r] > 0 && AllAccounted(deckCount, s)
    requires s.mode == Discard
    ensures AllAccounted(deckCount, SelectBody(s, r))
  {
    var t := s.(discards := s.discards + [r], counts := s.counts[r := s.counts[r] - 1]);
    assert SelectBody(s, r) == t;
    assert Pool(t) == s.discards + [r] + (s.tiangs + Flat(s.rounds));
    assert Pool(s) == s.discards + (s.tiangs + Flat(s.rounds));
    TakeKeeps(deckCount, s, t, r);
  }

  /** A calculator-mode select with room in the selection takes one copy of r into it. */
  lemma SelectionTakes(deckCount: int, s: Snapshot, r: int)
    requires Covers(s.counts) && IsRank(r) && s.counts[r] > 0 && AllAccounted(deckCount, s)
    requires s.mode == Calculator && |s.tiangs| < 2
    ensures AllAccounted(deckCount, SelectBody(s, r))
  {
    var t := s.(tiangs := s.tiangs + [r], counts := s.counts[r := s.counts[r] - 1]);
    assert SelectBody(s, r) == t;
    assert Pool(t) == (s.discards + s.tiangs) + [r] + Flat(s.rounds);
    assert Pool(s) == (s.discards + s.tiangs) + Flat(s.rounds);
    TakeKeeps(deckCount, s, t, r);
  }

  /** The card-click handler moves a card, it does not create or lose one. */
  lemma SelectBodyDeficit(deckCount: int, s: Snapshot, r: int)
    requires Covers(s.counts) && IsRank(r)
    ensures Deficit(deckCount, SelectBody(s, r)) == Deficit(deckCount, s)
  {
    if s.mode == Discard || |s.tiangs| < 2 {
      assert SelectBody(s, r).counts == s.counts[r := s.counts[r] - 1];
      TotalUpdate(s.counts, r, s.counts[r] - 1);
    }
  }

  /** The card-click handler, before the completion step, keeps the state sound. */
  lemma SelectBodySound(deckCount: int, s: Snapshot, r: int)
    requires Inv(deckCount, s) && IsRank(r) && s.counts[r] != 0
    ensures Sound(deckCount, SelectBody(s, r))
    ensures Deficit(deckCount, SelectBody(s, r)) == Deficit(deckCount, s)
  {
    assert RankAccounted(deckCount, s, r);
    SelectBodyShape(s, r);
    SelectBodyAccounted(deckCount, s, r);
    SelectBodyDeficit(deckCount, s, r);
  }

  /** Select keeps the invariant and the deficit. */
  lemma SelectInv(deckCount: int, s: Snapshot, r: int)
    requires Inv(deckCount, s) && IsRank(r)
    ensures Inv(deckCount, Select(s, r))
    ensures Deficit(deckCount, Select(s, r)) == Deficit(deckCount, s)
  {
    if s.counts[r] != 0 {
      SelectBodySound(deckCount, s, r);
      SettleInv(deckCount, SelectBody(s, r));
    }
  }

  /** The undo handler keeps the shape and leaves only pairs in the history. */
  lemma UndoBodyShape(s: Snapshot)
    requires Shape(s) && PairsOnly(s.rounds)
    ensures Shape(UndoBody(s)) && PairsOnly(UndoBody(s).rounds)
  {
    if s.mode == Calculator && s.tiangs == [] && s.rounds != [] {
      assert AllRanks(Last(s.rounds));
    }
  }

  /** Reopening the last pair keeps its first card remembered (as the selection) and
      forgets its second card. */
  lemma ReopenForgets(s: Snapshot)
    requires Shape(s) && PairsOnly(s.rounds) && Reopens(s)
    ensures multiset(Pool(s)) == multiset(Pool(UndoBody(s))) + multiset{Last(s.rounds)[1]}
  {
    var p, rest := Last(s.rounds), DropLast(s.rounds);
    assert |p| == 2;
    assert UndoBody(s) == s.(rounds := rest, tiangs := [p[0]]);
    assert s.rounds == rest + [p];
    FlatAppend(rest, p);
    assert Pool(s) == s.discards + Flat(rest) + [p[0], p[1]];
    assert Pool(UndoBody(s)) == s.discards + [p[0]] + Flat(rest);
  }

  /** The undo handler returns the card it takes back to the counts, except the second
      card of a reopened pair, which it forgets. */
  lemma UndoBodyAccounted(deckCount: int, s: Snapshot)
    requires Shape(s) && AllAccounted(deckCount, s) && |s.tiangs| <= 1 && PairsOnly(s.rounds)
    ensures AllAccounted(deckCount, UndoBody(s))
  {
    var t := UndoBody(s);
    if s.mode == Discard {
      if s.discards != [] {
        UndoDiscardAccounted(deckCount, s);
      }
    } else if |s.tiangs| == 0 {
      if s.rounds != [] {
        ReopenForgets(s);
        ForgetKeeps(deckCount, s, t, Last(s.rounds)[1]);
      }
    } else {
      UndoSingleAccounted(deckCount, s);
    }
  }

  /** Undo in discard mode returns the last discard to the counts. */
  lemma UndoDiscardAccounted(deckCount: int, s: Snapshot)
    requires Shape(s) && AllAccounted(deckCount, s) && s.mode == Discard && s.discards != []
    ensures AllAccounted(deckCount, UndoBody(s))
  {
    var r := Last(s.discards);
    var t := UndoBody(s);
    var rest := s.tiangs + Flat(s.rounds);
    assert t == s.(discards := DropLast(s.discards), counts := s.counts[r := s.counts[r] + 1]);
    assert s.discards == t.discards + [r];
    assert Pool(s) == t.discards + [r] + rest;
    assert Pool(t) == t.discards + rest;
    ReturnKeeps(deckCount, s, t, r);
  }

  /** Undo with one card selected returns it to the counts. */
  lemma UndoSingleAccounted(deckCount: int, s: Snapshot)
    requires Shape(s) && AllAccounted(deckCount, s) && s.mode == Calculator && |s.tiangs| == 1
    ensures AllAccounted(deckCount, UndoBody(s))
  {
    var r := s.tiangs[0];
    var t := UndoBody(s);
    assert t == s.(tiangs := [], counts := s.counts[r := s.counts[r] + 1]);
    assert s.tiangs == [r];
    assert Pool(s) == s.discards + [r] + Flat(s.rounds);
    assert Pool(t) == s.discards + Flat(s.rounds);
    ReturnKeeps(deckCount, s, t, r);
  }

  /** The undo handler owes one more card exactly when it reopens a pair. */
  lemma UndoBodyDeficit(deckCount: int, s: Snapshot)
    requires Shape(s) && |s.tiangs| <= 1 && PairsOnly(s.rounds)
    ensures Deficit(deckCount, UndoBody(s)) == Deficit(deckCount, s) + (if Reopens(s) then 1 else 0)
  {
    if s.mode == Discard {
      if s.discards != [] {
        var r := Last(s.discards);
        assert UndoBody(s).counts == s.counts[r := s.counts[r] + 1];
        TotalUpdate(s.counts, r, s.counts[r] + 1);
      }
    } else if |s.tiangs| == 0 {
      if s.rounds != [] {
        assert |Last(s.rounds)| == 2;
      }
    } else {
      var r := s.tiangs[0];
      assert UndoBody(s).counts == s.counts[r := s.counts[r] + 1];
      TotalUpdate(s.counts, r, s.counts[r] + 1);
    }
  }

  /** Undo keeps the invariant, never reaches its "Something wrong" alert, and moves the
      deficit only when it reopens a pair, by exactly one card. */
  lemma UndoInv(deckCount: int, s: Snapshot)
    requires Inv(deckCount, s)
    ensures !UndoAlerts(s)
    ensures Inv(deckCount, Undo(s))
    ensures Deficit(deckCount, Undo(s)) == Deficit(deckCount, s) + (if Reopens(s) then 1 else 0)
  {
    UndoBodyShape(s);
    UndoBodyAccounted(deckCount, s);
    UndoBodyDeficit(deckCount, s);
    SettleInv(deckCount, UndoBody(s));
  }

  /** Toggle keeps the invariant and the deficit. */
  lemma ToggleInv(deckCount: int, s: Snapshot)
    requires Inv(deckCount, s)
    ensures Inv(deckCount, Toggle(s))
    ensures Deficit(deckCount, Toggle(s)) == Deficit(deckCount, s)
  {
    var t := Toggle(s);
    assert Pool(t) == Pool(s) && t.counts == s.counts;
    SameAccounted(deckCount, s, t);
  }

  /** Under the invariant every count lies in [0, 4 * deckCount], and the remaining,
      discarded, paired and selected cards together never exceed the cards in play. */
  lemma CountsInRange(deckCount: int, s: Snapshot)
    requires Inv(deckCount, s)
    ensures forall r :: 1 <= r <= 13 ==> 0 <= s.counts[r] <= 4 * deckCount
    ensures Total(s.counts) + |s.discards| + 2 * |s.rounds| + |s.tiangs| <= 52 * deckCount
  {
    forall r | 1 <= r <= 13
      ensures 0 <= s.counts[r] <= 4 * deckCount
    {
      assert RankAccounted(deckCount, s, r);
    }
  }

  /** Selecting a rank with no copy left is refused and changes nothing, in either mode. */
  lemma SelectEmptyRefused(deckCount: int, s: Snapshot, r: int)
    requires Shape(s) && IsRank(r) && s.counts[r] == 0
    ensures Select(s, r) == s
    ensures SelectReport(deckCount, s, r) == None
  {
  }

  /** In discard mode a select takes one copy of r and records it; nothing else changes. */
  lemma DiscardSelect(deckCount: int, s: Snapshot, r: int)
    requires Inv(deckCount, s) && s.mode == Discard && IsRank(r) && s.counts[r] > 0
    ensures Select(s, r) == s.(counts := s.counts[r := s.counts[r] - 1], discards := s.discards + [r])
    ensures SelectReport(deckCount, s, r) == None
  {
  }

  /** Discarding a card and undoing it restores the state exactly. */
  lemma DiscardRoundTrip(deckCount: int, s: Snapshot, r: int)
    requires Inv(deckCount, s) && s.mode == Discard && IsRank(r) && s.counts[r] > 0
    ensures Shape(Select(s, r))
    ensures Undo(Select(s, r)) == s
  {
    var t := Select(s, r);
    assert t == s.(counts := s.counts[r := s.counts[r] - 1], discards := s.discards + [r]);
    assert Shape(t);
    var u := UndoBody(t);
    assert DropLast(t.discards) == s.discards;
    assert t.counts[r := t.counts[r] + 1] == s.counts;
    assert u == s;
  }

  /** Undo in discard mode with nothing discarded changes nothing. */
  lemma UndoDiscardEmpty(s: Snapshot)
    requires Shape(s) && s.mode == Discard && s.discards == []
    ensures Undo(s) == s
  {
  }

  /** In calculator mode the first card of a pair is taken from the counts and becomes
      the selection; no EV is shown yet. Undoing it restores the state exactly. */
  lemma CalculatorFirstCard(deckCount: int, s: Snapshot, r: int)
    requires Inv(deckCount, s) && s.mode == Calculator && s.tiangs == [] && IsRank(r) && s.counts[r] > 0
    ensures Select(s, r) == s.(counts := s.counts[r := s.counts[r] - 1], tiangs := [r])
    ensures SelectReport(deckCount, s, r) == None
    ensures Shape(Select(s, r)) && Undo(Select(s, r)) == s
  {
    var t := Select(s, r);
    assert t.counts[r := t.counts[r] + 1] == s.counts;
  }

  /** The second card completes the pair: it is taken from the counts, the pair is
      pushed onto the calculator history and the selection is emptied. The EV shown
      is computed on the counts with both cards already taken, and with the history
      lengths from before the push. */
  lemma CalculatorSecondCard(deckCount: int, s: Snapshot, a: int, r: int)
    requires Inv(deckCount, s) && s.mode == Calculator && s.tiangs == [a] && IsRank(r) && s.counts[r] > 0
    ensures IsRank(a)
    ensures Select(s, r) ==
              s.(counts := s.counts[r := s.counts[r] - 1], rounds := s.rounds + [[a, r]], tiangs := [])
    ensures SelectReport(deckCount, s, r) ==
              Some(Expected(deckCount, s.counts[r := s.counts[r] - 1], a, r, |s.rounds|, |s.discards|))
  {
    assert IsRank(s.tiangs[0]);
    var t := SelectBody(s, r);
    assert t == s.(tiangs := [a, r], counts := s.counts[r := s.counts[r] - 1]);
    assert Completed(t);
  }

  /** The three cases of undo in calculator mode. With one card selected it is returned
      to the counts. With none selected the last pair is reopened: its first card becomes
      the selection again and its second card is dropped WITHOUT being returned to the
      counts. With none selected and no history nothing changes. */
  lemma UndoCalculatorCases(deckCount: int, s: Snapshot)
    requires Inv(deckCount, s) && s.mode == Calculator
    ensures |s.tiangs| == 1 ==>
              Undo(s) == s.(tiangs := [], counts := s.counts[s.tiangs[0] := s.counts[s.tiangs[0]] + 1])
    ensures s.tiangs == [] && s.rounds != [] ==>
              Undo(s) == s.(rounds := DropLast(s.rounds), tiangs := [Last(s.rounds)[0]])
    ensures s.tiangs == [] && s.rounds == [] ==> Undo(s) == s
  {
    if s.tiangs == [] && s.rounds != [] {
      var p := Last(s.rounds);
      assert |p| == 2;
      assert DropLast(p) == [p[0]];
    }
  }

  /** Completing a pair [a, b] and undoing once reopens it: the selection is [a] again
      and the history is as before, but b stays taken from the counts, so the session
      owes the counts one more card. */
  lemma CompleteThenReopen(deckCount: int, s: Snapshot, a: int, b: int)
    requires Inv(deckCount, s) && s.mode == Calculator && s.tiangs == [a] && IsRank(b) && s.counts[b] > 0
    ensures Inv(deckCount, Select(s, b))
    ensures Inv(deckCount, Undo(Select(s, b)))
    ensures Undo(Select(s, b)) == s.(counts := s.counts[b := s.counts[b] - 1])
    ensures Deficit(deckCount, Undo(Select(s, b))) == Deficit(deckCount, s) + 1
  {
    var s2 := Select(s, b);
    CalculatorSecondCard(deckCount, s, a, b);
    SelectInv(deckCount, s, b);
    UndoCalculatorCases(deckCount, s2);
    UndoInv(deckCount, s2);
    assert DropLast(s2.rounds) == s.rounds && Last(s2.rounds) == [a, b];
  }

  /** Undo with one card a selected returns it to the counts and empties the selection. */
  lemma UndoSingle(deckCount: int, s: Snapshot, a: int)
    requires Inv(deckCount, s) && s.mode == Calculator && s.tiangs == [a]
    ensures IsRank(a)
    ensures Undo(s) == s.(tiangs := [], counts := s.counts[a := s.counts[a] + 1])
    ensures Deficit(deckCount, Undo(s)) == Deficit(deckCount, s)
  {
    assert IsRank(s.tiangs[0]);
    UndoBodyDeficit(deckCount, s);
  }

  /** Toggling: discard to calculator always; calculator to discard only with an empty
      selection, and otherwise nothing changes. */
  lemma ToggleCases(deckCount: int, s: Snapshot)
    requires Inv(deckCount, s)
    ensures s.mode == Discard ==> Toggle(s) == s.(mode := Calculator)
    ensures ToggleRefused(s) ==> Toggle(s) == s
    ensures s.mode == Calculator && s.tiangs == [] ==> Toggle(s) == s.(mode := Discard)
  {
  }

  /** Switching mode twice from a state where both switches are allowed is the identity. */
  lemma ToggleRoundTrip(deckCount: int, s: Snapshot)
    requires Inv(deckCount, s) && s.tiangs == []
    ensures Toggle(Toggle(s)) == s
  {
  }

  /** The EV of a pair taken under the invariant lies in [-2, 1]; it is undefined only
      when the pair took the last cards. */
  lemma EvOfBounds(deckCount: int, t: Snapshot)
    requires Sound(deckCount, t) && |t.tiangs| == 2
    ensures EvOf(deckCount, t).Value? ==> -2.0 <= EvOf(deckCount, t).ev <= 1.0
    ensures EvOf(deckCount, t) == DivisionUndefined ==> Total(t.counts) == 0
  {
    forall x | 1 <= x <= 13
      ensures t.counts[x] >= 0
    {
      assert RankAccounted(deckCount, t, x);
    }
    ExpectedBounds(deckCount, t.counts, t.tiangs[0], t.tiangs[1], |t.rounds|, |t.discards|);
  }

  /** The EV a select shows always lies in [-2, 1]; it is undefined only when the
      pair just completed took the last cards. */
  lemma SelectReportBounds(deckCount: int, s: Snapshot, r: int)
    requires Inv(deckCount, s) && IsRank(r)
    ensures SelectReport(deckCount, s, r).Some? && SelectReport(deckCount, s, r).value.Value? ==>
              -2.0 <= SelectReport(deckCount, s, r).value.ev <= 1.0
    ensures SelectReport(deckCount, s, r) == Some(DivisionUndefined) ==> Total(Select(s, r).counts) == 0
  {
    if s.counts[r] != 0 && Completed(SelectBody(s, r)) {
      var t := SelectBody(s, r);
      SelectBodySound(deckCount, s, r);
      EvOfBounds(deckCount, t);
      assert Select(s, r).counts == t.counts;
    }
  }

  /** One fresh deck, calculator mode, select 5 then 10: the four ranks between hold 16
      cards, the two selected ranks 3 + 3 more, 50 cards are unseen, and the EV is
      26 / 50 - 1. */
  lemma FiveTenExample()
    ensures SelectReport(1, Select(Toggle(Initial(1)), 5), 10) == Some(Value(-0.48))
  {
    var s := Select(Toggle(Initial(1)), 5);
    var c := s.counts[10 := 3];
    assert c[6] == 4 && c[7] == 4 && c[8] == 4 && c[9] == 4;
    assert Sum(c, 6, 10) == 16;
    assert TiangOuts(c, 5, 10) == 6;
  }
}
