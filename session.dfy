/** One game session: the closure state of the game scene. The board of 32
    cards with their `revealed` / `matched` flags, the selection `first` /
    `second`, the input `lock`, the `score`, the `timeLeft` countdown and the
    `effects` list. The scene's callbacks become the methods `Tap` (the
    card's point-down handler with `reveal` and `judge`), `Resolve` (the
    deferred judgement `judge` schedules), `ActivateSpecial` and `Tick` (the
    one-second game timer). */
module Match {
  import opened Helpers
  import opened Rng
  import opened Deck
  import opened Effects

  /** Seconds on the game clock when a session starts. */
  const GameSeconds := 60

  /** The two cards of a pair are matched together. */
  predicate PairedTogether(board: seq<Card>, m: seq<bool>)
    requires |m| == |board|
  {
    forall i, j :: 0 <= i < |board| && 0 <= j < |board| && board[i].key == board[j].key ==> m[i] == m[j]
  }

  /** A special pair is matched exactly when its kind has been activated. */
  predicate SpecialsActivated(board: seq<Card>, m: seq<bool>, acts: seq<Activation>)
    requires |m| == |board|
  {
    forall i :: 0 <= i < |board| && board[i].Special? ==> (m[i] <==> HasKind(acts, board[i].specialKind))
  }

  /** Matching the two cards a and b of one key keeps pairs together. */
  lemma MatchKeepsPairs(board: seq<Card>, m: seq<bool>, a: nat, b: nat)
    requires IsDeck(board) && |m| == |board| && PairedTogether(board, m)
    requires a < |board| && b < |board| && a != b && board[a].key == board[b].key
    ensures PairedTogether(board, m[a := true][b := true])
  {
    var m' := m[a := true][b := true];
    forall i, j | 0 <= i < |board| && 0 <= j < |board| && board[i].key == board[j].key
      ensures m'[i] == m'[j]
    {
      if board[i].key == board[a].key {
        AtMostTwoPerKey(board, a, b, i);
        AtMostTwoPerKey(board, a, b, j);
      }
    }
  }

  /** Matching a numeric pair leaves the specials' correspondence alone. */
  lemma NormalMatchKeepsSpecials(board: seq<Card>, m: seq<bool>, acts: seq<Activation>, a: nat, b: nat)
    requires IsDeck(board) && |m| == |board| && SpecialsActivated(board, m, acts)
    requires a < |board| && b < |board| && board[a].key == board[b].key && board[a].Normal?
    ensures SpecialsActivated(board, m[a := true][b := true], acts)
  {
    SameKeySameCard(board, a, b);
  }

  /** Matching the special pair of a kind not activated before, and then
      activating it, keeps the correspondence. */
  lemma SpecialMatchKeepsSpecials(board: seq<Card>, m: seq<bool>, acts: seq<Activation>,
                                  a: nat, b: nat, r: Draw)
    requires IsDeck(board) && |m| == |board| && SpecialsActivated(board, m, acts)
    requires a < |board| && b < |board| && board[a].key == board[b].key && board[a].Special?
    requires PairedTogether(board, m[a := true][b := true])
    ensures SpecialsActivated(board, m[a := true][b := true], acts + [Activation(board[a].specialKind, r)])
  {
    var m', acts' := m[a := true][b := true], acts + [Activation(board[a].specialKind, r)];
    SameKeySameCard(board, a, b);
    forall i | 0 <= i < |board| && board[i].Special?
      ensures m'[i] <==> HasKind(acts', board[i].specialKind)
    {
      var k := board[i].specialKind;
      assert HasKind(acts, k) ==> HasKind(acts', k) by {
        if j :| 0 <= j < |acts| && acts[j].kind == k {
          assert acts'[j].kind == k;
        }
      }
      assert acts'[|acts|].kind == board[a].specialKind;
      if k == board[a].specialKind {
        SpecialKeyByKind(board, i, a);
      } else {
        assert HasKind(acts', k) ==> HasKind(acts, k) by {
          if j :| 0 <= j < |acts'| && acts'[j].kind == k {
            assert j < |acts| && acts[j].kind == k;
          }
        }
      }
    }
  }

  // ----- The session invariant over the state's values -----

  /** Everything of a session that changes, as values: the `revealed` and
      `matched` flags of the 32 slots, the selection `first` / `second`, the
      `lock`, the `score`, the clock `timeLeft`, the `effects` list, the
      activations that built it and the ticks elapsed. */
  datatype Snapshot = Snapshot(
    revealed: seq<bool>, matched: seq<bool>,
    first: Option<nat>, second: Option<nat>, lock: bool,
    score: int, timeLeft: int, effects: seq<Effect>,
    activations: seq<Activation>, elapsed: nat)

  /** Slot `sel`, when present, holds a card that is face up and not yet
      matched. */
  predicate Selectable(rev: seq<bool>, m: seq<bool>, sel: Option<nat>)
    requires |rev| == DeckSize && |m| == DeckSize
  {
    sel.Some? ==> sel.value < DeckSize && rev[sel.value] && !m[sel.value]
  }

  /** The flags and the selection agree: a matched card stays face up, the
      two cards of a pair are matched together, at most two distinct face-up
      unmatched cards are selected and they are the only face-up unmatched
      cards, and the lock is set exactly while two are selected. */
  predicate SelectionValid(board: seq<Card>, rev: seq<bool>, m: seq<bool>,
                           first: Option<nat>, second: Option<nat>, lock: bool)
  {
    && |board| == DeckSize && |rev| == DeckSize && |m| == DeckSize
    && (forall i :: 0 <= i < DeckSize && m[i] ==> rev[i])
    && PairedTogether(board, m)
    && Selectable(rev, m, first) && Selectable(rev, m, second)
    && (second.Some? ==> first.Some? && first != second)
    && (lock <==> second.Some?)
    && (forall i :: 0 <= i < DeckSize && rev[i] && !m[i] ==> first == Some(i) || second == Some(i))
  }

  /** One effect per activated kind, and each kind activated exactly when its
      special pair has been matched. */
  predicate EffectsValid(board: seq<Card>, m: seq<bool>, es: seq<Effect>, acts: seq<Activation>) {
    && |m| == |board|
    && BuiltFrom(es, acts) && DistinctKinds(acts)
    && SpecialsActivated(board, m, acts)
  }

  /** The session invariant. */
  predicate Consistent(board: seq<Card>, s: Snapshot) {
    && IsDeck(board)
    && SelectionValid(board, s.revealed, s.matched, s.first, s.second, s.lock)
    && EffectsValid(board, s.matched, s.effects, s.activations)
    && 0 <= s.timeLeft && s.timeLeft + s.elapsed == GameSeconds
  }

  /** A fresh session: all cards face down and unmatched, nothing selected,
      score 0, 60 seconds, no effects. */
  function Initial(): (s: Snapshot)
    ensures |s.revealed| == DeckSize && |s.matched| == DeckSize
  {
    Snapshot(seq(DeckSize, _ => false), seq(DeckSize, _ => false), None, None, false,
             0, GameSeconds, [], [], 0)
  }

  lemma InitialConsistent(board: seq<Card>)
    requires IsDeck(board)
    ensures Consistent(board, Initial())
  {
    DeckSizeOf(board);
  }

  /** Turning up a face-down unmatched card while no pair is pending: it
      becomes `first`, or `second` together with the lock. */
  lemma TapKeepsSelection(board: seq<Card>, rev: seq<bool>, m: seq<bool>,
                          first: Option<nat>, second: Option<nat>, i: nat)
    requires SelectionValid(board, rev, m, first, second, false)
    requires i < DeckSize && !m[i] && !rev[i]
    ensures first.None? ==> SelectionValid(board, rev[i := true], m, Some(i), second, false)
    ensures first.Some? ==> SelectionValid(board, rev[i := true], m, first, Some(i), true)
  {
    var rev' := rev[i := true];
    forall l | 0 <= l < DeckSize && rev'[l] && !m[l]
      ensures l == i || first == Some(l) || second == Some(l)
    {
    }
  }

  /** Matching the two selected cards of one key: the selection is cleared
      and the lock released. */
  lemma MatchKeepsSelection(board: seq<Card>, rev: seq<bool>, m: seq<bool>, a: nat, b: nat)
    requires IsDeck(board) && SelectionValid(board, rev, m, Some(a), Some(b), true)
    requires board[a].key == board[b].key
    ensures SelectionValid(board, rev, m[a := true][b := true], None, None, false)
  {
    MatchKeepsPairs(board, m, a, b);
  }

  /** Turning a mismatched selected pair face down: the selection is cleared
      and the lock released. */
  lemma HideKeepsSelection(board: seq<Card>, rev: seq<bool>, m: seq<bool>, a: nat, b: nat)
    requires SelectionValid(board, rev, m, Some(a), Some(b), true)
    requires board[a].key != board[b].key
    ensures SelectionValid(board, rev[a := false][b := false], m, None, None, false)
  {
    var rev' := rev[a := false][b := false];
    forall l | 0 <= l < DeckSize && m[l]
      ensures rev'[l]
    {
      assert l != a && l != b;
    }
  }

  /** Matching a special pair whose cards are unmatched: its kind has no
      effect yet, so `activateSpecial` appends one, and the effects stay
      consistent with the matched flags. */
  lemma SpecialMatchKeepsEffects(board: seq<Card>, m: seq<bool>, es: seq<Effect>, acts: seq<Activation>,
                                 a: nat, b: nat, r: Draw)
    requires IsDeck(board) && EffectsValid(board, m, es, acts)
    requires a < |board| && b < |board| && a != b && !m[a]
    requires board[a].key == board[b].key && board[a].Special?
    requires PairedTogether(board, m[a := true][b := true])
    ensures !(exists j :: 0 <= j < |es| && es[j].id == EffectId(board[a].specialKind))
    ensures var k := board[a].specialKind;
            EffectsValid(board, m[a := true][b := true], es + [EffectFor(k, r)], acts + [Activation(k, r)])
  {
    var k := board[a].specialKind;
    assert !HasKind(acts, k);
    ActivatedIds(es, acts, k);
    BuiltFromPush(es, acts, k, r);
    DistinctKindsPush(acts, k, r);
    SpecialMatchKeepsSpecials(board, m, acts, a, b, r);
  }

  /** Turning up a card keeps the invariant. */
  lemma TapKeeps(board: seq<Card>, s: Snapshot, i: nat)
    requires Consistent(board, s) && i < DeckSize
    requires !s.lock && !s.matched[i] && !s.revealed[i]
    ensures s.first.None? ==>
              Consistent(board, s.(revealed := s.revealed[i := true], first := Some(i)))
    ensures s.first.Some? ==>
              Consistent(board, s.(revealed := s.revealed[i := true], second := Some(i), lock := true))
  {
    TapKeepsSelection(board, s.revealed, s.matched, s.first, s.second, i);
  }

  /** Matching a numeric pair and adding its increment keeps the invariant. */
  lemma NumericMatchKeeps(board: seq<Card>, s: Snapshot, a: nat, b: nat, inc: int)
    requires Consistent(board, s) && s.first == Some(a) && s.second == Some(b)
    requires board[a].key == board[b].key && board[a].Normal?
    ensures Consistent(board, s.(matched := s.matched[a := true][b := true],
                                 first := None, second := None, lock := false,
                                 score := s.score + inc))
  {
    MatchKeepsSelection(board, s.revealed, s.matched, a, b);
    NormalMatchKeepsSpecials(board, s.matched, s.activations, a, b);
  }

  /** Matching a special pair: its kind has no effect yet, so
      `activateSpecial` appends one, and the invariant is kept. */
  lemma SpecialMatchKeeps(board: seq<Card>, s: Snapshot, a: nat, b: nat, r: Draw)
    requires Consistent(board, s) && s.first == Some(a) && s.second == Some(b)
    requires board[a].key == board[b].key && board[a].Special?
    ensures !(exists j :: 0 <= j < |s.effects| && s.effects[j].id == EffectId(board[a].specialKind))
    ensures var k := board[a].specialKind;
            Consistent(board, s.(matched := s.matched[a := true][b := true],
                                 first := None, second := None, lock := false,
                                 effects := s.effects + [EffectFor(k, r)],
                                 activations := s.activations + [Activation(k, r)]))
  {
    MatchKeepsSelection(board, s.revealed, s.matched, a, b);
    SpecialMatchKeepsEffects(board, s.matched, s.effects, s.activations, a, b, r);
  }

  /** Turning a mismatched pair face down keeps the invariant. */
  lemma HideKeeps(board: seq<Card>, s: Snapshot, a: nat, b: nat)
    requires Consistent(board, s) && s.first == Some(a) && s.second == Some(b)
    requires board[a].key != board[b].key
    ensures Consistent(board, s.(revealed := s.revealed[a := false][b := false],
                                 first := None, second := None, lock := false))
  {
    HideKeepsSelection(board, s.revealed, s.matched, a, b);
  }

  /** In every state of a session the effects list holds at most four
      effects, and no increment computed from it meets a rounding tie. */
  lemma SessionEffects(board: seq<Card>, s: Snapshot, base: int)
    requires Consistent(board, s)
    ensures |s.effects| <= 4
    ensures StrictlyNearest(base, s.effects)
  {
    AtMostFourEffects(s.effects, s.activations);
    NeverATie(base, s.effects, s.activations);
  }

  class Session {
    /** The card data of board slot `idx`: `deck[idx]` after the shuffle. */
    const board: seq<Card>
    /** `cards[idx].revealed` for every slot. */
    const revealed: array<bool>
    /** `cards[idx].matched` for every slot. */
    const matched: array<bool>
    /** `game.random`. */
    const random: Random

    var first: Option<nat>
    var second: Option<nat>
    var lock: bool
    var score: int
    var timeLeft: int
    var effects: seq<Effect>

    /** The activations that built `effects`, with the draw each used. */
    ghost var activations: seq<Activation>
    /** Timer ticks since the session started. */
    ghost var elapsed: nat

    /** The session's state as a value. */
    ghost function State(): Snapshot
      reads this, revealed, matched
    {
      Snapshot(revealed[..], matched[..], first, second, lock, score, timeLeft, effects, activations, elapsed)
    }

    ghost predicate Valid()
      reads this, revealed, matched
    {
      revealed.Length == DeckSize && matched.Length == DeckSize && revealed != matched
      && Consistent(board, State())
    }

    /** The game scene's setup: build the deck, shuffle it in place with
        `game.random`, lay it out on the 4 x 8 board, and start with score
        0, 60 seconds and no effects. */
    constructor (random: Random)
      modifies random
      ensures Valid() && fresh(revealed) && fresh(matched)
      ensures this.random == random
      ensures board == Shuffled(UnshuffledDeck(), random.stream, old(random.consumed))
      ensures random.consumed == old(random.consumed) + DeckSize - 1
      ensures forall i :: 0 <= i < DeckSize ==> !revealed[i] && !matched[i]
      ensures first == None && second == None && !lock
      ensures score == 0 && timeLeft == GameSeconds && effects == []
    {
      var dealt := Deal(random);
      board := dealt;
      this.random := random;
      revealed := new bool[DeckSize](_ => false);
      matched := new bool[DeckSize](_ => false);
      first, second, lock := None, None, false;
      score, timeLeft, effects := 0, GameSeconds, [];
      activations, elapsed := [], 0;
      new;
      InitialConsistent(board);
      assert State() == Initial();
    }

    /** The point-down handler of slot i: ignored while the lock is set or
        when the card is already matched or face up; otherwise the card is
        turned face up and becomes `first`, or `second`, which makes `judge`
        set the lock. */
    method Tap(i: nat)
      requires Valid() && i < DeckSize
      modifies this, revealed
      ensures Valid()
      ensures old(lock || matched[i] || revealed[i]) ==>
                unchanged(this) && revealed[..] == old(revealed[..])
      ensures !old(lock || matched[i] || revealed[i]) ==>
                && revealed[..] == old(revealed[..])[i := true]
                && (if old(first).None?
                    then first == Some(i) && second == None && !lock
                    else first == old(first) && second == Some(i) && lock)
                && score == old(score) && timeLeft == old(timeLeft) && effects == old(effects)
                && activations == old(activations) && elapsed == old(elapsed)
    {
      if lock || matched[i] || revealed[i] {
        return;
      }
      ghost var s := State();
      TapKeeps(board, s, i);
      revealed[i] := true;
      if first.None? {
        first := Some(i);
        assert State() == s.(revealed := s.revealed[i := true], first := Some(i));
        return;
      }
      second := Some(i);
      lock := true;
      assert State() == s.(revealed := s.revealed[i := true], second := Some(i), lock := true);
    }

    /** `activateSpecial(kind)`: when an effect with id `"spec_" + kind` is
        already present nothing happens and nothing is drawn; otherwise one
        draw is taken and the kind's effect is appended. */
    method ActivateSpecial(kind: SpecialKind)
      modifies this, random
      ensures first == old(first) && second == old(second) && lock == old(lock)
      ensures score == old(score) && timeLeft == old(timeLeft) && elapsed == old(elapsed)
      ensures (exists j :: 0 <= j < |old(effects)| && old(effects)[j].id == EffectId(kind)) ==>
                && effects == old(effects) && activations == old(activations)
                && random.consumed == old(random.consumed)
      ensures !(exists j :: 0 <= j < |old(effects)| && old(effects)[j].id == EffectId(kind)) ==>
                var r := random.stream(old(random.consumed));
                && effects == old(effects) + [EffectFor(kind, r)]
                && activations == old(activations) + [Activation(kind, r)]
                && random.consumed == old(random.consumed) + 1
    {
      var id := EffectId(kind);
      for j := 0 to |effects|
        invariant forall l :: 0 <= l < j ==> effects[l].id != id
      {
        if effects[j].id == id {
          return;
        }
      }
      var r := random.Generate();
      effects := effects + [EffectFor(kind, r)];
      activations := activations + [Activation(kind, r)];
    }

    /** The deferred part of `judge`. When the two keys are equal both cards
        are matched; a numeric pair adds `computeIncrement(a.value + b.value,
        effects)` to the score and a special pair activates its kind, whose
        effect is always new. Otherwise both cards are turned face down. In
        every case the selection is cleared and the lock released. */
    method Resolve(a: nat, b: nat)
      requires Valid() && first == Some(a) && second == Some(b)
      modifies this, revealed, matched, random
      ensures Valid()
      ensures first == None && second == None && !lock
      ensures timeLeft == old(timeLeft) && elapsed == old(elapsed)
      ensures board[a].key == board[b].key ==>
                && matched[..] == old(matched[..])[a := true][b := true]
                && revealed[..] == old(revealed[..])
      ensures board[a].key == board[b].key && board[a].Normal? ==>
                && board[b].Normal?
                && score == old(score) + IncrementOf(board[a].value + board[b].value, old(effects))
                && effects == old(effects) && random.consumed == old(random.consumed)
      ensures board[a].key == board[b].key && board[a].Special? ==>
                && score == old(score)
                && effects == old(effects) + [EffectFor(board[a].specialKind, random.stream(old(random.consumed)))]
                && random.consumed == old(random.consumed) + 1
      ensures board[a].key != board[b].key ==>
                && matched[..] == old(matched[..])
                && revealed[..] == old(revealed[..])[a := false][b := false]
                && score == old(score) && effects == old(effects)
                && random.consumed == old(random.consumed)
    {
      if board[a].key == board[b].key {
        if board[a].Normal? {
          ScoreNumericPair(a, b);
        } else {
          MatchSpecialPair(a, b);
        }
      } else {
        HidePair(a, b);
      }
    }

    /** A numeric pair: `computeIncrement(a.value + b.value, effects)`, then
        the match. */
    method ScoreNumericPair(a: nat, b: nat)
      requires Valid() && first == Some(a) && second == Some(b)
      requires board[a].key == board[b].key && board[a].Normal?
      modifies this, matched
      ensures Valid()
      ensures first == None && second == None && !lock
      ensures matched[..] == old(matched[..])[a := true][b := true]
      ensures board[b].Normal? && score == old(score) + IncrementOf(board[a].value + board[b].value, old(effects))
      ensures timeLeft == old(timeLeft) && elapsed == old(elapsed)
      ensures effects == old(effects) && activations == old(activations)
    {
      SameKeySameCard(board, a, b);
      var inc := ComputeIncrement(board[a].value + board[b].value, effects);
      MatchNumericPair(a, b, inc);
    }

    /** The two selected cards a and b have equal numeric keys: both are
        matched, the score grows by `inc`, the value of
        `computeIncrement(a.value + b.value, effects)` that ScoreNumericPair
        passes in, and the selection is released. */
    method MatchNumericPair(a: nat, b: nat, inc: int)
      requires Valid() && first == Some(a) && second == Some(b)
      requires board[a].key == board[b].key && board[a].Normal?
      modifies this, matched
      ensures Valid()
      ensures first == None && second == None && !lock
      ensures matched[..] == old(matched[..])[a := true][b := true]
      ensures score == old(score) + inc
      ensures timeLeft == old(timeLeft) && elapsed == old(elapsed)
      ensures effects == old(effects) && activations == old(activations)
    {
      ghost var s := State();
      NumericMatchKeeps(board, s, a, b, inc);
      matched[a] := true;
      matched[b] := true;
      score := score + inc;
      first, second, lock := None, None, false;
      assert matched[..] == s.matched[a := true][b := true];
      assert State() == s.(matched := s.matched[a := true][b := true],
                           first := None, second := None, lock := false, score := s.score + inc);
    }

    /** The two selected cards a and b have equal special keys: both are
        matched and their kind is activated. The kind was not active before
        (its pair was still on the board), so `activateSpecial` always takes
        one draw and appends the kind's effect. */
    method MatchSpecialPair(a: nat, b: nat)
      requires Valid() && first == Some(a) && second == Some(b)
      requires board[a].key == board[b].key && board[a].Special?
      modifies this, matched, random
      ensures Valid()
      ensures first == None && second == None && !lock
      ensures matched[..] == old(matched[..])[a := true][b := true]
      ensures score == old(score) && timeLeft == old(timeLeft) && elapsed == old(elapsed)
      ensures effects == old(effects) + [EffectFor(board[a].specialKind, random.stream(old(random.consumed)))]
      ensures random.consumed == old(random.consumed) + 1
    {
      ghost var s, r := State(), random.stream(random.consumed);
      var kind := board[a].specialKind;
      SpecialMatchKeeps(board, s, a, b, r);
      matched[a] := true;
      matched[b] := true;
      ActivateSpecial(kind);
      first, second, lock := None, None, false;
      assert matched[..] == s.matched[a := true][b := true];
      assert State() == s.(matched := s.matched[a := true][b := true],
                           first := None, second := None, lock := false,
                           effects := s.effects + [EffectFor(kind, r)],
                           activations := s.activations + [Activation(kind, r)]);
    }

    /** The two selected cards a and b have different keys: both are turned
        face down and the selection is released. */
    method HidePair(a: nat, b: nat)
      requires Valid() && first == Some(a) && second == Some(b)
      requires board[a].key != board[b].key
      modifies this, revealed
      ensures Valid()
      ensures first == None && second == None && !lock
      ensures revealed[..] == old(revealed[..])[a := false][b := false]
      ensures score == old(score) && timeLeft == old(timeLeft) && elapsed == old(elapsed)
      ensures effects == old(effects) && activations == old(activations)
    {
      ghost var s := State();
      HideKeeps(board, s, a, b);
      revealed[a] := false;
      revealed[b] := false;
      first, second, lock := None, None, false;
      assert revealed[..] == s.revealed[a := false][b := false];
      assert State() == s.(revealed := s.revealed[a := false][b := false],
                           first := None, second := None, lock := false);
    }

    /** One second of the game timer: `timeLeft` drops by one, and the game
        is over exactly when it reaches 0, that is after 60 ticks. */
    method Tick() returns (expired: bool)
      requires Valid() && timeLeft > 0
      modifies this
      ensures Valid()
      ensures timeLeft == old(timeLeft) - 1 && elapsed == old(elapsed) + 1
      ensures expired <==> elapsed == GameSeconds
      ensures expired <==> timeLeft <= 0
      ensures first == old(first) && second == old(second) && lock == old(lock)
      ensures score == old(score) && effects == old(effects) && activations == old(activations)
    {
      timeLeft := timeLeft - 1;
      elapsed := elapsed + 1;
      expired := timeLeft <= 0;
    }
  }
}
