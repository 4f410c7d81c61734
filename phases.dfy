/** The three scenes of the game as phases of one controller: the rule
    screen counts down from 15 and starts a game; a game runs its 60-second
    session and hands the final score to the result screen, which offers it
    to the host's `submitScore`; the result screen's button restarts with
    the rule screen. The one-second intervals and the 550 ms judgement
    timeout become the events `Tick` and `Resolve`. */
module Phases {
  import opened Helpers
  import opened Rng
  import opened Deck
  import opened Match

  /** Seconds on the rule screen's countdown. */
  const RuleSeconds := 15

  datatype Phase =
    | Rule(remain: int)        // the rule screen with `remain` seconds to go
    | Playing                  // the game scene; the session holds its state
    | Result(finalScore: int)  // the result screen showing the final score

  class Game {
    /** `g.game.random`, shared by every session. */
    const random: Random
    var phase: Phase
    /** The running game scene's state; present only while playing. */
    var session: Session?
    ghost var Repr: set<object>

    ghost predicate Valid()
      reads this, Repr
    {
      && this in Repr && random in Repr
      && (phase.Rule? ==> 0 < phase.remain <= RuleSeconds)
      && (phase.Playing? <==> session != null)
      && (session == null ==> Repr == {this, random})
      && (session != null ==>
            && Repr == {this, random, session, session.revealed, session.matched}
            && session.random == random && session.Valid() && session.timeLeft > 0)
    }

    /** `main`: the game opens on the rule screen. */
    constructor (random: Random)
      ensures Valid() && fresh(Repr - {random})
      ensures this.random == random && phase == Rule(RuleSeconds)
    {
      this.random := random;
      phase := Rule(RuleSeconds);
      session := null;
      Repr := {this, random};
    }

    /** One second passes. On the rule screen the countdown drops and at 0
        a fresh game starts; in a game the clock drops and at 0 the result
        screen takes the score, which is returned as the value handed to
        `submitScore`; on the result screen nothing ticks. */
    method Tick() returns (submitted: Option<int>)
      requires Valid()
      modifies Repr
      ensures Valid() && fresh(Repr - old(Repr))
      ensures old(phase).Rule? && old(phase).remain > 1 ==>
                phase == Rule(old(phase).remain - 1) && submitted == None
                && random.consumed == old(random.consumed)
      ensures old(phase).Rule? && old(phase).remain <= 1 ==>
                && phase == Playing && submitted == None && fresh(session)
                && session.board == Shuffled(UnshuffledDeck(), random.stream, old(random.consumed))
                && session.score == 0 && session.timeLeft == GameSeconds && session.effects == []
                && session.first == None && session.second == None && !session.lock
                && (forall i :: 0 <= i < DeckSize ==> !session.revealed[i] && !session.matched[i])
                && random.consumed == old(random.consumed) + DeckSize - 1
      ensures old(phase).Playing? && old(session.timeLeft) > 1 ==>
                && phase == Playing && submitted == None && session == old(session)
                && session.timeLeft == old(session.timeLeft) - 1 && session.score == old(session.score)
                && session.effects == old(session.effects)
                && session.first == old(session.first) && session.second == old(session.second)
                && session.lock == old(session.lock)
                && session.revealed[..] == old(session.revealed[..])
                && session.matched[..] == old(session.matched[..])
      ensures old(phase).Playing? ==> random.consumed == old(random.consumed)
      ensures old(phase).Playing? && old(session.timeLeft) <= 1 ==>
                phase == Result(old(session.score)) && submitted == Some(old(session.score))
      ensures old(phase).Result? ==>
                phase == old(phase) && submitted == None && random.consumed == old(random.consumed)
    {
      submitted := None;
      match phase
      case Rule(remain) =>
        if remain - 1 <= 0 {
          var s := new Session(random);
          session := s;
          phase := Playing;
          Repr := {this, random, s, s.revealed, s.matched};
        } else {
          phase := Rule(remain - 1);
        }
      case Playing =>
        var expired := session.Tick();
        if expired {
          phase := Result(session.score);
          submitted := Some(session.score);
          session := null;
          Repr := {this, random};
        }
      case Result(_) =>
    }

    /** A tap on board slot i: only the game scene has cards to tap. */
    method Tap(i: nat)
      requires Valid() && i < DeckSize
      modifies Repr
      ensures Valid() && Repr == old(Repr)
      ensures phase == old(phase) && session == old(session)
      ensures phase.Playing? ==>
                && session.score == old(session.score) && session.timeLeft == old(session.timeLeft)
                && (old(session.lock || session.matched[i] || session.revealed[i]) ==>
                      && session.revealed[..] == old(session.revealed[..])
                      && session.first == old(session.first) && session.second == old(session.second)
                      && session.lock == old(session.lock))
                && (!old(session.lock || session.matched[i] || session.revealed[i]) ==>
                      && session.revealed[..] == old(session.revealed[..])[i := true]
                      && (if old(session.first).None?
                          then session.first == Some(i) && session.second == None && !session.lock
                          else session.first == old(session.first) && session.second == Some(i) && session.lock))
                && session.matched[..] == old(session.matched[..])
                && session.effects == old(session.effects)
      ensures random.consumed == old(random.consumed)
    {
      if phase.Playing? {
        session.Tap(i);
      }
    }

    /** The judgement timeout fires: it resolves the pending pair when the
        game is still running; a pending pair of a game that has already
        ended is dropped with its scene. */
    method Resolve()
      requires Valid()
      modifies Repr
      ensures Valid() && Repr == old(Repr)
      ensures phase == old(phase) && session == old(session)
      ensures old(phase).Playing? && old(session.lock) ==>
                !session.lock && session.timeLeft == old(session.timeLeft)
      ensures !(old(phase).Playing? && old(session.lock)) ==> random.consumed == old(random.consumed)
    {
      if phase.Playing? && session.lock {
        session.Resolve(session.first.value, session.second.value);
      }
    }

    /** The result screen's button: back to the rule screen. */
    method Restart()
      requires Valid()
      modifies this
      ensures Valid() && Repr == old(Repr)
      ensures old(phase).Result? ==> phase == Rule(RuleSeconds)
      ensures !old(phase).Result? ==> phase == old(phase)
      ensures session == old(session)
    {
      if phase.Result? {
        phase := Rule(RuleSeconds);
      }
    }
  }
}
