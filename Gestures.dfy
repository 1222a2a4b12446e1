/**
  The rules of rock-paper-scissors stated on a closed enumeration, independently of
  how the Android activity writes them. The activity's string-based code is proved to
  agree with this module in MainActivity.dfy.
 */
module Gestures {

  datatype Choice = Rock | Paper | Scissors

  /** The outcome of a round, from the player's point of view. */
  datatype Outcome = Win | Lose | Draw

  /** Position of a gesture on the cycle rock, paper, scissors; each gesture beats the one before it. */
  function Ord(c: Choice): nat
  {
    match c
    case Rock => 0
    case Paper => 1
    case Scissors => 2
  }

  /** `a` beats `b` when `a` comes exactly one step after `b` on the cycle. */
  predicate Beats(a: Choice, b: Choice)
  {
    (Ord(a) - Ord(b)) % 3 == 1
  }

  /** The reference rule: equal gestures draw, otherwise the one that beats the other wins. */
  function Judge(player: Choice, system: Choice): (o: Outcome)
    ensures o == Draw <==> player == system
    ensures o == Win <==> Beats(player, system)
    ensures o == Lose <==> Beats(system, player)
  {
    if player == system then Draw
    else if Beats(player, system) then Win
    else Lose
  }

  /** Swapping the two sides of a round swaps Win and Lose and keeps Draw. */
  function Swap(o: Outcome): Outcome
  {
    match o
    case Win => Lose
    case Lose => Win
    case Draw => Draw
  }

  /** The beats relation is the classical cycle: rock > scissors > paper > rock, and nothing else. */
  lemma BeatsTable(a: Choice, b: Choice)
    ensures Beats(a, b) <==> (a, b) in {(Rock, Scissors), (Paper, Rock), (Scissors, Paper)}
  {
    match a
    case Rock => match b { case Rock => case Paper => case Scissors => }
    case Paper => match b { case Rock => case Paper => case Scissors => }
    case Scissors => match b { case Rock => case Paper => case Scissors => }
  }

  /** Every gesture beats exactly one gesture and is beaten by exactly one gesture. */
  lemma BeatsIsTournament(a: Choice)
    ensures exists b :: Beats(a, b) && forall c :: Beats(a, c) ==> c == b
    ensures exists b :: Beats(b, a) && forall c :: Beats(c, a) ==> c == b
  {
    var victim, victor := Winning(a), Losing(a);
    forall c ensures Beats(a, c) ==> c == victim {
      BeatsTable(a, c);
    }
    forall c ensures Beats(c, a) ==> c == victor {
      BeatsTable(c, a);
    }
  }

  /** The gesture that `a` beats. */
  function Winning(a: Choice): (b: Choice)
    ensures Beats(a, b)
  {
    match a
    case Rock => Scissors
    case Paper => Rock
    case Scissors => Paper
  }

  /** The gesture that beats `a`. */
  function Losing(a: Choice): (b: Choice)
    ensures Beats(b, a)
  {
    match a
    case Rock => Paper
    case Paper => Scissors
    case Scissors => Rock
  }

  /** Between two distinct gestures exactly one beats the other. */
  lemma BeatsAsymmetricAndConnected(a: Choice, b: Choice)
    requires a != b
    ensures Beats(a, b) != Beats(b, a)
  {
    BeatsTable(a, b);
    BeatsTable(b, a);
  }

  /** Judging the swapped round gives the swapped outcome. */
  lemma JudgeAntisymmetric(a: Choice, b: Choice)
    ensures Judge(b, a) == Swap(Judge(a, b))
  {
    if a != b {
      BeatsAsymmetricAndConnected(a, b);
    }
  }
}
