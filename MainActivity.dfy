/**
  The decision logic of the rock-paper-scissors activity, kept in the activity's own
  terms: choices and results are strings, the win rule is a string-keyed map whose
  lookup may miss, the system's choice is an index into a three-element list, and the
  image shown is a drawable resource id (0 for none).
 */
module MainActivity {
  import opened Gestures

  /** A Kotlin nullable value: what a map lookup returns. */
  datatype Option<T> = None | Some(value: T)

  const RockText: string := "rock"
  const PaperText: string := "paper"
  const ScissorsText: string := "scissors"

  const DrawText: string := "It's a draw!"
  const WinText: string := "You win!"
  const LoseText: string := "You lose!"

  /** The list the system's choice is drawn from, in this order. */
  const ChoiceList: seq<string> := [RockText, PaperText, ScissorsText]

  /** Each key beats its value. */
  const WinConditions: map<string, string> :=
    map[RockText := ScissorsText, PaperText := RockText, ScissorsText := PaperText]

  /** Kotlin's `m[k]`: the value, or null when the key is absent. */
  function Get(m: map<string, string>, k: string): Option<string>
  {
    if k in m then Some(m[k]) else None
  }

  /** The three buttons of the screen. */
  datatype Button = RockButton | PaperButton | ScissorsButton

  /** The string each button passes to `PlayGame`. */
  function ButtonChoice(b: Button): (s: string)
    ensures s in ChoiceList
  {
    match b
    case RockButton => RockText
    case PaperButton => PaperText
    case ScissorsButton => ScissorsText
  }

  /** The result text for two choice strings, exactly as the activity decides it. */
  function DetermineWinner(userChoice: string, computerChoice: string): (r: string)
    ensures r == DrawText || r == WinText || r == LoseText
    ensures r == DrawText <==> userChoice == computerChoice
    ensures r == WinText ==> userChoice in ChoiceList && computerChoice in ChoiceList
  {
    if userChoice == computerChoice then
      DrawText
    else if Get(WinConditions, userChoice) == Some(computerChoice) then
      WinText
    else
      LoseText
  }

  /** The system's choice, given the index the random draw produced. */
  function GetRandomChoice(index: nat): (c: string)
    requires index < |ChoiceList|
    ensures c in ChoiceList
    ensures Decode(c).Some? && Ord(Decode(c).value) == index
  {
    ChoiceList[index]
  }

  /** The platform-generated resource ids of the three gesture images. */
  datatype Drawables = Drawables(rock: int, paper: int, scissors: int)
  {
    /** Resource ids are nonzero, and distinct images have distinct ids. */
    predicate Valid()
    {
      rock != 0 && paper != 0 && scissors != 0
      && rock != paper && paper != scissors && rock != scissors
    }

    /** The image of a gesture of the reference model. */
    function Of(c: Choice): int
    {
      match c
      case Rock => rock
      case Paper => paper
      case Scissors => scissors
    }
  }

  /** The image id shown for the computer's choice; 0 for a string that names no gesture. */
  function ComputerChoiceImage(res: Drawables, computerChoice: string): (id: int)
    ensures computerChoice in ChoiceList ==> id == res.Of(Decode(computerChoice).value)
    ensures computerChoice !in ChoiceList ==> id == 0
    ensures res.Valid() ==> (id != 0 <==> computerChoice in ChoiceList)
  {
    if computerChoice == RockText then res.rock
    else if computerChoice == PaperText then res.paper
    else if computerChoice == ScissorsText then res.scissors
    else 0
  }

  /** What one tap leaves on the screen. */
  datatype Round = Round(computerChoice: string, imageId: int, result: string)

  /** One round: draw the computer's choice, show its image, judge the round. */
  function PlayGame(res: Drawables, userChoice: string, index: nat): (r: Round)
    requires index < |ChoiceList|
    ensures r.computerChoice == GetRandomChoice(index) && r.computerChoice in ChoiceList
    ensures r.imageId == res.Of(Decode(r.computerChoice).value)
    ensures res.Valid() ==> r.imageId != 0
    ensures r.result == DetermineWinner(userChoice, r.computerChoice)
  {
    var computerChoice := GetRandomChoice(index);
    var imageId := ComputerChoiceImage(res, computerChoice);
    var result := DetermineWinner(userChoice, computerChoice);
    Round(computerChoice, imageId, result)
  }

  // ---------------------------------------------------------------------------
  // Correspondence with the reference rules

  function Encode(c: Choice): (s: string)
    ensures s in ChoiceList
  {
    match c
    case Rock => RockText
    case Paper => PaperText
    case Scissors => ScissorsText
  }

  function Decode(s: string): (c: Option<Choice>)
    ensures c.Some? <==> s in ChoiceList
  {
    if s == RockText then Some(Rock)
    else if s == PaperText then Some(Paper)
    else if s == ScissorsText then Some(Scissors)
    else None
  }

  /** The text the activity shows for each outcome. */
  function Message(o: Outcome): string
  {
    match o
    case Win => WinText
    case Lose => LoseText
    case Draw => DrawText
  }

  lemma DecodeEncode(c: Choice)
    ensures Decode(Encode(c)) == Some(c)
  {
  }

  lemma EncodeDecode(s: string)
    requires s in ChoiceList
    ensures Encode(Decode(s).value) == s
  {
  }

  /** Different outcomes are shown as different texts. */
  lemma MessageInjective(o1: Outcome, o2: Outcome)
    requires Message(o1) == Message(o2)
    ensures o1 == o2
  {
  }

  /** On the three valid gestures the activity's rule is the reference rule. */
  lemma DetermineWinnerMatchesJudge(a: Choice, b: Choice)
    ensures DetermineWinner(Encode(a), Encode(b)) == Message(Judge(a, b))
  {
    BeatsTable(a, b);
  }

  /** The same, stated on the strings the activity passes around. */
  lemma DetermineWinnerOnValidChoices(userChoice: string, computerChoice: string)
    requires userChoice in ChoiceList && computerChoice in ChoiceList
    ensures DetermineWinner(userChoice, computerChoice)
         == Message(Judge(Decode(userChoice).value, Decode(computerChoice).value))
  {
    var a, b := Decode(userChoice).value, Decode(computerChoice).value;
    EncodeDecode(userChoice);
    EncodeDecode(computerChoice);
    DetermineWinnerMatchesJudge(a, b);
  }

  /** All nine rounds between valid gestures. */
  lemma WinnerTable()
    ensures DetermineWinner(RockText, RockText) == DrawText
    ensures DetermineWinner(RockText, PaperText) == LoseText
    ensures DetermineWinner(RockText, ScissorsText) == WinText
    ensures DetermineWinner(PaperText, RockText) == WinText
    ensures DetermineWinner(PaperText, PaperText) == DrawText
    ensures DetermineWinner(PaperText, ScissorsText) == LoseText
    ensures DetermineWinner(ScissorsText, RockText) == LoseText
    ensures DetermineWinner(ScissorsText, PaperText) == WinText
    ensures DetermineWinner(ScissorsText, ScissorsText) == DrawText
  {
  }

  /** Among valid gestures, the user wins exactly on the pairs of the win map and loses on the rest. */
  lemma WinExactlyOnWinConditions(userChoice: string, computerChoice: string)
    requires userChoice in ChoiceList && computerChoice in ChoiceList
    ensures DetermineWinner(userChoice, computerChoice) == WinText
        <==> userChoice in WinConditions && WinConditions[userChoice] == computerChoice
    ensures DetermineWinner(userChoice, computerChoice) == LoseText
        <==> userChoice != computerChoice
             && !(userChoice in WinConditions && WinConditions[userChoice] == computerChoice)
  {
  }

  /** For distinct valid gestures, the user wins a round exactly when the swapped round is lost. */
  lemma Antisymmetric(a: string, b: string)
    requires a in ChoiceList && b in ChoiceList && a != b
    ensures DetermineWinner(a, b) == WinText <==> DetermineWinner(b, a) == LoseText
    ensures DetermineWinner(a, b) == LoseText <==> DetermineWinner(b, a) == WinText
  {
    var x, y := Decode(a).value, Decode(b).value;
    DetermineWinnerOnValidChoices(a, b);
    DetermineWinnerOnValidChoices(b, a);
    JudgeAntisymmetric(x, y);
  }

  /** A user string that names no gesture misses the win map, so it loses unless it equals the computer's string. */
  lemma OutOfDomainUserLoses(userChoice: string, computerChoice: string)
    requires userChoice !in ChoiceList && userChoice != computerChoice
    ensures DetermineWinner(userChoice, computerChoice) == LoseText
  {
  }

  /** Outside the valid gestures antisymmetry fails: both orders of such a round are losses. */
  lemma OutOfDomainBothLose(x: string, y: string)
    requires x !in ChoiceList && x != y
    ensures DetermineWinner(x, y) == LoseText && DetermineWinner(y, x) == LoseText
  {
  }

  /** Each valid gesture is drawn by exactly one index, so none is excluded. */
  lemma RandomChoiceBijective(c: string)
    requires c in ChoiceList
    ensures exists i: nat :: i < |ChoiceList| && GetRandomChoice(i) == c
    ensures forall i: nat, j: nat :: i < j < |ChoiceList| ==> GetRandomChoice(i) != GetRandomChoice(j)
  {
    var i := Ord(Decode(c).value);
    assert GetRandomChoice(i) == c;
  }

  /** Valid gestures get pairwise distinct images. */
  lemma ComputerChoiceImageInjective(res: Drawables, a: string, b: string)
    requires res.Valid() && a in ChoiceList && b in ChoiceList
    requires ComputerChoiceImage(res, a) == ComputerChoiceImage(res, b)
    ensures a == b
  {
  }

  /** A tap on a button shows the image of the computer's gesture and the reference outcome of the round. */
  lemma TapShowsJudgedRound(res: Drawables, b: Button, index: nat)
    requires res.Valid() && index < |ChoiceList|
    ensures var r := PlayGame(res, ButtonChoice(b), index);
      var computer := Decode(r.computerChoice).value;
      && r.computerChoice == GetRandomChoice(index) == Encode(computer)
      && r.imageId == res.Of(computer) && r.imageId != 0
      && r.result == Message(Judge(Decode(ButtonChoice(b)).value, computer))
  {
    var r := PlayGame(res, ButtonChoice(b), index);
    EncodeDecode(r.computerChoice);
    DetermineWinnerOnValidChoices(ButtonChoice(b), r.computerChoice);
  }
}
