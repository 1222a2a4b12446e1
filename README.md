# Rock-paper-scissors round decision, in Dafny

This project models the decision logic of a single-screen Android rock-paper-scissors game. There are three buttons, and each one passes the string `"rock"`, `"paper"` or `"scissors"` to `playGame`. The activity then:

- draws the computer's choice from the list `["rock", "paper", "scissors"]` using a random index;
- shows that choice's drawable image;
- decides the result text with `determineWinner`.

`determineWinner` gives `"It's a draw!"` when the two strings are equal. Otherwise it looks up the user's string in a three-entry map, where each gesture maps to the gesture it beats. It gives `"You win!"` when the lookup returns the computer's string and `"You lose!"` in every other case.

The project has two modules:

- `Gestures` (Gestures.dfy) is an independent reference for the rules. Gestures are a closed enumeration. The beats relation is the cycle rock > scissors > paper > rock: on the order rock, paper, scissors, each gesture beats the one before it, computed from positions modulo 3. `Judge` gives the outcome of a round.
- `MainActivity` (MainActivity.dfy) models the activity's own code on strings. The Kotlin map lookup returns a nullable value, and the model uses an `Option` for it. The model keeps the out-of-domain behaviour of the code, and it proves that the code agrees with the reference on the three valid gestures.

The code does not reject a string outside the three gestures: it misses the map and the round is reported as `"You lose!"`. This model follows the code (`OutOfDomainUserLoses`). It also shows that antisymmetry fails outside the valid gestures: both orders of such a round are losses (`OutOfDomainBothLose`).

## Model

| member | source | states |
|---|---|---|
| Gestures.Judge | app/src/main/java/com/charlie/rockpaperscissorsgame/MainActivity.kt:71-86 | Reference rule: the round is a draw exactly when the gestures are equal. It is a win exactly when the player's gesture beats the system's, and a loss exactly when the system's beats the player's. |
| Gestures.BeatsTable | app/src/main/java/com/charlie/rockpaperscissorsgame/MainActivity.kt:75-79 | The modular-cycle beats relation holds for exactly the three pairs of the win map: rock/scissors, paper/rock and scissors/paper. |
| Gestures.BeatsIsTournament | app/src/main/java/com/charlie/rockpaperscissorsgame/MainActivity.kt:75-79 | Every gesture beats exactly one gesture and is beaten by exactly one gesture. |
| Gestures.BeatsAsymmetricAndConnected | app/src/main/java/com/charlie/rockpaperscissorsgame/MainActivity.kt:75-79 | Of two distinct gestures, exactly one beats the other. |
| Gestures.JudgeAntisymmetric | app/src/main/java/com/charlie/rockpaperscissorsgame/MainActivity.kt:71-86 | Judging the swapped round swaps Win and Lose and keeps Draw. |
| MainActivity.ButtonChoice | app/src/main/java/com/charlie/rockpaperscissorsgame/MainActivity.kt:34-44 | Each button passes one of the three strings of the choice list. |
| MainActivity.DetermineWinner | app/src/main/java/com/charlie/rockpaperscissorsgame/MainActivity.kt:71-86 | The result is one of exactly three texts. It is the draw text exactly when the two strings are equal. A win happens only when both strings are valid gestures. |
| MainActivity.GetRandomChoice | app/src/main/java/com/charlie/rockpaperscissorsgame/MainActivity.kt:54-59 | For an index in [0, 3), the choice is a valid gesture string whose position in the rock/paper/scissors order is that index. |
| MainActivity.ComputerChoiceImage | app/src/main/java/com/charlie/rockpaperscissorsgame/MainActivity.kt:61-67 | A valid gesture string gets the drawable of that gesture. Any other string gets 0. With valid resource ids, the id is nonzero exactly for the valid gestures. |
| MainActivity.PlayGame | app/src/main/java/com/charlie/rockpaperscissorsgame/MainActivity.kt:47-52 | The computer's choice is the list entry `GetRandomChoice` draws for the index, a valid gesture. The image shown is that gesture's drawable, which is nonzero. The result is `DetermineWinner` of the user's string and that same computer choice. |
| MainActivity.DecodeEncode | app/src/main/java/com/charlie/rockpaperscissorsgame/MainActivity.kt:55 | Reading back the string of a gesture gives the same gesture. |
| MainActivity.EncodeDecode | app/src/main/java/com/charlie/rockpaperscissorsgame/MainActivity.kt:55 | Each valid choice string is the string of the gesture it reads as. |
| MainActivity.MessageInjective | app/src/main/java/com/charlie/rockpaperscissorsgame/MainActivity.kt:72-85 | The three result texts are distinct, so the text shown identifies the outcome. |
| MainActivity.DetermineWinnerMatchesJudge | app/src/main/java/com/charlie/rockpaperscissorsgame/MainActivity.kt:71-86 | For all nine pairs of gestures, the activity's rule gives the text of the reference outcome. |
| MainActivity.DetermineWinnerOnValidChoices | app/src/main/java/com/charlie/rockpaperscissorsgame/MainActivity.kt:71-86 | The same agreement, stated for any two valid choice strings. |
| MainActivity.WinnerTable | app/src/main/java/com/charlie/rockpaperscissorsgame/MainActivity.kt:71-86 | The full table of nine results: three draws, three wins and three losses. |
| MainActivity.WinExactlyOnWinConditions | app/src/main/java/com/charlie/rockpaperscissorsgame/MainActivity.kt:75-84 | Between valid gestures, the user wins exactly on the pairs of the win map. The user loses exactly on the distinct pairs that are not in it. |
| MainActivity.Antisymmetric | app/src/main/java/com/charlie/rockpaperscissorsgame/MainActivity.kt:75-84 | For distinct valid gestures a and b, (a, b) is a win exactly when (b, a) is a loss, and the reverse. |
| MainActivity.OutOfDomainUserLoses | app/src/main/java/com/charlie/rockpaperscissorsgame/MainActivity.kt:80-84 | A user string that is not a gesture and differs from the computer's string gives the lose text. |
| MainActivity.OutOfDomainBothLose | app/src/main/java/com/charlie/rockpaperscissorsgame/MainActivity.kt:80-84 | For any string x outside the three gestures and any other string y, both (x, y) and (y, x) are losses, so antisymmetry holds only on valid gestures. |
| MainActivity.RandomChoiceBijective | app/src/main/java/com/charlie/rockpaperscissorsgame/MainActivity.kt:55-58 | Every valid gesture is drawn by some index in [0, 3), and distinct indices draw distinct gestures. |
| MainActivity.ComputerChoiceImageInjective | app/src/main/java/com/charlie/rockpaperscissorsgame/MainActivity.kt:62-67 | With valid resource ids, distinct valid gestures get distinct images. |
| MainActivity.TapShowsJudgedRound | app/src/main/java/com/charlie/rockpaperscissorsgame/MainActivity.kt:34-52 | A tap on any button draws the computer's gesture `GetRandomChoice(index)` and shows that gesture's image, which is nonzero. The result text is the reference outcome of the button's gesture against that same gesture. |

## Left out

- `Random.nextDouble()` and the multiply-and-truncate that turns it into an index (lines 56-57) are left out. The index is a parameter in [0, 3). No claim about the distribution of the draw is made; the model only shows that no gesture is unreachable.
- The concrete `R.drawable.*` values are generated by the platform. They are a `Drawables` parameter, and `Valid` assumes only that the ids are nonzero and distinct.
- The Android view plumbing is left out. This covers `onCreate`, `enableEdgeToEdge`, `setContentView`, `findViewById`, the click listeners as callbacks, `setImageResource` and the assignment in `displayResult`. Only the string each button passes is kept (`ButtonChoice`).
- PlayGame: the model returns the chosen string, the image id and the result text together as a value. It does not model the order of the two view updates: the image is set before the result text.
