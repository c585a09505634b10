/** The rock-paper-scissors rules of C++/code/rps_game.cpp: validating the
    player's character, mapping the computer's random number to a choice, and
    the verdict of `choosewinner`. Choices are the characters 'r', 'p', 's'. */
module Rps {

  import opened Wrappers

  /** The message `choosewinner` prints, from the player's point of view. */
  datatype Verdict = Win | Lose | Tie

  predicate IsChoice(c: char)
  {
    c == 'r' || c == 'p' || c == 's'
  }

  /** `std::tolower` in the "C" locale: upper-case ASCII letters become lower
      case, every other character is left alone. */
  function ToLower(c: char): (r: char)
    ensures 'A' <= c <= 'Z' ==> 'a' <= r <= 'z' && r as int - c as int == 32
    ensures !('A' <= c <= 'Z') ==> r == c
  {
    if 'A' <= c <= 'Z' then (c as int + 32) as char else c
  }

  /** `getUserChoice`: the do-while loop reads one character per attempt,
      lower-cases it and stops at the first 'r', 'p' or 's'. `inputs` are the
      characters read, one per attempt; `None` means the input ran out before a
      valid choice was read. */
  function UserChoice(inputs: seq<char>): (r: Option<char>)
    ensures r.Some? ==> IsChoice(r.value)
    ensures r.Some? <==> exists i :: 0 <= i < |inputs| && IsChoice(ToLower(inputs[i]))
    decreases |inputs|
  {
    if |inputs| == 0 then None
    else if IsChoice(ToLower(inputs[0])) then Some(ToLower(inputs[0]))
    else
      var rest := UserChoice(inputs[1..]);
      assert forall i :: 1 <= i < |inputs| ==> inputs[i] == inputs[1..][i - 1];
      rest
  }

  /** The choice returned is the first valid attempt, lower-cased; every
      earlier attempt was rejected. */
  lemma {:induction false} UserChoiceIsFirstValid(inputs: seq<char>, k: nat)
    requires k < |inputs| && IsChoice(ToLower(inputs[k]))
    requires forall i :: 0 <= i < k ==> !IsChoice(ToLower(inputs[i]))
    ensures UserChoice(inputs) == Some(ToLower(inputs[k]))
    decreases k
  {
    if k > 0 {
      UserChoiceIsFirstValid(inputs[1..], k - 1);
    }
  }

  /** The `switch` of `getComputerChoice`: 1, 2, 3 map to 'r', 'p', 's'; any
      other number reaches the final `return 0`. */
  function ChoiceOf(num: int): (c: char)
    ensures IsChoice(c) <==> 1 <= num <= 3
    ensures num == 1 ==> c == 'r'
    ensures num == 2 ==> c == 'p'
    ensures num == 3 ==> c == 's'
  {
    if num == 1 then 'r'
    else if num == 2 then 'p'
    else if num == 3 then 's'
    else 0 as char
  }

  /** `getComputerChoice` with the value of `rand()` (never negative) as a
      parameter: `rand() % 3 + 1` always selects a valid choice. */
  function ComputerChoice(draw: nat): (c: char)
    ensures IsChoice(c)
    ensures c == "rps"[draw % 3]
  {
    ChoiceOf(draw % 3 + 1)
  }

  /** The character the verdict treats the computer's choice as: `choosewinner`
      tests for 'r', then for 'p', and sends everything else down the final
      `else`, which is the scissors case. */
  function AsJudged(c: char): (j: char)
    ensures IsChoice(j)
    ensures IsChoice(c) ==> j == c
  {
    if c == 'r' then 'r' else if c == 'p' then 'p' else 's'
  }

  /** `choosewinner`: `None` when the player's character is none of 'r', 'p',
      's' (the `switch` has no `default`, so nothing is printed). */
  function ChooseWinner(player: char, computer: char): (v: Option<Verdict>)
    ensures v.Some? <==> IsChoice(player)
  {
    match player
    case 'r' => Some(if computer == 'r' then Tie else if computer == 'p' then Lose else Win)
    case 'p' => Some(if computer == 'r' then Win else if computer == 'p' then Tie else Lose)
    case 's' => Some(if computer == 'r' then Lose else if computer == 'p' then Win else Tie)
    case _ => None
  }

  /** The rules of the game, stated independently of `choosewinner`: rock
      beats scissors, paper beats rock, scissors beats paper. */
  predicate Beats(a: char, b: char)
  {
    (a == 'r' && b == 's') || (a == 'p' && b == 'r') || (a == 's' && b == 'p')
  }

  /** `choosewinner` agrees with the rules for every valid player choice and
      every computer character, the latter read as `AsJudged` reads it. */
  lemma VerdictFollowsRules(player: char, computer: char)
    requires IsChoice(player)
    ensures ChooseWinner(player, computer) ==
      Some(if player == AsJudged(computer) then Tie
           else if Beats(player, AsJudged(computer)) then Win
           else Lose)
  {
  }

  /** Equal choices tie. */
  lemma EqualChoicesTie(c: char)
    requires IsChoice(c)
    ensures ChooseWinner(c, c) == Some(Tie)
  {
  }

  /** Rock beats scissors, paper beats rock, scissors beats paper. */
  lemma WinningPairs()
    ensures ChooseWinner('r', 's') == Some(Win)
    ensures ChooseWinner('p', 'r') == Some(Win)
    ensures ChooseWinner('s', 'p') == Some(Win)
  {
  }

  /** Swapping the two valid choices swaps a win and a loss, and keeps a tie. */
  lemma VerdictAntisymmetric(a: char, b: char)
    requires IsChoice(a) && IsChoice(b)
    ensures ChooseWinner(a, b) == Some(Win) <==> ChooseWinner(b, a) == Some(Lose)
    ensures ChooseWinner(a, b) == Some(Tie) <==> ChooseWinner(b, a) == Some(Tie)
  {
  }

  /** Any computer character other than 'r' or 'p' is judged as scissors. */
  lemma OtherComputerCharIsScissors(player: char, computer: char)
    requires computer != 'r' && computer != 'p'
    ensures ChooseWinner(player, computer) == ChooseWinner(player, 's')
  {
  }
}
