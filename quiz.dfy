/** The quiz of C++/code/quizgame.cpp: four questions, four options each, and a
    score that counts the guesses matching the answer key. The guesses read
    from standard input are a parameter. */
module Quiz {

  const Questions: seq<string> := [
    "1. What year was C++ created?: ",
    "2. Who invented C++?: ",
    "3. What is the predecessor of C++?: ",
    "4. Is the earth flat like her?: "
  ]

  /** `std::string options[][4]`: every row is declared with four slots. */
  const Options: seq<seq<string>> := [
    ["A. 1969 ", "B. 1975 ", "C. 1985 ", "D. 1989"],
    ["A. Guido van Rossum ", "B. Bjarne Stroustrup ", "C. John Carmack ", "D. Mark Zuckerberg"],
    ["A. C ", "B. GO ", "C. Assembly language ", "D. C+"],
    ["A. Yes ", "B. NO ", "C. Sometimes ", "D. What's earth?"]
  ]

  const AnswerKey: seq<char> := ['C', 'B', 'A', 'B']

  /** `sizeof(questions) / sizeof(questions[0])`. */
  const Size: nat := |Questions|

  /** There are four questions, one answer per question, and every question
      presents exactly four options. */
  lemma QuizShape()
    ensures Size == 4 && |AnswerKey| == Size && |Options| == Size
    ensures forall i :: 0 <= i < |Options| ==> |Options[i]| == 4
  {
  }

  /** `toupper` in the "C" locale. */
  function ToUpper(c: char): (r: char)
    ensures 'a' <= c <= 'z' ==> 'A' <= r <= 'Z' && c as int - r as int == 32
    ensures !('a' <= c <= 'z') ==> r == c
  {
    if 'a' <= c <= 'z' then (c as int - 32) as char else c
  }

  /** A guess is correct when its upper-case form is the key letter. */
  predicate Correct(guess: char, key: char)
  {
    ToUpper(guess) == key
  }

  /** The number of positions where the guess is correct, counted left to
      right as the loop does. */
  function CorrectCount(guesses: seq<char>, key: seq<char>): nat
    requires |guesses| == |key|
  {
    if |guesses| == 0 then 0
    else CorrectCount(guesses[..|guesses| - 1], key[..|key| - 1])
         + (if Correct(guesses[|guesses| - 1], key[|key| - 1]) then 1 else 0)
  }

  /** The positions of the correct guesses. */
  function CorrectPositions(guesses: seq<char>, key: seq<char>): set<nat>
    requires |guesses| == |key|
  {
    set i: nat | i < |guesses| && Correct(guesses[i], key[i])
  }

  /** The count is the number of positions `i` with
      `toupper(guesses[i]) == key[i]`, and it is at most the number of
      questions. */
  lemma {:induction false} CountIsNumberOfCorrectPositions(guesses: seq<char>, key: seq<char>)
    requires |guesses| == |key|
    ensures CorrectCount(guesses, key) == |CorrectPositions(guesses, key)|
    ensures CorrectCount(guesses, key) <= |guesses|
  {
    var n := |guesses|;
    if n > 0 {
      var g, k := guesses[..n - 1], key[..n - 1];
      CountIsNumberOfCorrectPositions(g, k);
      var last := if Correct(guesses[n - 1], key[n - 1]) then {n - 1} else {};
      assert CorrectPositions(guesses, key) == CorrectPositions(g, k) + last;
      assert (n - 1) !in CorrectPositions(g, k);
    }
  }

  /** The scoring loop of `main`: one guess per question, upper-cased, and the
      score raised by one on a match. */
  method PlayQuiz(guesses: seq<char>) returns (score: int)
    requires |guesses| == Size
    ensures 0 <= score <= Size
    ensures score == |CorrectPositions(guesses, AnswerKey)|
  {
    score := 0;
    var i := 0;
    while i < Size
      invariant 0 <= i <= Size
      invariant score == CorrectCount(guesses[..i], AnswerKey[..i])
    {
      var guess := ToUpper(guesses[i]);
      assert guesses[..i + 1][..i] == guesses[..i];
      assert AnswerKey[..i + 1][..i] == AnswerKey[..i];
      if guess == AnswerKey[i] {
        score := score + 1;
      }
      i := i + 1;
    }
    assert guesses[..Size] == guesses;
    assert AnswerKey[..Size] == AnswerKey;
    CountIsNumberOfCorrectPositions(guesses, AnswerKey);
  }

  /** A correct letter typed in lower case still counts. */
  lemma LowerCaseAnswerCounts(guesses: seq<char>, i: nat)
    requires |guesses| == Size && i < Size
    requires guesses[i] as int == AnswerKey[i] as int + 32
    ensures i in CorrectPositions(guesses, AnswerKey)
  {
  }

  /** Extending the quiz by a wrongly answered
      question leaves the count unchanged, a right one raises it by one. */
  lemma CountOfOneMoreQuestion(guesses: seq<char>, key: seq<char>, g: char, k: char)
    requires |guesses| == |key|
    ensures CorrectCount(guesses + [g], key + [k]) ==
      CorrectCount(guesses, key) + (if Correct(g, k) then 1 else 0)
  {
    assert (guesses + [g])[..|guesses|] == guesses;
    assert (key + [k])[..|key|] == key;
  }
}
