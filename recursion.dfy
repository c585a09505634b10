/** `reverseString` of C++/code/recursion.cpp. The function prints the last
    character and recurses on the string without it; the characters it prints,
    in order, are modelled as the string it returns. */
module Recursion {

  /** The characters `reverseString(s)` writes to standard output. Each
      recursive call receives `s` one character shorter, so the recursion
      terminates; an empty string writes nothing. */
  function ReverseString(s: string): (out: string)
    ensures |out| == |s|
    ensures forall i :: 0 <= i < |s| ==> out[i] == s[|s| - 1 - i]
    decreases |s|
  {
    if |s| == 0 then ""
    else [s[|s| - 1]] + ReverseString(s[..|s| - 1])
  }

  /** The first character written is the last character of the input. */
  lemma FirstWrittenIsLast(s: string)
    requires |s| > 0
    ensures ReverseString(s)[0] == s[|s| - 1]
  {
  }

  /** Reversing the output gives back the input. */
  lemma {:induction false} ReverseInvolutive(s: string)
    ensures ReverseString(ReverseString(s)) == s
  {
    var r := ReverseString(s);
    var rr := ReverseString(r);
    assert |rr| == |s|;
    forall i | 0 <= i < |s|
      ensures rr[i] == s[i]
    {
      assert rr[i] == r[|s| - 1 - i];
    }
  }

  /** The output of a concatenation is the output of the second part followed
      by the output of the first. */
  lemma {:induction false} ReverseOfConcat(a: string, b: string)
    ensures ReverseString(a + b) == ReverseString(b) + ReverseString(a)
  {
    var lhs := ReverseString(a + b);
    var rhs := ReverseString(b) + ReverseString(a);
    assert |lhs| == |rhs|;
    forall i | 0 <= i < |lhs|
      ensures lhs[i] == rhs[i]
    {
      if i < |b| {
        assert rhs[i] == ReverseString(b)[i];
      } else {
        assert rhs[i] == ReverseString(a)[i - |b|];
      }
    }
  }
}
