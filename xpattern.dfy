/** The nested loops of C++/code/Nestedloop.cpp, which print `count` letter
    X shapes of size `n` side by side (the program uses n = 7, count = 3).
    What the loops print is modelled as the string they build, with '\n' for
    `std::endl`. */
module XPattern {

  /** `int n = 7;`: the size of one X. */
  const Size: nat := 7
  /** `int count = 3;`: how many X shapes stand in a row. */
  const Count: nat := 3

  /** The character printed in row `i`, column `j` of one X. */
  function Cell(n: nat, i: nat, j: nat): char
  {
    if j == i || j == n - i - 1 then '*' else ' '
  }

  /** The `n` characters of row `i` of one X. */
  function Block(n: nat, i: nat): (b: string)
    ensures |b| == n
  {
    seq(n, j requires 0 <= j < n => Cell(n, i, j))
  }

  /** `s` written `k` times. */
  function Repeat(s: string, k: nat): (r: string)
    ensures |r| == k * |s|
  {
    if k == 0 then "" else Repeat(s, k - 1) + s
  }

  /** Row `i` of the output: `count` blocks, each followed by a space, then the
      line end. */
  function Row(n: nat, count: nat, i: nat): string
  {
    Repeat(Block(n, i) + " ", count) + "\n"
  }

  /** The first `rows` rows of the output. */
  function Picture(n: nat, count: nat, rows: nat): string
  {
    if rows == 0 then "" else Picture(n, count, rows - 1) + Row(n, count, rows - 1)
  }

  /** The three nested loops of `main`: the row loop. */
  method DrawXs(n: nat, count: nat) returns (out: string)
    ensures out == Picture(n, count, n)
  {
    out := "";
    var i := 0;
    while i < n
      invariant 0 <= i <= n
      invariant out == Picture(n, count, i)
    {
      var row := DrawRow(n, count, i);
      out := out + row;
      i := i + 1;
    }
  }

  /** The loop over the X shapes of row `i`, each followed by a space, and
      the line end. */
  method DrawRow(n: nat, count: nat, i: nat) returns (row: string)
    ensures row == Row(n, count, i)
  {
    row := "";
    var k := 0;
    while k < count
      invariant 0 <= k <= count
      invariant row == Repeat(Block(n, i) + " ", k)
    {
      var block := DrawBlock(n, i);
      row := row + (block + " ");
      k := k + 1;
    }
    row := row + "\n";
  }

  /** The column loop: row `i` of one X, a character at a time. */
  method DrawBlock(n: nat, i: nat) returns (block: string)
    ensures block == Block(n, i)
  {
    block := "";
    var j := 0;
    while j < n
      invariant 0 <= j <= n
      invariant block == Block(n, i)[..j]
    {
      if j == i || j == n - i - 1 {
        block := block + "*";
      } else {
        block := block + " ";
      }
      assert Block(n, i)[..j + 1] == Block(n, i)[..j] + [Cell(n, i, j)];
      j := j + 1;
    }
    assert Block(n, i)[..n] == Block(n, i);
  }

  /** How many times `c` occurs in `s`. */
  function Occurrences(s: string, c: char): nat
  {
    if |s| == 0 then 0 else Occurrences(s[..|s| - 1], c) + (if s[|s| - 1] == c then 1 else 0)
  }

  lemma {:induction false} OccurrencesOfConcat(a: string, b: string, c: char)
    ensures Occurrences(a + b, c) == Occurrences(a, c) + Occurrences(b, c)
    decreases |b|
  {
    if |b| == 0 {
      assert a + b == a;
    } else {
      assert (a + b)[..|a + b| - 1] == a + b[..|b| - 1];
      OccurrencesOfConcat(a, b[..|b| - 1], c);
    }
  }

  lemma {:induction false} OccurrencesOfRepeat(s: string, k: nat, c: char)
    ensures Occurrences(Repeat(s, k), c) == k * Occurrences(s, c)
  {
    if k > 0 {
      var prev := Repeat(s, k - 1);
      assert Repeat(s, k) == prev + s;
      OccurrencesOfRepeat(s, k - 1, c);
      OccurrencesOfConcat(prev, s, c);
      MulStep(k, Occurrences(s, c));
    }
  }

  lemma MulStep(k: nat, x: nat)
    requires k > 0
    ensures (k - 1) * x + x == k * x
  {
  }

  /** A block never contains a line end, so each row holds exactly one. */
  lemma {:induction false} OneLineEndPerRow(n: nat, count: nat, i: nat)
    ensures Occurrences(Row(n, count, i), '\n') == 1
  {
    var b := Block(n, i) + " ";
    NoLineEndInBlock(n, i, n);
    assert Block(n, i)[..n] == Block(n, i);
    OccurrencesOfConcat(Block(n, i), " ", '\n');
    assert Occurrences(" ", '\n') == 0 by {
      assert " "[..0] == "";
    }
    OccurrencesOfRepeat(b, count, '\n');
    OccurrencesOfConcat(Repeat(b, count), "\n", '\n');
    assert "\n"[..0] == "";
  }

  lemma {:induction false} NoLineEndInBlock(n: nat, i: nat, m: nat)
    requires m <= n
    ensures Occurrences(Block(n, i)[..m], '\n') == 0
  {
    if m > 0 {
      assert Block(n, i)[..m][..m - 1] == Block(n, i)[..m - 1];
      NoLineEndInBlock(n, i, m - 1);
    }
  }

  /** The output has exactly one line end per row. */
  lemma {:induction false} LineCount(n: nat, count: nat, rows: nat)
    ensures Occurrences(Picture(n, count, rows), '\n') == rows
  {
    if rows > 0 {
      LineCount(n, count, rows - 1);
      OccurrencesOfConcat(Picture(n, count, rows - 1), Row(n, count, rows - 1), '\n');
      OneLineEndPerRow(n, count, rows - 1);
    }
  }

  /** Every row, and so the output, ends with a line end. */
  lemma EndsWithLineEnd(n: nat, count: nat, rows: nat)
    requires rows > 0
    ensures |Picture(n, count, rows)| > 0
    ensures Picture(n, count, rows)[|Picture(n, count, rows)| - 1] == '\n'
  {
    var row := Row(n, count, rows - 1);
    assert row == Repeat(Block(n, rows - 1) + " ", count) + "\n";
    assert Picture(n, count, rows) == Picture(n, count, rows - 1) + row;
  }

  /** `s` repeated: copy `b` of it starts at offset `b * |s|`. */
  lemma {:induction false} RepeatAt(s: string, k: nat, b: nat, j: nat)
    requires b < k && j < |s|
    ensures b * |s| + j < |Repeat(s, k)|
    ensures Repeat(s, k)[b * |s| + j] == s[j]
  {
    assert b * |s| + j < (b + 1) * |s| <= k * |s| by {
      assert (b + 1) * |s| == b * |s| + |s|;
      assert b + 1 <= k;
      MulMonotone(b + 1, k, |s|);
    }
    if b < k - 1 {
      RepeatAt(s, k - 1, b, j);
    } else {
      assert b * |s| == |Repeat(s, k - 1)|;
    }
  }

  lemma MulMonotone(a: nat, b: nat, c: nat)
    requires a <= b
    ensures a * c <= b * c
  {
  }

  /** Row `i` has `count * (n + 1)` characters before its line end: block `b`
      holds at column `j` the character of one X (a star exactly when `j == i`
      or `j == n - i - 1`) and is followed by a space. */
  lemma RowLayout(n: nat, count: nat, i: nat, b: nat, j: nat)
    requires b < count && j < n
    ensures |Row(n, count, i)| == count * (n + 1) + 1
    ensures b * (n + 1) + n < count * (n + 1)
    ensures Row(n, count, i)[|Row(n, count, i)| - 1] == '\n'
    ensures Row(n, count, i)[b * (n + 1) + j] == (if j == i || j == n - i - 1 then '*' else ' ')
    ensures Row(n, count, i)[b * (n + 1) + n] == ' '
  {
    var s := Block(n, i) + " ";
    assert Row(n, count, i) == Repeat(s, count) + "\n";
    assert |s| == n + 1;
    assert b * (n + 1) + n < (b + 1) * (n + 1);
    MulMonotone(b + 1, count, n + 1);
    RepeatAt(s, count, b, j);
    RepeatAt(s, count, b, n);
    assert s[j] == Cell(n, i, j);
    assert s[n] == ' ';
  }

  /** Length of the first `rows` rows. */
  lemma {:induction false} PictureLength(n: nat, count: nat, rows: nat)
    ensures |Picture(n, count, rows)| == rows * (count * (n + 1) + 1)
  {
    if rows > 0 {
      PictureLength(n, count, rows - 1);
      assert |Row(n, count, rows - 1)| == count * (n + 1) + 1;
    }
  }

  /** Row `i` and row `n - 1 - i` are identical: the X is symmetric top to
      bottom. Each block also reads the same reversed. */
  lemma RowSymmetry(n: nat, count: nat, i: nat)
    requires i < n
    ensures Row(n, count, i) == Row(n, count, n - 1 - i)
    ensures forall j :: 0 <= j < n ==> Block(n, i)[j] == Block(n, i)[n - 1 - j]
  {
    assert Block(n, i) == Block(n, n - 1 - i);
  }

  /** Stars in the first `m` columns of row `i` of one X. */
  lemma {:induction false} StarsInPrefix(n: nat, i: nat, m: nat)
    requires i < n && m <= n
    ensures Occurrences(Block(n, i)[..m], '*') ==
      (if i < m then 1 else 0) + (if n - i - 1 < m && n - i - 1 != i then 1 else 0)
  {
    if m > 0 {
      assert Block(n, i)[..m][..m - 1] == Block(n, i)[..m - 1];
      StarsInPrefix(n, i, m - 1);
    }
  }

  /** Every row of one X has two stars, except the middle row of an X of odd
      size, which has one. */
  lemma StarCount(n: nat, i: nat)
    requires i < n
    ensures Occurrences(Block(n, i), '*') == if 2 * i + 1 == n then 1 else 2
  {
    StarsInPrefix(n, i, n);
    assert Block(n, i)[..n] == Block(n, i);
  }

  /** The program's own picture: 7 lines of 25 characters each. */
  lemma ProgramPicture()
    ensures |Picture(Size, Count, Size)| == 7 * 25
    ensures Occurrences(Picture(Size, Count, Size), '\n') == 7
  {
    PictureLength(Size, Count, Size);
    LineCount(Size, Count, Size);
  }
}
