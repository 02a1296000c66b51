/** Which texts are codes, and which rows are tasks. */
module ProductForms {
  import opened Prelude
  import opened ProductCodes

  /** Digits without a leading zero are the decimal form of their value. */
  lemma {:induction false} DecOfValue(s: string)
    requires AllDigits(s) && s != "" && s[0] != '0'
    ensures Value(s) > 0 && Dec(Value(s)) == s
  {
    var front, last := s[..|s| - 1], s[|s| - 1];
    var d := (last - '0') as nat;
    assert IsDigit(last) && Digit(d) == last;
    if front == "" {
      assert Value(front) == 0 && s == [last];
    } else {
      DecOfValue(front);
      assert Value(s) / 10 == Value(front) && Value(s) % 10 == d;
      assert s == front + [last];
    }
  }

  /**
   * The valid codes of a prefix are its letter followed by a positive number in decimal form, alone or with one newline
   * after it, which the pattern lets pass; the number is the one that stands there.
   */
  lemma ValidMeaning(c: string, prefix: char)
    ensures Valid(c, prefix) <==>
            'A' <= prefix <= 'Z' && exists n: nat :: n > 0 && (c == Code(prefix, n) || c == Code(prefix, n) + "\n")
    ensures forall n: nat :: n > 0 && 'A' <= prefix <= 'Z' && (c == Code(prefix, n) || c == Code(prefix, n) + "\n") ==>
              Num(c) == n
  {
    if Valid(c, prefix) {
      var core := Core(c);
      DecOfValue(core[1..]);
      assert core == [prefix] + core[1..];
      assert core == Code(prefix, Value(core[1..]));
      assert c == core || c == core + "\n";
    }
    forall n: nat | n > 0 && 'A' <= prefix <= 'Z' && (c == Code(prefix, n) || c == Code(prefix, n) + "\n")
      ensures Valid(c, prefix) && Num(c) == n
    {
      CodeReadsBack(prefix, n);
      WithNewline(Code(prefix, n), prefix);
    }
  }

  /** A newline after a code changes nothing. */
  lemma WithNewline(c: string, prefix: char)
    requires Valid(c, prefix) && IsDigit(c[|c| - 1])
    ensures Valid(c + "\n", prefix) && Num(c + "\n") == Num(c)
  {
    assert (c + "\n")[..|c|] == c;
  }

  /** The tasks of a log are those of the human's rows, in their order. */
  lemma {:induction false} TasksMeaning(rows: seq<Row>, k: nat)
    requires k <= |rows|
    ensures |HumanTasks(rows[..k])| <= |HumanTasks(rows)|
    ensures k < |rows| && rows[k].HumanTask? ==>
              && |HumanTasks(rows[..k])| < |HumanTasks(rows)|
              && HumanTasks(rows)[|HumanTasks(rows[..k])|] == rows[k].task
    ensures forall t :: t in HumanTasks(rows) <==> HumanTask(t) in rows
    decreases |rows|
  {
    if rows == [] {
      assert rows[..k] == [];
    } else {
      var n := |rows| - 1;
      var front := rows[..n];
      TasksMeaning(front, if k < n then k else n);
      assert front[..n] == front && rows[..n] == front;
      assert rows == front + [rows[n]];
      if k < n {
        assert front[..k] == rows[..k];
      } else if k == |rows| {
        assert rows[..k] == rows;
      }
    }
  }
}
