/**
 * Names of checkpoint files and the step number read back from them (a3c.py).
 * `Show` is Python's `str` on a non-negative int, `ParseNat` is `int` on a
 * digit string, `Split` is `str.split` with a one-character separator.
 */
module CheckpointNames {
  import opened Wrappers

  predicate IsDigit(c: char) { '0' <= c <= '9' }

  predicate AllDigits(s: string) { forall i :: 0 <= i < |s| ==> IsDigit(s[i]) }

  function DigitChar(d: nat): (c: char)
    requires d < 10
    ensures IsDigit(c) && (c as int) - ('0' as int) == d
  {
    (('0' as int) + d) as char
  }

  /** Decimal rendering of a non-negative integer, as Python's str(n). */
  function Show(n: nat): (s: string)
    ensures |s| > 0 && AllDigits(s)
  {
    if n < 10 then [DigitChar(n)] else Show(n / 10) + [DigitChar(n % 10)]
  }

  function DigitsValue(s: string): nat
    requires AllDigits(s)
  {
    if s == [] then 0
    else DigitsValue(s[..|s| - 1]) * 10 + ((s[|s| - 1] as int) - ('0' as int))
  }

  /**
   * Python's int(s) on a string of ASCII decimal digits. Every other string is
   * read as a failure here, although int also accepts surrounding whitespace, a
   * sign, '_' between digits and non-ASCII decimal digits.
   */
  function ParseNat(s: string): (r: Option<nat>)
    ensures r.Some? <==> s != [] && AllDigits(s)
  {
    if s != [] && AllDigits(s) then Some(DigitsValue(s)) else None
  }

  lemma {:induction false} ShowDigitsValue(n: nat)
    ensures DigitsValue(Show(n)) == n
  {
    if n >= 10 {
      var s := Show(n);
      assert s[..|s| - 1] == Show(n / 10);
      ShowDigitsValue(n / 10);
    }
  }

  /** str and int are inverse on the non-negative integers. */
  lemma ParseShow(n: nat)
    ensures ParseNat(Show(n)) == Some(n)
  {
    ShowDigitsValue(n);
  }

  /** str is injective: two steps with the same decimal text are the same step. */
  lemma ShowInjective(a: nat, b: nat)
    ensures Show(a) == Show(b) <==> a == b
  {
    if Show(a) == Show(b) {
      ParseShow(a);
      ParseShow(b);
    }
  }

  /** Python's s.split(sep): the maximal runs between separators, always at least one. */
  function Split(s: string, sep: char): (parts: seq<string>)
    ensures |parts| >= 1
    ensures forall i :: 0 <= i < |parts| ==> sep !in parts[i]
    ensures |parts| > 1 ==> sep in s
  {
    if s == [] then [[]]
    else
      var rest := Split(s[1..], sep);
      if s[0] == sep then [[]] + rest
      else [[s[0]] + rest[0]] + rest[1..]
  }

  lemma {:induction false} SplitNoSep(s: string, sep: char)
    requires sep !in s
    ensures Split(s, sep) == [s]
  {
    if s != [] {
      SplitNoSep(s[1..], sep);
      assert [s[0]] + s[1..] == s;
    }
  }

  /** Splitting at a first separator peels off the text before it. */
  lemma {:induction false} SplitFirst(a: string, sep: char, b: string)
    requires sep !in a
    ensures Split(a + [sep] + b, sep) == [a] + Split(b, sep)
  {
    if a == [] {
      assert a + [sep] + b == [sep] + b;
      assert ([sep] + b)[1..] == b;
    } else {
      assert (a + [sep] + b)[1..] == a[1..] + [sep] + b;
      SplitFirst(a[1..], sep, b);
      assert [a[0]] + a[1..] == a;
    }
  }

  /** Splitting at a last separator leaves the text after it as the last part. */
  lemma {:induction false} SplitLast(a: string, sep: char, b: string)
    requires sep !in b
    ensures var parts := Split(a + [sep] + b, sep);
      |parts| >= 2 && parts[|parts| - 1] == b
  {
    if a == [] {
      assert a + [sep] + b == [sep] + b;
      assert ([sep] + b)[1..] == b;
      SplitNoSep(b, sep);
    } else {
      assert (a + [sep] + b)[1..] == a[1..] + [sep] + b;
      SplitLast(a[1..], sep, b);
    }
  }

  /** The wall-time marker written by save_data and read back by the restore. */
  function WallTimeFileName(dir: string, step: nat): (name: string)
    ensures |name| > |dir| + 8 && name[..|dir|] == dir
    ensures name[|dir|..|dir| + 8] == "/wall_t." && name[|dir| + 8..] == Show(step)
  {
    dir + "/" + "wall_t." + Show(step)
  }

  /** The restore reads the marker of exactly the step it restores, and no other step's. */
  lemma WallTimeFileNameInjective(dir: string, s1: nat, s2: nat)
    ensures WallTimeFileName(dir, s1) == WallTimeFileName(dir, s2) <==> s1 == s2
  {
    if WallTimeFileName(dir, s1) == WallTimeFileName(dir, s2) {
      ShowInjective(s1, s2);
    }
  }

  /** The path the model saver records for a save at `step` (prefix checkpoint_dir + '/checkpoint'). */
  function SaverPath(dir: string, step: nat): string
  {
    dir + "/checkpoint" + "-" + Show(step)
  }

  datatype StepError = NoSeparator | NotANumber

  /** a3c.py:81-83 as written: the integer in the SECOND '-'-separated token of the path. */
  function StepFromPathAsWritten(path: string): (r: Result<nat, StepError>)
    ensures r.Success? ==> '-' in path
  {
    var tokens := Split(path, '-');
    if |tokens| < 2 then Failure(NoSeparator)
    else match ParseNat(tokens[1])
      case Some(n) => Success(n)
      case None => Failure(NotANumber)
  }

  /** The evidently intended reading: the integer after the LAST '-', the suffix the saver appends. */
  function StepFromPath(path: string): (r: Result<nat, StepError>)
    ensures r.Success? ==> '-' in path
  {
    var tokens := Split(path, '-');
    if |tokens| < 2 then Failure(NoSeparator)
    else match ParseNat(tokens[|tokens| - 1])
      case Some(n) => Success(n)
      case None => Failure(NotANumber)
  }

  lemma ShowHasNoDash(n: nat)
    ensures '-' !in Show(n)
  {
  }

  /** Whatever the checkpoint directory, the step read back is the step saved. */
  lemma StepFromPathRoundTrip(dir: string, step: nat)
    ensures StepFromPath(SaverPath(dir, step)) == Success(step)
  {
    ShowHasNoDash(step);
    assert SaverPath(dir, step) == (dir + "/checkpoint") + ['-'] + Show(step);
    SplitLast(dir + "/checkpoint", '-', Show(step));
    ParseShow(step);
  }

  /** As written, the round trip holds only for a checkpoint directory without '-'. */
  lemma StepFromPathAsWrittenRoundTrip(dir: string, step: nat)
    requires '-' !in dir
    ensures StepFromPathAsWritten(SaverPath(dir, step)) == Success(step)
  {
    var prefix := dir + "/checkpoint";
    assert '-' !in prefix by {
      assert forall i :: 0 <= i < |prefix| ==> prefix[i] != '-' by {
        forall i | 0 <= i < |prefix| ensures prefix[i] != '-' {
          if i < |dir| { assert prefix[i] == dir[i]; }
        }
      }
    }
    ShowHasNoDash(step);
    assert SaverPath(dir, step) == prefix + ['-'] + Show(step);
    SplitFirst(prefix, '-', Show(step));
    SplitNoSep(Show(step), '-');
    ParseShow(step);
  }

  /**
   * A checkpoint directory with one '-' in it, such as "ckpt-a": as written the
   * restore reads the token between the two dashes, "a/checkpoint", and fails,
   * while the intended reading recovers the step.
   */
  lemma StepFromPathAsWrittenFails(a: string, b: string, step: nat)
    requires '-' !in a && '-' !in b
    ensures StepFromPathAsWritten(SaverPath(a + "-" + b, step)) == Failure(NotANumber)
    ensures StepFromPath(SaverPath(a + "-" + b, step)) == Success(step)
  {
    var middle := b + "/checkpoint";
    assert '-' !in middle by {
      forall i | 0 <= i < |middle| ensures middle[i] != '-' {
        if i < |b| { assert middle[i] == b[i]; }
      }
    }
    ShowHasNoDash(step);
    var tail := middle + ['-'] + Show(step);
    assert SaverPath(a + "-" + b, step) == a + ['-'] + tail;
    SplitFirst(a, '-', tail);
    SplitFirst(middle, '-', Show(step));
    assert Split(SaverPath(a + "-" + b, step), '-')[1] == middle;
    assert !IsDigit(middle[|b|]);
    StepFromPathRoundTrip(a + "-" + b, step);
  }

  /** As written, a directory "a-<k>-b" makes the step read return k, not the saved step. */
  lemma StepFromPathAsWrittenReadsDirectory(a: string, k: nat, b: string, step: nat)
    requires '-' !in a && '-' !in b
    ensures StepFromPathAsWritten(SaverPath(a + "-" + Show(k) + "-" + b, step)) == Success(k)
  {
    ShowHasNoDash(k);
    var tail := b + "/checkpoint" + "-" + Show(step);
    var rest := Show(k) + ['-'] + tail;
    assert SaverPath(a + "-" + Show(k) + "-" + b, step) == a + ['-'] + rest;
    SplitFirst(a, '-', rest);
    SplitFirst(Show(k), '-', tail);
    ParseShow(k);
  }
}
