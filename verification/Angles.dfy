/**
 * What the bracket matchers take an angle bracket for: a template's bracket, a shift, an arrow, a
 * comparison, or part of an operator's name.
 */
module Angles {
  import opened Wrappers
  import opened Brackets

  /** A character both matchers pass over. */
  predicate Quiet(c: char) { !Opens(c) && !Closes(c) && c != '<' && c != '>' && c != ';' }

  predicate QuietFrom(line: string, i: nat, j: nat) { forall k | i <= k < j && k < |line| :: Quiet(line[k]) }

  /** Not the second of a shift, and not the name of an operator. */
  predicate Bracket(line: string, i: nat)
    requires i < |line|
  {
    line[i] == '<' && (i > 0 ==> line[i - 1] != '<' && !AfterOperator(line[..i]))
  }

  /** Not the head of an arrow; `operator` may stand two places before it, as in `operator->`. */
  predicate Closing(line: string, j: nat)
    requires j < |line|
  {
    line[j] == '>' && (j > 0 ==> line[j - 1] != '-' && !AfterOperator(line[..j - 1]))
  }

  /** The keyword begins at i, as a word, with nothing but white space behind it. */
  predicate OperatorAt(s: string, i: nat) {
    && i + 8 <= |s| && s[i..i + 8] == "operator" && (forall k | i + 8 <= k < |s| :: Space(s[k]))
    && (i > 0 ==> !WordChar(s[i - 1]))
  }

  lemma {:induction false} TrimmedAt(s: string) returns (n: nat)
    ensures n <= |s| && TrimRight(s) == s[..n] && (forall k | n <= k < |s| :: Space(s[k]))
    ensures n > 0 ==> !Space(s[n - 1])
  {
    if s != [] && Space(s[|s| - 1]) {
      n := TrimmedAt(s[..|s| - 1]);
    } else {
      n := |s|;
    }
  }

  lemma AfterOperatorIs(s: string)
    ensures AfterOperator(s) <==> exists i: nat :: OperatorAt(s, i)
  {
    var n := TrimmedAt(s);
    if AfterOperator(s) {
      assert s[n - 8..n] == TrimRight(s)[n - 8..];
      assert OperatorAt(s, n - 8);
    }
    if i: nat :| OperatorAt(s, i) {
      assert s[i + 7] == s[i..i + 8][7] == 'r';
      assert n == i + 8;
      assert TrimRight(s)[n - 8..] == s[i..i + 8];
    }
  }

  // ------------------------------------------------------------------------------------
  // Forward
  // ------------------------------------------------------------------------------------

  lemma {:induction false} ScanQuiet(line: string, i: nat, j: nat, st: string)
    requires i <= j <= |line| && QuietFrom(line, i, j)
    ensures Scan(line, i, st) == Scan(line, j, st)
    decreases j - i
  {
    if i < j {
      assert Quiet(line[i]);
      assert Step(line, i, st) == More(st);
      ScanQuiet(line, i + 1, j, st);
    }
  }

  lemma ScanOne(line: string, i: nat, st: string, t: string)
    requires i < |line| && Step(line, i, st) == More(t)
    ensures Scan(line, i, st) == Scan(line, i + 1, t)
  {
  }

  lemma CloseStep(line: string, j: nat, t: string)
    requires 0 < j < |line| && Closing(line, j) && t != [] && Top(t) == '<'
    ensures Step(line, j, t) == if Pop(t) == [] then At(j + 1) else More(Pop(t))
  {
    assert line[j - 1] != '-' && !AfterOperator(line[..j - 1]);
  }

  /** A template argument without brackets in it: the end is its closing one, or the scan goes on behind it. */
  lemma TemplateArgument(line: string, i: nat, j: nat, st: string)
    requires i < j < |line| && Bracket(line, i) && QuietFrom(line, i + 1, j) && Closing(line, j)
    ensures Scan(line, i, st) == if st == [] then At(j + 1) else Scan(line, j + 1, st)
  {
    var t := st + ['<'];
    assert Pop(t) == st;
    assert Step(line, i, st) == More(t);
    ScanOne(line, i, st, t);
    ScanQuiet(line, i + 1, j, t);
    CloseStep(line, j, t);
    if st != [] { ScanOne(line, j, t, st); }
  }

  /** A shift inside brackets leaves them as they are; at the very start the search ends without one. */
  lemma Shift(line: string, i: nat, st: string)
    requires i + 1 < |line| && Bracket(line, i) && line[i + 1] == '<'
    ensures Scan(line, i, st) == if st == [] then Unclosed else Scan(line, i + 2, st)
  {
    var t := st + ['<'];
    assert Pop(t) == st;
    ScanOne(line, i, st, t);
    assert Step(line, i + 1, t) == if st == [] then Unclosed else More(st);
  }

  /** An arrow is no bracket, and neither is a `<` that names an operator. */
  lemma ArrowAndOperator(line: string, i: nat, st: string)
    requires 0 < i < |line|
    requires
      || (line[i] == '>' && line[i - 1] == '-')
      || (line[i] == '<' && line[i - 1] != '<' && AfterOperator(line[..i]))
    ensures Scan(line, i, st) == Scan(line, i + 1, st)
  {
    ScanOne(line, i, st, st);
  }

  lemma DropsTop(st: string, c: char)
    ensures DropAll(st + [c], c) == DropAll(st, c)
  {
    assert Pop(st + [c]) == st;
  }

  lemma StepForgets(line: string, i: nat, st: string, t: string, d: string)
    requires i < |line| && (Closes(line[i]) || line[i] == ';') && DropAll(st, '<') == d == DropAll(t, '<')
    ensures Step(line, i, st) == Step(line, i, t)
  {
  }

  lemma ScanLike(line: string, i: nat, st: string, t: string)
    requires i < |line| && Step(line, i, st) == Step(line, i, t)
    ensures Scan(line, i, st) == Scan(line, i, t)
  {
  }

  /** Comparisons still pending at a closing bracket or at the end of a statement are forgotten. */
  lemma PendingForgotten(line: string, i: nat, st: string)
    requires i < |line| && (Closes(line[i]) || line[i] == ';')
    ensures Scan(line, i, st + ['<']) == Scan(line, i, st)
  {
    var t := st + ['<'];
    DropsTop(st, '<');
    StepForgets(line, i, st, t, DropAll(st, '<'));
    ScanLike(line, i, t, st);
  }

  /** A statement's end inside nothing but comparisons ends the search. */
  lemma {:induction false} OnlyPending(line: string, i: nat, st: string)
    requires i < |line| && (Closes(line[i]) || line[i] == ';') && forall k | 0 <= k < |st| :: st[k] == '<'
    ensures Scan(line, i, st) == Unclosed
    decreases |st|
  {
    if st != [] {
      assert Top(st) == '<';
      OnlyPending(line, i, Pop(st));
      PendingForgotten(line, i, Pop(st));
    }
  }

  /** A `>` changes nothing where no `<` is on top. */
  lemma StrayCloses(line: string, i: nat, st: string)
    requires i < |line| && line[i] == '>' && (st == [] || Top(st) != '<')
    ensures Scan(line, i, st) == Scan(line, i + 1, st)
  {
    ScanOne(line, i, st, st);
  }

  // ------------------------------------------------------------------------------------
  // Backward
  // ------------------------------------------------------------------------------------

  /** Not the head of an arrow, a spaced `>=`, or the name of an operator. */
  predicate ClosingBack(line: string, j: nat)
    requires j < |line|
  {
    line[j] == '>' && (j > 0 ==> line[j - 1] != '-' && !AroundComparison(line, j) && !AfterOperator(line[..j]))
  }

  lemma {:induction false} BackQuiet(line: string, i: nat, j: nat, st: string)
    requires i <= j <= |line| && QuietFrom(line, i, j)
    ensures ScanBack(line, j, st) == ScanBack(line, i, st)
    decreases j - i
  {
    if i < j {
      assert Quiet(line[j - 1]);
      assert StepBack(line, j - 1, st) == (More(st), 1);
      BackQuiet(line, i, j - 1, st);
    }
  }

  lemma BackOne(line: string, n: nat, st: string, t: string, d: nat)
    requires 0 < n <= |line| && 1 <= d <= 2 && StepBack(line, n - 1, st) == (More(t), d)
    ensures d <= n && ScanBack(line, n, st) == ScanBack(line, n - d, t)
  {
  }

  /** The template argument from its end. */
  lemma TemplateBack(line: string, i: nat, j: nat, st: string)
    requires i < j < |line| && ClosingBack(line, j) && QuietFrom(line, i + 1, j)
    requires line[i] == '<' && (i > 0 ==> line[i - 1] != '<')
    ensures ScanBack(line, j + 1, st) == if st == [] then At(i) else ScanBack(line, i, st)
  {
    var t := st + ['>'];
    assert Pop(t) == st;
    BackOne(line, j + 1, st, t, 1);
    BackQuiet(line, i + 1, j, t);
    assert StepBack(line, i, t) == (if st == [] then At(i) else More(st), 1);
    if st != [] { BackOne(line, i + 1, t, st, 1); }
  }

  /** Shifts, arrows, spaced comparisons and operators' names are passed over with the character before them. */
  lemma PassedBack(line: string, i: nat, st: string)
    requires 0 < i < |line|
    requires (line[i] == '<' && line[i - 1] == '<') || (line[i] == '>' && !ClosingBack(line, i))
    ensures ScanBack(line, i + 1, st) == ScanBack(line, i - 1, st)
  {
    BackOne(line, i + 1, st, st, 2);
  }

  lemma BackForgets(line: string, i: nat, st: string, t: string, d: string)
    requires i < |line| && (Opens(line[i]) || line[i] == ';') && DropAll(st, '>') == d == DropAll(t, '>')
    ensures StepBack(line, i, st) == StepBack(line, i, t)
  {
  }

  lemma BackLike(line: string, i: nat, st: string, t: string)
    requires i < |line| && StepBack(line, i, st) == StepBack(line, i, t)
    ensures ScanBack(line, i + 1, st) == ScanBack(line, i + 1, t)
  {
  }

  /** Going back, comparisons pending at an opening bracket or at the end of a statement are forgotten. */
  lemma PendingForgottenBack(line: string, i: nat, st: string)
    requires i < |line| && (Opens(line[i]) || line[i] == ';')
    ensures ScanBack(line, i + 1, st + ['>']) == ScanBack(line, i + 1, st)
  {
    var t := st + ['>'];
    DropsTop(st, '>');
    BackForgets(line, i, st, t, DropAll(st, '>'));
    BackLike(line, i, t, st);
  }

  /** So a template argument without brackets in it is matched both ways. */
  lemma TemplateBothWays(line: string, i: nat, j: nat)
    requires i < j < |line| && Bracket(line, i) && QuietFrom(line, i + 1, j) && Closing(line, j)
    ensures Forward([line], 0, i, []) == Some(Place(0, j + 1))
    ensures ClosingBack(line, j) ==> Backward([line], 0, j + 1, []) == Some(Place(0, i))
  {
    TemplateArgument(line, i, j, []);
    if ClosingBack(line, j) { TemplateBack(line, i, j, []); }
  }
}
