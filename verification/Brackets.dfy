/**
 * The bracket matchers of the lint script: forward from an opening bracket to its closing one
 * and backward, over several lines, with the angle brackets' guesswork.
 */
module Brackets {
  import opened Wrappers

  /** What one line gives: the end, no end at all, or the stack to go on with. */
  datatype Found = At(pos: nat) | Unclosed | More(stack: string)

  predicate Opens(c: char) { c == '(' || c == '[' || c == '{' }

  predicate Closes(c: char) { c == ')' || c == ']' || c == '}' }

  function Mate(c: char): (d: char) {
    match c case '(' => ')' case '[' => ']' case '{' => '}' case '<' => '>' case _ => c
  }

  function Top(st: string): (c: char)
    requires st != []
  {
    st[|st| - 1]
  }

  function Pop(st: string): (r: string)
    requires st != []
    ensures |r| == |st| - 1
  {
    st[..|st| - 1]
  }

  /** Drops the pending angle brackets from the top: they were operators. */
  function DropAll(st: string, c: char): (r: string)
    ensures |r| <= |st|
  {
    if st != [] && Top(st) == c then DropAll(Pop(st), c) else st
  }

  predicate Space(c: char) { c == ' ' || c == '\t' || c == '\n' || c == '\r' }

  predicate WordChar(c: char) { 'a' <= c <= 'z' || 'A' <= c <= 'Z' || '0' <= c <= '9' || c == '_' }

  function TrimRight(s: string): (r: string) {
    if s != [] && Space(s[|s| - 1]) then TrimRight(s[..|s| - 1]) else s
  }

  /** The text ends in the keyword `operator`, up to white space. */
  predicate AfterOperator(s: string) {
    var t := TrimRight(s);
    |t| >= 8 && t[|t| - 8..] == "operator" && (|t| == 8 || !WordChar(t[|t| - 9]))
  }

  // ------------------------------------------------------------------------------------
  // Forward
  // ------------------------------------------------------------------------------------

  /** One character of FindEndOfExpressionInLine: the new stack, or the outcome. */
  function Step(line: string, i: nat, st: string): (r: Found)
    requires i < |line|
    ensures r.At? ==> r.pos == i + 1
  {
    var c := line[i];
    if Opens(c) then More(st + [c])
    else if c == '<' then
      if i > 0 && line[i - 1] == '<' then
        (if st != [] && Top(st) == '<' then (if Pop(st) == [] then Unclosed else More(Pop(st))) else More(st))
      else if i > 0 && AfterOperator(line[..i]) then More(st)
      else More(st + ['<'])
    else if Closes(c) then
      var t := DropAll(st, '<');
      if t == [] then Unclosed
      else if Mate(Top(t)) == c && Opens(Top(t)) then (if Pop(t) == [] then At(i + 1) else More(Pop(t)))
      else Unclosed
    else if c == '>' then
      if i > 0 && (line[i - 1] == '-' || AfterOperator(line[..i - 1])) then More(st)
      else if st != [] && Top(st) == '<' then (if Pop(st) == [] then At(i + 1) else More(Pop(st)))
      else More(st)
    else if c == ';' then
      var t := DropAll(st, '<');
      if t == [] then Unclosed else More(t)
    else More(st)
  }

  function Scan(line: string, i: nat, st: string): (r: Found)
    ensures r.At? ==> i < r.pos <= |line|
    decreases |line| - i
  {
    if i >= |line| then More(st)
    else match Step(line, i, st)
      case More(t) => Scan(line, i + 1, t)
      case r => r
  }

  method FindEndOfExpressionInLine(line: string, startpos: nat, stack: string) returns (r: Found)
    ensures r == Scan(line, startpos, stack)
  {
    var st := stack;
    var i := startpos;
    while i < |line|
      invariant Scan(line, i, st) == Scan(line, startpos, stack)
      decreases |line| - i
    {
      var s := Step(line, i, st);
      if !s.More? { return s; }
      st := s.stack;
      i := i + 1;
    }
    r := More(st);
  }

  datatype Place = Place(line: nat, pos: nat)

  /** The lines from `ln` on, the first from column `i`. */
  function Forward(lines: seq<string>, ln: nat, i: nat, st: string): (r: Option<Place>)
    requires ln < |lines|
    decreases |lines| - ln
  {
    match Scan(lines[ln], i, st)
    case At(p) => Some(Place(ln, p))
    case Unclosed => None
    case More(t) => if t != [] && ln + 1 < |lines| then Forward(lines, ln + 1, 0, t) else None
  }

  /** A place one past the closing bracket; None where the search gives up. */
  method CloseExpression(lines: seq<string>, linenum: nat, pos: nat) returns (r: Option<Place>)
    requires linenum < |lines| && pos < |lines[linenum]|
    ensures r == if lines[linenum][pos] !in "({[<" || "<<" <= lines[linenum][pos..] || "<=" <= lines[linenum][pos..]
                 then None else Forward(lines, linenum, pos, [])
  {
    StartsAt(lines[linenum], pos);
    if !Startable(lines[linenum], pos) { return None; }
    var ln := linenum;
    var f := FindEndOfExpressionInLine(lines[ln], pos, []);
    if f.At? { return Some(Place(ln, f.pos)); }
    while f.More? && f.stack != [] && ln < |lines| - 1
      invariant linenum <= ln < |lines| && !f.At?
      invariant Forward(lines, linenum, pos, []) ==
                if f.More? && f.stack != [] && ln + 1 < |lines| then Forward(lines, ln + 1, 0, f.stack) else None
      decreases |lines| - ln
    {
      ln := ln + 1;
      f := FindEndOfExpressionInLine(lines[ln], 0, f.stack);
      if f.At? { return Some(Place(ln, f.pos)); }
    }
    r := None;
  }

  lemma StartsAt(line: string, pos: nat)
    requires pos < |line|
    ensures Startable(line, pos) <==> line[pos] in "({[<" && !("<<" <= line[pos..]) && !("<=" <= line[pos..])
  {
    if pos + 1 < |line| { assert line[pos..][1] == line[pos + 1]; }
  }

  /** An opening bracket that is not a shift or a comparison. */
  predicate Startable(line: string, pos: nat)
    requires pos < |line|
  {
    Opens(line[pos]) || (line[pos] == '<' && !(pos + 1 < |line| && (line[pos + 1] == '<' || line[pos + 1] == '=')))
  }

  // ------------------------------------------------------------------------------------
  // Backward
  // ------------------------------------------------------------------------------------

  /** One character backward, and how far the scan moves: an operator's first character is skipped. */
  function StepBack(line: string, i: nat, st: string): (r: (Found, nat))
    requires i < |line|
    ensures 1 <= r.1 <= 2 && (r.1 == 2 ==> 0 < i) && (r.0.At? ==> r.0.pos == i)
  {
    var c := line[i];
    if Closes(c) then (More(st + [c]), 1)
    else if c == '>' then
      if i > 0 && (line[i - 1] == '-' || AroundComparison(line, i) || AfterOperator(line[..i])) then (More(st), 2)
      else (More(st + ['>']), 1)
    else if c == '<' then
      if i > 0 && line[i - 1] == '<' then (More(st), 2)
      else if st != [] && Top(st) == '>' then (if Pop(st) == [] then At(i) else More(Pop(st)), 1)
      else (More(st), 1)
    else if Opens(c) then
      var t := DropAll(st, '>');
      if t == [] then (Unclosed, 1)
      else if Top(t) == Mate(c) then (if Pop(t) == [] then At(i) else More(Pop(t)), 1)
      else (Unclosed, 1)
    else if c == ';' then
      var t := DropAll(st, '>');
      (if t == [] then Unclosed else More(t), 1)
    else (More(st), 1)
  }

  /** White space, `>=`, white space, with the `>` at i. */
  predicate AroundComparison(line: string, i: nat)
    requires 0 < i < |line|
  {
    i + 2 < |line| && Space(line[i - 1]) && line[i + 1] == '=' && Space(line[i + 2])
  }

  /** The characters before column `n`, from right to left. */
  function ScanBack(line: string, n: nat, st: string): (r: Found)
    requires n <= |line|
    ensures r.At? ==> r.pos < n
  {
    if n == 0 then More(st)
    else
      var (f, d) := StepBack(line, n - 1, st);
      match f
      case More(t) => ScanBack(line, n - d, t)
      case _ => f
  }

  method FindStartOfExpressionInLine(line: string, endpos: int, stack: string) returns (r: Found)
    requires -1 <= endpos < |line|
    ensures r == ScanBack(line, endpos + 1, stack)
  {
    var st := stack;
    var i := endpos;
    while i >= 0
      invariant -1 <= i < |line|
      invariant ScanBack(line, i + 1, st) == ScanBack(line, endpos + 1, stack)
      decreases i + 1
    {
      var (f, d) := StepBack(line, i, st);
      if !f.More? { return f; }
      st := f.stack;
      i := i - d;
    }
    r := More(st);
  }

  function Backward(lines: seq<string>, ln: nat, n: nat, st: string): (r: Option<Place>)
    requires ln < |lines| && n <= |lines[ln]|
  {
    match ScanBack(lines[ln], n, st)
    case At(p) => Some(Place(ln, p))
    case Unclosed => None
    case More(t) => if t != [] && 0 < ln then Backward(lines, ln - 1, |lines[ln - 1]|, t) else None
  }

  /** The place of the opening bracket; None where the search gives up. */
  method ReverseCloseExpression(lines: seq<string>, linenum: nat, pos: nat) returns (r: Option<Place>)
    requires linenum < |lines| && pos < |lines[linenum]|
    ensures r == if lines[linenum][pos] in ")}]>" then Backward(lines, linenum, pos + 1, []) else None
  {
    if !Endable(lines[linenum][pos]) { return None; }
    var ln := linenum;
    var f := FindStartOfExpressionInLine(lines[ln], pos, []);
    if f.At? { return Some(Place(ln, f.pos)); }
    while f.More? && f.stack != [] && ln > 0
      invariant 0 <= ln <= linenum && !f.At?
      invariant Backward(lines, linenum, pos + 1, []) ==
                if f.More? && f.stack != [] && 0 < ln then Backward(lines, ln - 1, |lines[ln - 1]|, f.stack) else None
      decreases ln
    {
      ln := ln - 1;
      f := FindStartOfExpressionInLine(lines[ln], |lines[ln]| - 1, f.stack);
      if f.At? { return Some(Place(ln, f.pos)); }
    }
    r := None;
  }

  predicate Endable(c: char) { Closes(c) || c == '>' }
}
