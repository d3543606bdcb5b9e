/**
 * On lines without angle brackets the two matchers are inverse, and what lies between a
 * bracket and its match is properly nested.
 */
module Matching {
  import opened Wrappers
  import opened Brackets

  predicate Plain(lines: seq<string>) {
    forall ln, i | 0 <= ln < |lines| && 0 <= i < |lines[ln]| :: lines[ln][i] != '<' && lines[ln][i] != '>'
  }

  predicate AllOpen(st: string) { forall k | 0 <= k < |st| :: Opens(st[k]) }

  function Mates(st: string): (r: string)
    ensures |r| == |st| && forall k | 0 <= k < |st| :: r[k] == Mate(st[k])
  {
    seq(|st|, k requires 0 <= k < |st| => Mate(st[k]))
  }

  // ------------------------------------------------------------------------------------
  // One step without angle brackets
  // ------------------------------------------------------------------------------------

  /** Forward: push, pop and finish, stop, or pass over. */
  lemma StepPlain(line: string, i: nat, st: string)
    requires i < |line| && line[i] != '<' && line[i] != '>' && AllOpen(st) && st != []
    ensures var c := line[i];
      Step(line, i, st) ==
        if Opens(c) then More(st + [c])
        else if Closes(c) then
          if Mate(Top(st)) != c then Unclosed else if |st| == 1 then At(i + 1) else More(Pop(st))
        else More(st)
  {
    assert Opens(Top(st));
    assert DropAll(st, '<') == st;
  }

  lemma OpensNotCloses(st: string)
    requires st != [] && AllOpen(st)
    ensures Closes(Top(Mates(st))) && Mates(st) != [] && DropAll(Mates(st), '>') == Mates(st)
    ensures Pop(Mates(st)) == Mates(Pop(st))
  {
    assert Opens(Top(st));
    assert Top(Mates(st)) == Mate(Top(st));
  }

  /** Backward, with the mates of `st` pending: the step that undoes the forward one. */
  lemma BackPlain(line: string, i: nat, st: string)
    requires i < |line| && line[i] != '<' && line[i] != '>' && AllOpen(st) && st != []
    ensures Closes(line[i]) ==> StepBack(line, i, Mates(st)) == (More(Mates(st) + [line[i]]), 1)
    ensures !Opens(line[i]) && !Closes(line[i]) ==> StepBack(line, i, Mates(st)) == (More(Mates(st)), 1)
    ensures Opens(line[i]) && Top(st) == line[i] ==>
              StepBack(line, i, Mates(st)) == (if |st| == 1 then At(i) else More(Mates(Pop(st))), 1)
  {
    OpensNotCloses(st);
  }

  lemma BackwardOne(lines: seq<string>, ln: nat, i: nat, st: string)
    requires ln < |lines| && i < |lines[ln]| && StepBack(lines[ln], i, st).1 == 1
    ensures var f := StepBack(lines[ln], i, st).0;
      Backward(lines, ln, i + 1, st) ==
        match f case At(_) => Some(Place(ln, i)) case Unclosed => None case More(t) => Backward(lines, ln, i, t)
  {
  }

  lemma BackwardWraps(lines: seq<string>, ln: nat, st: string)
    requires 0 < ln < |lines| && st != []
    ensures Backward(lines, ln, 0, st) == Backward(lines, ln - 1, |lines[ln - 1]|, st)
  {
  }

  lemma ForwardOne(lines: seq<string>, ln: nat, i: nat, st: string)
    requires ln < |lines| && i < |lines[ln]|
    ensures Forward(lines, ln, i, st) ==
            match Step(lines[ln], i, st)
            case At(p) => Some(Place(ln, p)) case Unclosed => None case More(t) => Forward(lines, ln, i + 1, t)
  {
  }

  lemma ForwardPlain(lines: seq<string>, ln: nat, i: nat, st: string)
    requires Plain(lines) && ln < |lines| && i < |lines[ln]| && AllOpen(st) && st != []
    ensures var c := lines[ln][i];
      Forward(lines, ln, i, st) ==
        if Opens(c) then Forward(lines, ln, i + 1, st + [c])
        else if !Closes(c) then Forward(lines, ln, i + 1, st)
        else if Mate(Top(st)) != c then None
        else if |st| == 1 then Some(Place(ln, i + 1))
        else Forward(lines, ln, i + 1, Pop(st))
  {
    ForwardOne(lines, ln, i, st);
    StepPlain(lines[ln], i, st);
  }

  lemma ForwardWraps(lines: seq<string>, ln: nat, st: string)
    requires ln < |lines| && st != []
    ensures Forward(lines, ln, |lines[ln]|, st) == if ln + 1 < |lines| then Forward(lines, ln + 1, 0, st) else None
  {
  }

  // ------------------------------------------------------------------------------------
  // Backward retraces forward
  // ------------------------------------------------------------------------------------

  lemma BackOverOpen(lines: seq<string>, ln: nat, i: nat, st: string)
    requires Plain(lines) && ln < |lines| && i < |lines[ln]| && AllOpen(st) && st != [] && Opens(lines[ln][i])
    ensures Backward(lines, ln, i + 1, Mates(st + [lines[ln][i]])) == Backward(lines, ln, i, Mates(st))
  {
    var t := st + [lines[ln][i]];
    BackPlain(lines[ln], i, t);
    BackwardOne(lines, ln, i, Mates(t));
    assert Pop(t) == st;
  }

  lemma BackOverClose(lines: seq<string>, ln: nat, i: nat, st: string)
    requires Plain(lines) && ln < |lines| && i < |lines[ln]| && AllOpen(st) && st != []
    requires Closes(lines[ln][i]) && Mate(Top(st)) == lines[ln][i]
    ensures Backward(lines, ln, i + 1, Mates(Pop(st))) == Backward(lines, ln, i, Mates(st))
  {
    var t := Pop(st);
    assert StepBack(lines[ln], i, Mates(t)) == (More(Mates(t) + [lines[ln][i]]), 1);
    BackwardOne(lines, ln, i, Mates(t));
    assert Mates(st) == Mates(t) + [lines[ln][i]];
  }

  lemma BackOverOther(lines: seq<string>, ln: nat, i: nat, st: string)
    requires Plain(lines) && ln < |lines| && i < |lines[ln]| && AllOpen(st) && st != []
    requires !Opens(lines[ln][i]) && !Closes(lines[ln][i])
    ensures Backward(lines, ln, i + 1, Mates(st)) == Backward(lines, ln, i, Mates(st))
  {
    BackPlain(lines[ln], i, st);
    BackwardOne(lines, ln, i, Mates(st));
  }

  /** From an end found with `st` open, the backward scan gets here with the mates of `st` pending. */
  ghost predicate Retraced(lines: seq<string>, ln: nat, i: nat, st: string)
    requires ln < |lines| && i <= |lines[ln]|
  {
    var r := Forward(lines, ln, i, st);
    r.Some? ==>
      && r.value.line < |lines| && 0 < r.value.pos <= |lines[r.value.line]|
      && Backward(lines, r.value.line, r.value.pos, []) == Backward(lines, ln, i, Mates(st))
  }

  lemma RetracedOpen(lines: seq<string>, ln: nat, i: nat, st: string)
    requires Plain(lines) && ln < |lines| && i < |lines[ln]| && AllOpen(st) && st != [] && Opens(lines[ln][i])
    requires Retraced(lines, ln, i + 1, st + [lines[ln][i]])
    ensures Retraced(lines, ln, i, st)
  {
    ForwardPlain(lines, ln, i, st);
    BackOverOpen(lines, ln, i, st);
  }

  lemma RetracedClose(lines: seq<string>, ln: nat, i: nat, st: string)
    requires Plain(lines) && ln < |lines| && i < |lines[ln]| && AllOpen(st) && st != [] && Closes(lines[ln][i])
    requires |st| > 1 ==> Retraced(lines, ln, i + 1, Pop(st))
    ensures Retraced(lines, ln, i, st)
  {
    ForwardPlain(lines, ln, i, st);
    if Mate(Top(st)) == lines[ln][i] {
      BackOverClose(lines, ln, i, st);
      if |st| == 1 { assert Mates(Pop(st)) == []; }
    }
  }

  lemma RetracedOther(lines: seq<string>, ln: nat, i: nat, st: string)
    requires Plain(lines) && ln < |lines| && i < |lines[ln]| && AllOpen(st) && st != []
    requires !Opens(lines[ln][i]) && !Closes(lines[ln][i]) && Retraced(lines, ln, i + 1, st)
    ensures Retraced(lines, ln, i, st)
  {
    ForwardPlain(lines, ln, i, st);
    BackOverOther(lines, ln, i, st);
  }

  lemma RetracedWrap(lines: seq<string>, ln: nat, st: string)
    requires ln < |lines| && st != [] && (ln + 1 < |lines| ==> Retraced(lines, ln + 1, 0, st))
    ensures Retraced(lines, ln, |lines[ln]|, st)
  {
    ForwardWraps(lines, ln, st);
    if ln + 1 < |lines| { BackwardWraps(lines, ln + 1, Mates(st)); }
  }

  lemma {:induction false} Retraces(lines: seq<string>, ln: nat, i: nat, st: string)
    requires Plain(lines) && ln < |lines| && i <= |lines[ln]| && st != [] && AllOpen(st)
    ensures Retraced(lines, ln, i, st)
    decreases |lines| - ln, |lines[ln]| - i
  {
    if i == |lines[ln]| {
      if ln + 1 < |lines| { Retraces(lines, ln + 1, 0, st); }
      RetracedWrap(lines, ln, st);
    } else if Opens(lines[ln][i]) {
      Retraces(lines, ln, i + 1, st + [lines[ln][i]]);
      RetracedOpen(lines, ln, i, st);
    } else if Closes(lines[ln][i]) {
      if |st| > 1 { Retraces(lines, ln, i + 1, Pop(st)); }
      RetracedClose(lines, ln, i, st);
    } else {
      Retraces(lines, ln, i + 1, st);
      RetracedOther(lines, ln, i, st);
    }
  }

  // ------------------------------------------------------------------------------------
  // Proper nesting
  // ------------------------------------------------------------------------------------

  /** Nothing, a plain character first, or a bracket with its mate around a nested text, first. */
  ghost predicate Nested(w: string)
    decreases |w|
  {
    || w == []
    || (!Opens(w[0]) && !Closes(w[0]) && Nested(w[1..]))
    || (Opens(w[0]) && exists m :: 0 < m < |w| && w[m] == Mate(w[0]) && Nested(w[1..m]) && Nested(w[m + 1..]))
  }

  predicate Before(lines: seq<string>, ln: nat, i: nat, lm: nat, m: nat) {
    ln <= lm < |lines| && i <= |lines[ln]| && m <= |lines[lm]| && (ln == lm ==> i <= m)
  }

  /** The text from one place to another, lines run together. */
  function Text(lines: seq<string>, ln: nat, i: nat, lm: nat, m: nat): (w: string)
    requires Before(lines, ln, i, lm, m)
    decreases lm - ln
  {
    if ln == lm then lines[ln][i..m] else lines[ln][i..] + Text(lines, ln + 1, 0, lm, m)
  }

  lemma {:induction false} TextFirst(lines: seq<string>, ln: nat, i: nat, lm: nat, m: nat)
    requires Before(lines, ln, i, lm, m) && i < |lines[ln]| && (ln == lm ==> i < m)
    ensures Text(lines, ln, i, lm, m) == [lines[ln][i]] + Text(lines, ln, i + 1, lm, m)
  {
    if ln < lm { assert lines[ln][i..] == [lines[ln][i]] + lines[ln][i + 1..]; }
  }

  lemma TextSplitsHere(lines: seq<string>, ln: nat, i: nat, m: nat, lk: nat, k: nat)
    requires ln < |lines| && i <= m <= |lines[ln]| && Before(lines, ln, m, lk, k)
    ensures Text(lines, ln, i, lk, k) == lines[ln][i..m] + Text(lines, ln, m, lk, k)
  {
    if ln < lk {
      assert lines[ln][i..] == lines[ln][i..m] + lines[ln][m..];
      Assoc(lines[ln][i..m], lines[ln][m..], Text(lines, ln + 1, 0, lk, k));
    }
  }

  lemma TextSplitsNext(lines: seq<string>, ln: nat, i: nat, lm: nat, m: nat, lk: nat, k: nat)
    requires Before(lines, ln, i, lm, m) && Before(lines, lm, m, lk, k) && Before(lines, ln, i, lk, k) && ln < lm
    requires Text(lines, ln + 1, 0, lk, k) == Text(lines, ln + 1, 0, lm, m) + Text(lines, lm, m, lk, k)
    ensures Text(lines, ln, i, lk, k) == Text(lines, ln, i, lm, m) + Text(lines, lm, m, lk, k)
  {
    Assoc(lines[ln][i..], Text(lines, ln + 1, 0, lm, m), Text(lines, lm, m, lk, k));
  }

  lemma {:induction false} TextSplits(lines: seq<string>, ln: nat, i: nat, lm: nat, m: nat, lk: nat, k: nat)
    requires Before(lines, ln, i, lm, m) && Before(lines, lm, m, lk, k)
    ensures Before(lines, ln, i, lk, k)
    ensures Text(lines, ln, i, lk, k) == Text(lines, ln, i, lm, m) + Text(lines, lm, m, lk, k)
    decreases lm - ln
  {
    if ln < lm {
      TextSplits(lines, ln + 1, 0, lm, m, lk, k);
      TextSplitsNext(lines, ln, i, lm, m, lk, k);
    } else {
      TextSplitsHere(lines, ln, i, m, lk, k);
    }
  }

  lemma TextWraps(lines: seq<string>, ln: nat, lm: nat, m: nat)
    requires ln + 1 < |lines| && Before(lines, ln + 1, 0, lm, m)
    ensures Text(lines, ln, |lines[ln]|, lm, m) == Text(lines, ln + 1, 0, lm, m)
  {
    assert lines[ln][|lines[ln]|..] == "";
  }

  lemma NestedBlock(o: char, v: string, w: string)
    requires Opens(o) && Nested(v) && Nested(w)
    ensures Nested([o] + (v + ([Mate(o)] + w)))
  {
    var x := [o] + (v + ([Mate(o)] + w));
    var m := |v| + 1;
    assert x[1..m] == v && x[m + 1..] == w && x[m] == Mate(o);
  }

  lemma NestedSkip(c: char, w: string)
    requires !Opens(c) && !Closes(c) && Nested(w)
    ensures Nested([c] + w)
  {
    assert ([c] + w)[1..] == w;
  }

  /** At (lm, m) the bracket `o`, open on top of `st`, is closed, with a nested text up to there. */
  ghost predicate Returns(lines: seq<string>, ln: nat, i: nat, st: string, o: char, lm: nat, m: nat) {
    && ln < |lines| && Before(lines, ln, i, lm, m) && m < |lines[lm]| && lines[lm][m] == Mate(o)
    && Nested(Text(lines, ln, i, lm, m))
    && Forward(lines, ln, i, st + [o]) == if st == [] then Some(Place(lm, m + 1)) else Forward(lines, lm, m + 1, st)
  }

  lemma ReturnsWrap(lines: seq<string>, ln: nat, st: string, o: char, lm: nat, m: nat)
    requires ln + 1 < |lines| && Returns(lines, ln + 1, 0, st, o, lm, m)
    ensures Returns(lines, ln, |lines[ln]|, st, o, lm, m)
  {
    ForwardWraps(lines, ln, st + [o]);
    TextWraps(lines, ln, lm, m);
  }

  lemma ReturnsOpen(lines: seq<string>, ln: nat, i: nat, st: string, o: char, l1: nat, m1: nat, lm: nat, m: nat)
    requires Plain(lines) && ln < |lines| && i < |lines[ln]| && AllOpen(st) && Opens(o) && Opens(lines[ln][i])
    requires Returns(lines, ln, i + 1, st + [o], lines[ln][i], l1, m1) && Returns(lines, l1, m1 + 1, st, o, lm, m)
    ensures Returns(lines, ln, i, st, o, lm, m)
  {
    ForwardPlain(lines, ln, i, st + [o]);
    BlockText(lines, ln, i, l1, m1, lm, m);
  }

  lemma ReturnsClose(lines: seq<string>, ln: nat, i: nat, st: string, o: char)
    requires Plain(lines) && ln < |lines| && i < |lines[ln]| && AllOpen(st) && Opens(o) && lines[ln][i] == Mate(o)
    ensures Returns(lines, ln, i, st, o, ln, i)
  {
    ForwardPlain(lines, ln, i, st + [o]);
    assert Pop(st + [o]) == st && Top(st + [o]) == o;
  }

  lemma ReturnsOther(lines: seq<string>, ln: nat, i: nat, st: string, o: char, lm: nat, m: nat)
    requires Plain(lines) && ln < |lines| && i < |lines[ln]| && AllOpen(st) && Opens(o)
    requires !Opens(lines[ln][i]) && !Closes(lines[ln][i]) && Returns(lines, ln, i + 1, st, o, lm, m)
    ensures Returns(lines, ln, i, st, o, lm, m)
  {
    ForwardPlain(lines, ln, i, st + [o]);
    TextFirst(lines, ln, i, lm, m);
    NestedSkip(lines[ln][i], Text(lines, ln, i + 1, lm, m));
  }

  /** Where the top bracket of the stack gets closed. */
  lemma {:induction false} FirstReturn(lines: seq<string>, ln: nat, i: nat, st: string, o: char)
    returns (lm: nat, m: nat)
    requires Plain(lines) && ln < |lines| && i <= |lines[ln]| && AllOpen(st) && Opens(o)
    requires Forward(lines, ln, i, st + [o]).Some?
    ensures Returns(lines, ln, i, st, o, lm, m)
    decreases |lines| - ln, |lines[ln]| - i
  {
    if i == |lines[ln]| {
      ForwardWraps(lines, ln, st + [o]);
      lm, m := FirstReturn(lines, ln + 1, 0, st, o);
      ReturnsWrap(lines, ln, st, o, lm, m);
    } else {
      ForwardPlain(lines, ln, i, st + [o]);
      if Opens(lines[ln][i]) {
        var l1, m1 := FirstReturn(lines, ln, i + 1, st + [o], lines[ln][i]);
        lm, m := FirstReturn(lines, l1, m1 + 1, st, o);
        ReturnsOpen(lines, ln, i, st, o, l1, m1, lm, m);
      } else if Closes(lines[ln][i]) {
        lm, m := ln, i;
        ReturnsClose(lines, ln, i, st, o);
      } else {
        lm, m := FirstReturn(lines, ln, i + 1, st, o);
        ReturnsOther(lines, ln, i, st, o, lm, m);
      }
    }
  }

  lemma BlockText(lines: seq<string>, ln: nat, i: nat, l1: nat, m1: nat, lm: nat, m: nat)
    requires ln < |lines| && i < |lines[ln]| && Opens(lines[ln][i]) && Before(lines, ln, i + 1, l1, m1)
    requires m1 < |lines[l1]| && lines[l1][m1] == Mate(lines[ln][i]) && Before(lines, l1, m1 + 1, lm, m)
    requires Nested(Text(lines, ln, i + 1, l1, m1)) && Nested(Text(lines, l1, m1 + 1, lm, m))
    ensures Before(lines, ln, i, lm, m) && Nested(Text(lines, ln, i, lm, m))
  {
    var o, v, w := lines[ln][i], Text(lines, ln, i + 1, l1, m1), Text(lines, l1, m1 + 1, lm, m);
    TextFirst(lines, ln, i, lm, m);
    TextSplits(lines, ln, i + 1, l1, m1, lm, m);
    TextFirst(lines, l1, m1, lm, m);
    NestedBlock(o, v, w);
  }

  // ------------------------------------------------------------------------------------
  // The two matchers
  // ------------------------------------------------------------------------------------

  /**
   * If the forward matcher finds an end, it is the mate of the bracket, everything between is
   * properly nested, and the backward matcher leads from it to where the search began.
   */
  lemma MatchingIsInvertible(lines: seq<string>, ln: nat, pos: nat)
    requires Plain(lines) && ln < |lines| && pos < |lines[ln]| && Opens(lines[ln][pos])
    requires Forward(lines, ln, pos, []).Some?
    ensures var p := Forward(lines, ln, pos, []).value;
      && p.line < |lines| && 0 < p.pos <= |lines[p.line]|
      && lines[p.line][p.pos - 1] == Mate(lines[ln][pos])
      && Before(lines, ln, pos + 1, p.line, p.pos - 1) && Nested(Text(lines, ln, pos + 1, p.line, p.pos - 1))
      && Backward(lines, p.line, p.pos, []) == Some(Place(ln, pos))
  {
    var o := lines[ln][pos];
    var st := [o];
    ForwardOne(lines, ln, pos, []);
    assert [] + [o] == st;
    Retraces(lines, ln, pos + 1, st);
    BackPlain(lines[ln], pos, st);
    BackwardOne(lines, ln, pos, Mates(st));
    var lm, m := FirstReturn(lines, ln, pos + 1, [], o);
  }

  /** The same of the two procedures. */
  method CloseAndReturn(lines: seq<string>, linenum: nat, pos: nat) returns (there: Option<Place>, back: Option<Place>)
    requires Plain(lines) && linenum < |lines| && pos < |lines[linenum]| && Opens(lines[linenum][pos])
    ensures there.None? ==> back.None?
    ensures there.Some? ==> back == Some(Place(linenum, pos))
  {
    there := CloseExpression(lines, linenum, pos);
    back := None;
    if there.Some? {
      MatchingIsInvertible(lines, linenum, pos);
      back := ReverseCloseExpression(lines, there.value.line, there.value.pos - 1);
    }
  }

  const ANGLE_LINE: string := "< >= >"

  lemma AngleForward()
    ensures Scan(ANGLE_LINE, 0, []) == At(3)
  {
    assert Step(ANGLE_LINE, 0, []) == More("<");
    assert Step(ANGLE_LINE, 1, "<") == More("<");
    assert ANGLE_LINE[..1] == "<" && TrimRight("<") == "<";
    assert Step(ANGLE_LINE, 2, "<") == At(3);
    assert Scan(ANGLE_LINE, 2, "<") == At(3);
    assert Scan(ANGLE_LINE, 1, "<") == At(3);
  }

  lemma AngleBackward()
    ensures ScanBack(ANGLE_LINE, 3, []) == More([])
  {
    assert StepBack(ANGLE_LINE, 2, []) == (More([]), 2);
    assert StepBack(ANGLE_LINE, 0, []) == (More([]), 1);
    assert ScanBack(ANGLE_LINE, 0, []) == More([]);
    assert ScanBack(ANGLE_LINE, 1, []) == More([]);
  }

  /** With angle brackets it can fail: forward takes the `>` of a `>=` for an end, backward does not. */
  lemma AngleBracketsDiffer()
    ensures Forward([ANGLE_LINE], 0, 0, []) == Some(Place(0, 3)) && Backward([ANGLE_LINE], 0, 3, []).None?
  {
    AngleForward();
    AngleBackward();
  }
}
