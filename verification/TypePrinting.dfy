/**
 * Data types: equality as the original compares ids and extra information, and the printed
 * form.  On well-formed types both say the same thing.
 */
module TypePrinting {
  import opened Wrappers

  const K_STRUCT: nat := 100
  const K_LIST: nat := 101

  /** `Lax` stands for the invalid and the generic kind of extra information. */
  datatype Info =
    | NoInfo
    | Lax
    | StringInfo(maxLength: nat)
    | ListInfo(child: DataType)
    | StructInfo(children: seq<DataType>)

  datatype DataType = DataType(id: nat, info: Info)

  // ------------------------------------------------------------------------------------
  // Equality
  // ------------------------------------------------------------------------------------

  /** operator==; equal pointers compare equal structures, so the shortcut needs no case of its own. */
  predicate Eq(a: DataType, b: DataType)
    decreases a, b, 2
  {
    a.id == b.id && EqInfo(a.info, b.info)
  }

  predicate EqInfo(i: Info, j: Info)
    decreases i, j, 1
  {
    if i.NoInfo? && j.NoInfo? then true
    else if i.NoInfo? then j.Lax? || j.StringInfo?       // j's Equals, handed no information
    else Equals(i, j)
  }

  predicate Equals(i: Info, other: Info)
    decreases i, other, 0
  {
    match i
    case NoInfo => other.NoInfo?
    case Lax => true
    case StringInfo(_) => true
    case ListInfo(c) => other.ListInfo? && Eq(c, other.child)
    case StructInfo(cs) =>
      other.StructInfo? && |cs| == |other.children| && forall k | 0 <= k < |cs| :: Eq(cs[k], other.children[k])
  }

  predicate WellFormed(t: DataType)
    decreases t
  {
    && t.id < 256
    && (t.id == K_LIST <==> t.info.ListInfo?)
    && (t.id == K_STRUCT <==> t.info.StructInfo?)
    && (t.info.ListInfo? ==> WellFormed(t.info.child))
    && (t.info.StructInfo? ==> forall k | 0 <= k < |t.info.children| :: WellFormed(t.info.children[k]))
  }

  /** What a type is, apart from the length of a string. */
  datatype Shape = Leaf(id: nat) | ListOf(child: Shape) | StructOf(children: seq<Shape>)

  function Erase(t: DataType): (s: Shape)
    decreases t
  {
    match t.info
    case ListInfo(c) => ListOf(Erase(c))
    case StructInfo(cs) => StructOf(seq(|cs|, k requires 0 <= k < |cs| => Erase(cs[k])))
    case _ => Leaf(t.id)
  }

  predicate SameInfo(i: Info, j: Info) {
    match i
    case NoInfo => !j.ListInfo? && !j.StructInfo?
    case Lax => true
    case StringInfo(_) => true
    case ListInfo(c) => j.ListInfo? && Eq(c, j.child)
    case StructInfo(cs) => j.StructInfo? && |cs| == |j.children| && forall k | 0 <= k < |cs| :: Eq(cs[k], j.children[k])
  }

  /** The three mutually recursive comparisons, laid open. */
  lemma EqUnfolds(a: DataType, b: DataType)
    ensures Eq(a, b) <==> a.id == b.id && SameInfo(a.info, b.info)
  {
    assert EqInfo(a.info, b.info) ==
           if a.info.NoInfo? && b.info.NoInfo? then true
           else if a.info.NoInfo? then b.info.Lax? || b.info.StringInfo? else Equals(a.info, b.info);
  }

  /** On well-formed types == compares the shapes, so it is an equivalence. */
  lemma {:induction false} EqIsShape(a: DataType, b: DataType)
    requires WellFormed(a) && WellFormed(b)
    ensures Eq(a, b) <==> Erase(a) == Erase(b)
    decreases a
  {
    EqUnfolds(a, b);
    if a.info.ListInfo? && b.info.ListInfo? {
      EqIsShape(a.info.child, b.info.child);
    } else if a.info.StructInfo? && b.info.StructInfo? {
      var cs, ds := a.info.children, b.info.children;
      if |cs| == |ds| {
        forall k | 0 <= k < |cs| ensures Eq(cs[k], ds[k]) <==> Erase(cs[k]) == Erase(ds[k]) { EqIsShape(cs[k], ds[k]); }
        assert Erase(a).children == Erase(b).children <==> forall k | 0 <= k < |cs| :: Erase(cs[k]) == Erase(ds[k]) by {
          assert forall k | 0 <= k < |cs| ::
            Erase(a).children[k] == Erase(cs[k]) && Erase(b).children[k] == Erase(ds[k]);
        }
      }
    }
  }

  lemma EqIsEquivalence(a: DataType, b: DataType, c: DataType)
    requires WellFormed(a) && WellFormed(b) && WellFormed(c)
    ensures Eq(a, a) && (Eq(a, b) <==> Eq(b, a)) && (Eq(a, b) && Eq(b, c) ==> Eq(a, c))
  {
    EqIsShape(a, a);
    EqIsShape(a, b);
    EqIsShape(b, a);
    EqIsShape(b, c);
    EqIsShape(a, c);
  }

  /** Lax information equals anything, but a list's does not equal it back. */
  lemma IllFormedAsymmetry(child: DataType)
    ensures var a, b := DataType(K_LIST, Lax), DataType(K_LIST, ListInfo(child)); Eq(a, b) && !Eq(b, a)
  {
    var a, b := DataType(K_LIST, Lax), DataType(K_LIST, ListInfo(child));
    EqUnfolds(a, b);
    EqUnfolds(b, a);
  }

  // ------------------------------------------------------------------------------------
  // Printing
  // ------------------------------------------------------------------------------------

  function Decimal(n: nat): (s: string)
    ensures s != [] && forall i | 0 <= i < |s| :: '0' <= s[i] <= '9'
  {
    var d := ('0' as int + n % 10) as char;
    if n < 10 then [d] else Decimal(n / 10) + [d]
  }

  predicate Listed(id: nat) {
    id in {0, 10, 11, 12, 13, 14, 28, 29, 30, 31, 22, 23, 25, 15, 18, 27, 200, 201, 202}
  }

  function Literal(id: nat): (s: string)
    requires Listed(id)
  {
    if id == 0 then "INVALID" else if id == 10 then "BOOLEAN" else if id == 11 then "INT8" else if id == 12 then "INT16"
    else if id == 13 then "INT32" else if id == 14 then "INT64" else if id == 28 then "UINT8"
    else if id == 29 then "UINT16"
    else if id == 30 then "UINT32" else if id == 31 then "UINT64" else if id == 22 then "FLOAT"
    else if id == 23 then "DOUBLE"
    else if id == 25 then "VARCHAR" else if id == 15 then "DATE" else if id == 18 then "TIMESTAMP_MS"
    else if id == 27 then "INTERVAL" else if id == 200 then "VERTEX" else if id == 201 then "EDGE" else "PATH"
  }

  function Name(id: nat): (s: string) { if Listed(id) then Literal(id) else "UNKNOWN" + Decimal(id) }

  /** The printed names, and what an id without one prints. */
  lemma NamesAre(id: nat)
    ensures Name(0) == "INVALID" && Name(10) == "BOOLEAN" && Name(25) == "VARCHAR"
    ensures Name(11) == "INT8" && Name(12) == "INT16" && Name(13) == "INT32" && Name(14) == "INT64"
    ensures Name(28) == "UINT8" && Name(29) == "UINT16" && Name(30) == "UINT32" && Name(31) == "UINT64"
    ensures Name(22) == "FLOAT" && Name(23) == "DOUBLE"
    ensures Name(15) == "DATE" && Name(18) == "TIMESTAMP_MS" && Name(27) == "INTERVAL"
    ensures Name(200) == "VERTEX" && Name(201) == "EDGE" && Name(202) == "PATH"
    ensures !Listed(id) ==> |Name(id)| > 7 && Name(id)[..7] == "UNKNOWN" && Value(Name(id)[7..]) == id
  {
    if !Listed(id) {
      DecimalValue(id);
      assert Name(id)[7..] == Decimal(id);
    }
  }

  function Print(s: Shape): (r: string)
    decreases s, 0
  {
    match s
    case Leaf(id) => Name(id)
    case ListOf(c) => "LIST<" + Print(c) + ">"
    case StructOf(cs) => "STRUCT<" + PrintFrom(s, 0) + ">"
  }

  /** The children from k on, with their separators. */
  function PrintFrom(s: Shape, k: nat): (r: string)
    requires s.StructOf? && k <= |s.children|
    decreases s, 0, |s.children| - k
  {
    if k == |s.children| then ""
    else Print(s.children[k]) + (if k + 1 == |s.children| then "" else ", ") + PrintFrom(s, k + 1)
  }

  function Joined(cs: seq<string>): (r: string) {
    if cs == [] then "" else if |cs| == 1 then cs[0] else Joined(cs[..|cs| - 1]) + ", " + cs[|cs| - 1]
  }

  lemma {:induction false} JoinedFront(cs: seq<string>)
    requires |cs| >= 2
    ensures Joined(cs) == cs[0] + ", " + Joined(cs[1..])
  {
    var n := |cs| - 1;
    if n == 1 {
      assert cs[..1] == [cs[0]] && cs[1..] == [cs[1]];
    } else {
      JoinedFront(cs[..n]);
      assert cs[..n][1..] == cs[1..][..n - 1];
    }
  }

  function Printed(s: Shape, k: nat): (r: seq<string>)
    requires s.StructOf? && k <= |s.children|
    ensures |r| == |s.children| - k && forall i: nat | i < |r| :: r[i] == Print(s.children[k + i])
  {
    seq(|s.children| - k, i requires 0 <= i < |s.children| - k => Print(s.children[k + i]))
  }

  lemma {:induction false} PrintFromJoins(s: Shape, k: nat)
    requires s.StructOf? && k <= |s.children|
    ensures PrintFrom(s, k) == Joined(Printed(s, k))
    decreases |s.children| - k
  {
    if k < |s.children| {
      PrintFromJoins(s, k + 1);
      assert Printed(s, k)[1..] == Printed(s, k + 1);
      if k + 1 < |s.children| { JoinedFront(Printed(s, k)); }
    }
  }

  /** A list names its child, a struct its children with commas between them. */
  lemma PrintForm(s: Shape)
    ensures match s
      case Leaf(id) => Print(s) == Name(id)
      case ListOf(c) => Print(s) == "LIST<" + Print(c) + ">"
      case StructOf(cs) => Print(s) == "STRUCT<" + Joined(Printed(s, 0)) + ">"
  {
    if s.StructOf? { PrintFromJoins(s, 0); }
  }

  /** ToString: recursive, with a loop over the children of a struct. */
  method ToString(t: DataType) returns (r: string)
    requires WellFormed(t)
    ensures r == Print(Erase(t))
    decreases t
  {
    match t.info
    case ListInfo(c) =>
      var s := ToString(c);
      r := "LIST<" + s + ">";
    case StructInfo(cs) =>
      r := "STRUCT<";
      ghost var shape := Erase(t);
      var i := 0;
      while i < |cs|
        invariant 0 <= i <= |cs|
        invariant r + PrintFrom(shape, i) == "STRUCT<" + PrintFrom(shape, 0)
      {
        assert shape.children[i] == Erase(cs[i]);
        var s := ToString(cs[i]);
        ghost var before := r;
        r := r + s;
        if i != |cs| - 1 { r := r + ", "; }
        assert before + PrintFrom(shape, i) == r + PrintFrom(shape, i + 1);
        i := i + 1;
      }
      assert r + "" == r;
      r := r + ">";
    case _ => r := Name(t.id);
  }

  // ------------------------------------------------------------------------------------
  // The printed form can be read back
  // ------------------------------------------------------------------------------------

  predicate WordChar(c: char) { 'A' <= c <= 'Z' || '0' <= c <= '9' || c == '_' }

  predicate Word(s: string) { forall i | 0 <= i < |s| :: WordChar(s[i]) }

  /** What may follow a word. */
  predicate Breaks(s: string) { s == [] || !WordChar(s[0]) }

  /** What may follow a printed type. */
  predicate Ends(s: string) { s == [] || s[0] == ',' || s[0] == '>' }

  /** The length of the word a string begins with. */
  function WordLength(s: string): (n: nat) {
    if s == [] || !WordChar(s[0]) then 0 else 1 + WordLength(s[1..])
  }

  lemma {:induction false} WordLengthIs(w: string, r: string)
    requires Word(w) && Breaks(r)
    ensures WordLength(w + r) == |w|
  {
    if w == [] {
      assert w + r == r;
    } else {
      assert (w + r)[1..] == w[1..] + r;
      WordLengthIs(w[1..], r);
    }
  }

  lemma WordSplit(w: string, r: string, v: string, q: string)
    requires Word(w) && Word(v) && Breaks(r) && Breaks(q) && w + r == v + q
    ensures w == v && r == q
  {
    WordLengthIs(w, r);
    WordLengthIs(v, q);
    assert w == (w + r)[..|w|] && v == (v + q)[..|v|];
    assert r == (w + r)[|w|..] && q == (v + q)[|v|..];
  }

  lemma NameIsWord(id: nat)
    ensures Word(Name(id)) && Name(id) != []
  {
  }

  function Value(s: string): (n: int) {
    if s == [] then 0 else 10 * Value(s[..|s| - 1]) + (s[|s| - 1] as int - '0' as int)
  }

  lemma {:induction false} DecimalValue(n: nat)
    ensures Value(Decimal(n)) == n
  {
    if n >= 10 {
      DecimalValue(n / 10);
      var d := ('0' as int + n % 10) as char;
      assert (Decimal(n / 10) + [d])[..|Decimal(n / 10)|] == Decimal(n / 10);
    } else {
      assert Decimal(n)[..0] == [];
    }
  }

  /** No listed name begins like the others. */
  lemma ListedNames(id: nat)
    ensures |Name(id)| >= 4 && (Listed(id) <==> !(Name(id)[0] == 'U' && Name(id)[1] == 'N'))
  {
    if !Listed(id) { assert Name(id)[0] == "UNKNOWN"[0] && Name(id)[1] == "UNKNOWN"[1]; }
  }

  /** The id with that name, for the names in the list. */
  function Lookup(s: string): (id: nat) {
    if s == "INVALID" then 0 else if s == "BOOLEAN" then 10 else if s == "INT8" then 11 else if s == "INT16" then 12
    else if s == "INT32" then 13 else if s == "INT64" then 14 else if s == "UINT8" then 28 else if s == "UINT16" then 29
    else if s == "UINT32" then 30 else if s == "UINT64" then 31 else if s == "FLOAT" then 22
    else if s == "DOUBLE" then 23
    else if s == "VARCHAR" then 25 else if s == "DATE" then 15 else if s == "TIMESTAMP_MS" then 18
    else if s == "INTERVAL" then 27 else if s == "VERTEX" then 200 else if s == "EDGE" then 201 else 202
  }

  lemma LookupName(id: nat)
    requires Listed(id)
    ensures Lookup(Literal(id)) == id
  {
  }

  lemma NamesDiffer(a: nat, b: nat)
    requires Name(a) == Name(b)
    ensures a == b
  {
    ListedNames(a);
    ListedNames(b);
    if Listed(a) {
      LookupName(a);
      LookupName(b);
    } else {
      assert Decimal(a) == Name(a)[7..] && Decimal(b) == Name(b)[7..];
      DecimalValue(a);
      DecimalValue(b);
    }
  }

  /** The word a printed type begins with, and what follows it. */
  function Head(s: Shape): (w: string) {
    match s case Leaf(id) => Name(id) case ListOf(_) => "LIST" case StructOf(_) => "STRUCT"
  }

  function Rest(s: Shape): (r: string) {
    match s case Leaf(_) => "" case ListOf(c) => "<" + Print(c) + ">" case StructOf(_) => "<" + PrintFrom(s, 0) + ">"
  }

  lemma PrintIs(s: Shape)
    ensures Print(s) == Head(s) + Rest(s)
  {
    match s
    case Leaf(id) => assert Name(id) + "" == Name(id);
    case ListOf(c) =>
      assert "LIST<" == "LIST" + "<";
      Assoc("LIST", "<", Print(c));
      Assoc("LIST", "<" + Print(c), ">");
    case StructOf(_) =>
      assert "STRUCT<" == "STRUCT" + "<";
      Assoc("STRUCT", "<", PrintFrom(s, 0));
      Assoc("STRUCT", "<" + PrintFrom(s, 0), ">");
  }

  lemma HeadIsWord(s: Shape)
    ensures Word(Head(s)) && Head(s) != []
  {
    match s
    case Leaf(id) => NameIsWord(id);
    case ListOf(_) =>
    case StructOf(_) =>
  }

  lemma RestBreaks(s: Shape, r: string)
    requires Ends(r)
    ensures Breaks(Rest(s) + r)
    ensures s.Leaf? ==> Rest(s) + r == r
    ensures !s.Leaf? ==> Rest(s) + r != [] && (Rest(s) + r)[0] == '<'
  {
    if !s.Leaf? { assert Rest(s)[0] == '<'; }
  }

  /** Two printed types that begin alike are alike up to the word. */
  lemma HeadsAgree(s: Shape, r: string, t: Shape, q: string)
    requires Ends(r) && Ends(q) && Print(s) + r == Print(t) + q
    ensures Head(s) == Head(t) && Rest(s) + r == Rest(t) + q
    ensures s.Leaf? == t.Leaf? && s.ListOf? == t.ListOf?
  {
    PrintIs(s);
    PrintIs(t);
    Assoc(Head(s), Rest(s), r);
    Assoc(Head(t), Rest(t), q);
    HeadIsWord(s);
    HeadIsWord(t);
    RestBreaks(s, r);
    RestBreaks(t, q);
    WordSplit(Head(s), Rest(s) + r, Head(t), Rest(t) + q);
    assert |"LIST"| != |"STRUCT"|;
  }

  /** Reading a type off the front of a text is unambiguous. */
  lemma {:induction false} ReadsBack(s: Shape, r: string, t: Shape, q: string)
    requires Ends(r) && Ends(q) && Print(s) + r == Print(t) + q
    ensures s == t && r == q
    decreases s, 1, 0
  {
    HeadsAgree(s, r, t, q);
    match s
    case Leaf(id) =>
      NamesDiffer(id, t.id);
      RestBreaks(s, r);
      RestBreaks(t, q);
    case ListOf(c) =>
      Inside(Print(c), r, Print(t.child), q);
      ReadsBack(c, ">" + r, t.child, ">" + q);
      assert r == (">" + r)[1..] && q == (">" + q)[1..];
    case StructOf(_) =>
      Inside(PrintFrom(s, 0), r, PrintFrom(t, 0), q);
      FieldsReadBack(s, r, t, q, 0);
  }

  lemma Inside(a: string, r: string, b: string, q: string)
    requires ("<" + a + ">") + r == ("<" + b + ">") + q
    ensures a + (">" + r) == b + (">" + q)
  {
    assert a + (">" + r) == (("<" + a + ">") + r)[1..];
    assert b + (">" + q) == (("<" + b + ">") + q)[1..];
  }

  /** What follows the k-th field of a struct. */
  function After(s: Shape, k: nat, r: string): (x: string)
    requires s.StructOf? && k < |s.children|
    ensures Ends(x)
  {
    if k + 1 == |s.children| then ">" + r else ", " + (PrintFrom(s, k + 1) + (">" + r))
  }

  lemma FromIs(s: Shape, k: nat, r: string)
    requires s.StructOf? && k < |s.children|
    ensures PrintFrom(s, k) + (">" + r) == Print(s.children[k]) + After(s, k, r)
  {
    var p, sep, rest := Print(s.children[k]), if k + 1 == |s.children| then "" else ", ", PrintFrom(s, k + 1);
    if k + 1 == |s.children| {
      assert p + sep + rest == p;
    } else {
      Assoc(p, sep, rest);
      Assoc(p, sep + rest, ">" + r);
      Assoc(sep, rest, ">" + r);
    }
  }

  lemma PrintStarts(s: Shape, x: string)
    ensures Print(s) + x != [] && WordChar((Print(s) + x)[0])
  {
    PrintIs(s);
    HeadIsWord(s);
    assert (Print(s) + x)[0] == Head(s)[0];
  }

  /** A further field starts with a letter, the end of the struct does not. */
  lemma SameCount(s: Shape, r: string, t: Shape, q: string, k: nat)
    requires s.StructOf? && t.StructOf? && k <= |s.children| && k <= |t.children|
    requires PrintFrom(s, k) + (">" + r) == PrintFrom(t, k) + (">" + q)
    ensures k == |s.children| <==> k == |t.children|
  {
    if k < |s.children| { FromIs(s, k, r); PrintStarts(s.children[k], After(s, k, r)); }
    if k < |t.children| { FromIs(t, k, q); PrintStarts(t.children[k], After(t, k, q)); }
  }

  lemma {:induction false} FieldsReadBack(s: Shape, r: string, t: Shape, q: string, k: nat)
    requires s.StructOf? && t.StructOf? && k <= |s.children| && k <= |t.children|
    requires PrintFrom(s, k) + (">" + r) == PrintFrom(t, k) + (">" + q)
    ensures |s.children| == |t.children| && r == q && s.children[k..] == t.children[k..]
    decreases s, 0, |s.children| - k
  {
    SameCount(s, r, t, q, k);
    if k == |s.children| {
      assert r == ("" + (">" + r))[1..] && q == ("" + (">" + q))[1..];
    } else {
      FromIs(s, k, r);
      FromIs(t, k, q);
      ReadsBack(s.children[k], After(s, k, r), t.children[k], After(t, k, q));
      FieldsFollow(s, r, t, q, k);
      if k + 1 < |s.children| { FieldsReadBack(s, r, t, q, k + 1); }
      TailsFrom(s.children, t.children, k);
    }
  }

  lemma TailsFrom<T>(s: seq<T>, t: seq<T>, k: nat)
    requires k < |s| && |s| == |t| && s[k] == t[k] && s[k + 1..] == t[k + 1..]
    ensures s[k..] == t[k..]
  {
    assert s[k..] == [s[k]] + s[k + 1..] && t[k..] == [t[k]] + t[k + 1..];
  }

  lemma FieldsFollow(s: Shape, r: string, t: Shape, q: string, k: nat)
    requires s.StructOf? && t.StructOf? && k < |s.children| && k < |t.children| && After(s, k, r) == After(t, k, q)
    ensures k + 1 == |s.children| <==> k + 1 == |t.children|
    ensures k + 1 == |s.children| ==> r == q
    ensures k + 1 < |s.children| ==> PrintFrom(s, k + 1) + (">" + r) == PrintFrom(t, k + 1) + (">" + q)
  {
    assert After(s, k, r)[0] == '>' <==> k + 1 == |s.children|;
    assert After(t, k, q)[0] == '>' <==> k + 1 == |t.children|;
    if k + 1 == |s.children| {
      assert r == After(s, k, r)[1..] && q == After(t, k, q)[1..];
    } else {
      assert PrintFrom(s, k + 1) + (">" + r) == After(s, k, r)[2..];
      assert PrintFrom(t, k + 1) + (">" + q) == After(t, k, q)[2..];
    }
  }

  /** Two well-formed types print the same exactly when they are equal. */
  lemma PrintIsFaithful(a: DataType, b: DataType)
    requires WellFormed(a) && WellFormed(b)
    ensures Print(Erase(a)) == Print(Erase(b)) <==> Eq(a, b)
  {
    EqIsShape(a, b);
    if Print(Erase(a)) == Print(Erase(b)) {
      assert Print(Erase(a)) + "" == Print(Erase(b)) + "";
      ReadsBack(Erase(a), "", Erase(b), "");
    }
  }
}
