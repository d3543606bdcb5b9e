/**
 * The byte encoder and decoder: fixed-width little-endian numbers, length-prefixed strings,
 * and slots that are skipped first and filled later.
 */
module Encoding {
  import opened Wrappers

  type byte = x: int | 0 <= x < 256

  // ------------------------------------------------------------------------------------
  // Numbers
  // ------------------------------------------------------------------------------------

  function Power(w: nat): (p: nat)
    ensures p > 0
  {
    if w == 0 then 1 else 256 * Power(w - 1)
  }

  /** The low `w` bytes of a number, lowest first. */
  function Bytes(n: nat, w: nat): (bs: seq<byte>)
    ensures |bs| == w
  {
    if w == 0 then [] else [n % 256] + Bytes(n / 256, w - 1)
  }

  /** Byte i counts the 256^i: the lowest comes first. */
  lemma {:induction false} BytesAt(n: nat, w: nat, i: nat)
    requires i < w
    ensures Bytes(n, w)[i] == n / Power(i) % 256
  {
    if i > 0 {
      BytesAt(n / 256, w - 1, i - 1);
      DivTwice(n, Power(i - 1));
    }
  }

  lemma DivTwice(n: nat, p: nat)
    requires p > 0
    ensures n / (256 * p) == n / 256 / p
  {
    var q, r := n / 256 / p, n / 256 % p;
    assert n / 256 == p * q + r;
    assert n == 256 * p * q + (256 * r + n % 256);
    assert 256 * r + n % 256 < 256 * p;
    QuotientIs(n, 256 * p, q, 256 * r + n % 256);
  }

  lemma QuotientIs(n: nat, d: nat, q: nat, r: nat)
    requires 0 <= r < d && n == d * q + r
    ensures n / d == q
  {
    var e := n / d - q;
    assert d * e == r - n % d;
    TimesGrows(d, e);
  }

  lemma TimesGrows(d: nat, e: int)
    ensures e >= 1 ==> d * e >= d
    ensures e <= -1 ==> d * e <= 0 - d
  {
  }

  function Number(bs: seq<byte>): (n: nat) {
    if bs == [] then 0 else bs[0] + 256 * Number(bs[1..])
  }

  lemma {:induction false} BytesBack(n: nat, w: nat)
    requires n < Power(w)
    ensures Number(Bytes(n, w)) == n
  {
    if w > 0 { BytesBack(n / 256, w - 1); }
  }

  /** Two's complement, both ways. */
  function Unsigned(v: int, w: nat): (n: nat)
    requires 0 - Power(w) <= v < Power(w)
  {
    if v < 0 then v + Power(w) else v
  }

  function Signed(n: nat, w: nat): (v: int) { if 2 * n >= Power(w) then n - Power(w) else n }

  lemma SignedBack(v: int, w: nat)
    requires 0 - Power(w) <= 2 * v < Power(w)
    ensures 0 - Power(w) <= v < Power(w) && Unsigned(v, w) < Power(w) && Signed(Unsigned(v, w), w) == v
  {
  }

  // ------------------------------------------------------------------------------------
  // Values
  // ------------------------------------------------------------------------------------

  datatype Kind = KInt | KUint | KLong | KByte | KString | KSmall

  datatype Item =
    | Int(v: int)
    | Uint(n: nat)
    | Long(v: int)
    | Byte(b: byte)
    | Str(s: seq<byte>)
    | Small(s: seq<byte>)

  function KindOf(i: Item): (k: Kind) {
    match i
    case Int(_) => KInt
    case Uint(_) => KUint
    case Long(_) => KLong
    case Byte(_) => KByte
    case Str(_) => KString
    case Small(_) => KSmall
  }

  /** The values the parameter types hold, with strings as long as their length fields allow. */
  predicate Fits(i: Item) {
    match i
    case Int(v) => 0 - Power(4) <= 2 * v < Power(4)
    case Uint(n) => n < Power(4)
    case Long(v) => 0 - Power(8) <= 2 * v < Power(8)
    case Byte(_) => true
    case Str(s) => 2 * |s| < Power(4)
    case Small(s) => |s| < 256
  }

  function Encoded(i: Item): (bs: seq<byte>) {
    match i
    case Int(v) => if 0 - Power(4) <= v < Power(4) then Bytes(Unsigned(v, 4), 4) else []
    case Uint(n) => Bytes(n, 4)
    case Long(v) => if 0 - Power(8) <= v < Power(8) then Bytes(Unsigned(v, 8), 8) else []
    case Byte(b) => [b]
    case Str(s) => Bytes(|s|, 4) + s
    case Small(s) => [|s| % 256] + s
  }

  /** The number in w bytes, the lowest first. */
  predicate LowFirst(bs: seq<byte>, n: nat, w: nat) {
    |bs| == w && forall i: nat | i < w :: bs[i] == n / Power(i) % 256
  }

  lemma BytesLowFirst(n: nat, w: nat)
    ensures LowFirst(Bytes(n, w), n, w)
  {
    forall i: nat | i < w ensures Bytes(n, w)[i] == n / Power(i) % 256 { BytesAt(n, w, i); }
  }

  /** How each value lies in the buffer. */
  lemma EncodedBytes(i: Item)
    requires Fits(i)
    ensures var bs := Encoded(i);
      match i
      case Int(v) => LowFirst(bs, if v < 0 then v + 0x1_0000_0000 else v, 4)
      case Uint(n) => LowFirst(bs, n, 4)
      case Long(v) => LowFirst(bs, if v < 0 then v + 0x1_0000_0000_0000_0000 else v, 8)
      case Byte(b) => bs == [b]
      case Str(s) => |bs| == 4 + |s| && LowFirst(bs[..4], |s|, 4) && bs[4..] == s
      case Small(s) => |bs| == 1 + |s| && bs[0] == |s| && bs[1..] == s
  {
    assert Power(4) == 256 * (256 * (256 * (256 * Power(0)))) == 0x1_0000_0000;
    assert Power(8) == 256 * (256 * (256 * (256 * Power(4)))) == 0x1_0000_0000_0000_0000;
    match i
    case Int(v) => BytesLowFirst(Unsigned(v, 4), 4);
    case Uint(n) => BytesLowFirst(n, 4);
    case Long(v) => BytesLowFirst(Unsigned(v, 8), 8);
    case Byte(_) =>
    case Str(s) =>
      BytesLowFirst(|s|, 4);
      assert Encoded(i)[..4] == Bytes(|s|, 4);
    case Small(_) =>
  }

  /** Reading one value off the front; None where the original reads past the end. */
  function Decoded(k: Kind, bs: seq<byte>): (r: Option<(Item, seq<byte>)>) {
    match k
    case KInt => if |bs| < 4 then None else Some((Int(Signed(Number(bs[..4]), 4)), bs[4..]))
    case KUint => if |bs| < 4 then None else Some((Uint(Number(bs[..4])), bs[4..]))
    case KLong => if |bs| < 8 then None else Some((Long(Signed(Number(bs[..8]), 8)), bs[8..]))
    case KByte => if |bs| < 1 then None else Some((Byte(bs[0]), bs[1..]))
    case KString =>
      if |bs| < 4 then None
      else
        var len := Signed(Number(bs[..4]), 4);
        if len < 0 || |bs| - 4 < len then None else Some((Str(bs[4..4 + len]), bs[4 + len..]))
    case KSmall =>
      if |bs| < 1 || |bs| - 1 < bs[0] then None else Some((Small(bs[1..1 + bs[0]]), bs[1 + bs[0]..]))
  }

  lemma Front(a: seq<byte>, b: seq<byte>)
    ensures (a + b)[..|a|] == a && (a + b)[|a|..] == b
  {
  }

  lemma NumberBack(v: int, w: nat, rest: seq<byte>)
    requires 0 - Power(w) <= 2 * v < Power(w)
    ensures 0 - Power(w) <= v < Power(w) && Signed(Number((Bytes(Unsigned(v, w), w) + rest)[..w]), w) == v
    ensures (Bytes(Unsigned(v, w), w) + rest)[w..] == rest
  {
    SignedBack(v, w);
    BytesBack(Unsigned(v, w), w);
    Front(Bytes(Unsigned(v, w), w), rest);
  }

  lemma StringBack(s: seq<byte>, rest: seq<byte>)
    requires 2 * |s| < Power(4)
    ensures Decoded(KString, Bytes(|s|, 4) + s + rest) == Some((Str(s), rest))
  {
    var bs := Bytes(|s|, 4) + s + rest;
    assert bs == Bytes(|s|, 4) + (s + rest);
    Front(Bytes(|s|, 4), s + rest);
    BytesBack(|s|, 4);
    assert bs[4..4 + |s|] == s && bs[4 + |s|..] == rest;
  }

  /** What was put is what is got, and the rest is left alone. */
  lemma ItemBack(i: Item, rest: seq<byte>)
    requires Fits(i)
    ensures Decoded(KindOf(i), Encoded(i) + rest) == Some((i, rest))
  {
    match i
    case Int(v) => NumberBack(v, 4, rest);
    case Uint(n) =>
      BytesBack(n, 4);
      Front(Bytes(n, 4), rest);
    case Long(v) => NumberBack(v, 8, rest);
    case Byte(b) => assert ([b] + rest)[1..] == rest;
    case Str(s) => StringBack(s, rest);
    case Small(s) => SmallBack(s, rest);
  }

  lemma SmallBack(s: seq<byte>, rest: seq<byte>)
    requires |s| < 256
    ensures Decoded(KSmall, [|s| % 256] + s + rest) == Some((Small(s), rest))
  {
    var bs := [|s| % 256] + s + rest;
    assert bs[1..1 + |s|] == s && bs[1 + |s|..] == rest;
  }

  /** A small string comes back exactly if its length fits its length byte. */
  lemma SmallExact(s: seq<byte>, rest: seq<byte>)
    ensures Decoded(KSmall, Encoded(Small(s)) + rest) == Some((Small(s), rest)) <==> |s| <= 255
  {
    if |s| <= 255 { SmallBack(s, rest); }
  }

  // ------------------------------------------------------------------------------------
  // Sequences of values
  // ------------------------------------------------------------------------------------

  function EncodedAll(items: seq<Item>): (bs: seq<byte>) {
    if items == [] then [] else Encoded(items[0]) + EncodedAll(items[1..])
  }

  function DecodedAll(kinds: seq<Kind>, bs: seq<byte>): (r: Option<(seq<Item>, seq<byte>)>)
    decreases |kinds|
  {
    if kinds == [] then Some(([], bs))
    else match Decoded(kinds[0], bs)
      case None => None
      case Some(p) =>
        match DecodedAll(kinds[1..], p.1)
        case None => None
        case Some(q) => Some(([p.0] + q.0, q.1))
  }

  function Kinds(items: seq<Item>): (ks: seq<Kind>)
    ensures |ks| == |items| && forall j | 0 <= j < |items| :: ks[j] == KindOf(items[j])
  {
    seq(|items|, j requires 0 <= j < |items| => KindOf(items[j]))
  }

  predicate AllFit(items: seq<Item>) { forall j | 0 <= j < |items| :: Fits(items[j]) }

  lemma {:induction false} AllBack(items: seq<Item>, rest: seq<byte>)
    requires AllFit(items)
    ensures DecodedAll(Kinds(items), EncodedAll(items) + rest) == Some((items, rest))
  {
    if items == [] {
      assert EncodedAll(items) + rest == rest;
    } else {
      var tail := EncodedAll(items[1..]) + rest;
      assert EncodedAll(items) + rest == Encoded(items[0]) + tail;
      ItemBack(items[0], tail);
      assert Kinds(items)[1..] == Kinds(items[1..]);
      AllBack(items[1..], rest);
      assert [items[0]] + items[1..] == items;
    }
  }

  lemma {:induction false} AppendOne(items: seq<Item>, i: Item)
    ensures EncodedAll(items + [i]) == EncodedAll(items) + Encoded(i)
  {
    if items == [] {
      assert items + [i] == [i] && [i][1..] == [];
      assert EncodedAll([i]) == Encoded(i) + EncodedAll([]);
    } else {
      assert (items + [i])[1..] == items[1..] + [i];
      AppendOne(items[1..], i);
    }
  }

  // ------------------------------------------------------------------------------------
  // Slots
  // ------------------------------------------------------------------------------------

  function Overwrite(buf: seq<byte>, pos: nat, bs: seq<byte>): (r: seq<byte>)
    requires pos + |bs| <= |buf|
    ensures |r| == |buf|
  {
    buf[..pos] + bs + buf[pos + |bs|..]
  }

  /** Where the j-th value begins. */
  function Offset(items: seq<Item>, j: nat): (pos: nat)
    requires j <= |items|
  {
    |EncodedAll(items[..j])|
  }

  lemma {:induction false} SplitAt(items: seq<Item>, j: nat)
    requires j < |items|
    ensures EncodedAll(items) == EncodedAll(items[..j]) + (Encoded(items[j]) + EncodedAll(items[j + 1..]))
  {
    if j == 0 {
      assert items[..0] == [];
      assert EncodedAll(items) == [] + EncodedAll(items);
    } else {
      var a := items[..j];
      SplitAt(items[1..], j - 1);
      assert items[1..][..j - 1] == a[1..] && items[1..][j..] == items[j + 1..] && a[0] == items[0];
      Assoc(Encoded(items[0]), EncodedAll(a[1..]), Encoded(items[j]) + EncodedAll(items[j + 1..]));
    }
  }

  /** Writing over a slot replaces just that value. */
  lemma FillReplaces(items: seq<Item>, j: nat, i: Item)
    requires j < |items| && |Encoded(i)| == |Encoded(items[j])|
    ensures Offset(items, j) + |Encoded(i)| <= |EncodedAll(items)|
    ensures Overwrite(EncodedAll(items), Offset(items, j), Encoded(i)) == EncodedAll(items[j := i])
  {
    SplitAt(items, j);
    SplitAt(items[j := i], j);
    var a, b, c := EncodedAll(items[..j]), Encoded(items[j]), EncodedAll(items[j + 1..]);
    assert items[j := i][..j] == items[..j] && items[j := i][j + 1..] == items[j + 1..];
    OverwriteMiddle(a, b, c, Encoded(i));
  }

  lemma OverwriteMiddle(a: seq<byte>, b: seq<byte>, c: seq<byte>, e: seq<byte>)
    requires |e| == |b|
    ensures |a| + |e| <= |a + (b + c)| && Overwrite(a + (b + c), |a|, e) == a + (e + c)
  {
    var buf := a + (b + c);
    assert buf[..|a|] == a && buf[|a| + |b|..] == c;
    Assoc(a, e, c);
  }

  class Encoder {
    var buf: seq<byte>

    constructor ()
      ensures buf == []
    {
      buf := [];
    }

    method PutInt(v: int)
      requires Fits(Int(v))
      modifies this
      ensures buf == old(buf) + Encoded(Int(v))
    {
      buf := buf + Bytes(Unsigned(v, 4), 4);
    }

    method PutUint(n: nat)
      requires Fits(Uint(n))
      modifies this
      ensures buf == old(buf) + Encoded(Uint(n))
    {
      buf := buf + Bytes(n, 4);
    }

    method PutLong(v: int)
      requires Fits(Long(v))
      modifies this
      ensures buf == old(buf) + Encoded(Long(v))
    {
      buf := buf + Bytes(Unsigned(v, 8), 8);
    }

    method PutByte(b: byte)
      modifies this
      ensures buf == old(buf) + Encoded(Byte(b))
    {
      buf := buf + [b];
    }

    method PutString(s: seq<byte>)
      requires Fits(Str(s))
      modifies this
      ensures buf == old(buf) + Encoded(Str(s))
    {
      buf := buf + (Bytes(|s|, 4) + s);
    }

    /** Any length: only its low byte is written. */
    method PutSmallString(s: seq<byte>)
      modifies this
      ensures buf == old(buf) + Encoded(Small(s))
    {
      buf := buf + ([|s| % 256] + s);
    }

    /** skip_int, skip_long, skip_byte: zeroed room, and where it is. */
    method Skip(width: nat) returns (pos: nat)
      modifies this
      ensures pos == |old(buf)| && buf == old(buf) + seq(width, _ => 0)
    {
      pos := |buf|;
      buf := buf + seq(width, _ => 0);
    }

    /** put_int_at, put_long_at, put_byte_at. */
    method PutAt(pos: nat, bs: seq<byte>)
      requires pos + |bs| <= |buf|
      modifies this
      ensures buf == Overwrite(old(buf), pos, bs)
    {
      buf := buf[..pos] + bs + buf[pos + |bs|..];
    }
  }

  /** What a caller does with an encoder: put a value, leave room for a number, fill room left earlier. */
  datatype Act = Put(i: Item) | Skip(k: Kind) | Fill(j: nat, i: Item)

  function Zero(k: Kind): (i: Item) {
    match k
    case KInt => Int(0)
    case KUint => Uint(0)
    case KLong => Long(0)
    case KByte => Byte(0)
    case KString => Str([])
    case KSmall => Small([])
  }

  predicate Fixed(k: Kind) { k == KInt || k == KLong || k == KByte }

  /** The values a decoder should find. */
  function Values(acts: seq<Act>): (items: seq<Item>) {
    if acts == [] then []
    else
      var before, a := Values(acts[..|acts| - 1]), acts[|acts| - 1];
      match a
      case Put(i) => before + [i]
      case Skip(k) => before + [Zero(k)]
      case Fill(j, i) => if j < |before| then before[j := i] else before
  }

  /** Values fit, only numbers are skipped, and room is filled with a number of its own kind. */
  predicate Sensible(acts: seq<Act>) {
    acts == [] ||
    (var p, a := acts[..|acts| - 1], acts[|acts| - 1];
     Sensible(p) && match a
                    case Put(i) => Fits(i)
                    case Skip(k) => Fixed(k)
                    case Fill(j, i) =>
                      j < |Values(p)| && KindOf(Values(p)[j]) == KindOf(i) && Fixed(KindOf(i)) && Fits(i))
  }

  function Width(k: Kind): (w: nat) {
    match k case KInt => 4 case KUint => 4 case KLong => 8 case _ => 1
  }

  lemma FixedWidth(i: Item)
    requires Fits(i) && Fixed(KindOf(i))
    ensures |Encoded(i)| == Width(KindOf(i))
  {
  }

  lemma {:induction false} ZeroBytes(w: nat)
    ensures Bytes(0, w) == seq(w, _ => 0)
  {
    if w > 0 {
      ZeroBytes(w - 1);
      assert [0] + seq(w - 1, _ => 0) == seq(w, _ => 0);
    }
  }

  lemma ZeroEncoded(k: Kind)
    requires Fixed(k)
    ensures Fits(Zero(k)) && Encoded(Zero(k)) == seq(Width(k), _ => 0)
  {
    ZeroBytes(4);
    ZeroBytes(8);
    if k == KByte { assert [0] == seq(1, _ => 0); }
  }

  lemma {:induction false} SensibleFits(acts: seq<Act>)
    requires Sensible(acts)
    ensures AllFit(Values(acts))
  {
    if acts != [] {
      var a := acts[|acts| - 1];
      SensibleFits(acts[..|acts| - 1]);
      if a.Skip? { ZeroEncoded(a.k); }
    }
  }

  method PutItem(e: Encoder, i: Item)
    requires Fits(i)
    modifies e
    ensures e.buf == old(e.buf) + Encoded(i)
  {
    match i
    case Int(v) => e.PutInt(v);
    case Uint(n) => e.PutUint(n);
    case Long(v) => e.PutLong(v);
    case Byte(b) => e.PutByte(b);
    case Str(s) => e.PutString(s);
    case Small(s) => e.PutSmallString(s);
  }

  /** One action of the caller. */
  method Act1(e: Encoder, ghost before: seq<Act>, a: Act, slots: seq<nat>) returns (slots': seq<nat>)
    requires Sensible(before + [a]) && e.buf == EncodedAll(Values(before))
    requires Located(slots, Values(before))
    modifies e
    ensures e.buf == EncodedAll(Values(before + [a])) && Located(slots', Values(before + [a]))
  {
    ghost var items := Values(before);
    assert (before + [a])[..|before|] == before;
    SensibleFits(before);
    var pos := |e.buf|;
    match a
    case Put(i) =>
      AppendOne(items, i);
      PutItem(e, i);
      slots' := slots + [pos];
      OffsetsGrow(items, i, slots);
    case Skip(k) =>
      ZeroEncoded(k);
      AppendOne(items, Zero(k));
      pos := e.Skip(Width(k));
      slots' := slots + [pos];
      OffsetsGrow(items, Zero(k), slots);
    case Fill(j, i) =>
      FixedWidth(i);
      FixedWidth(items[j]);
      FillReplaces(items, j, i);
      e.PutAt(slots[j], Encoded(i));
      slots' := slots;
      OffsetsStay(items, j, i);
  }

  lemma OffsetsGrow(items: seq<Item>, i: Item, slots: seq<nat>)
    requires |slots| == |items| && forall j | 0 <= j < |slots| :: slots[j] == Offset(items, j)
    ensures forall j | 0 <= j < |slots| + 1 :: (slots + [|EncodedAll(items)|])[j] == Offset(items + [i], j)
  {
    forall j | 0 <= j < |slots| + 1 ensures (slots + [|EncodedAll(items)|])[j] == Offset(items + [i], j) {
      if j < |items| {
        assert (items + [i])[..j] == items[..j];
      } else {
        assert (items + [i])[..j] == items;
      }
    }
  }

  lemma OffsetsStay(items: seq<Item>, j: nat, i: Item)
    requires j < |items| && |Encoded(i)| == |Encoded(items[j])|
    ensures forall n | 0 <= n < |items| :: Offset(items[j := i], n) == Offset(items, n)
  {
    forall n | 0 <= n < |items| ensures Offset(items[j := i], n) == Offset(items, n) {
      if n <= j {
        assert items[j := i][..n] == items[..n];
      } else {
        assert items[j := i][..n] == items[..n][j := i];
        FillReplaces(items[..n], j, i);
      }
    }
  }

  /** Where every value begins. */
  ghost predicate Located(slots: seq<nat>, items: seq<Item>) {
    |slots| == |items| && forall j | 0 <= j < |slots| :: slots[j] == Offset(items, j)
  }

  /** Whatever is put, skipped and filled: the buffer is the encoding of the final values. */
  method Write(acts: seq<Act>) returns (buf: seq<byte>)
    requires Sensible(acts)
    ensures buf == EncodedAll(Values(acts))
  {
    var e := new Encoder();
    var slots: seq<nat> := [];
    var n := 0;
    assert acts[..0] == [];
    while n < |acts|
      invariant 0 <= n <= |acts|
      invariant e.buf == EncodedAll(Values(acts[..n]))
      invariant Located(slots, Values(acts[..n]))
    {
      SensiblePrefix(acts, n + 1);
      assert acts[..n + 1] == acts[..n] + [acts[n]];
      slots := Act1(e, acts[..n], acts[n], slots);
      n := n + 1;
    }
    assert acts[..n] == acts;
    buf := e.buf;
  }

  /** Decoding what was written, in the same order, gives the values back and uses up the buffer. */
  lemma WrittenBack(acts: seq<Act>)
    requires Sensible(acts)
    ensures DecodedAll(Kinds(Values(acts)), EncodedAll(Values(acts))) == Some((Values(acts), []))
  {
    SensibleFits(acts);
    AllBack(Values(acts), []);
    assert EncodedAll(Values(acts)) + [] == EncodedAll(Values(acts));
  }

  lemma {:induction false} SensiblePrefix(acts: seq<Act>, n: nat)
    requires Sensible(acts) && n <= |acts|
    ensures Sensible(acts[..n])
  {
    if n == |acts| {
      assert acts[..n] == acts;
    } else {
      SensiblePrefix(acts[..|acts| - 1], n);
      assert acts[..|acts| - 1][..n] == acts[..n];
    }
  }

  class Decoder {
    var data: seq<byte>           // what lies between the two pointers

    constructor (data: seq<byte>)
      ensures this.data == data
    {
      this.data := data;
    }

    method GetByte() returns (b: byte)
      requires data != []
      modifies this
      ensures Decoded(KByte, old(data)) == Some((Byte(b), data))
    {
      b := data[0];
      data := data[1..];
    }

    method GetUint() returns (n: nat)
      requires |data| >= 4
      modifies this
      ensures Decoded(KUint, old(data)) == Some((Uint(n), data))
    {
      n := Number(data[..4]);
      data := data[4..];
    }

    method GetInt() returns (v: int)
      requires |data| >= 4
      modifies this
      ensures Decoded(KInt, old(data)) == Some((Int(v), data))
    {
      v := Signed(Number(data[..4]), 4);
      data := data[4..];
    }

    method GetLong() returns (v: int)
      requires |data| >= 8
      modifies this
      ensures Decoded(KLong, old(data)) == Some((Long(v), data))
    {
      v := Signed(Number(data[..8]), 8);
      data := data[8..];
    }

    method GetString() returns (s: seq<byte>)
      requires Decoded(KString, data).Some?
      modifies this
      ensures Decoded(KString, old(data)) == Some((Str(s), data))
    {
      var len := GetInt();
      s := data[..len];
      assert s == old(data)[4..4 + len] && data[len..] == old(data)[4 + len..];
      data := data[len..];
    }

    method GetSmallString() returns (s: seq<byte>)
      requires Decoded(KSmall, data).Some?
      modifies this
      ensures Decoded(KSmall, old(data)) == Some((Small(s), data))
    {
      var len := GetByte();
      s := data[..len];
      assert s == old(data)[1..1 + len] && data[len..] == old(data)[1 + len..];
      data := data[len..];
    }

    /** Everything that is left. */
    method GetBytes() returns (s: seq<byte>)
      modifies this
      ensures s == old(data) && data == []
    {
      s := data;
      data := [];
    }
  }
}
