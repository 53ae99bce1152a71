/** Fixed-width integers as bytes. */
module Endian {
  import opened Checked

  function Pow256(n: nat): (p: nat)
    ensures p > 0
  {
    if n == 0 then 1 else 256 * Pow256(n - 1)
  }

  /** The `n` low-order bytes of `v`, least significant first. */
  function Little(v: nat, n: nat): (s: seq<byte>)
    ensures |s| == n
  {
    if n == 0 then [] else [v % 256] + Little(v / 256, n - 1)
  }

  function FromLittle(s: seq<byte>): (v: nat)
    ensures v < Pow256(|s|)
  {
    if s == [] then 0 else s[0] + 256 * FromLittle(s[1..])
  }

  lemma {:induction false} LittleRoundTrip(v: nat, n: nat)
    requires v < Pow256(n)
    ensures FromLittle(Little(v, n)) == v
  {
    if n > 0 {
      assert Little(v, n)[1..] == Little(v / 256, n - 1);
      LittleRoundTrip(v / 256, n - 1);
    }
  }

  lemma {:induction false} FromLittleRoundTrip(s: seq<byte>)
    ensures Little(FromLittle(s), |s|) == s
  {
    if s != [] {
      FromLittleRoundTrip(s[1..]);
      assert s == [s[0]] + s[1..];
    }
  }

  /** Shifting by 8 * i and masking selects byte `i`, so a byte loop produces `Little`. */
  lemma {:induction false} LittleDigit(v: nat, i: nat)
    ensures Little(v, i + 1) == Little(v, i) + [v / Pow256(i) % 256]
  {
    if i == 0 {
      assert Little(v / 256, 0) == [];
    } else {
      LittleDigit(v / 256, i - 1);
      NestedDivision(v, 256, Pow256(i - 1));
    }
  }

  lemma NestedDivision(v: nat, a: nat, b: nat)
    requires a > 0 && b > 0
    ensures a * b > 0 && v / (a * b) == v / a / b
  {
    var q := v / a / b;
    MulMono(1, a, b);
    DivModIdentity(v, a);
    DivModIdentity(v / a, b);
    MulMono(v / a % b, b - 1, a);
    assert v == q * (a * b) + (v / a % b * a + v % a) by {
      assert v / a * a == q * b * a + v / a % b * a;
    }
    DivisionUnique(v, a * b, q, v / a % b * a + v % a);
  }

  lemma Widths()
    ensures Pow256(4) == 0x1_0000_0000 && Pow256(8) == U64_LIMIT
  {
    assert Pow256(4) == 0x1_0000_0000;
    assert Pow256(8) == 256 * (256 * (256 * (256 * Pow256(4))));
  }
}

/** The bounded little-endian wire format (include/oversub/bytes.hpp) as a small schema language:
    what a writer emits for a value and what a bounds-checking reader accepts. */
module Wire {
  import opened Checked
  import opened Endian

  type Digest = d: seq<byte> | |d| == 32 witness seq(32, _ => 0)

  type HashFunction = seq<byte> -> Digest

  function ZeroDigest(): Digest { seq(32, _ => 0) }

  datatype Shape =
    | Bool
    | Word32
    | Word64
    | Text(maxLength: u32)
    | Hash
    | Record(parts: seq<Shape>)
    | Table(maxCount: u64, item: Shape)   // a count, then that many items
    | Framed(item: Shape)                 // a byte length, then one item of exactly that length

  datatype Value =
    | BoolV(b: bool)
    | Word32V(w: u32)
    | Word64V(d: u64)
    | TextV(text: seq<byte>)
    | HashV(hash: Digest)
    | RecordV(parts: seq<Value>)
    | TableV(items: seq<Value>)
    | FramedV(item: Value)

  /** `v` has the given shape and stays within the bounds that shape declares. */
  predicate Fits(shape: Shape, v: Value)
    decreases shape, 0
  {
    match (shape, v)
    case (Bool, BoolV(_)) => true
    case (Word32, Word32V(_)) => true
    case (Word64, Word64V(_)) => true
    case (Text(max), TextV(text)) => |text| <= max
    case (Hash, HashV(_)) => true
    case (Record(shapes), RecordV(parts)) => FitsAll(shapes, parts)
    case (Table(max, item), TableV(items)) => |items| <= max && FitsEach(item, items)
    case (Framed(item), FramedV(inner)) => Fits(item, inner) && |Encode(inner)| < U64_LIMIT
    case _ => false
  }

  predicate FitsAll(shapes: seq<Shape>, parts: seq<Value>)
    decreases shapes, 0
  {
    |shapes| == |parts| && forall i :: 0 <= i < |shapes| ==> Fits(shapes[i], parts[i])
  }

  predicate FitsEach(item: Shape, vs: seq<Value>)
    decreases item, 1
  {
    forall i :: 0 <= i < |vs| ==> Fits(item, vs[i])
  }

  function Encode(v: Value): (s: seq<byte>)
    decreases v, 0
  {
    match v
    case BoolV(b) => [if b then 1 else 0]
    case Word32V(w) => Little(w, 4)
    case Word64V(d) => Little(d, 8)
    case TextV(text) => Little(|text|, 4) + text
    case HashV(hash) => hash
    case RecordV(parts) => EncodeAll(parts)
    case TableV(items) => Little(|items|, 8) + EncodeAll(items)
    case FramedV(item) => Little(|Encode(item)|, 8) + Encode(item)
  }

  function EncodeAll(vs: seq<Value>): seq<byte>
    decreases vs, 0
  {
    if vs == [] then [] else Encode(vs[0]) + EncodeAll(vs[1..])
  }

  /** What a reader makes of the front of `s`: the value and the bytes left over. */
  datatype Parsed<T> = Malformed | Read(value: T, rest: seq<byte>)

  function Take(s: seq<byte>, n: nat): (p: Parsed<seq<byte>>)
    ensures p.Read? ==> s == p.value + p.rest && |p.value| == n
    ensures p.Read? <==> n <= |s|
  {
    if n <= |s| then Read(s[..n], s[n..]) else Malformed
  }

  function TakeWord(s: seq<byte>, width: nat): (p: Parsed<nat>)
    ensures p.Read? ==> p.value < Pow256(width) && s == Little(p.value, width) + p.rest
  {
    match Take(s, width)
    case Malformed => Malformed
    case Read(b, rest) => FromLittleRoundTrip(b); Read(FromLittle(b), rest)
  }

  /** A length, checked against a bound, then that many bytes. */
  function TakeBlob(width: nat, max: nat, s: seq<byte>): (p: Parsed<seq<byte>>)
    ensures p.Read? ==> |p.value| <= max && |p.value| < Pow256(width)
    ensures p.Read? ==> s == Little(|p.value|, width) + p.value + p.rest
  {
    match TakeWord(s, width)
    case Malformed => Malformed
    case Read(n, rest) => if n > max then Malformed else Take(rest, n)
  }

  function Decode(shape: Shape, s: seq<byte>): (p: Parsed<Value>)
    decreases shape, 0, 0
  {
    match shape
    case Bool =>
      (match Take(s, 1)
       case Malformed => Malformed
       case Read(b, rest) => Read(BoolV(b[0] != 0), rest))
    case Word32 =>
      (match TakeWord(s, 4)
       case Malformed => Malformed
       case Read(w, rest) => Widths(); Read(Word32V(w), rest))
    case Word64 =>
      (match TakeWord(s, 8)
       case Malformed => Malformed
       case Read(w, rest) => Widths(); Read(Word64V(w), rest))
    case Text(max) =>
      (match TakeBlob(4, max, s)
       case Malformed => Malformed
       case Read(text, rest) => Read(TextV(text), rest))
    case Hash =>
      (match Take(s, 32)
       case Malformed => Malformed
       case Read(d, rest) => Read(HashV(d), rest))
    case Record(parts) =>
      (match DecodeAll(parts, s)
       case Malformed => Malformed
       case Read(vs, rest) => Read(RecordV(vs), rest))
    case Table(max, item) =>
      (match TakeWord(s, 8)
       case Malformed => Malformed
       case Read(n, rest) =>
         if n > max then Malformed else
         match DecodeMany(item, n, rest)
         case Malformed => Malformed
         case Read(vs, rest') => Read(TableV(vs), rest'))
    case Framed(item) =>
      (match TakeBlob(8, U64_LIMIT - 1, s)
       case Malformed => Malformed
       case Read(frame, rest) =>
         match Decode(item, frame)
         case Malformed => Malformed
         case Read(v, left) => if left == [] then Read(FramedV(v), rest) else Malformed)
  }

  function DecodeAll(shapes: seq<Shape>, s: seq<byte>): (p: Parsed<seq<Value>>)
    decreases shapes, 0, 0
  {
    if shapes == [] then Read([], s) else
    match Decode(shapes[0], s)
    case Malformed => Malformed
    case Read(v, rest) =>
      match DecodeAll(shapes[1..], rest)
      case Malformed => Malformed
      case Read(vs, rest') => Read([v] + vs, rest')
  }

  function DecodeMany(item: Shape, n: nat, s: seq<byte>): (p: Parsed<seq<Value>>)
    decreases item, 1, n
  {
    if n == 0 then Read([], s) else
    match Decode(item, s)
    case Malformed => Malformed
    case Read(v, rest) =>
      match DecodeMany(item, n - 1, rest)
      case Malformed => Malformed
      case Read(vs, rest') => Read([v] + vs, rest')
  }

  // ------------------------------------------------------------ round trips

  lemma TakeWordLittle(v: nat, width: nat, post: seq<byte>)
    requires v < Pow256(width)
    ensures TakeWord(Little(v, width) + post, width) == Read(v, post)
  {
    var s := Little(v, width) + post;
    assert s[..width] == Little(v, width) && s[width..] == post;
    LittleRoundTrip(v, width);
  }

  lemma TakePrefix(a: seq<byte>, post: seq<byte>)
    ensures Take(a + post, |a|) == Read(a, post)
  {
    assert (a + post)[..|a|] == a && (a + post)[|a|..] == post;
  }

  /** Reading back what was written yields the value and leaves exactly what followed it. */
  lemma {:induction false} DecodeEncode(shape: Shape, v: Value, post: seq<byte>)
    requires Fits(shape, v)
    ensures Decode(shape, Encode(v) + post) == Read(v, post)
    decreases shape, 0, 0
  {
    match v
    case RecordV(parts) => DecodeEncodeAll(shape.parts, parts, post);
    case TableV(items) =>
      Widths();
      assert Encode(v) + post == Little(|items|, 8) + (EncodeAll(items) + post);
      TakeWordLittle(|items|, 8, EncodeAll(items) + post);
      DecodeEncodeMany(shape.item, items, post);
    case FramedV(item) =>
      Widths();
      assert Encode(item) + [] == Encode(item);
      DecodeEncode(shape.item, item, []);
      TakeBlobLittle(8, U64_LIMIT - 1, Encode(item), post);
    case _ => DecodeEncodeLeaf(shape, v, post);
  }

  lemma TakeBlobLittle(width: nat, max: nat, body: seq<byte>, post: seq<byte>)
    requires |body| <= max && |body| < Pow256(width)
    ensures TakeBlob(width, max, Little(|body|, width) + body + post) == Read(body, post)
  {
    assert Little(|body|, width) + body + post == Little(|body|, width) + (body + post);
    TakeWordLittle(|body|, width, body + post);
    TakePrefix(body, post);
  }

  lemma DecodeEncodeLeaf(shape: Shape, v: Value, post: seq<byte>)
    requires Fits(shape, v) && !shape.Record? && !shape.Table? && !shape.Framed?
    ensures Decode(shape, Encode(v) + post) == Read(v, post)
  {
    Widths();
    match v
    case BoolV(b) => TakePrefix(Encode(v), post);
    case Word32V(w) => TakeWordLittle(w, 4, post);
    case Word64V(d) => TakeWordLittle(d, 8, post);
    case TextV(text) => TakeBlobLittle(4, shape.maxLength, text, post);
    case HashV(hash) => TakePrefix(hash, post);
  }

  lemma {:induction false} DecodeEncodeAll(shapes: seq<Shape>, parts: seq<Value>, post: seq<byte>)
    requires FitsAll(shapes, parts)
    ensures DecodeAll(shapes, EncodeAll(parts) + post) == Read(parts, post)
    decreases shapes, 0, 0
  {
    hide Encode, Decode;
    if parts == [] {
      assert EncodeAll(parts) + post == post;
    } else {
      assert EncodeAll(parts) + post == Encode(parts[0]) + (EncodeAll(parts[1..]) + post);
      DecodeEncode(shapes[0], parts[0], EncodeAll(parts[1..]) + post);
      DecodeEncodeAll(shapes[1..], parts[1..], post);
      assert parts == [parts[0]] + parts[1..];
    }
  }

  lemma {:induction false} DecodeEncodeMany(item: Shape, parts: seq<Value>, post: seq<byte>)
    requires FitsEach(item, parts)
    ensures DecodeMany(item, |parts|, EncodeAll(parts) + post) == Read(parts, post)
    decreases item, 1, |parts|
  {
    hide Encode, Decode;
    if parts == [] {
      assert EncodeAll(parts) + post == post;
    } else {
      assert EncodeAll(parts) + post == Encode(parts[0]) + (EncodeAll(parts[1..]) + post);
      DecodeEncode(item, parts[0], EncodeAll(parts[1..]) + post);
      DecodeEncodeMany(item, parts[1..], post);
      assert parts == [parts[0]] + parts[1..];
    }
  }

  // ------------------------------------------- what the reader accepts

  /** `raw` re-encodes to `canonical`: only non-zero boolean bytes are rewritten, to 1. */
  predicate Normalises(raw: seq<byte>, canonical: seq<byte>) {
    && |raw| == |canonical|
    && forall i :: 0 <= i < |raw| ==> raw[i] == canonical[i] || (canonical[i] == 1 && raw[i] != 0)
  }

  /** `s` is something that re-encodes to `canonical`, followed by `rest`. */
  ghost predicate Consumes(s: seq<byte>, canonical: seq<byte>, rest: seq<byte>) {
    exists raw :: s == raw + rest && Normalises(raw, canonical)
  }

  lemma NormalisesConcat(a: seq<byte>, b: seq<byte>, a': seq<byte>, b': seq<byte>)
    requires Normalises(a, a') && Normalises(b, b')
    ensures Normalises(a + b, a' + b')
  {
  }

  /** Everything the reader accepts is in bounds and re-encodes to bytes of the same length that
      differ only where a boolean was written as a byte above 1. */
  lemma {:induction false} DecodeSound(shape: Shape, s: seq<byte>)
    requires Decode(shape, s).Read?
    ensures var p := Decode(shape, s); Fits(shape, p.value) && Consumes(s, Encode(p.value), p.rest)
    decreases shape, 0, 0
  {
    var p := Decode(shape, s);
    match shape
    case Record(parts) => DecodeAllSound(parts, s);
    case Table(max, item) =>
      var n := TakeWord(s, 8);
      DecodeManySound(item, n.value, n.rest);
      ConsumesJoin(s, n.rest, p.rest, Little(n.value, 8), EncodeAll(p.value.items));
    case Framed(item) =>
      Widths();
      var blob := TakeBlob(8, U64_LIMIT - 1, s);
      var frame := blob.value;
      DecodeSound(item, frame);
      var raw :| frame == raw + [] && Normalises(raw, Encode(p.value.item));
      assert frame == raw;
      NormalisesConcat(Little(|frame|, 8), frame, Little(|frame|, 8), Encode(p.value.item));
      ConsumesRaw(s, Little(|frame|, 8) + frame, Encode(p.value), p.rest);
    case _ => DecodeLeafSound(shape, s);
  }

  lemma DecodeLeafSound(shape: Shape, s: seq<byte>)
    requires Decode(shape, s).Read? && !shape.Record? && !shape.Table? && !shape.Framed?
    ensures var p := Decode(shape, s); Fits(shape, p.value) && Consumes(s, Encode(p.value), p.rest)
  {
    Widths();
    var p := Decode(shape, s);
    if shape.Bool? {
      ConsumesRaw(s, Take(s, 1).value, Encode(p.value), p.rest);
    } else {
      ConsumesRaw(s, Encode(p.value), Encode(p.value), p.rest);
    }
  }

  lemma ConsumesRaw(s: seq<byte>, raw: seq<byte>, canonical: seq<byte>, rest: seq<byte>)
    requires s == raw + rest && Normalises(raw, canonical)
    ensures Consumes(s, canonical, rest)
  {
  }

  lemma FitsCons(shapes: seq<Shape>, v: Value, vs: seq<Value>)
    requires shapes != [] && Fits(shapes[0], v) && FitsAll(shapes[1..], vs)
    ensures FitsAll(shapes, [v] + vs)
  {
    forall i | 0 <= i < |shapes| ensures Fits(shapes[i], ([v] + vs)[i]) {
      if i > 0 {
        assert shapes[i] == shapes[1..][i - 1];
      }
    }
  }

  lemma {:induction false} DecodeAllSound(shapes: seq<Shape>, s: seq<byte>)
    requires DecodeAll(shapes, s).Read?
    ensures var p := DecodeAll(shapes, s);
            && FitsAll(shapes, p.value)
            && Consumes(s, EncodeAll(p.value), p.rest)
    decreases shapes, 0, 0
  {
    hide Encode, Decode, Normalises;
    if shapes == [] {
      ConsumesNothing(s);
    } else {
      var h := Decode(shapes[0], s);
      DecodeSound(shapes[0], s);
      DecodeAllSound(shapes[1..], h.rest);
      var t := DecodeAll(shapes[1..], h.rest);
      FitsCons(shapes, h.value, t.value);
      ConsumesJoin(s, h.rest, t.rest, Encode(h.value), EncodeAll(t.value));
      assert ([h.value] + t.value)[1..] == t.value;
    }
  }

  lemma {:induction false} DecodeManySound(item: Shape, n: nat, s: seq<byte>)
    requires DecodeMany(item, n, s).Read?
    ensures var p := DecodeMany(item, n, s);
            && |p.value| == n && FitsEach(item, p.value)
            && Consumes(s, EncodeAll(p.value), p.rest)
    decreases item, 1, n
  {
    hide Encode, Decode, Normalises;
    if n == 0 {
      ConsumesNothing(s);
    } else {
      var h := Decode(item, s);
      DecodeSound(item, s);
      DecodeManySound(item, n - 1, h.rest);
      var t := DecodeMany(item, n - 1, h.rest);
      FitsEachCons(item, h.value, t.value);
      ConsumesJoin(s, h.rest, t.rest, Encode(h.value), EncodeAll(t.value));
      assert ([h.value] + t.value)[1..] == t.value;
    }
  }

  lemma FitsEachCons(item: Shape, v: Value, vs: seq<Value>)
    requires Fits(item, v) && FitsEach(item, vs)
    ensures FitsEach(item, [v] + vs)
  {
  }

  lemma ConsumesNothing(s: seq<byte>)
    ensures Consumes(s, [], s)
  {
    ConsumesRaw(s, [], [], s);
  }

  lemma ConsumesJoin(s: seq<byte>, mid: seq<byte>, rest: seq<byte>, a: seq<byte>, b: seq<byte>)
    requires Consumes(s, a, mid) && Consumes(mid, b, rest)
    ensures Consumes(s, a + b, rest)
  {
    var x :| s == x + mid && Normalises(x, a);
    var y :| mid == y + rest && Normalises(y, b);
    assert s == x + y + rest;
    NormalisesConcat(x, y, a, b);
  }

  // --------------------------------------------------- field after field

  /** Reading one more field after some others. */
  lemma {:induction false} DecodeSnoc(shapes: seq<Shape>, shape: Shape, s: seq<byte>)
    ensures DecodeAll(shapes + [shape], s)
            == match DecodeAll(shapes, s)
               case Malformed => Malformed
               case Read(vs, rest) =>
                 match Decode(shape, rest)
                 case Malformed => Malformed
                 case Read(v, rest') => Read(vs + [v], rest')
  {
    hide Decode;
    if shapes == [] {
      assert (shapes + [shape])[1..] == [] && (shapes + [shape])[0] == shape;
      if Decode(shape, s).Read? {
        assert [Decode(shape, s).value] + [] == [] + [Decode(shape, s).value];
      }
    } else {
      assert (shapes + [shape])[1..] == shapes[1..] + [shape] && (shapes + [shape])[0] == shapes[0];
      var head := Decode(shapes[0], s);
      if head.Read? {
        DecodeSnoc(shapes[1..], shape, head.rest);
        var init := DecodeAll(shapes[1..], head.rest);
        if init.Read? && Decode(shape, init.rest).Read? {
          var v := Decode(shape, init.rest).value;
          assert [head.value] + (init.value + [v]) == [head.value] + init.value + [v];
        }
      }
    }
  }

  /** Once some field is malformed, so is everything that starts with it. */
  lemma {:induction false} MalformedPrefix(shapes: seq<Shape>, more: seq<Shape>, s: seq<byte>)
    requires DecodeAll(shapes, s).Malformed?
    ensures DecodeAll(shapes + more, s).Malformed?
    decreases |more|
  {
    if more == [] {
      assert shapes + more == shapes;
    } else {
      DecodeSnoc(shapes, more[0], s);
      MalformedPrefix(shapes + [more[0]], more[1..], s);
      assert shapes + [more[0]] + more[1..] == shapes + more;
    }
  }

  /** A count above the bound stops the reader. */
  lemma CountRefused(max: u64, item: Shape, items: seq<Value>, post: seq<byte>)
    requires max < |items| < U64_LIMIT
    ensures Decode(Table(max, item), Encode(TableV(items)) + post) == Malformed
  {
    Widths();
    assert Encode(TableV(items)) + post == Little(|items|, 8) + (EncodeAll(items) + post);
    TakeWordLittle(|items|, 8, EncodeAll(items) + post);
  }
}
