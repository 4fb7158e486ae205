/**
 * A stand-in for `pickle`: Python values that calls pass and return, and a
 * prefix-free text encoding of them with a decoder that inverts it.
 */
module Pickle {
  import opened Outcomes
  import opened Decimal

  /** The Python values the model passes to and returns from memoized functions. */
  datatype Value =
    | NoneValue
    | BoolValue(b: bool)
    | IntValue(i: int)
    | StrValue(s: string)
    | SeqValue(items: seq<Value>)   // tuples and lists

  /** Python truthiness, as `if kwargs.pop(...)` tests it. */
  predicate Truthy(v: Value)
  {
    match v
    case NoneValue => false
    case BoolValue(b) => b
    case IntValue(i) => i != 0
    case StrValue(s) => s != ""
    case SeqValue(xs) => xs != []
  }

  /** `pickle.dumps(v)`. */
  function Encode(v: Value): string
    decreases v, 1
  {
    match v
    case NoneValue => "N"
    case BoolValue(b) => if b then "T" else "F"
    case IntValue(i) => "I" + IntToString(i) + ";"
    case StrValue(s) => "S" + NatToString(|s|) + ":" + s
    case SeqValue(xs) => "L" + NatToString(|xs|) + ":" + EncodeItems(v, 0)
  }

  /** The encodings of the items of `parent` from index `k` on, one after the other. */
  function EncodeItems(parent: Value, k: nat): string
    requires parent.SeqValue? && k <= |parent.items|
    decreases parent, 0, |parent.items| - k
  {
    if k == |parent.items| then "" else Encode(parent.items[k]) + EncodeItems(parent, k + 1)
  }

  /** Decodes one value from the front of `s`, returning it and the text after it. */
  function DecodePrefix(s: string): (r: Option<(Value, string)>)
    ensures r.Some? ==> |r.value.1| < |s|
    decreases |s|, 1
  {
    if s == [] then None
    else if s[0] == 'N' then Some((NoneValue, s[1..]))
    else if s[0] == 'T' then Some((BoolValue(true), s[1..]))
    else if s[0] == 'F' then Some((BoolValue(false), s[1..]))
    else if s[0] == 'I' then
      match ReadInt(s[1..])
      case None => None
      case Some((i, t)) => if t != [] && t[0] == ';' then Some((IntValue(i), t[1..])) else None
    else if s[0] == 'S' then
      match ReadNat(s[1..])
      case None => None
      case Some((n, t)) =>
        if t != [] && t[0] == ':' && n <= |t| - 1 then Some((StrValue(t[1..1 + n]), t[1 + n..])) else None
    else if s[0] == 'L' then
      match ReadNat(s[1..])
      case None => None
      case Some((n, t)) =>
        if t != [] && t[0] == ':' then
          match DecodeItems(t[1..], n)
          case None => None
          case Some((xs, u)) => Some((SeqValue(xs), u))
        else None
    else None
  }

  /** Decodes `n` values in a row from the front of `s`. */
  function DecodeItems(s: string, n: nat): (r: Option<(seq<Value>, string)>)
    ensures r.Some? ==> |r.value.1| <= |s| && |r.value.0| == n
    decreases |s|, 2, n
  {
    if n == 0 then Some(([], s))
    else
      match DecodePrefix(s)
      case None => None
      case Some((x, t)) =>
        match DecodeItems(t, n - 1)
        case None => None
        case Some((xs, u)) => Some(([x] + xs, u))
  }

  /** `pickle.loads(s)`: the whole string must be one encoded value. */
  function Decode(s: string): Option<Value>
  {
    match DecodePrefix(s)
    case Some((v, rest)) => if rest == [] then Some(v) else None
    case None => None
  }

  lemma {:induction false} DecodePrefixOf(v: Value, rest: string)
    ensures DecodePrefix(Encode(v) + rest) == Some((v, rest))
    decreases v, 1
  {
    var s := Encode(v) + rest;
    match v
    case NoneValue =>
      assert s[1..] == rest;
    case BoolValue(b) =>
      assert s[1..] == rest;
    case IntValue(i) =>
      DecodeIntOf(i, rest);
    case StrValue(str) =>
      DecodeStrOf(str, rest);
    case SeqValue(xs) =>
      DecodeItemsOf(v, 0, rest);
      assert xs[0..] == xs;
      DecodeSeqOf(v, rest);
  }

  lemma DecodeIntOf(i: int, rest: string)
    ensures DecodePrefix(Encode(IntValue(i)) + rest) == Some((IntValue(i), rest))
  {
    var s := Encode(IntValue(i)) + rest;
    assert s[0] == 'I';
    assert s[1..] == IntToString(i) + (";" + rest);
    ReadIntOf(i, ";" + rest);
  }

  lemma DecodeStrOf(str: string, rest: string)
    ensures DecodePrefix(Encode(StrValue(str)) + rest) == Some((StrValue(str), rest))
  {
    var s := Encode(StrValue(str)) + rest;
    var t := ":" + str + rest;
    assert s[0] == 'S';
    assert s[1..] == NatToString(|str|) + t;
    ReadNatOf(|str|, t);
    assert t[1..1 + |str|] == str;
    assert t[1 + |str|..] == rest;
  }

  lemma DecodeSeqOf(v: Value, rest: string)
    requires v.SeqValue?
    requires DecodeItems(EncodeItems(v, 0) + rest, |v.items|) == Some((v.items, rest))
    ensures DecodePrefix(Encode(v) + rest) == Some((v, rest))
  {
    var e := EncodeItems(v, 0);
    assert Encode(v) + rest == "L" + NatToString(|v.items|) + ":" + e + rest;
    DecodeListText(|v.items|, e, rest, v.items);
  }

  lemma DecodeListText(n: nat, e: string, rest: string, xs: seq<Value>)
    requires DecodeItems(e + rest, n) == Some((xs, rest))
    ensures DecodePrefix("L" + NatToString(n) + ":" + e + rest) == Some((SeqValue(xs), rest))
  {
    var t := ":" + (e + rest);
    assert "L" + NatToString(n) + ":" + e + rest == "L" + (NatToString(n) + t);
    ReadNatOf(n, t);
    ListPrefix(NatToString(n) + t, n, t, xs, rest);
  }

  /** A text with the list tag, a count and a ':' decodes as that many items. */
  lemma ListPrefix(s: string, n: nat, t: string, xs: seq<Value>, u: string)
    requires ReadNat(s) == Some((n, t))
    requires t != [] && t[0] == ':'
    requires DecodeItems(t[1..], n) == Some((xs, u))
    ensures DecodePrefix("L" + s) == Some((SeqValue(xs), u))
  {
    assert ("L" + s)[0] == 'L';
    assert ("L" + s)[1..] == s;
  }

  lemma {:induction false} DecodeItemsOf(parent: Value, k: nat, rest: string)
    requires parent.SeqValue? && k <= |parent.items|
    ensures DecodeItems(EncodeItems(parent, k) + rest, |parent.items| - k) == Some((parent.items[k..], rest))
    decreases parent, 0, |parent.items| - k
  {
    var xs := parent.items;
    if k == |xs| {
      assert EncodeItems(parent, k) + rest == rest;
      assert xs[k..] == [];
    } else {
      var head := Encode(xs[k]);
      var tail := EncodeItems(parent, k + 1);
      assert EncodeItems(parent, k) + rest == head + (tail + rest);
      DecodePrefixOf(xs[k], tail + rest);
      DecodeItemsOf(parent, k + 1, rest);
      assert [xs[k]] + xs[k + 1..] == xs[k..];
    }
  }

  /** `pickle.loads(pickle.dumps(v)) == v`. */
  lemma RoundTrip(v: Value)
    ensures Decode(Encode(v)) == Some(v)
  {
    DecodePrefixOf(v, []);
    assert Encode(v) + [] == Encode(v);
  }

  /** Equal encodings come from equal values: the encoding loses nothing. */
  lemma EncodeInjective(v: Value, w: Value)
    requires Encode(v) == Encode(w)
    ensures v == w
  {
    RoundTrip(v);
    RoundTrip(w);
  }
}
