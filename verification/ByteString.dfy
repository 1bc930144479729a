/** The manifest's byte strings, and the probe's preview of a response in the same notation. */
module ByteString {
  import opened Wrappers

  type Byte = b: int | 0 <= b < 256

  datatype Error = HexDigits | Escape | Character

  const BACKSLASH: Byte := 92
  const PREVIEW_LEN: nat := 24

  // ----- characters

  /** The value of a hexadecimal digit of either case. */
  function DigitOf(c: char): (r: Option<nat>)
    ensures r.Some? ==> r.value < 16
  {
    if '0' <= c <= '9' then Some(c as int - '0' as int)
    else if 'a' <= c <= 'f' then Some(c as int - 'a' as int + 10)
    else if 'A' <= c <= 'F' then Some(c as int - 'A' as int + 10)
    else None
  }

  /** The lower-case digit of a value. */
  function HexDigit(n: nat): char
    requires n < 16
  {
    if n < 10 then ('0' as int + n) as char else ('a' as int + (n - 10)) as char
  }

  lemma DigitRoundTrip(n: nat)
    requires n < 16
    ensures DigitOf(HexDigit(n)) == Some(n)
  {
  }

  predicate Printable(c: char) {
    ' ' <= c <= '~'
  }

  // ----- the notation

  /** A piece of source text that stands for one byte. */
  datatype Token = Verbatim(c: char) | Backslash | Hex(high: char, low: char)

  predicate Valid(t: Token) {
    match t
    case Verbatim(c) => Printable(c) && c != '\\'
    case Backslash => true
    case Hex(high, low) => DigitOf(high).Some? && DigitOf(low).Some?
  }

  function Text(t: Token): string {
    match t
    case Verbatim(c) => [c]
    case Backslash => ['\\', '\\']
    case Hex(high, low) => ['\\', 'x', high, low]
  }

  function Value(t: Token): Byte
    requires Valid(t)
  {
    match t
    case Verbatim(c) => c as int
    case Backslash => BACKSLASH
    case Hex(high, low) => DigitOf(high).value * 16 + DigitOf(low).value
  }

  predicate AllValid(ts: seq<Token>) {
    forall i :: 0 <= i < |ts| ==> Valid(ts[i])
  }

  function Texts(ts: seq<Token>): string {
    if ts == [] then "" else Text(ts[0]) + Texts(ts[1..])
  }

  function Values(ts: seq<Token>): (r: seq<Byte>)
    requires AllValid(ts)
    ensures |r| == |ts|
  {
    if ts == [] then [] else [Value(ts[0])] + Values(ts[1..])
  }

  // ----- decoding

  function Prepend(front: seq<Byte>, r: Result<seq<Byte>, Error>): Result<seq<Byte>, Error> {
    match r
    case Success(rest) => Success(front + rest)
    case Failure(e) => Failure(e)
  }

  /** The next token of a text, or why there is none. */
  function Next(s: string): Result<Token, Error>
    requires s != []
  {
    if s[0] == '\\' then
      if |s| == 1 then Failure(Escape)
      else if s[1] == '\\' then Success(Backslash)
      else if s[1] == 'x' then
        if |s| >= 4 && DigitOf(s[2]).Some? && DigitOf(s[3]).Some? then Success(Hex(s[2], s[3])) else Failure(HexDigits)
      else Failure(Escape)
    else if Printable(s[0]) then Success(Verbatim(s[0]))
    else Failure(Character)
  }

  lemma NextIsThere(s: string)
    requires s != [] && Next(s).Success?
    ensures Valid(Next(s).value) && Text(Next(s).value) <= s && |Text(Next(s).value)| > 0
  {
  }

  function Decode(s: string): Result<seq<Byte>, Error> {
    if s == [] then Success([])
    else match Next(s)
      case Failure(e) => Failure(e)
      case Success(t) => NextIsThere(s); Prepend([Value(t)], Decode(s[|Text(t)|..]))
  }

  /** One token, or the error in its place. */
  lemma OneToken(s: string)
    requires s != []
    ensures Next(s).Failure? ==> Decode(s) == Failure(Next(s).error)
    ensures Next(s).Success? ==> Text(Next(s).value) <= s && Valid(Next(s).value)
    ensures Next(s).Success? ==> Decode(s) == Prepend([Value(Next(s).value)], Decode(s[|Text(Next(s).value)|..]))
  {
    if Next(s).Success? {
      NextIsThere(s);
    }
  }

  /** `decode_byte_string`. */
  method DecodeByteString(source: string) returns (r: Result<seq<Byte>, Error>)
    ensures r == Decode(source)
  {
    hide Decode, DigitOf;
    var bytes: seq<Byte> := [];
    var i := 0;
    PrependJoin([], [], Decode(source));
    assert source[0..] == source;
    while i < |source|
      invariant i <= |source|
      invariant Decode(source) == Prepend(bytes, Decode(source[i..]))
    {
      ghost var s := source[i..];
      OneToken(s);
      var c, next := source[i], i + 1;
      var byte: Byte;
      if c == '\\' {
        if next == |source| {
          return Failure(Escape);
        } else if source[next] == '\\' {
          byte, next := BACKSLASH, next + 1;
        } else if source[next] == 'x' {
          var high := if next + 1 < |source| then DigitOf(source[next + 1]) else None;
          var low := if next + 2 < |source| then DigitOf(source[next + 2]) else None;
          if high.None? || low.None? {
            return Failure(HexDigits);
          }
          byte, next := high.value * 16 + low.value, next + 3;
        } else {
          return Failure(Escape);
        }
      } else if ' ' <= c <= '~' {
        byte := c as int;
      } else {
        return Failure(Character);
      }
      assert s[next - i..] == source[next..];
      PrependJoin(bytes, [byte], Decode(source[next..]));
      bytes, i := bytes + [byte], next;
    }
    NothingLeft(source[i..]);
    assert bytes + [] == bytes;
    return Success(bytes);
  }

  lemma NothingLeft(s: string)
    requires s == []
    ensures Decode(s) == Success([])
  {
  }

  lemma PrependJoin(a: seq<Byte>, b: seq<Byte>, r: Result<seq<Byte>, Error>)
    ensures Prepend(a, Prepend(b, r)) == Prepend(a + b, r)
    ensures Prepend([], r) == r
  {
    if r.Success? {
      assert a + (b + r.value) == a + b + r.value && [] + r.value == r.value;
    }
  }

  /** Decoding a token and what follows it. */
  lemma DecodeToken(t: Token, rest: string)
    requires Valid(t)
    ensures Decode(Text(t) + rest) == Prepend([Value(t)], Decode(rest))
  {
    var s := Text(t) + rest;
    assert s[|Text(t)|..] == rest;
  }

  lemma {:induction false} DecodeTexts(ts: seq<Token>, rest: string)
    requires AllValid(ts)
    ensures Decode(Texts(ts) + rest) == Prepend(Values(ts), Decode(rest))
    decreases |ts|
  {
    if ts == [] {
      assert Texts(ts) + rest == rest;
      PrependJoin([], [], Decode(rest));
    } else {
      DecodeTexts(ts[1..], rest);
      assert Texts(ts) + rest == Text(ts[0]) + (Texts(ts[1..]) + rest);
      DecodeToken(ts[0], Texts(ts[1..]) + rest);
      PrependJoin([Value(ts[0])], Values(ts[1..]), Decode(rest));
    }
  }

  /** The tokens of a text that decodes. */
  function Tokens(s: string): (ts: seq<Token>)
    requires Decode(s).Success?
    ensures AllValid(ts)
    decreases |s|
  {
    if s == [] then []
    else
      NextIsThere(s);
      [Next(s).value] + Tokens(s[|Text(Next(s).value)|..])
  }

  lemma {:induction false} TokensOfText(s: string)
    requires Decode(s).Success?
    ensures Texts(Tokens(s)) == s && Values(Tokens(s)) == Decode(s).value
    decreases |s|
  {
    if s != [] {
      NextIsThere(s);
      var t := Next(s).value;
      TokensOfText(s[|Text(t)|..]);
      assert Tokens(s)[1..] == Tokens(s[|Text(t)|..]);
      assert s == Text(t) + s[|Text(t)|..];
    }
  }

  /** A text decodes to some bytes exactly when it is made of tokens that stand for them, one each. */
  lemma DecodeExactly(s: string, bytes: seq<Byte>)
    ensures Decode(s) == Success(bytes) <==> exists ts :: AllValid(ts) && Texts(ts) == s && Values(ts) == bytes
  {
    if Decode(s) == Success(bytes) {
      TokensOfText(s);
      assert AllValid(Tokens(s));
    }
    forall ts | AllValid(ts) && Texts(ts) == s && Values(ts) == bytes
      ensures Decode(s) == Success(bytes)
    {
      DecodeTexts(ts, "");
      assert Texts(ts) + "" == s && Values(ts) + [] == bytes;
    }
  }

  // ----- printing

  /** How the preview prints a byte. */
  function Shown(b: Byte): (t: Token)
    ensures Valid(t) && Value(t) == b
  {
    if 32 <= b <= 126 && b != BACKSLASH then Verbatim(b as char)
    else
      DigitRoundTrip(b / 16);
      DigitRoundTrip(b % 16);
      Hex(HexDigit(b / 16), HexDigit(b % 16))
  }

  function ShownAll(bytes: seq<Byte>): (ts: seq<Token>)
    ensures |ts| == |bytes| && forall i :: 0 <= i < |bytes| ==> ts[i] == Shown(bytes[i])
  {
    seq(|bytes|, i requires 0 <= i < |bytes| => Shown(bytes[i]))
  }

  function Preview(bytes: seq<Byte>): string {
    if |bytes| <= PREVIEW_LEN then Texts(ShownAll(bytes)) else Texts(ShownAll(bytes[..PREVIEW_LEN])) + "..."
  }

  lemma {:induction false} TextsAppend(ts: seq<Token>, t: Token)
    ensures Texts(ts + [t]) == Texts(ts) + Text(t)
    decreases |ts|
  {
    if ts == [] {
      assert ts + [t] == [t] && [t][1..] == [];
    } else {
      TextsAppend(ts[1..], t);
      assert (ts + [t])[1..] == ts[1..] + [t];
    }
  }

  lemma NothingShown()
    ensures Texts(ShownAll([])) == ""
  {
  }

  lemma ShownAppend(bytes: seq<Byte>, i: nat)
    requires i < |bytes|
    ensures Texts(ShownAll(bytes[..i + 1])) == Texts(ShownAll(bytes[..i])) + Text(Shown(bytes[i]))
  {
    assert ShownAll(bytes[..i + 1]) == ShownAll(bytes[..i]) + [Shown(bytes[i])];
    TextsAppend(ShownAll(bytes[..i]), Shown(bytes[i]));
  }

  /** `preview`. */
  method PreviewBytes(bytes: seq<Byte>) returns (out: string)
    ensures out == Preview(bytes)
  {
    hide Texts, ShownAll;
    out := "";
    NothingShown();
    var n := if |bytes| < PREVIEW_LEN then |bytes| else PREVIEW_LEN;
    assert bytes[..0] == [];
    for i := 0 to n
      invariant out == Texts(ShownAll(bytes[..i]))
    {
      var b := bytes[i];
      ShownAppend(bytes, i);
      if 32 <= b <= 126 && b != BACKSLASH {
        out := out + [b as char];
      } else {
        out := out + ['\\', 'x', HexDigit(b / 16), HexDigit(b % 16)];
      }
    }
    if |bytes| > PREVIEW_LEN {
      out := out + "...";
    } else {
      assert bytes[..n] == bytes;
    }
  }

  lemma {:induction false} ValuesOfShown(bytes: seq<Byte>)
    ensures AllValid(ShownAll(bytes)) && Values(ShownAll(bytes)) == bytes
    decreases |bytes|
  {
    if bytes != [] {
      ValuesOfShown(bytes[1..]);
      assert ShownAll(bytes)[1..] == ShownAll(bytes[1..]);
    }
  }

  /** Every string of bytes has a source text. */
  lemma EveryBytesHaveAText(bytes: seq<Byte>)
    ensures Decode(Texts(ShownAll(bytes))) == Success(bytes)
  {
    ValuesOfShown(bytes);
    DecodeTexts(ShownAll(bytes), "");
    assert Texts(ShownAll(bytes)) + "" == Texts(ShownAll(bytes)) && bytes + [] == bytes;
  }

  /** A preview decodes to the response, or to its first 24 bytes and three dots. */
  lemma PreviewRoundTrip(bytes: seq<Byte>)
    ensures |bytes| <= PREVIEW_LEN ==> Decode(Preview(bytes)) == Success(bytes)
    ensures |bytes| > PREVIEW_LEN ==> Decode(Preview(bytes)) == Success(bytes[..PREVIEW_LEN] + [46, 46, 46])
  {
    if |bytes| <= PREVIEW_LEN {
      EveryBytesHaveAText(bytes);
    } else {
      var front := bytes[..PREVIEW_LEN];
      ValuesOfShown(front);
      DecodeTexts(ShownAll(front), "...");
      ThreeDots();
    }
  }

  lemma ThreeDots()
    ensures Decode("...") == Success([46, 46, 46])
  {
    var dot := Verbatim('.');
    DecodeToken(dot, "..");
    DecodeToken(dot, ".");
    DecodeToken(dot, "");
    var one: seq<Byte> := [46];
    assert Value(dot) == 46 && Text(dot) == "." && Decode("") == Success([]);
    assert "." + "" == "." && one + [] == one;
    assert "." + "." == ".." && one + one == [46, 46];
    assert "." + ".." == "..." && one + [46, 46] == [46, 46, 46];
  }

  /** Two responses have one preview exactly when they are equal, or both are cut and begin alike. */
  lemma PreviewsTellApart(a: seq<Byte>, b: seq<Byte>)
    ensures Preview(a) == Preview(b) <==>
              a == b || (|a| > PREVIEW_LEN && |b| > PREVIEW_LEN && a[..PREVIEW_LEN] == b[..PREVIEW_LEN])
  {
    PreviewRoundTrip(a);
    PreviewRoundTrip(b);
    if |a| > PREVIEW_LEN && |b| > PREVIEW_LEN && Preview(a) == Preview(b) {
      var dots: seq<Byte> := [46, 46, 46];
      assert a[..PREVIEW_LEN] == (a[..PREVIEW_LEN] + dots)[..PREVIEW_LEN];
      assert b[..PREVIEW_LEN] == (b[..PREVIEW_LEN] + dots)[..PREVIEW_LEN];
    }
  }
}
