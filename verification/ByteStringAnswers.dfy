/** The byte-string notation character by character: its digits, its errors, and how a byte is printed. */
module ByteStringAnswers {
  import opened Wrappers
  import opened ByteString

  const LOWER: string := "0123456789abcdef"
  const UPPER: string := "0123456789ABCDEF"

  /** The hexadecimal digits and what they are worth. */
  lemma DigitExactly(c: char, v: nat)
    ensures DigitOf(c) == Some(v) <==> v < 16 && (c == LOWER[v] || c == UPPER[v])
  {
  }

  /** What makes a text stop decoding, and with which error. */
  predicate Stops(bad: string, e: Error) {
    match e
    case Character => bad != [] && bad[0] != '\\' && !(' ' <= bad[0] <= '~')
    case Escape => bad == "\\" || (|bad| > 1 && bad[0] == '\\' && bad[1] != '\\' && bad[1] != 'x')
    case HexDigits =>
      && |bad| > 1 && bad[0] == '\\' && bad[1] == 'x'
      && !(|bad| > 3 && (bad[2] in LOWER || bad[2] in UPPER) && (bad[3] in LOWER || bad[3] in UPPER))
  }

  lemma DigitIn(c: char)
    ensures DigitOf(c).Some? <==> c in LOWER || c in UPPER
  {
    if DigitOf(c).Some? {
      DigitExactly(c, DigitOf(c).value);
    }
    if c in LOWER {
      var v :| 0 <= v < |LOWER| && LOWER[v] == c;
      DigitExactly(c, v);
    } else if c in UPPER {
      var v :| 0 <= v < |UPPER| && UPPER[v] == c;
      DigitExactly(c, v);
    }
  }

  lemma NextFails(s: string, e: Error)
    requires s != []
    ensures Next(s) == Failure(e) <==> Stops(s, e)
  {
    if |s| > 3 {
      DigitIn(s[2]);
      DigitIn(s[3]);
    }
    hide DigitOf;
  }

  /** The tokens before the place where a text stops decoding, and what is left there. */
  lemma {:induction false} FindStop(s: string, e: Error) returns (ts: seq<Token>, bad: string)
    requires Decode(s) == Failure(e)
    ensures AllValid(ts) && s == Texts(ts) + bad && Stops(bad, e)
    decreases |s|
  {
    hide Decode, Next, Stops, Text, Texts, Value;
    if s == [] {
      NothingLeft(s);
    } else if Next(s).Failure? {
      OneToken(s);
      NextFails(s, e);
      ts, bad := [], s;
      NoTexts(bad);
    } else {
      OneToken(s);
      NextIsThere(s);
      var t := Next(s).value;
      var rest := s[|Text(t)|..];
      assert s == Text(t) + rest;
      var more, left := FindStop(rest, e);
      ts, bad := [t] + more, left;
      TextsPut(t, more, bad);
    }
  }

  lemma NoTexts(bad: string)
    ensures Texts([]) + bad == bad
  {
  }

  lemma TextsPut(t: Token, more: seq<Token>, bad: string)
    ensures Texts([t] + more) + bad == Text(t) + (Texts(more) + bad)
  {
    assert ([t] + more)[1..] == more;
  }

  /** A text fails with an error exactly when, after some tokens, it goes on with what that error is for. */
  lemma FailsExactly(s: string, e: Error)
    ensures Decode(s) == Failure(e) <==> exists ts, bad :: AllValid(ts) && s == Texts(ts) + bad && Stops(bad, e)
  {
    if Decode(s) == Failure(e) {
      var ts, bad := FindStop(s, e);
    }
    forall ts, bad | AllValid(ts) && s == Texts(ts) + bad && Stops(bad, e)
      ensures Decode(s) == Failure(e)
    {
      DecodeTexts(ts, bad);
      NextFails(bad, e);
    }
  }

  /** Two digits after `\\x` are the byte's upper and lower half. */
  lemma HexPair(v: nat, w: nat, high: char, low: char)
    requires v < 16 && w < 16 && (high == LOWER[v] || high == UPPER[v]) && (low == LOWER[w] || low == UPPER[w])
    ensures Decode(['\\', 'x', high, low]) == Success([16 * v + w])
  {
    DigitExactly(high, v);
    DigitExactly(low, w);
    var t := Hex(high, low);
    DecodeToken(t, "");
    assert Text(t) + "" == Text(t) && [Value(t)] + [] == [Value(t)];
  }

  /** What a byte is printed as: itself if it is printable and no backslash, else `\\x` and two lower-case digits. */
  lemma PreviewOfByte(b: Byte)
    ensures Preview([b]) == if 32 <= b <= 126 && b != 92 then [b as char] else ['\\', 'x', LOWER[b / 16], LOWER[b % 16]]
  {
    var ts := ShownAll([b]);
    assert ts == [Shown(b)] && ts[1..] == [];
    assert Texts(ts) == Text(Shown(b)) + Texts(ts[1..]);
    HexIsLower(b / 16);
    HexIsLower(b % 16);
  }

  lemma HexIsLower(n: nat)
    requires n < 16
    ensures HexDigit(n) == LOWER[n]
  {
  }

  /** A preview is its bytes' previews one after another, up to 24 of them, and three dots for what is cut. */
  lemma PreviewJoins(bytes: seq<Byte>)
    ensures 0 < |bytes| <= 24 ==> Preview(bytes) == Preview(bytes[..|bytes| - 1]) + Preview([bytes[|bytes| - 1]])
    ensures |bytes| > 24 ==> Preview(bytes) == Preview(bytes[..24]) + "..."
    ensures Preview([]) == ""
  {
    if 0 < |bytes| <= 24 {
      var n := |bytes| - 1;
      assert bytes[..n + 1] == bytes;
      ShownAppend(bytes, n);
      var ts := ShownAll([bytes[n]]);
      assert ts == [Shown(bytes[n])] && ts[1..] == [];
      assert Texts(ts) == Text(Shown(bytes[n])) + Texts(ts[1..]);
    }
    NothingShown();
  }
}
