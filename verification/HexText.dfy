/** Byte strings as hexadecimal text: printing, and the strict and the lenient reader. */
module HexText {
  import opened Wrappers
  import opened ByteCodec

  type Nibble = n: nat | n < 16

  function Digit(n: Nibble): char {
    if n < 10 then '0' + n as char else 'a' + (n - 10) as char
  }

  /** The value of a digit of either case. */
  function DigitValue(c: char): Option<Nibble> {
    if '0' <= c <= '9' then Some((c - '0') as nat)
    else if 'a' <= c <= 'f' then Some((c - 'a') as nat + 10)
    else if 'A' <= c <= 'F' then Some((c - 'A') as nat + 10)
    else None
  }

  /** The digits of either case, in the order of their values. */
  lemma DigitValueIs(c: char, n: Nibble)
    ensures DigitValue(c) == Some(n) <==> c == "0123456789abcdef"[n] || c == "0123456789ABCDEF"[n]
  {}

  ghost predicate AllHex(s: string) {
    forall c <- s :: DigitValue(c).Some?
  }

  /** The number a string of digits stands for. */
  ghost function HexValue(s: string): nat
    requires AllHex(s)
  {
    if s == "" then 0 else HexValue(s[..|s| - 1]) * 16 + DigitValue(s[|s| - 1]).value
  }

  function Encode(data: seq<Byte>): string {
    if data == [] then ""
    else
      var last := data[|data| - 1];
      Encode(data[..|data| - 1]) + [Digit(last / 16)] + [Digit(last % 16)]
  }

  /** The library's decoder: an even number of digits, and nothing else. */
  function Decode(s: string): Option<seq<Byte>> {
    if s == "" then Some([])
    else if |s| == 1 then None
    else Append(Decode(s[..|s| - 2]), DigitValue(s[|s| - 2]), DigitValue(s[|s| - 1]))
  }

  /** One more byte, if all its parts could be read. */
  function Append(init: Option<seq<Byte>>, high: Option<Nibble>, low: Option<Nibble>): Option<seq<Byte>> {
    if init.None? || high.None? || low.None? then None else Some(init.value + [high.value * 16 + low.value])
  }

  lemma DecodeByte(text: string, h: char, l: char)
    ensures Decode(text + [h] + [l]) == Append(Decode(text), DigitValue(h), DigitValue(l))
  {
    assert (text + [h] + [l])[..|text|] == text;
  }

  function StripPrefix(s: string): string {
    if |s| >= 2 && s[..2] == "0x" then s[2..] else s
  }

  function Display(data: seq<Byte>): string {
    "0x" + Encode(data)
  }

  /** The reader of plain byte strings. */
  function Strict(s: string): Option<seq<Byte>> {
    Decode(StripPrefix(s))
  }

  /** Exactly the even strings of digits are read, as half as many bytes of the same value. */
  ghost predicate ReadRight(s: string, r: Option<seq<Byte>>) {
    && (r.Some? <==> |s| % 2 == 0 && AllHex(s))
    && (r.Some? ==> 2 * |r.value| == |s| && BigEndian(r.value) == HexValue(s))
  }

  lemma {:induction false} DecodeIs(s: string)
    ensures ReadRight(s, Decode(s))
  {
    if |s| >= 2 {
      var init, high, low := s[..|s| - 2], s[|s| - 2], s[|s| - 1];
      DecodeIs(init);
      AppendIsRight(init, Decode(init), high, low);
      assert s == init + [high] + [low];
    }
  }

  lemma AppendIsRight(init: string, r: Option<seq<Byte>>, high: char, low: char)
    requires ReadRight(init, r)
    ensures ReadRight(init + [high] + [low], Append(r, DigitValue(high), DigitValue(low)))
  {
    TwoMoreDigits(init, high, low);
    if Append(r, DigitValue(high), DigitValue(low)).Some? {
      OneMoreByte(r.value, DigitValue(high).value * 16 + DigitValue(low).value);
    }
  }

  lemma OneMoreByte(data: seq<Byte>, b: Byte)
    ensures BigEndian(data + [b]) == BigEndian(data) * 256 + b
  {
    assert (data + [b])[..|data|] == data;
  }

  lemma TwoMoreDigits(init: string, high: char, low: char)
    ensures var s := init + [high] + [low];
      && (AllHex(s) <==> AllHex(init) && DigitValue(high).Some? && DigitValue(low).Some?)
      && (AllHex(s) ==> HexValue(s) == HexValue(init) * 256 + DigitValue(high).value * 16 + DigitValue(low).value)
  {
    var s := init + [high] + [low];
    assert s[|s| - 2] in s && s[|s| - 1] in s;
    assert forall c <- init :: c in s;
    if AllHex(s) {
      assert s[..|s| - 1] == init + [high];
      assert (init + [high])[..|init|] == init;
    }
  }

  lemma {:induction false} LeadingDigitZero(s: string)
    ensures AllHex("0" + s) <==> AllHex(s)
    ensures AllHex(s) ==> HexValue("0" + s) == HexValue(s)
  {
    assert DigitValue('0') == Some(0);
    if s == "" {
      assert "0" + s == "0" && "0"[..0] == "";
    } else {
      var init := s[..|s| - 1];
      LeadingDigitZero(init);
      assert ("0" + s)[..|s|] == "0" + init;
      assert s == init + [s[|s| - 1]];
    }
  }

  /** An odd number of digits gets a zero in front. */
  function EvenOut(s: string): string {
    if |s| % 2 != 0 then "0" + s else s
  }

  /** What the lenient reader makes of a string. */
  function Read(s: string): Option<seq<Byte>> {
    Decode(EvenOut(StripPrefix(s)))
  }

  /**
  The lenient reader of serialized values accepts exactly strings of digits, reads them as the number
  they stand for, and agrees with the strict reader wherever that one reads anything.
  */
  method Lenient(s: string) returns (r: Option<seq<Byte>>)
    ensures r == Read(s)
    ensures r.Some? <==> AllHex(StripPrefix(s))
    ensures r.Some? ==> BigEndian(r.value) == HexValue(StripPrefix(s)) && |r.value| == (|StripPrefix(s)| + 1) / 2
    ensures Strict(s).Some? ==> r == Strict(s)
    ensures r.Some? ==> (Strict(s).None? <==> |StripPrefix(s)| % 2 == 1)
  {
    var stripped := StripPrefix(s);
    DecodeIs(stripped);
    LeadingDigitZero(stripped);
    if |stripped| % 2 != 0 {
      stripped := "0" + stripped;
      DecodeIs(stripped);
    }
    r := Decode(stripped);
  }

  lemma {:induction false} DecodeEncode(data: seq<Byte>)
    ensures Decode(Encode(data)) == Some(data)
  {
    if data == [] {
    } else {
      var init, last := data[..|data| - 1], data[|data| - 1];
      DecodeEncode(init);
      assert data == init + [last];
      EncodeOneMore(init, last);
      DecodeDigits(Encode(init), init, last);
    }
  }

  lemma EncodeOneMore(data: seq<Byte>, b: Byte)
    ensures Encode(data + [b]) == Encode(data) + [Digit(b / 16)] + [Digit(b % 16)]
  {
    assert (data + [b])[..|data|] == data;
  }

  lemma DecodeDigits(text: string, data: seq<Byte>, b: Byte)
    requires Decode(text) == Some(data)
    ensures Decode(text + [Digit(b / 16)] + [Digit(b % 16)]) == Some(data + [b])
  {
    DigitRoundTrip(b / 16);
    DigitRoundTrip(b % 16);
    DecodeByte(text, Digit(b / 16), Digit(b % 16));
    assert b == b / 16 * 16 + b % 16;
  }

  lemma DigitRoundTrip(n: Nibble)
    ensures DigitValue(Digit(n)) == Some(n)
  {}

  predicate IsLowerDigit(c: char) {
    c in "0123456789abcdef"
  }

  lemma {:induction false} EncodeIsLowerCase(data: seq<Byte>)
    ensures |Encode(data)| == 2 * |data| && forall c <- Encode(data) :: IsLowerDigit(c)
  {
    if data == [] {
    } else {
      EncodeIsLowerCase(data[..|data| - 1]);
      LowerDigit(data[|data| - 1] / 16);
      LowerDigit(data[|data| - 1] % 16);
    }
  }

  lemma LowerDigit(n: Nibble)
    ensures Digit(n) == "0123456789abcdef"[n] && IsLowerDigit(Digit(n))
  {
    assert "0123456789abcdef"[n] in "0123456789abcdef";
  }

  /** The printed text is the prefix and two lower-case digits for every byte. */
  lemma PrintedForm(data: seq<Byte>)
    ensures var text := Display(data);
            && |text| == 2 + 2 * |data| && text[..2] == "0x" && forall c <- text[2..] :: IsLowerDigit(c)
  {
    EncodeIsLowerCase(data);
    assert Display(data)[2..] == Encode(data);
  }

  /** What is printed is read back, by either reader. */
  lemma PrintedIsReadBack(data: seq<Byte>)
    ensures Strict(Display(data)) == Some(data)
  {
    DecodeEncode(data);
    assert Display(data)[2..] == Encode(data);
  }

  // ------------------------------------------------------------------ maps with hexadecimal keys and values

  lemma {:induction false} EncodeIsEven(data: seq<Byte>)
    ensures |Encode(data)| % 2 == 0
  {
    if data == [] {
    } else {
      EncodeIsEven(data[..|data| - 1]);
    }
  }

  lemma PrintedIsRead(data: seq<Byte>)
    ensures Read(Display(data)) == Some(data)
  {
    PrintedIsReadBack(data);
    EncodeIsEven(data);
    assert Display(data)[2..] == Encode(data);
  }

  /** `text` has one printed entry for every entry of `m`, and no other. */
  ghost predicate Prints(m: map<seq<Byte>, seq<Byte>>, text: map<string, string>) {
    && (forall k <- m :: Display(k) in text && text[Display(k)] == Display(m[k]))
    && (forall t {:trigger PrintsKey(m, t)} :: t in text ==> PrintsKey(m, t))
  }

  ghost predicate PrintsKey(m: map<seq<Byte>, seq<Byte>>, t: string) {
    exists k <- m :: t == Display(k)
  }

  /** The entries of a map, printed in whatever order they come. */
  method PrintMap(m: map<seq<Byte>, seq<Byte>>) returns (text: map<string, string>)
    ensures Prints(m, text)
  {
    text := map[];
    var done: set<seq<Byte>> := {};
    while m.Keys - done != {}
      invariant done <= m.Keys
      invariant forall k <- done :: Display(k) in text && text[Display(k)] == Display(m[k])
      invariant forall t <- text :: exists k <- done :: t == Display(k)
      decreases m.Keys - done
    {
      var k :| k in m.Keys - done;
      forall j <- done ensures Display(j) != Display(k) {
        PrintedIsReadBack(j);
        PrintedIsReadBack(k);
      }
      text := text[Display(k) := Display(m[k])];
      done := done + {k};
    }
    assert done == m.Keys;
    forall t | t in text ensures PrintsKey(m, t) {
      var k :| k in done && t == Display(k);
    }
  }

  /** `m` collects the entries of `text` as read; of two keys that read alike one may be lost. */
  ghost predicate Collects(text: map<string, string>, m: map<seq<Byte>, seq<Byte>>) {
    && (forall t {:trigger KeepsKey(text, t, m)} :: t in text ==> KeepsKey(text, t, m))
    && (forall k {:trigger ReadsEntry(text, k, m)} :: k in m ==> ReadsEntry(text, k, m))
  }

  ghost predicate KeepsKey(text: map<string, string>, t: string, m: map<seq<Byte>, seq<Byte>>)
    requires t in text
  {
    Read(t).Some? && Read(text[t]).Some? && Read(t).value in m
  }

  ghost predicate ReadsEntry(text: map<string, string>, k: seq<Byte>, m: map<seq<Byte>, seq<Byte>>)
    requires k in m
  {
    exists t <- text :: Read(t) == Some(k) && Read(text[t]) == Some(m[k])
  }

  lemma EntryComesBack(m: map<seq<Byte>, seq<Byte>>, text: map<string, string>, t: string)
    requires Prints(m, text) && t in text && Read(t).Some?
    ensures Read(t).value in m && Read(text[t]) == Some(m[Read(t).value])
  {
    assert PrintsKey(m, t);
    var k :| k in m && t == Display(k);
    PrintedIsRead(k);
    PrintedIsRead(m[k]);
  }

  lemma KeyComesBack(
    m: map<seq<Byte>, seq<Byte>>, text: map<string, string>, back: map<seq<Byte>, seq<Byte>>, k: seq<Byte>)
    requires Prints(m, text) && Collects(text, back) && k in m
    ensures k in back
  {
    PrintedIsRead(k);
    assert KeepsKey(text, Display(k), back);
  }

  lemma CollectedIsPrinted(
    m: map<seq<Byte>, seq<Byte>>, text: map<string, string>, back: map<seq<Byte>, seq<Byte>>, k: seq<Byte>)
    requires Prints(m, text) && Collects(text, back) && k in back
    ensures k in m && back[k] == m[k]
  {
    assert ReadsEntry(text, k, back);
    var t :| t in text && Read(t) == Some(k) && Read(text[t]) == Some(back[k]);
    EntryComesBack(m, text, t);
  }

  /** A printed map loses no entry: whatever is collected from it is the map. */
  lemma PrintedMapIsReadBack(m: map<seq<Byte>, seq<Byte>>, text: map<string, string>, back: map<seq<Byte>, seq<Byte>>)
    requires Prints(m, text) && Collects(text, back)
    ensures back == m
  {
    forall k: seq<Byte> ensures k in m ==> k in back { if k in m { KeyComesBack(m, text, back, k); } }
    forall k: seq<Byte> ensures k in back ==> k in m && back[k] == m[k] {
      if k in back { CollectedIsPrinted(m, text, back, k); }
    }
  }
}
