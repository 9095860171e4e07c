/** Strings of bits, most significant first, and their grouping into numbers of a given width. */
module BitStreams {
  import opened Wrappers
  import opened ModArithmetic

  type Bits = seq<bool>

  function Pow2(w: nat): nat {
    if w == 0 then 1 else 2 * Pow2(w - 1)
  }

  function ToBits(x: nat, w: nat): (b: Bits)
    ensures |b| == w
  {
    if w == 0 then [] else ToBits(x / 2, w - 1) + [x % 2 == 1]
  }

  function Value(b: Bits): nat {
    if b == [] then 0 else 2 * Value(b[..|b| - 1]) + if b[|b| - 1] then 1 else 0
  }

  function Zeros(n: nat): Bits {
    Repeat(false, n)
  }

  /** All numbers one after the other. */
  function Stream(xs: seq<nat>, w: nat): Bits {
    if xs == [] then [] else ToBits(xs[0], w) + Stream(xs[1..], w)
  }

  /** Cuts into numbers of width w, the last one filled up with zeros. */
  function Group(b: Bits, w: nat): seq<nat>
    requires 0 < w
  {
    if b == [] then []
    else if |b| < w then [Value(b + Zeros(w - |b|))]
    else [Value(b[..w])] + Group(b[w..], w)
  }

  lemma {:induction false} StreamLength(xs: seq<nat>, w: nat)
    ensures |Stream(xs, w)| == |xs| * w
  {
    if xs != [] {
      StreamLength(xs[1..], w);
      assert |xs| * w == w + (|xs| - 1) * w;
    }
  }

  /** Regroups numbers of one width as numbers of another. */
  function Regroup(xs: seq<nat>, from: nat, to: nat): seq<nat>
    requires 0 < to
  {
    Group(Stream(xs, from), to)
  }

  ghost predicate Fit(xs: seq<nat>, w: nat) {
    forall i | 0 <= i < |xs| :: xs[i] < Pow2(w)
  }

  lemma {:induction false} ValueOfBits(x: nat, w: nat)
    requires x < Pow2(w)
    ensures Value(ToBits(x, w)) == x
  {
    if 0 < w {
      ValueOfBits(x / 2, w - 1);
      assert ToBits(x, w)[..w - 1] == ToBits(x / 2, w - 1);
    }
  }

  lemma {:induction false} BitsOfValue(b: Bits)
    ensures Value(b) < Pow2(|b|) && ToBits(Value(b), |b|) == b
  {
    if b != [] {
      var front := b[..|b| - 1];
      BitsOfValue(front);
      assert b == front + [b[|b| - 1]];
    }
  }

  lemma GroupCons(head: Bits, tail: Bits, w: nat)
    requires 0 < w == |head|
    ensures Group(head + tail, w) == [Value(head)] + Group(tail, w)
  {
    assert (head + tail)[..w] == head && (head + tail)[w..] == tail;
  }

  lemma StreamCons(x: nat, xs: seq<nat>, w: nat)
    ensures Stream([x] + xs, w) == ToBits(x, w) + Stream(xs, w)
  {
    assert ([x] + xs)[1..] == xs;
  }

  /** Grouping undoes streaming. */
  lemma {:induction false} GroupOfStream(xs: seq<nat>, tail: Bits, w: nat)
    requires 0 < w && Fit(xs, w)
    ensures Group(Stream(xs, w) + tail, w) == xs + Group(tail, w)
  {
    if xs == [] {
      assert Stream(xs, w) + tail == tail && xs + Group(tail, w) == Group(tail, w);
    } else {
      var head, rest := ToBits(xs[0], w), Stream(xs[1..], w);
      GroupOfStream(xs[1..], tail, w);
      ValueOfBits(xs[0], w);
      GroupCons(head, rest + tail, w);
      Assoc(head, rest, tail);
      Assoc([xs[0]], xs[1..], Group(tail, w));
      assert [xs[0]] + xs[1..] == xs;
    }
  }

  lemma Assoc<T>(a: seq<T>, b: seq<T>, c: seq<T>)
    ensures (a + b) + c == a + (b + c)
  {}

  /** The zeros that fill up the last group. */
  function Filling(n: nat, w: nat): (z: nat)
    requires 0 < w
    ensures z < w
    decreases n
  {
    if n == 0 then 0 else if n < w then w - n else Filling(n - w, w)
  }

  /** Streaming undoes grouping, up to the zeros that filled the last group. */
  ghost predicate Regained(b: Bits, w: nat)
    requires 0 < w
  {
    Fit(Group(b, w), w) && Stream(Group(b, w), w) == b + Zeros(Filling(|b|, w))
  }

  lemma {:induction false} StreamOfGroup(b: Bits, w: nat)
    requires 0 < w
    ensures Regained(b, w)
    decreases |b|
  {
    if |b| < w {
      StreamOfShortGroup(b, w);
    } else {
      StreamOfGroup(b[w..], w);
      StreamOfLongGroup(b[..w], b[w..], w);
      assert b[..w] + b[w..] == b;
    }
  }

  lemma StreamOfShortGroup(b: Bits, w: nat)
    requires |b| < w
    ensures Regained(b, w)
  {
    if b != [] {
      var filled := b + Zeros(w - |b|);
      BitsOfValue(filled);
      StreamCons(Value(filled), [], w);
      assert Group(b, w) == [Value(filled)] + [];
    }
  }

  lemma StreamOfLongGroup(head: Bits, tail: Bits, w: nat)
    requires 0 < w == |head| && Regained(tail, w)
    ensures Regained(head + tail, w)
  {
    var rest := Group(tail, w);
    GroupCons(head, tail, w);
    BitsOfValue(head);
    StreamCons(Value(head), rest, w);
    assert head + (tail + Zeros(Filling(|tail|, w))) == head + tail + Zeros(Filling(|tail|, w));
  }

  lemma {:induction false} StreamAppend(xs: seq<nat>, ys: seq<nat>, w: nat)
    ensures Stream(xs + ys, w) == Stream(xs, w) + Stream(ys, w)
  {
    if xs == [] {
      assert xs + ys == ys;
    } else {
      assert (xs + ys)[1..] == xs[1..] + ys;
      StreamAppend(xs[1..], ys, w);
    }
  }

  lemma {:induction false} ZeroBits(w: nat)
    ensures ToBits(0, w) == Zeros(w)
  {
    if 0 < w {
      ZeroBits(w - 1);
    }
  }

  lemma OneGroupMore(n: nat, w: nat)
    requires 0 < n
    ensures Zeros(n * w) == Zeros(w) + Zeros((n - 1) * w)
  {
    assert n * w == w + (n - 1) * w;
  }

  lemma {:induction false} GroupOfZeros(n: nat, w: nat)
    requires 0 < w
    ensures Group(Zeros(n * w), w) == seq(n, _ => 0)
  {
    if 0 < n {
      GroupOfZeros(n - 1, w);
      OneGroupMore(n, w);
      GroupCons(Zeros(w), Zeros((n - 1) * w), w);
      ValueOfZeros(w);
      assert seq(n, _ => 0) == [0] + seq(n - 1, _ => 0);
    }
  }

  lemma {:induction false} ValueOfZeros(w: nat)
    ensures Value(Zeros(w)) == 0
  {
    if 0 < w {
      assert Zeros(w)[..w - 1] == Zeros(w - 1);
      ValueOfZeros(w - 1);
    }
  }

  lemma {:induction false} StreamOfZeros(n: nat, w: nat)
    ensures Stream(seq(n, _ => 0), w) == Zeros(n * w)
  {
    if 0 < n {
      ZeroBits(w);
      StreamOfZeros(n - 1, w);
      OneGroupMore(n, w);
      StreamCons(0, seq(n - 1, _ => 0), w);
      assert seq(n, _ => 0) == [0] + seq(n - 1, _ => 0);
    }
  }

  lemma {:induction false} ValueOfJoined(p: Bits, q: Bits)
    ensures Value(p + q) == Value(p) * Pow2(|q|) + Value(q)
  {
    if q == [] {
      assert p + q == p;
    } else {
      var front := q[..|q| - 1];
      ValueOfJoined(p, front);
      assert (p + q)[..|p + q| - 1] == p + front;
      assert Value(p) * (2 * Pow2(|front|)) == 2 * (Value(p) * Pow2(|front|));
    }
  }

  /** The last k bits of a number hold its remainder, those before them its quotient. */
  lemma CutBits(x: nat, w: nat, k: nat) returns (high: Bits, low: Bits)
    requires k <= w && x < Pow2(w)
    ensures ToBits(x, w) == high + low && |low| == k
    ensures 0 < Pow2(k) && Value(high) == x / Pow2(k) && Value(low) == x % Pow2(k)
  {
    var bits := ToBits(x, w);
    high, low := bits[..w - k], bits[w - k..];
    assert bits == high + low;
    ValueOfBits(x, w);
    ValueOfJoined(high, low);
    BitsOfValue(low);
    Quotient(x, Pow2(k), Value(high), Value(low));
  }

  lemma Quotient(x: nat, m: nat, q: nat, r: nat)
    requires x == q * m + r && r < m
    ensures x / m == q && x % m == r
  {
    DivModUnique(x, m, q, r);
  }
}

/** The codec of libvee_master/voost/string/base64.cpp, with the Boost adaptors in their documented
    meaning: bits are regrouped most significant first and filled up with zeros, the character '='
    stands for 0 when decoding, and a line break goes before character 73 of a line. */
module Base64 {
  import opened Wrappers
  import opened BitStreams

  type byte = x: nat | x < 256
  type sextet = x: nat | x < 64

  const LINE := 72

  /** The alphabet of table 1 in section 4 of RFC 4648. */
  function Letter(v: sextet): (c: char)
    ensures c != '=' && c != '\n'
  {
    if v < 26 then ('A' as int + v) as char
    else if v < 52 then ('a' as int + (v - 26)) as char
    else if v < 62 then ('0' as int + (v - 52)) as char
    else if v == 62 then '+'
    else '/'
  }

  /** The number a character stands for; none for one outside the alphabet. */
  function NumberOf(c: char): Option<sextet> {
    if 'A' <= c <= 'Z' then Some(c as int - 'A' as int)
    else if 'a' <= c <= 'z' then Some(c as int - 'a' as int + 26)
    else if '0' <= c <= '9' then Some(c as int - '0' as int + 52)
    else if c == '+' then Some(62)
    else if c == '/' then Some(63)
    else if c == '=' then Some(0)
    else None
  }

  /** Table 1 in section 4 of RFC 4648: the character for the value i is the i-th. */
  const TABLE: string := "ABCDEFGHIJKLMNOPQRSTUVWXYZ" + "abcdefghijklmnopqrstuvwxyz" + "0123456789+/"

  /** The letters are those of the given table. */
  ghost predicate LettersOf(table: string) {
    |table| == 64 && forall v: sextet :: Letter(v) == table[v]
  }

  /** The letter of each value is the one that the standard's table has in its place. */
  lemma LettersAreTable()
    ensures LettersOf(TABLE)
  {
    UpperCase();
    LowerCase();
    DigitsAndSigns();
  }

  lemma UpperCase()
    ensures |TABLE| == 64 && forall v: nat | v < 26 :: Letter(v) == TABLE[v]
  {}

  lemma LowerCase()
    ensures |TABLE| == 64 && forall v: nat | 26 <= v < 52 :: Letter(v) == TABLE[v]
  {}

  lemma DigitsAndSigns()
    ensures |TABLE| == 64 && forall v: nat | 52 <= v < 64 :: Letter(v) == TABLE[v]
  {}

  lemma LetterStandsForItself(v: sextet)
    ensures NumberOf(Letter(v)) == Some(v)
  {}

  lemma NumberHasLetter(c: char)
    ensures NumberOf(c).Some? && c != '=' ==> Letter(NumberOf(c).value) == c
  {}

  /** A character of the table is read as its place there, '=' as 0, and no other character is read. */
  lemma NumberIsPlace(c: char, table: string)
    requires LettersOf(table)
    ensures forall v | 0 <= v < 64 :: table[v] == c ==> NumberOf(c) == Some(v)
    ensures NumberOf('=') == Some(0)
    ensures NumberOf(c) == None <==> c !in table && c != '='
  {
    forall v: sextet ensures NumberOf(table[v]) == Some(v) {
      LetterStandsForItself(v);
    }
    NumberHasLetter(c);
    if NumberOf(c).Some? && c != '=' {
      assert table[NumberOf(c).value] == c;
    }
  }

  lemma Widths()
    ensures Pow2(6) == 64 && Pow2(8) == 256
  {
    assert Pow2(4) == 16;
  }

  lemma SextetsFit(b: Bits)
    ensures forall i | 0 <= i < |Group(b, 6)| :: Group(b, 6)[i] < 64
  {
    StreamOfGroup(b, 6);
    Widths();
  }

  lemma OctetsFit(b: Bits)
    ensures forall i | 0 <= i < |Group(b, 8)| :: Group(b, 8)[i] < 256
  {
    StreamOfGroup(b, 8);
    Widths();
  }

  lemma BytesFit(s: seq<byte>)
    ensures Fit(s, 8)
  {
    Widths();
  }

  /** The six-bit numbers of a byte string. */
  function Sextets(s: seq<byte>): (xs: seq<sextet>)
  {
    SextetsFit(Stream(s, 8));
    Regroup(s, 8, 6)
  }

  function Letters(xs: seq<sextet>): (text: string)
    ensures |text| == |xs| && forall c | c in text :: c != '=' && c != '\n'
  {
    seq(|xs|, i requires 0 <= i < |xs| => Letter(xs[i]))
  }

  function Pads(n: nat): (p: nat)
    ensures p <= 2
  {
    (3 - n % 3) % 3
  }

  function Encode(s: seq<byte>): string {
    Letters(Sextets(s)) + Repeat('=', Pads(|s|))
  }

  /** The numbers of a text, or its first character outside the alphabet. */
  function Numbers(text: string): (r: Result<seq<sextet>, char>) {
    if text == "" then Ok([])
    else match NumberOf(text[0])
         case None => Err(text[0])
         case Some(v) =>
           match Numbers(text[1..])
           case Err(c) => Err(c)
           case Ok(rest) => Ok([v] + rest)
  }

  /** The bytes that a sequence of six-bit numbers holds. */
  function Octets(xs: seq<sextet>): (s: seq<byte>) {
    OctetsFit(Stream(xs, 6));
    Regroup(xs, 6, 8)
  }

  function TrimNuls(s: seq<byte>): (r: seq<byte>)
    ensures r <= s && (r != [] ==> r[|r| - 1] != 0)
    ensures forall i | |r| <= i < |s| :: s[i] == 0
  {
    if s != [] && s[|s| - 1] == 0 then TrimNuls(s[..|s| - 1]) else s
  }

  function Decode(text: string): Result<seq<byte>, char> {
    match Numbers(text)
    case Err(c) => Err(c)
    case Ok(xs) => Ok(TrimNuls(Octets(xs)))
  }

  ghost predicate Readable(c: char, table: string) {
    c in table || c == '='
  }

  /** A text decodes exactly when all its characters are in the standard's table or '='; otherwise the
      first that is not is reported. */
  lemma DecodesIffReadable(text: string)
    ensures Decode(text).Ok? <==> forall i | 0 <= i < |text| :: Readable(text[i], TABLE)
    ensures forall c :: Decode(text) == Err(c) <==> FirstUnreadable(text, TABLE, c)
  {
    LettersAreTable();
    NumbersIffReadable(text, TABLE);
  }

  ghost predicate FirstUnreadable(text: string, table: string, c: char) {
    exists i :: 0 <= i < |text| && text[i] == c && !Readable(c, table) && forall k | 0 <= k < i :: Readable(text[k], table)
  }

  lemma {:induction false} NumbersIffReadable(text: string, table: string)
    requires LettersOf(table)
    ensures Numbers(text).Ok? <==> forall i | 0 <= i < |text| :: Readable(text[i], table)
    ensures forall c :: Numbers(text) == Err(c) <==> FirstUnreadable(text, table, c)
  {
    if text != "" {
      NumberIsPlace(text[0], table);
      NumbersIffReadable(text[1..], table);
      assert text == [text[0]] + text[1..];
      forall c ensures FirstUnreadable(text, table, c)
                  <==> if Readable(text[0], table) then FirstUnreadable(text[1..], table, c) else c == text[0] {
        UnreadableUnfolds(text, table, c);
      }
    }
  }

  lemma UnreadableUnfolds(text: string, table: string, c: char)
    requires text != ""
    ensures FirstUnreadable(text, table, c)
       <==> if Readable(text[0], table) then FirstUnreadable(text[1..], table, c) else c == text[0]
  {
    var rest := text[1..];
    if Readable(text[0], table) {
      if FirstUnreadable(rest, table, c) {
        var i :| 0 <= i < |rest| && rest[i] == c && !Readable(c, table) && forall k | 0 <= k < i :: Readable(rest[k], table);
        assert text[i + 1] == c && forall k | 0 < k < i + 1 :: text[k] == rest[k - 1];
      }
      if FirstUnreadable(text, table, c) {
        var i :| 0 <= i < |text| && text[i] == c && !Readable(c, table) && forall k | 0 <= k < i :: Readable(text[k], table);
        assert rest[i - 1] == c && forall k | 0 <= k < i - 1 :: rest[k] == text[k + 1];
      }
    }
  }

  // ---- Round trip ----

  lemma {:induction false} NumbersAppend(first: string, second: string)
    requires Numbers(first).Ok? && Numbers(second).Ok?
    ensures Numbers(first + second) == Ok(Numbers(first).value + Numbers(second).value)
  {
    if first == "" {
      assert first + second == second && [] + Numbers(second).value == Numbers(second).value;
    } else {
      assert (first + second)[1..] == first[1..] + second;
      NumbersAppend(first[1..], second);
      Assoc([NumberOf(first[0]).value], Numbers(first[1..]).value, Numbers(second).value);
    }
  }

  lemma {:induction false} NumbersOfLetters(xs: seq<sextet>)
    ensures Numbers(Letters(xs)) == Ok(xs)
  {
    if xs != [] {
      LetterStandsForItself(xs[0]);
      assert Letters(xs)[1..] == Letters(xs[1..]);
      NumbersOfLetters(xs[1..]);
      assert [xs[0]] + xs[1..] == xs;
    }
  }

  lemma {:induction false} NumbersOfPads(p: nat)
    ensures Numbers(Repeat('=', p)) == Ok(Repeat<sextet>(0, p))
  {
    if 0 < p {
      assert Repeat('=', p)[1..] == Repeat('=', p - 1);
      NumbersOfPads(p - 1);
      assert [0] + Repeat<sextet>(0, p - 1) == Repeat<sextet>(0, p);
    }
  }

  /** Six-bit filling and padding characters together make up whole bytes of zeros. */
  lemma FillingAndPads(n: nat)
    ensures Filling(8 * n, 6) + 6 * Pads(n) == 8 * Pads(n)
  {
    if 3 <= n {
      assert Filling(8 * n, 6) == Filling(8 * n - 6, 6) == Filling(8 * n - 12, 6)
          == Filling(8 * n - 18, 6) == Filling(8 * (n - 3), 6);
      FillingAndPads(n - 3);
    } else if n == 2 {
      assert Filling(16, 6) == Filling(10, 6) == Filling(4, 6);
    } else if n == 1 {
      assert Filling(8, 6) == Filling(2, 6);
    }
  }

  lemma JoinZeros(b: Bits, m: nat, n: nat)
    ensures b + Zeros(m) + Zeros(n) == b + Zeros(m + n)
  {}

  lemma PadBits(p: nat)
    ensures Stream(Repeat<sextet>(0, p), 6) == Zeros(6 * p)
  {
    assert Repeat<sextet>(0, p) == seq(p, _ => 0);
    StreamOfZeros(p, 6);
  }

  lemma SextetBits(s: seq<byte>)
    ensures |Stream(s, 8)| == 8 * |s|
    ensures Stream(Sextets(s), 6) == Stream(s, 8) + Zeros(Filling(8 * |s|, 6))
  {
    StreamLength(s, 8);
    StreamOfGroup(Stream(s, 8), 6);
  }

  /** The bits that decoding sees: those that were encoded, then whole bytes of zeros. */
  lemma DecodedBits(s: seq<byte>)
    ensures Stream(Sextets(s) + Repeat<sextet>(0, Pads(|s|)), 6) == Stream(s, 8) + Zeros(8 * Pads(|s|))
  {
    SextetBits(s);
    FillingAndPads(|s|);
    PaddedBits(Sextets(s), Stream(s, 8), Filling(8 * |s|, 6), Pads(|s|));
  }

  lemma PaddedBits(xs: seq<sextet>, b: Bits, f: nat, p: nat)
    requires Stream(xs, 6) == b + Zeros(f) && f + 6 * p == 8 * p
    ensures Stream(xs + Repeat<sextet>(0, p), 6) == b + Zeros(8 * p)
  {
    PadBits(p);
    StreamAppend(xs, Repeat<sextet>(0, p), 6);
    JoinZeros(b, f, 6 * p);
  }

  lemma {:induction false} TrimZeros(s: seq<byte>, n: nat)
    ensures TrimNuls(s + Repeat<byte>(0, n)) == TrimNuls(s)
  {
    if n == 0 {
      assert s + Repeat<byte>(0, 0) == s;
    } else {
      var longer := s + Repeat<byte>(0, n);
      assert longer[..|longer| - 1] == s + Repeat<byte>(0, n - 1);
      TrimZeros(s, n - 1);
    }
  }

  lemma EncodedNumbers(s: seq<byte>)
    ensures Numbers(Encode(s)) == Ok(Sextets(s) + Repeat<sextet>(0, Pads(|s|)))
  {
    NumbersOfLetters(Sextets(s));
    NumbersOfPads(Pads(|s|));
    NumbersAppend(Letters(Sextets(s)), Repeat('=', Pads(|s|)));
  }

  lemma RegroupedBytes(s: seq<byte>, p: nat)
    ensures Group(Stream(s, 8) + Zeros(8 * p), 8) == s + Repeat<byte>(0, p)
  {
    BytesFit(s);
    GroupOfStream(s, Zeros(p * 8), 8);
    GroupOfZeros(p, 8);
    assert seq(p, _ => 0) == Repeat<byte>(0, p);
  }

  /** Decoding what was encoded gives the bytes back without their trailing NULs. */
  lemma RoundTrip(s: seq<byte>)
    ensures Decode(Encode(s)) == Ok(TrimNuls(s))
  {
    EncodedNumbers(s);
    DecodedBits(s);
    RegroupedBytes(s, Pads(|s|));
    TrimZeros(s, Pads(|s|));
  }

  /** The round trip is exact for the byte strings that do not end in NUL, and for no others. */
  lemma RoundTripExactIff(s: seq<byte>)
    ensures Decode(Encode(s)) == Ok(s) <==> s == [] || s[|s| - 1] != 0
  {
    RoundTrip(s);
    if s != [] && s[|s| - 1] == 0 {
      TrimShortens(s[..|s| - 1]);
    }
  }

  lemma {:induction false} TrimShortens(s: seq<byte>)
    ensures |TrimNuls(s)| <= |s|
  {
    if s != [] && s[|s| - 1] == 0 {
      TrimShortens(s[..|s| - 1]);
    }
  }

  // ---- Section 4 of RFC 4648 ----

  /** The encoding as the standard describes it: 24 bits at a time, and the last group by its length. */
  function RfcEncode(s: seq<byte>, table: string): string
    requires |table| == 64
  {
    if |s| == 0 then ""
    else if |s| == 1 then
      [table[s[0] / 4], table[s[0] % 4 * 16], '=', '=']
    else if |s| == 2 then
      [table[s[0] / 4], table[s[0] % 4 * 16 + s[1] / 16], table[s[1] % 16 * 4], '=']
    else
      [table[s[0] / 4], table[s[0] % 4 * 16 + s[1] / 16], table[s[1] % 16 * 4 + s[2] / 64], table[s[2] % 64]]
      + RfcEncode(s[3..], table)
  }

  /** The bits of a byte in two parts: its quotient and its remainder by 4, 16 or 64. */
  lemma CutByte(x: byte, k: nat) returns (high: Bits, low: Bits)
    requires k == 2 || k == 4 || k == 6
    ensures ToBits(x, 8) == high + low && |low| == k && |high| == 8 - k
    ensures Value(high) == x / FourTo(k) && Value(low) == x % FourTo(k)
  {
    Widths();
    high, low := CutBits(x, 8, k);
  }

  function FourTo(k: nat): (n: nat)
    requires k == 2 || k == 4 || k == 6
    ensures 0 < n
  {
    if k == 2 then 4 else if k == 4 then 16 else 64
  }

  /** Takes three bytes off the front of the regrouping. */
  lemma SextetsOfThree(a: byte, b: byte, c: byte, rest: seq<byte>)
    ensures Sextets([a, b, c] + rest)
         == [a / 4, a % 4 * 16 + b / 16, b % 16 * 4 + c / 64, c % 64] + Sextets(rest)
  {
    var a1, a2 := CutByte(a, 2);
    var b1, b2 := CutByte(b, 4);
    var c1, c2 := CutByte(c, 6);
    Widths();
    ValueOfJoined(a2, b1);
    ValueOfJoined(b2, c1);
    StreamOfThree(a, b, c, rest);
    var tail := Stream(rest, 8);
    Rejoined(a1, a2, b1, b2, c1, c2, tail);
    GroupOfFour(a1, a2 + b1, b2 + c1, c2, tail);
  }

  lemma StreamOfThree(a: nat, b: nat, c: nat, rest: seq<nat>)
    ensures Stream([a, b, c] + rest, 8) == ToBits(a, 8) + (ToBits(b, 8) + (ToBits(c, 8) + Stream(rest, 8)))
  {
    StreamCons(c, rest, 8);
    StreamCons(b, [c] + rest, 8);
    assert [b] + ([c] + rest) == [b, c] + rest;
    StreamCons(a, [b, c] + rest, 8);
    assert [a] + ([b, c] + rest) == [a, b, c] + rest;
  }

  lemma Rejoined<T>(a1: seq<T>, a2: seq<T>, b1: seq<T>, b2: seq<T>, c1: seq<T>, c2: seq<T>, rest: seq<T>)
    ensures (a1 + a2) + ((b1 + b2) + ((c1 + c2) + rest)) == a1 + ((a2 + b1) + ((b2 + c1) + (c2 + rest)))
  {}

  lemma GroupOfFour(p: Bits, q: Bits, r: Bits, s: Bits, rest: Bits)
    requires |p| == |q| == |r| == |s| == 6
    ensures Group(p + (q + (r + (s + rest))), 6) == [Value(p), Value(q), Value(r), Value(s)] + Group(rest, 6)
  {
    GroupCons(p, q + (r + (s + rest)), 6);
    GroupCons(q, r + (s + rest), 6);
    GroupCons(r, s + rest, 6);
    GroupCons(s, rest, 6);
  }

  lemma SextetsOfOne(a: byte)
    ensures Sextets([a]) == [a / 4, a % 4 * 16]
  {
    var a1, a2 := CutByte(a, 2);
    Widths();
    ValueOfJoined(a2, Zeros(4));
    ValueOfZeros(4);
    StreamCons(a, [], 8);
    assert [a] + [] == [a] && (a1 + a2) + [] == a1 + a2;
    GroupCons(a1, a2, 6);
  }

  lemma SextetsOfTwo(a: byte, b: byte)
    ensures Sextets([a, b]) == [a / 4, a % 4 * 16 + b / 16, b % 16 * 4]
  {
    var a1, a2 := CutByte(a, 2);
    var b1, b2 := CutByte(b, 4);
    Widths();
    ValueOfJoined(a2, b1);
    ValueOfJoined(b2, Zeros(2));
    ValueOfZeros(2);
    StreamOfTwo(a, b);
    RejoinedTwo(a1, a2, b1, b2);
    GroupOfTwoAndRest(a1, a2 + b1, b2);
  }

  lemma StreamOfTwo(a: nat, b: nat)
    ensures Stream([a, b], 8) == ToBits(a, 8) + ToBits(b, 8)
  {
    StreamCons(a, [b], 8);
    StreamCons(b, [], 8);
    assert [a] + [b] == [a, b] && [b] + [] == [b];
    assert ToBits(b, 8) + [] == ToBits(b, 8);
  }

  lemma RejoinedTwo<T>(a1: seq<T>, a2: seq<T>, b1: seq<T>, b2: seq<T>)
    ensures (a1 + a2) + (b1 + b2) == a1 + ((a2 + b1) + b2)
  {}

  lemma GroupOfTwoAndRest(p: Bits, q: Bits, r: Bits)
    requires |p| == |q| == 6 && 0 < |r| < 6
    ensures Group(p + (q + r), 6) == [Value(p), Value(q), Value(r + Zeros(6 - |r|))]
  {
    GroupCons(p, q + r, 6);
    GroupCons(q, r, 6);
  }

  lemma EncodeOne(a: byte, table: string)
    requires LettersOf(table)
    ensures Encode([a]) == RfcEncode([a], table)
  {
    SextetsOfOne(a);
    assert Letters([a / 4, a % 4 * 16]) == [Letter(a / 4), Letter(a % 4 * 16)];
    assert Repeat('=', 2) == ['=', '='];
  }

  lemma EncodeTwo(a: byte, b: byte, table: string)
    requires LettersOf(table)
    ensures Encode([a, b]) == RfcEncode([a, b], table)
  {
    var x, y, z := a / 4, a % 4 * 16 + b / 16, b % 16 * 4;
    SextetsOfTwo(a, b);
    assert Letters([x, y, z]) == [Letter(x), Letter(y), Letter(z)];
    assert Repeat('=', 1) == ['='];
  }

  lemma EncodeThree(s: seq<byte>, rest: seq<byte>, p: sextet, q: sextet, r: sextet, t: sextet)
    requires |s| == |rest| + 3 && Sextets(s) == [p, q, r, t] + Sextets(rest)
    ensures Encode(s) == [Letter(p), Letter(q), Letter(r), Letter(t)] + Encode(rest)
  {
    FourLetters(p, q, r, t, Sextets(rest), Repeat('=', Pads(|rest|)));
  }

  lemma FourLetters(p: sextet, q: sextet, r: sextet, t: sextet, rest: seq<sextet>, pads: string)
    ensures Letters([p, q, r, t] + rest) + pads == [Letter(p), Letter(q), Letter(r), Letter(t)] + (Letters(rest) + pads)
  {}

  lemma {:induction false} EncodeIsGrouped(s: seq<byte>, table: string)
    requires LettersOf(table)
    ensures Encode(s) == RfcEncode(s, table)
  {
    if |s| == 0 {
      assert Sextets(s) == [];
    } else if |s| == 1 {
      EncodeOne(s[0], table);
      assert s == [s[0]];
    } else if |s| == 2 {
      EncodeTwo(s[0], s[1], table);
      assert s == [s[0], s[1]];
    } else {
      EncodeIsGrouped(s[3..], table);
      GroupedThree(s[0], s[1], s[2], s[3..], table);
      assert s == [s[0], s[1], s[2]] + s[3..];
    }
  }

  lemma GroupedThree(a: byte, b: byte, c: byte, rest: seq<byte>, table: string)
    requires LettersOf(table) && Encode(rest) == RfcEncode(rest, table)
    ensures Encode([a, b, c] + rest) == RfcEncode([a, b, c] + rest, table)
  {
    var s := [a, b, c] + rest;
    SextetsOfThree(a, b, c, rest);
    EncodeThree(s, rest, a / 4, a % 4 * 16 + b / 16, b % 16 * 4 + c / 64, c % 64);
    assert s[3..] == rest && s[0] == a && s[1] == b && s[2] == c;
  }

  /** The regrouping computes the encoding of the standard, with the characters of its table. */
  lemma EncodeIsRfc(s: seq<byte>)
    ensures |TABLE| == 64 && Encode(s) == RfcEncode(s, TABLE)
  {
    LettersAreTable();
    EncodeIsGrouped(s, TABLE);
  }

  lemma {:induction false} RfcLength(s: seq<byte>, table: string)
    requires |table| == 64
    ensures |RfcEncode(s, table)| == 4 * ((|s| + 2) / 3)
  {
    if 3 <= |s| {
      RfcLength(s[3..], table);
      RfcTail(s, table);
      OneMoreThird(|s|);
    }
  }

  lemma RfcTail(s: seq<byte>, table: string)
    requires |table| == 64 && 3 <= |s|
    ensures |RfcEncode(s, table)| == 4 + |RfcEncode(s[3..], table)|
  {}

  lemma OneMoreThird(n: nat)
    requires 3 <= n
    ensures (n + 2) / 3 == 1 + (n - 3 + 2) / 3
  {}

  /** Padding makes the length a multiple of four. */
  lemma EncodeLength(s: seq<byte>)
    ensures |Encode(s)| == 4 * ((|s| + 2) / 3)
    ensures |Sextets(s)| == 4 * ((|s| + 2) / 3) - Pads(|s|)
  {
    EncodeIsRfc(s);
    RfcLength(s, TABLE);
  }

  lemma PadsShow(s: seq<byte>)
    ensures Pads(|s|) <= |Encode(s)|
    ensures forall i | 0 <= i < |Encode(s)| :: Encode(s)[i] == '=' <==> |Encode(s)| - Pads(|s|) <= i
  {
    forall i | 0 <= i < |Sextets(s)|
      ensures Encode(s)[i] != '='
    {
      assert Letters(Sextets(s))[i] in Letters(Sextets(s));
    }
  }

  /** The padding can be read off the text. */
  lemma PadsAgree(s: seq<byte>, t: seq<byte>)
    requires Encode(s) == Encode(t)
    ensures Pads(|t|) <= Pads(|s|)
  {
    PadsShow(s);
    PadsShow(t);
    if 0 < Pads(|t|) {
      assert Encode(t)[|Encode(t)| - Pads(|t|)] == '=';
    }
  }

  /** Although decoding drops trailing NULs, encoding itself loses nothing. */
  lemma EncodeInjective(s: seq<byte>, t: seq<byte>)
    requires Encode(s) == Encode(t)
    ensures s == t
  {
    PadsAgree(s, t);
    PadsAgree(t, s);
    var p := Pads(|s|);
    EncodedNumbers(s);
    EncodedNumbers(t);
    DecodedBits(s);
    DecodedBits(t);
    RegroupedBytes(s, p);
    RegroupedBytes(t, p);
    var longer := s + Repeat<byte>(0, p);
    assert longer == t + Repeat<byte>(0, p);
    assert s == longer[..|longer| - p] == t;
  }

  /** The other way round: a text of the alphabet in whole groups of four decodes to bytes that encode
      to it again, as long as no trailing NUL is dropped. */
  lemma ReverseTrip(xs: seq<sextet>)
    requires |xs| % 4 == 0
    ensures Decode(Letters(xs)) == Ok(TrimNuls(Octets(xs))) && Encode(Octets(xs)) == Letters(xs)
  {
    NumbersOfLetters(xs);
    EncodeOctets(xs);
  }

  lemma EncodeOctets(xs: seq<sextet>)
    requires |xs| % 4 == 0
    ensures Encode(Octets(xs)) == Letters(xs)
  {
    SextetsOfOctets(xs);
    OctetCount(xs);
    assert Letters(xs) + Repeat('=', 0) == Letters(xs);
  }

  lemma OctetBits(xs: seq<sextet>)
    requires |xs| % 4 == 0
    ensures Stream(Octets(xs), 8) == Stream(xs, 6)
  {
    var bits := Stream(xs, 6);
    StreamLength(xs, 6);
    NoFilling(|xs| / 4);
    assert |bits| == 24 * (|xs| / 4);
    StreamOfGroup(bits, 8);
    assert bits + Zeros(0) == bits;
  }

  lemma GroupUndoes(xs: seq<nat>, w: nat)
    requires 0 < w && Fit(xs, w)
    ensures Group(Stream(xs, w), w) == xs
  {
    GroupOfStream(xs, [], w);
    assert Stream(xs, w) + [] == Stream(xs, w) && Group([], w) == [] && xs + [] == xs;
  }

  lemma OctetCount(xs: seq<sextet>)
    requires |xs| % 4 == 0
    ensures |Octets(xs)| % 3 == 0
  {
    OctetBits(xs);
    SameBits(xs, Octets(xs));
  }

  lemma SameBits(xs: seq<nat>, ys: seq<nat>)
    requires |xs| % 4 == 0 && Stream(ys, 8) == Stream(xs, 6)
    ensures |ys| % 3 == 0
  {
    StreamLength(xs, 6);
    StreamLength(ys, 8);
    ThreeQuarters(|xs|, |ys|);
  }

  lemma ThreeQuarters(m: nat, n: nat)
    requires m % 4 == 0 && m * 6 == n * 8
    ensures n % 3 == 0
  {
    assert n == 3 * (m / 4);
  }

  lemma SextetsOfOctets(xs: seq<sextet>)
    requires |xs| % 4 == 0
    ensures Sextets(Octets(xs)) == xs && Stream(Octets(xs), 8) == Stream(xs, 6)
  {
    OctetBits(xs);
    Widths();
    GroupUndoes(xs, 6);
  }

  lemma {:induction false} NoFilling(n: nat)
    ensures Filling(24 * n, 8) == 0
  {
    if 0 < n {
      assert Filling(24 * n, 8) == Filling(24 * n - 8, 8) == Filling(24 * n - 16, 8)
          == Filling(24 * n - 24, 8) == Filling(24 * (n - 1), 8);
      NoFilling(n - 1);
    }
  }

  // ---- Lines ----

  function Broken(text: string): string
  {
    if |text| <= LINE then text else text[..LINE] + "\n" + Broken(text[LINE..])
  }

  /** The text without its line breaks. */
  function Joined(text: string): string {
    if text == "" then ""
    else if text[0] == '\n' then Joined(text[1..])
    else [text[0]] + Joined(text[1..])
  }

  /** What stands between the line breaks. */
  function Lines(text: string): (lines: seq<string>)
    ensures |lines| > 0
  {
    if text == "" then [""]
    else
      var rest := Lines(text[1..]);
      if text[0] == '\n' then [""] + rest else [[text[0]] + rest[0]] + rest[1..]
  }

  ghost predicate OneLine(text: string) {
    '\n' !in text
  }

  lemma {:induction false} JoinedAppend(first: string, second: string)
    requires OneLine(first)
    ensures Joined(first + second) == first + Joined(second)
  {
    if first == "" {
      assert first + second == second && first + Joined(second) == Joined(second);
    } else {
      assert (first + second)[1..] == first[1..] + second;
      JoinedAppend(first[1..], second);
      Assoc([first[0]], first[1..], Joined(second));
      assert [first[0]] + first[1..] == first;
    }
  }

  lemma JoinedOneLine(text: string)
    requires OneLine(text)
    ensures Joined(text) == text
  {
    JoinedAppend(text, "");
    assert text + "" == text && Joined("") == "";
  }

  lemma {:induction false} LinesOfBreak(line: string, text: string)
    requires OneLine(line)
    ensures Lines(line + "\n" + text) == [line] + Lines(text)
  {
    var all := line + "\n" + text;
    if line == "" {
      assert all[1..] == text;
    } else {
      assert all[1..] == line[1..] + "\n" + text;
      LinesOfBreak(line[1..], text);
      assert [line[0]] + line[1..] == line;
    }
  }

  lemma {:induction false} LinesOfOne(line: string)
    requires OneLine(line)
    ensures Lines(line) == [line]
  {
    if line != "" {
      LinesOfOne(line[1..]);
      assert [line[0]] + line[1..] == line;
    }
  }

  lemma {:induction false} JoinedBroken(text: string, pads: string)
    requires OneLine(text) && OneLine(pads)
    ensures Joined(Broken(text) + pads) == text + pads
    decreases |text|
  {
    if |text| <= LINE {
      JoinedOneLine(text + pads);
    } else {
      JoinedBroken(text[LINE..], pads);
      JoinedBreak(text[..LINE], text[LINE..], pads);
      assert text[..LINE] + text[LINE..] == text;
    }
  }

  lemma JoinedBreak(line: string, rest: string, pads: string)
    requires OneLine(line) && |line| == LINE && rest != "" && Joined(Broken(rest) + pads) == rest + pads
    ensures Joined(Broken(line + rest) + pads) == line + rest + pads
  {
    var after := Broken(rest) + pads;
    assert (line + rest)[..LINE] == line && (line + rest)[LINE..] == rest;
    assert Broken(line + rest) + pads == line + ("\n" + after);
    JoinedAppend(line, "\n" + after);
    assert ("\n" + after)[1..] == after;
    Assoc(line, rest, pads);
  }

  /** Every line but the last is full, and the last is neither empty nor longer than a full one. */
  ghost predicate WellBroken(lines: seq<string>)
  {
    |lines| > 0
    && (forall i | 0 <= i < |lines| - 1 :: |lines[i]| == LINE)
    && 0 < |lines[|lines| - 1]| <= LINE
  }

  lemma {:induction false} BrokenLines(text: string, pads: string)
    requires OneLine(text) && OneLine(pads) && 0 < |text| && |pads| <= 2 && (|text| + |pads|) % 4 == 0
    ensures WellBroken(Lines(Broken(text) + pads))
    decreases |text|
  {
    if |text| <= LINE {
      LinesOfOne(text + pads);
    } else {
      var line, rest := text[..LINE], text[LINE..];
      BrokenLines(rest, pads);
      var after := Broken(rest) + pads;
      LinesOfBreak(line, after);
      assert Broken(text) + pads == line + "\n" + after;
    }
  }

  /** Zeros added at the end of the data change no six-bit number of the data itself. */
  lemma PaddedBuffer(data: seq<byte>)
    ensures |Sextets(data)| <= |Sextets(data + Repeat<byte>(0, Pads(|data|)))|
    ensures Sextets(data + Repeat<byte>(0, Pads(|data|)))[..|Sextets(data)|] == Sextets(data)
  {
    var p := Pads(|data|);
    StreamAppend(data, Repeat<byte>(0, p), 8);
    StreamOfZeros(p, 8);
    assert Repeat<byte>(0, p) == seq(p, _ => 0);
    SextetBits(data);
    FillingAndPads(|data|);
    JoinZeros(Stream(data, 8), Filling(8 * |data|, 6), 6 * p);
    Widths();
    GroupOfStream(Sextets(data), Zeros(6 * p), 6);
  }

  /** As many letters as it takes to reach the end of the data, in a buffer that goes on. */
  function LettersUpTo(buffer: seq<byte>, size: nat): string
    requires size <= |buffer|
  {
    EncodeLength(buffer);
    Letters(Sextets(buffer)[..(8 * size + 5) / 6])
  }

  lemma LettersOfData(data: seq<byte>)
    ensures LettersUpTo(data + Repeat<byte>(0, Pads(|data|)), |data|) == Letters(Sextets(data))
  {
    PaddedBuffer(data);
    EncodeLength(data);
  }

  lemma LettersInOneLine(xs: seq<sextet>)
    ensures OneLine(Letters(xs))
  {}

  lemma {:induction false} NumbersFail(first: string, c: char, second: string)
    requires Numbers(first).Ok? && NumberOf(c).None?
    ensures Numbers(first + [c] + second) == Err(c)
  {
    if first != "" {
      assert (first + [c] + second)[1..] == first[1..] + [c] + second;
      NumbersFail(first[1..], c, second);
    }
  }

  /** Encodes in lines of 72 characters. The text is that of the unbroken encoding, but it decodes only
      when there was no need to break it: the line break is not a character of the alphabet. */
  method EncodeInLines(data: seq<byte>) returns (result: string)
    requires data != []
    ensures Joined(result) == Encode(data)
    ensures WellBroken(Lines(result))
    ensures Decode(result) == if |data| <= 54 then Ok(TrimNuls(data)) else Err('\n')
  {
    var buff := data;
    var padding := if |buff| % 3 != 0 then 3 - |buff| % 3 else 0;
    assert padding == Pads(|data|);
    buff := buff + Repeat<byte>(0, padding);
    result := Broken(LettersUpTo(buff, |data|));
    result := result + Repeat('=', padding);
    LettersOfData(data);
    TextOfLines(data);
    DecodedLines(data);
  }

  function InLines(data: seq<byte>): string {
    Broken(Letters(Sextets(data))) + Repeat('=', Pads(|data|))
  }

  lemma TextOfLines(data: seq<byte>)
    ensures Joined(InLines(data)) == Encode(data)
    ensures data != [] ==> WellBroken(Lines(InLines(data)))
  {
    var text, pads := Letters(Sextets(data)), Repeat('=', Pads(|data|));
    LettersInOneLine(Sextets(data));
    EncodeLength(data);
    JoinedBroken(text, pads);
    if data != [] {
      BrokenLines(text, pads);
    }
  }

  lemma DecodedLines(data: seq<byte>)
    ensures Decode(InLines(data)) == if |data| <= 54 then Ok(TrimNuls(data)) else Err('\n')
  {
    LineCount(data);
    if |data| <= 54 {
      OneLineDecodes(data);
    } else {
      SeveralLinesFail(data);
    }
  }

  lemma LineCount(data: seq<byte>)
    ensures |Sextets(data)| <= LINE <==> |data| <= 54
  {
    EncodeLength(data);
    LettersFitOneLine(|data|);
  }

  lemma OneLineDecodes(data: seq<byte>)
    requires |Sextets(data)| <= LINE
    ensures Decode(InLines(data)) == Ok(TrimNuls(data))
  {
    assert InLines(data) == Encode(data);
    RoundTrip(data);
  }

  lemma SeveralLinesFail(data: seq<byte>)
    requires LINE < |Sextets(data)|
    ensures Decode(InLines(data)) == Err('\n')
  {
    BrokenIsRefused(Sextets(data), Repeat('=', Pads(|data|)));
  }

  lemma LettersFitOneLine(n: nat)
    ensures 4 * ((n + 2) / 3) - Pads(n) <= LINE <==> n <= 54
  {}

  lemma BrokenIsRefused(xs: seq<sextet>, pads: string)
    requires LINE < |xs|
    ensures Numbers(Broken(Letters(xs)) + pads) == Err('\n')
  {
    var line, rest := Letters(xs)[..LINE], Broken(Letters(xs)[LINE..]) + pads;
    assert line == Letters(xs[..LINE]);
    NumbersOfLetters(xs[..LINE]);
    NumbersFail(line, '\n', rest);
    assert Broken(Letters(xs)) + pads == line + ['\n'] + rest;
  }
}
