/** The wire form of the three node messages: `"<TAG> <id>"` strings, as produced by the
    messages' `toString` and read back by `NodeMessageParser.parse`. */
module Codec {

  datatype Option<+T> = None | Some(value: T)

  /** The three message kinds. Each carries a single node id. */
  datatype Message =
    | Election(id: nat)
    | Leader(id: nat)
    | NeighbourFailure(id: nat)

  /** What the parser makes of a string: a message, `null` for an unknown leading
      token, or an exception (a missing or non-numeric id token). */
  datatype Parsed =
    | Msg(msg: Message)
    | Unrecognised
    | BadToken

  const ElectionTag: string := "ELECTION"
  const LeaderTag: string := "LEADER"
  const FailureTag: string := "NEIGHBOUR-FAILURE"

  /** The characters the regular expression `\s` matches. */
  predicate IsWhitespace(c: char) {
    c == ' ' || c == '\t' || c == '\n' || c == '\U{B}' || c == '\U{C}' || c == '\r'
  }

  predicate NoWhitespace(s: string) {
    forall i :: 0 <= i < |s| ==> !IsWhitespace(s[i])
  }

  /** Only whitespace characters (or none at all). */
  predicate Blank(s: string) {
    s == [] || (IsWhitespace(s[0]) && Blank(s[1..]))
  }

  predicate IsDigit(c: char) {
    '0' as int <= c as int <= '9' as int
  }

  /** Only decimal digits (or none at all). */
  predicate Digits(s: string) {
    s == [] || (Digits(s[..|s| - 1]) && IsDigit(s[|s| - 1]))
  }

  /** A non-empty run of decimal digits: the ids this model reads and writes. */
  predicate IsNumeral(s: string) {
    |s| > 0 && Digits(s)
  }

  lemma {:induction false} DigitsHaveNoWhitespace(s: string)
    requires Digits(s)
    ensures NoWhitespace(s)
    decreases |s|
  {
    if s != [] {
      DigitsHaveNoWhitespace(s[..|s| - 1]);
      assert forall i :: 0 <= i < |s| - 1 ==> s[i] == s[..|s| - 1][i];
    }
  }

  function DigitChar(d: nat): (c: char)
    requires d < 10
    ensures IsDigit(c) && c as int - '0' as int == d
  {
    ('0' as int + d) as char
  }

  /** Decimal rendering of an id, without leading zeros. */
  function NatToString(n: nat): (r: string)
    ensures IsNumeral(r)
    ensures r[0] == '0' ==> n == 0
    decreases n
  {
    if n < 10 then
      assert [DigitChar(n)][..0] == [];
      [DigitChar(n)]
    else
      var r := NatToString(n / 10) + [DigitChar(n % 10)];
      assert r[..|r| - 1] == NatToString(n / 10);
      r
  }

  function DigitValue(c: char): (d: nat)
    requires IsDigit(c)
    ensures d < 10
  {
    c as int - '0' as int
  }

  function ParseNat(s: string): nat
    requires Digits(s)
    decreases |s|
  {
    if s == [] then 0 else ParseNat(s[..|s| - 1]) * 10 + DigitValue(s[|s| - 1])
  }

  /** Reading back a rendered id gives the id. */
  lemma {:induction false} NatRoundTrip(n: nat)
    ensures ParseNat(NatToString(n)) == n
    decreases n
  {
    if n >= 10 {
      var s := NatToString(n);
      assert s[..|s| - 1] == NatToString(n / 10);
      NatRoundTrip(n / 10);
    }
  }

  /** Index of the first whitespace character of `s`, or `|s|` if there is none. */
  function WhitespaceIndex(s: string): (k: nat)
    ensures k <= |s|
  {
    if s == [] then 0
    else if IsWhitespace(s[0]) then 0
    else 1 + WhitespaceIndex(s[1..])
  }

  lemma {:induction false} WhitespaceIndexAfterWord(a: string, b: string)
    requires NoWhitespace(a)
    ensures WhitespaceIndex(a + b) == |a| + WhitespaceIndex(b)
    decreases |a|
  {
    if a != [] {
      assert (a + b)[0] == a[0] && !IsWhitespace(a[0]);
      assert (a + b)[1..] == a[1..] + b;
      assert NoWhitespace(a[1..]) by {
        forall i | 0 <= i < |a| - 1 ensures !IsWhitespace(a[1..][i]) {
          assert a[1..][i] == a[i + 1];
        }
      }
      WhitespaceIndexAfterWord(a[1..], b);
    } else {
      assert a + b == b;
    }
  }

  function Tag(m: Message): string {
    match m
    case Election(_) => ElectionTag
    case Leader(_) => LeaderTag
    case NeighbourFailure(_) => FailureTag
  }

  /** The `toString` of each message kind. */
  function Encode(m: Message): string {
    Tag(m) + " " + NatToString(m.id)
  }

  function Build(tag: string, id: nat): Message
    requires tag == ElectionTag || tag == LeaderTag || tag == FailureTag
  {
    if tag == ElectionTag then Election(id)
    else if tag == LeaderTag then Leader(id)
    else NeighbourFailure(id)
  }

  /** `NodeMessageParser.parse`: split on single whitespace characters, switch on the
      first token, read the second token as the id; further tokens are ignored. */
  function Parse(s: string): (r: Parsed)
    ensures r.Msg? ==> s[..WhitespaceIndex(s)] == Tag(r.msg)
  {
    var k := WhitespaceIndex(s);
    var tag := s[..k];
    if |s| > 0 && Blank(s) then
      // every token is empty, so the split yields no tokens and `split[0]` throws
      BadToken
    else if tag != ElectionTag && tag != LeaderTag && tag != FailureTag then
      Unrecognised
    else if k == |s| then
      // no second token
      BadToken
    else
      var rest := s[k + 1..];
      var token := rest[..WhitespaceIndex(rest)];
      if IsNumeral(token) then Msg(Build(tag, ParseNat(token))) else BadToken
  }

  /** Parsing the `toString` of any message gives back the same kind with the same id. */
  lemma {:induction false} ParseEncode(m: Message)
    ensures Parse(Encode(m)) == Msg(m)
  {
    var tag, digits := Tag(m), NatToString(m.id);
    var s := Encode(m);
    assert NoWhitespace(tag) by {
      assert forall i :: 0 <= i < |tag| ==> tag[i] in "ELECTIONADRNGHBUF-";
    }
    assert s == tag + (" " + digits);
    WhitespaceIndexAfterWord(tag, " " + digits);
    assert s[..|tag|] == tag;
    assert !Blank(s) by { assert !IsWhitespace(s[0]); }
    var rest := s[|tag| + 1..];
    assert rest == digits;
    DigitsHaveNoWhitespace(digits);
    WhitespaceIndexAfterWord(digits, []);
    assert digits + [] == digits;
    assert rest[..WhitespaceIndex(rest)] == digits;
    NatRoundTrip(m.id);
  }

  /** A string whose first token is none of the three tags parses to `null`. */
  lemma UnknownTagUnrecognised(tag: string, tail: string)
    requires |tag| > 0 && NoWhitespace(tag)
    requires tag != ElectionTag && tag != LeaderTag && tag != FailureTag
    requires tail == [] || IsWhitespace(tail[0])
    ensures Parse(tag + tail) == Unrecognised
  {
    var s := tag + tail;
    WhitespaceIndexAfterWord(tag, tail);
    assert s[..|tag|] == tag;
    assert !Blank(s) by { assert s[0] == tag[0]; }
  }

  /** A string whose first token is empty, because it is empty or starts with whitespace
      without being all whitespace, also parses to `null`. */
  lemma EmptyTagUnrecognised(s: string)
    requires s == [] || (IsWhitespace(s[0]) && !Blank(s))
    ensures Parse(s) == Unrecognised
  {
  }
}
