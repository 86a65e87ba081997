/** The device identity main builds before initialising the client: the
    interface's six-byte link address printed as "xx:xx:xx:xx:xx:xx" into
    an 18-character buffer. */
module MacAddress {
  import opened MenderTypes

  /** One lower-case hexadecimal digit, as printf's %x writes it. */
  function HexDigit(d: nat): (c: char)
    requires d < 16
  {
    if d < 10 then ('0' as int + d) as char else ('a' as int + d - 10) as char
  }

  /** The value of a lower-case hexadecimal digit, None for any other character. */
  function DigitValue(c: char): (r: Option<nat>)
    ensures r.Some? ==> r.value < 16
  {
    if '0' <= c <= '9' then Some(c as int - '0' as int)
    else if 'a' <= c <= 'f' then Some(c as int - 'a' as int + 10)
    else None
  }

  lemma DigitRoundTrip(d: nat, c: char)
    requires d < 16
    ensures DigitValue(HexDigit(d)) == Some(d)
    ensures DigitValue(c).Some? ==> HexDigit(DigitValue(c).value) == c
  {
  }

  /** "%02x": two digits, high nibble first. */
  function Hex2(b: byte): (r: string)
    ensures |r| == 2
  {
    [HexDigit(b / 16), HexDigit(b % 16)]
  }

  /** Reads two hexadecimal digits back into a byte. */
  function ParseHex2(s: string): (r: Option<byte>)
    requires |s| == 2
  {
    match (DigitValue(s[0]), DigitValue(s[1]))
    case (Some(hi), Some(lo)) => Some(hi * 16 + lo)
    case _ => None
  }

  lemma Hex2RoundTrip(b: byte, s: string)
    requires |s| == 2
    ensures ParseHex2(Hex2(b)) == Some(b)
    ensures ParseHex2(s).Some? ==> Hex2(ParseHex2(s).value) == s
  {
    DigitRoundTrip(b / 16, s[0]);
    DigitRoundTrip(b % 16, s[1]);
    if ParseHex2(s).Some? {
      var hi := DigitValue(s[0]).value;
      var lo := DigitValue(s[1]).value;
      var v: byte := hi * 16 + lo;
      assert v / 16 == hi && v % 16 == lo;
    }
  }

  /** The bytes as two-digit groups separated by colons. */
  function Groups(bytes: seq<byte>): (r: string)
    requires |bytes| >= 1
    ensures |r| == 3 * |bytes| - 1
    decreases |bytes|
  {
    if |bytes| == 1 then Hex2(bytes[0]) else Hex2(bytes[0]) + ":" + Groups(bytes[1..])
  }

  /** The MAC string main prints, "%02x:%02x:%02x:%02x:%02x:%02x". */
  function Format(addr: seq<byte>): (r: string)
    requires |addr| == 6
    ensures |r| == 17
  {
    Groups(addr)
  }

  /** Reads colon-separated two-digit groups back into bytes. */
  function ParseGroups(s: string): (r: Option<seq<byte>>)
    ensures r.Some? ==> |r.value| >= 1 && |s| == 3 * |r.value| - 1
    decreases |s|
  {
    if |s| < 2 then None
    else match ParseHex2(s[..2])
      case None => None
      case Some(b) =>
        if |s| == 2 then Some([b])
        else if |s| > 3 && s[2] == ':' then
          match ParseGroups(s[3..])
          case None => None
          case Some(rest) => Some([b] + rest)
        else None
  }

  /** The inverse of Format: a MAC string back to its six bytes. */
  function Parse(s: string): (r: Option<seq<byte>>)
    ensures r.Some? ==> |r.value| == 6 && |s| == 17
  {
    if |s| != 17 then None else ParseGroups(s)
  }

  lemma {:induction false} GroupsRoundTrip(bytes: seq<byte>)
    requires |bytes| >= 1
    ensures ParseGroups(Groups(bytes)) == Some(bytes)
    decreases |bytes|
  {
    var s := Groups(bytes);
    Hex2RoundTrip(bytes[0], s[..2]);
    assert s[..2] == Hex2(bytes[0]);
    if |bytes| > 1 {
      GroupsRoundTrip(bytes[1..]);
      assert s[2] == ':';
      assert s[3..] == Groups(bytes[1..]);
      assert ParseHex2(s[..2]) == Some(bytes[0]);
      assert ParseGroups(s) == Some([bytes[0]] + bytes[1..]);
      assert [bytes[0]] + bytes[1..] == bytes;
    } else {
      assert bytes == [bytes[0]];
    }
  }

  lemma {:induction false} ParsedGroupsRoundTrip(s: string)
    requires ParseGroups(s).Some?
    ensures Groups(ParseGroups(s).value) == s
    decreases |s|
  {
    var bytes := ParseGroups(s).value;
    Hex2RoundTrip(bytes[0], s[..2]);
    if |s| > 2 {
      ParsedGroupsRoundTrip(s[3..]);
      assert bytes[1..] == ParseGroups(s[3..]).value;
      assert s == s[..2] + ":" + s[3..];
    }
  }

  /** Formatting then parsing gives back the address, and every string the
      parser accepts is the formatting of what it returns: the printed MAC
      identifies the device's address exactly. */
  lemma FormatParseInverse(addr: seq<byte>, s: string)
    requires |addr| == 6
    ensures Parse(Format(addr)) == Some(addr)
    ensures Parse(s).Some? ==> Format(Parse(s).value) == s
  {
    GroupsRoundTrip(addr);
    if Parse(s).Some? {
      ParsedGroupsRoundTrip(s);
    }
  }

  /** snprintf(): at most cap - 1 characters, then the terminating NUL. */
  function Truncate(s: string, cap: nat): (r: string)
    requires cap > 0
    ensures |r| <= |s| && |r| < cap && r == s[..|r|]
    ensures |s| < cap ==> r == s
  {
    if |s| < cap then s else s[..cap - 1]
  }

  /** The 18-byte buffer main prints into holds the whole address. */
  lemma MacFitsBuffer(addr: seq<byte>)
    requires |addr| == 6
    ensures Truncate(Format(addr), 18) == Format(addr)
  {
  }
}
