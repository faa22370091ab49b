/** Flat JSON objects of strings, integers and booleans: their compact text, and a decoder for it that follows
    sections 4 to 7 of RFC 8259. A string is a sequence of code units; byte strings are those below 256. */
module Json {
  import opened Strings
  import opened Wrappers

  datatype Value = Text(text: string) | Number(number: int) | Boolean(bool)

  datatype Member = Member(name: string, value: Value)

  // ----- Text -----

  /** One character of a string, as the logger escapes it. */
  function EscapedChar(c: char): string {
    if c == '"' then "\\\""
    else if c == '\\' then "\\\\"
    else if c == '\n' then "\\n"
    else if c == '\r' then "\\r"
    else if c == '\t' then "\\t"
    else if c as int < 0x20 then "\\u00" + [HexChar(c as int / 16), HexChar(c as int % 16)]
    else [c]
  }

  function Escaped(s: string): string {
    if s == "" then "" else EscapedChar(s[0]) + Escaped(s[1..])
  }

  lemma {:induction false} EscapedAppend(s: string, c: char)
    ensures Escaped(s + [c]) == Escaped(s) + EscapedChar(c)
  {
    if s == "" {
      assert [c][1..] == "" && Escaped([c][1..]) == "";
      assert "" + [c] == [c];
    } else {
      assert (s + [c])[1..] == s[1..] + [c];
      EscapedAppend(s[1..], c);
    }
  }

  function Quoted(s: string): string {
    "\"" + Escaped(s) + "\""
  }

  function Decimal(n: nat): string {
    if n < 10 then [DigitChar(n)] else Decimal(n / 10) + [DigitChar(n % 10)]
  }

  function DigitChar(d: nat): char
    requires d < 10
  {
    "0123456789"[d]
  }

  function ValueText(v: Value): string {
    match v
    case Text(s) => Quoted(s)
    case Number(n) => if n < 0 then "-" + Decimal(-n) else Decimal(n)
    case Boolean(b) => if b then "true" else "false"
  }

  function MemberText(m: Member): string {
    Quoted(m.name) + ":" + ValueText(m.value)
  }

  /** The members after the first one, each with the comma before it. */
  function MoreMembers(members: seq<Member>): string {
    if members == [] then "" else "," + MemberText(members[0]) + MoreMembers(members[1..])
  }

  lemma {:induction false} MoreMembersAppend(members: seq<Member>, m: Member)
    ensures MoreMembers(members + [m]) == MoreMembers(members) + "," + MemberText(m)
  {
    if members == [] {
      assert [] + [m] == [m] && [m][1..] == [];
      assert MoreMembers([m]) == "," + MemberText(m) + "";
    } else {
      assert (members + [m])[1..] == members[1..] + [m];
      MoreMembersAppend(members[1..], m);
    }
  }

  function ObjectText(members: seq<Member>): string
    requires members != []
  {
    "{" + MemberText(members[0]) + MoreMembers(members[1..]) + "}"
  }

  // ----- Decoder: every function reads a prefix and gives back what follows it -----

  function HexValue(c: char): Option<nat> {
    if '0' <= c <= '9' then Some(c as int - '0' as int)
    else if 'a' <= c <= 'f' then Some(c as int - 'a' as int + 10)
    else if 'A' <= c <= 'F' then Some(c as int - 'A' as int + 10)
    else None
  }

  /** Four hexadecimal digits. */
  function ReadHex4(s: string): (r: Option<nat>)
    ensures r.Some? ==> |s| >= 4 && r.value < 0x10000
  {
    if |s| < 4 then None
    else
      match (HexValue(s[0]), HexValue(s[1]), HexValue(s[2]), HexValue(s[3]))
      case (Some(a), Some(b), Some(c), Some(d)) =>
        if a < 16 && b < 16 && c < 16 && d < 16 then Some(((a * 16 + b) * 16 + c) * 16 + d) else None
      case _ => None
  }

  /** What follows a backslash and a `u`: a code unit, or two that form a surrogate pair. */
  function ReadUnicode(s: string): (r: Option<(char, string)>)
    ensures r.Some? ==> |r.value.1| < |s|
  {
    match ReadHex4(s)
    case None => None
    case Some(high) =>
      if 0xDC00 <= high < 0xE000 then None
      else if 0xD800 <= high < 0xDC00 then
        if |s| >= 6 && s[4] == '\\' && s[5] == 'u' then
          match ReadHex4(s[6..])
          case Some(low) =>
            if 0xDC00 <= low < 0xE000 then
              Some(((0x10000 + (high - 0xD800) * 0x400 + (low - 0xDC00)) as char, s[10..]))
            else None
          case None => None
        else None
      else Some((high as char, s[4..]))
  }

  /** The characters the one-letter escapes stand for. */
  function ReadShortEscape(c: char): Option<char> {
    match c
    case '"' => Some('"')
    case '\\' => Some('\\')
    case '/' => Some('/')
    case 'b' => Some(8 as char)
    case 'f' => Some(12 as char)
    case 'n' => Some('\n')
    case 'r' => Some('\r')
    case 't' => Some('\t')
    case _ => None
  }

  /** The rest of a string after its opening quote. */
  function ReadChars(s: string): (r: Option<(string, string)>)
    ensures r.Some? ==> |r.value.1| < |s|
    decreases |s|
  {
    if s == "" then None
    else if s[0] == '"' then Some(("", s[1..]))
    else if s[0] == '\\' then
      if |s| < 2 then None
      else if s[1] == 'u' then
        match ReadUnicode(s[2..])
        case None => None
        case Some((c, rest)) => Consed(c, ReadChars(rest))
      else
        match ReadShortEscape(s[1])
        case None => None
        case Some(c) => Consed(c, ReadChars(s[2..]))
    else if s[0] as int < 0x20 then None
    else Consed(s[0], ReadChars(s[1..]))
  }

  function Consed(c: char, r: Option<(string, string)>): Option<(string, string)> {
    match r
    case None => None
    case Some((text, rest)) => Some(([c] + text, rest))
  }

  function ReadString(s: string): (r: Option<(string, string)>)
    ensures r.Some? ==> |r.value.1| < |s|
  {
    if s != "" && s[0] == '"' then ReadChars(s[1..]) else None
  }

  predicate IsDigit(c: char) {
    '0' <= c <= '9'
  }

  function LeadingDigits(s: string): (n: nat)
    ensures n <= |s|
  {
    if s == "" || !IsDigit(s[0]) then 0 else 1 + LeadingDigits(s[1..])
  }

  function DecimalValue(digits: string): nat
    requires forall i :: 0 <= i < |digits| ==> IsDigit(digits[i])
  {
    if digits == "" then 0
    else
      var n := |digits| - 1;
      assert IsDigit(digits[n]);
      10 * DecimalValue(digits[..n]) + (digits[n] as int - '0' as int)
  }

  lemma {:induction false} LeadingDigitsAreDigits(s: string)
    ensures forall i :: 0 <= i < LeadingDigits(s) ==> IsDigit(s[i])
  {
    if s != "" && IsDigit(s[0]) {
      LeadingDigitsAreDigits(s[1..]);
    }
  }

  /** An integer without fraction or exponent; leading zeros are refused. */
  function ReadNatural(s: string): (r: Option<(nat, string)>)
    ensures r.Some? ==> |r.value.1| < |s|
  {
    var n := LeadingDigits(s);
    LeadingDigitsAreDigits(s);
    if n == 0 || (n > 1 && s[0] == '0') || (n < |s| && s[n] in ".eE") then None
    else Some((DecimalValue(s[..n]), s[n..]))
  }

  function ReadValue(s: string): (r: Option<(Value, string)>)
    ensures r.Some? ==> |r.value.1| < |s|
  {
    if s == "" then None
    else if s[0] == '"' then
      match ReadString(s)
      case None => None
      case Some((text, rest)) => Some((Text(text), rest))
    else if "true" <= s then Some((Boolean(true), s[4..]))
    else if "false" <= s then Some((Boolean(false), s[5..]))
    else if s[0] == '-' then
      match ReadNatural(s[1..])
      case None => None
      case Some((n, rest)) => Some((Number(-(n as int)), rest))
    else
      match ReadNatural(s)
      case None => None
      case Some((n, rest)) => Some((Number(n), rest))
  }

  function ReadMember(s: string): (r: Option<(Member, string)>)
    ensures r.Some? ==> |r.value.1| < |s|
  {
    match ReadString(s)
    case None => None
    case Some((name, rest)) =>
      if rest == "" || rest[0] != ':' then None
      else
        match ReadValue(rest[1..])
        case None => None
        case Some((value, after)) => Some((Member(name, value), after))
  }

  /** Members up to the closing brace, each after a comma. */
  function ReadMore(s: string): Option<(seq<Member>, string)>
    decreases |s|
  {
    if s == "" then None
    else if s[0] == '}' then Some(([], s[1..]))
    else if s[0] == ',' then
      match ReadMember(s[1..])
      case None => None
      case Some((m, rest)) =>
        match ReadMore(rest)
        case None => None
        case Some((more, after)) => Some(([m] + more, after))
    else None
  }

  /** A whole object, with nothing after it. */
  function Decode(s: string): Option<seq<Member>> {
    if s == "" || s[0] != '{' then None
    else if s == "{}" then Some([])
    else
      match ReadMember(s[1..])
      case None => None
      case Some((first, rest)) =>
        match ReadMore(rest)
        case Some((more, "")) => Some([first] + more)
        case _ => None
  }

  // ----- Inversion -----

  lemma {:induction false} ReadEscapedChar(c: char, rest: string)
    ensures ReadChars(EscapedChar(c) + rest) == Consed(c, ReadChars(rest))
  {
    var s := EscapedChar(c) + rest;
    if c as int < 0x20 && c != '\n' && c != '\r' && c != '\t' {
      HexCharValue(c as int / 16);
      HexCharValue(c as int % 16);
      assert s[2..] == "00" + [HexChar(c as int / 16), HexChar(c as int % 16)] + rest;
      assert s[2..][4..] == rest;
    } else if |EscapedChar(c)| == 2 {
      assert s[2..] == rest;
    } else {
      assert s[1..] == rest;
    }
  }

  lemma {:induction false} HexCharValue(d: nat)
    requires d < 16
    ensures HexValue(HexChar(d)) == Some(d)
  {
    if d < 10 {
      DigitCharValue(d);
    } else {
      assert d == 10 || d == 11 || d == 12 || d == 13 || d == 14 || d == 15;
    }
  }

  lemma {:induction false} DigitCharValue(d: nat)
    requires d < 10
    ensures DigitChar(d) == HexChar(d) && IsDigit(DigitChar(d)) && DigitChar(d) as int == '0' as int + d
  {
    assert d == 0 || d == 1 || d == 2 || d == 3 || d == 4 || d == 5 || d == 6 || d == 7 || d == 8 || d == 9;
  }

  /** The string decoder undoes the escaping of every string, whatever follows it. */
  lemma {:induction false} ReadQuoted(s: string, rest: string)
    ensures ReadString(Quoted(s) + rest) == Some((s, rest))
  {
    assert (Quoted(s) + rest)[1..] == Escaped(s) + ("\"" + rest);
    ReadEscaped(s, "\"" + rest);
    assert ("\"" + rest)[1..] == rest;
    assert ReadChars("\"" + rest) == Some(("", rest));
    assert s + "" == s;
  }

  /** Escaped text in front of the closing quote. */
  lemma {:induction false} ReadEscaped(s: string, after: string)
    requires after != "" && after[0] == '"'
    ensures ReadChars(Escaped(s) + after) == Some((s, after[1..]))
  {
    if s == "" {
      assert Escaped(s) + after == after;
    } else {
      assert Escaped(s) + after == EscapedChar(s[0]) + (Escaped(s[1..]) + after);
      ReadEscapedChar(s[0], Escaped(s[1..]) + after);
      ReadEscaped(s[1..], after);
      assert [s[0]] + s[1..] == s;
    }
  }

  lemma {:induction false} DecimalDigits(n: nat)
    ensures Decimal(n) != "" && forall i :: 0 <= i < |Decimal(n)| ==> IsDigit(Decimal(n)[i])
    ensures DecimalValue(Decimal(n)) == n
    ensures Decimal(n)[0] == '0' ==> n == 0 && |Decimal(n)| == 1
  {
    if n < 10 {
      DigitCharValue(n);
      assert [DigitChar(n)][..0] == "";
    } else {
      DecimalDigits(n / 10);
      DigitCharValue(n % 10);
      assert Decimal(n)[..|Decimal(n)| - 1] == Decimal(n / 10);
    }
  }

  lemma {:induction false} LeadingDigitsOf(digits: string, rest: string)
    requires forall i :: 0 <= i < |digits| ==> IsDigit(digits[i])
    requires rest != "" ==> !IsDigit(rest[0])
    ensures LeadingDigits(digits + rest) == |digits|
  {
    if digits == "" {
      assert digits + rest == rest;
    } else {
      assert (digits + rest)[1..] == digits[1..] + rest;
      LeadingDigitsOf(digits[1..], rest);
    }
  }

  /** What may follow a value in an object. */
  predicate EndsValue(rest: string) {
    rest != "" && (rest[0] == ',' || rest[0] == '}')
  }

  lemma {:induction false} ReadDecimal(n: nat, rest: string)
    requires EndsValue(rest)
    ensures ReadNatural(Decimal(n) + rest) == Some((n, rest))
  {
    DecimalDigits(n);
    LeadingDigitsOf(Decimal(n), rest);
    var s := Decimal(n) + rest;
    assert s[..|Decimal(n)|] == Decimal(n) && s[|Decimal(n)|..] == rest;
  }

  lemma {:induction false} ReadBooleanText(b: bool, rest: string)
    ensures ReadValue(ValueText(Boolean(b)) + rest) == Some((Boolean(b), rest))
  {
    var s := ValueText(Boolean(b)) + rest;
    if b {
      assert s[..4] == "true" && s[4..] == rest;
    } else {
      assert s[..5] == "false" && s[5..] == rest && s[0] == 'f';
    }
  }

  lemma {:induction false} ReadNumberText(n: int, rest: string)
    requires EndsValue(rest)
    ensures ReadValue(ValueText(Number(n)) + rest) == Some((Number(n), rest))
  {
    if n < 0 {
      ReadDecimal(-n, rest);
      ReadNegative("-" + Decimal(-n) + rest, Decimal(-n) + rest, -n, rest);
    } else {
      ReadDecimal(n, rest);
      DecimalDigits(n);
      ReadPositive(Decimal(n) + rest, n, rest);
    }
  }

  lemma {:induction false} ReadNegative(s: string, digits: string, n: nat, rest: string)
    requires s == "-" + digits && ReadNatural(digits) == Some((n, rest))
    ensures ReadValue(s) == Some((Number(-(n as int)), rest))
  {
    assert s[1..] == digits && s[0] == '-';
  }

  lemma {:induction false} ReadPositive(s: string, n: nat, rest: string)
    requires s != "" && IsDigit(s[0]) && ReadNatural(s) == Some((n, rest))
    ensures ReadValue(s) == Some((Number(n), rest))
  {
  }

  lemma {:induction false} ReadValueText(v: Value, rest: string)
    requires EndsValue(rest)
    ensures ReadValue(ValueText(v) + rest) == Some((v, rest))
  {
    match v
    case Text(text) =>
      ReadQuoted(text, rest);
      assert (Quoted(text) + rest)[0] == '"';
    case Boolean(b) => ReadBooleanText(b, rest);
    case Number(n) => ReadNumberText(n, rest);
  }

  lemma {:induction false} ReadMemberText(m: Member, rest: string)
    requires EndsValue(rest)
    ensures ReadMember(MemberText(m) + rest) == Some((m, rest))
  {
    var value := ValueText(m.value) + rest;
    ReadQuoted(m.name, ":" + value);
    ReadValueText(m.value, rest);
    ReadColon(Quoted(m.name) + (":" + value), m.name, value, m.value, rest);
    JoinFour(Quoted(m.name), ":", ValueText(m.value), rest);
  }

  lemma {:induction false} ReadColon(s: string, name: string, text: string, value: Value, rest: string)
    requires ReadString(s) == Some((name, ":" + text)) && ReadValue(text) == Some((value, rest))
    ensures ReadMember(s) == Some((Member(name, value), rest))
  {
    assert (":" + text)[1..] == text;
  }

  lemma {:induction false} ReadMoreText(members: seq<Member>)
    ensures ReadMore(MoreMembers(members) + "}") == Some((members, ""))
    ensures EndsValue(MoreMembers(members) + "}")
  {
    if members == [] {
      assert MoreMembers(members) + "}" == "}" && "}"[1..] == "";
    } else {
      var rest := MoreMembers(members[1..]) + "}";
      ReadMoreText(members[1..]);
      ReadMemberText(members[0], rest);
      ReadComma(MemberText(members[0]) + rest, members[0], rest, members[1..]);
      JoinFour(",", MemberText(members[0]), MoreMembers(members[1..]), "}");
      assert [members[0]] + members[1..] == members;
    }
  }

  lemma {:induction false} ReadComma(s: string, m: Member, rest: string, more: seq<Member>)
    requires ReadMember(s) == Some((m, rest)) && ReadMore(rest) == Some((more, ""))
    ensures ReadMore("," + s) == Some(([m] + more, ""))
  {
    assert ("," + s)[1..] == s;
  }

  /** Decoding the text of an object gives back its members, in order, for every name and value. */
  lemma {:induction false} DecodeInvertsText(members: seq<Member>)
    requires members != []
    ensures Decode(ObjectText(members)) == Some(members)
  {
    var rest := MoreMembers(members[1..]) + "}";
    ReadMoreText(members[1..]);
    ReadMemberText(members[0], rest);
    ReadBrace(MemberText(members[0]) + rest, members[0], rest, members[1..]);
    JoinFour("{", MemberText(members[0]), MoreMembers(members[1..]), "}");
    assert [members[0]] + members[1..] == members;
  }

  lemma {:induction false} ReadBrace(s: string, m: Member, rest: string, more: seq<Member>)
    requires ReadMember(s) == Some((m, rest)) && ReadMore(rest) == Some((more, ""))
    ensures Decode("{" + s) == Some([m] + more)
  {
    assert ("{" + s)[1..] == s;
    assert s != "}" by {
      assert s == "}" ==> ReadString(s).None?;
    }
  }

  lemma {:induction false} EscapedIsOneLine(s: string)
    ensures OneLine(Escaped(s))
  {
    if s != "" {
      EscapedIsOneLine(s[1..]);
      var c := s[0];
      if c as int < 0x20 {
        HexCharValue(c as int / 16);
        HexCharValue(c as int % 16);
      }
    }
  }

  lemma {:induction false} MemberIsOneLine(m: Member)
    ensures OneLine(MemberText(m))
  {
    EscapedIsOneLine(m.name);
    match m.value
    case Text(s) => EscapedIsOneLine(s);
    case Number(n) => DecimalDigits(if n < 0 then -n else n);
    case Boolean(_) =>
  }

  lemma {:induction false} MoreMembersAreOneLine(members: seq<Member>)
    ensures OneLine(MoreMembers(members))
  {
    if members != [] {
      MemberIsOneLine(members[0]);
      MoreMembersAreOneLine(members[1..]);
    }
  }

  /** No object text contains a raw line feed, so a line of a log holds one object. */
  lemma {:induction false} ObjectIsOneLine(members: seq<Member>)
    requires members != []
    ensures OneLine(ObjectText(members))
  {
    MemberIsOneLine(members[0]);
    MoreMembersAreOneLine(members[1..]);
  }
}
