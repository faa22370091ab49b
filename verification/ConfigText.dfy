/** The text of a configuration file: lines, comments, `key: value` pairs. */
module ConfigText {
  import opened Strings
  import opened Wrappers

  datatype SyntaxError = NoColon(line: string) | EmptyKey(line: string)

  type Pair = (string, string)

  /** White space in the C locale. */
  predicate IsSpace(c: char) {
    c == ' ' || '\t' <= c <= '\r'
  }

  function SkipSpace(s: string): (r: string)
    ensures |r| <= |s|
    ensures r != "" ==> !IsSpace(r[0])
  {
    if s != "" && IsSpace(s[0]) then SkipSpace(s[1..]) else s
  }

  function DropSpace(s: string): (r: string)
    ensures |r| <= |s|
    ensures r != "" ==> r[0] == s[0]
    ensures r != "" ==> !IsSpace(r[|r| - 1])
  {
    if s != "" && IsSpace(s[|s| - 1]) then DropSpace(s[..|s| - 1]) else s
  }

  function Trimmed(s: string): (r: string)
    ensures IsTrimmed(r)
    ensures IsTrimmed(s) ==> r == s
  {
    DropSpace(SkipSpace(s))
  }

  predicate IsTrimmed(s: string) {
    s == "" || (!IsSpace(s[0]) && !IsSpace(s[|s| - 1]))
  }

  lemma {:induction false} SkipSpaceTo(s: string, k: nat)
    requires k <= |s| && (forall j :: 0 <= j < k ==> IsSpace(s[j])) && (k < |s| ==> !IsSpace(s[k]))
    ensures SkipSpace(s) == s[k..]
  {
    if k > 0 {
      SkipSpaceTo(s[1..], k - 1);
    }
  }

  lemma {:induction false} DropSpaceTo(s: string, k: nat)
    requires k <= |s| && (forall j :: k <= j < |s| ==> IsSpace(s[j])) && (k > 0 ==> !IsSpace(s[k - 1]))
    ensures DropSpace(s) == s[..k]
  {
    if k < |s| {
      DropSpaceTo(s[..|s| - 1], k);
    }
  }

  lemma {:induction false} TrimmedSlice(s: string, start: nat, end: nat)
    requires start <= end <= |s|
    requires forall j :: 0 <= j < start || end <= j < |s| ==> IsSpace(s[j])
    requires start < end ==> !IsSpace(s[start]) && !IsSpace(s[end - 1])
    requires start == end ==> start == |s|
    ensures Trimmed(s) == s[start..end]
  {
    SkipSpaceTo(s, start);
    DropSpaceTo(s[start..], end - start);
  }

  method Trim(s: string) returns (r: string)
    ensures r == Trimmed(s)
  {
    var start, end := 0, |s|;
    while start < end && IsSpace(s[start])
      invariant 0 <= start <= end
      invariant forall j :: 0 <= j < start ==> IsSpace(s[j])
    {
      start := start + 1;
    }
    while end > start && IsSpace(s[end - 1])
      invariant start <= end <= |s|
      invariant start == end ==> start == |s|
      invariant forall j :: end <= j < |s| ==> IsSpace(s[j])
    {
      end := end - 1;
    }
    TrimmedSlice(s, start, end);
    return s[start..end];
  }

  function StripQuotes(s: string): string {
    if |s| >= 2 && ((s[0] == '"' && s[|s| - 1] == '"') || (s[0] == '\'' && s[|s| - 1] == '\'')) then s[1..|s| - 1]
    else s
  }

  /** Keys that a line can bind. */
  predicate CleanKey(key: string) {
    key != "" && IsTrimmed(key) && ':' !in key && key[0] != '#'
  }

  function ParseLine(raw: string): Result<Option<Pair>, SyntaxError> {
    ParseTrimmed(Trimmed(raw))
  }

  function ParseTrimmed(line: string): Result<Option<Pair>, SyntaxError> {
    if line == "" || line[0] == '#' then Ok(None)
    else
      var colon := IndexOf(line, ':');
      if colon == |line| then Err(NoColon(line)) else Bound(line, line[..colon], line[colon + 1..])
  }

  function Bound(line: string, left: string, right: string): Result<Option<Pair>, SyntaxError> {
    var key := Trimmed(left);
    if key == "" then Err(EmptyKey(line)) else Ok(Some((key, StripQuotes(Trimmed(right)))))
  }

  method ParseConfigLine(raw: string) returns (r: Result<Option<Pair>, SyntaxError>)
    ensures r == ParseLine(raw)
  {
    var line := Trim(raw);
    if line == "" || line[0] == '#' {
      return Ok(None);
    }
    var colon := IndexOf(line, ':');
    if colon == |line| {
      return Err(NoColon(line));
    }
    r := BindPair(line, line[..colon], line[colon + 1..]);
  }

  method BindPair(line: string, left: string, right: string) returns (r: Result<Option<Pair>, SyntaxError>)
    ensures r == Bound(line, left, right)
  {
    var key := Trim(left);
    var value := Trim(right);
    if key == "" {
      return Err(EmptyKey(line));
    }
    return Ok(Some((key, StripQuotes(value))));
  }

  /** A key that was read is clean. */
  lemma {:induction false} ReadKeyIsClean(raw: string)
    requires ParseLine(raw).Ok? && ParseLine(raw).value.Some?
    ensures CleanKey(ParseLine(raw).value.value.0)
  {
    TrimmedKeyIsClean(Trimmed(raw));
  }

  lemma {:induction false} TrimmedKeyIsClean(line: string)
    requires IsTrimmed(line) && ParseTrimmed(line).Ok? && ParseTrimmed(line).value.Some?
    ensures CleanKey(ParseTrimmed(line).value.value.0)
  {
    var left := line[..IndexOf(line, ':')];
    if left != "" {
      StartsAlike(left);
    }
  }

  lemma {:induction false} StartsAlike(s: string)
    requires s != "" && !IsSpace(s[0])
    ensures Trimmed(s) != "" && Trimmed(s)[0] == s[0]
    ensures forall c :: c in Trimmed(s) ==> c in s
  {
    assert SkipSpace(s) == s;
    DropSpaceKeeps(s);
  }

  lemma {:induction false} DropSpaceKeeps(s: string)
    ensures DropSpace(s) <= s
    ensures s != "" && !IsSpace(s[0]) ==> DropSpace(s) != ""
  {
    if |s| > 1 && IsSpace(s[|s| - 1]) {
      DropSpaceKeeps(s[..|s| - 1]);
    }
  }

  // ----- What a line says, by its layout -----

  predicate Blank(s: string) {
    forall i :: 0 <= i < |s| ==> IsSpace(s[i])
  }

  /** At least two characters, the first and the last being one and the same kind of quote. */
  predicate InQuotes(v: string) {
    |v| >= 2 && v[0] == v[|v| - 1] && (v[0] == '"' || v[0] == '\'')
  }

  /** A pair as it may stand in a line. */
  function Layout(lead: string, key: string, gap: string, pad: string, v: string, tail: string): string {
    lead + (key + gap + ([':'] + (pad + v)) + tail)
  }

  lemma {:induction false} TrimmedBetween(lead: string, s: string, tail: string)
    requires Blank(lead) && Blank(tail) && IsTrimmed(s)
    ensures Trimmed(lead + (s + tail)) == s
  {
    var all := lead + (s + tail);
    if s == "" {
      TrimmedSlice(all, |all|, |all|);
    } else {
      TrimmedSlice(all, |lead|, |lead| + |s|);
    }
  }

  /** For all clean keys, white space and values: the line binds the key to the value as it stands, except that a value
      in quotes loses them. */
  lemma {:induction false} LayoutReads(lead: string, key: string, gap: string, pad: string, v: string, tail: string)
    requires Blank(lead) && Blank(gap) && Blank(pad) && Blank(tail) && CleanKey(key) && IsTrimmed(v)
    ensures ParseLine(Layout(lead, key, gap, pad, v, tail)) == Ok(Some((key, v))) <==> !InQuotes(v)
    ensures forall q, inside :: (q == '"' || q == '\'') && v == [q] + inside + [q] ==>
              ParseLine(Layout(lead, key, gap, pad, v, tail)) == Ok(Some((key, inside)))
  {
    var line := LayoutParts(lead, key, gap, pad, v, tail);
    BoundReads(line, key, gap, pad, v);
  }

  lemma {:induction false} LayoutParts(lead: string, key: string, gap: string, pad: string, v: string, tail: string)
    returns (line: string)
    requires Blank(lead) && Blank(gap) && Blank(pad) && Blank(tail) && CleanKey(key) && IsTrimmed(v)
    ensures ParseLine(Layout(lead, key, gap, pad, v, tail)) == Bound(line, key + gap, pad + v)
  {
    if v == "" {
      line := key + gap + [':'];
      TrimmedLayout(lead, line, pad + tail);
      assert lead + (line + (pad + tail)) == Layout(lead, key, gap, pad, v, tail);
      ColonSplits(key, gap, "");
      assert line + "" == line;
      BlankBinds(line, key + gap, pad);
    } else {
      line := key + gap + [':'] + (pad + v);
      TrimmedLayout(lead, line, tail);
      assert lead + (line + tail) == Layout(lead, key, gap, pad, v, tail);
      ColonSplits(key, gap, pad + v);
    }
  }

  lemma {:induction false} BlankBinds(line: string, left: string, pad: string)
    requires Blank(pad)
    ensures Bound(line, left, "") == Bound(line, left, pad + "")
  {
    TrimmedBetween(pad, "", "");
    assert pad + ("" + "") == pad + "";
  }

  lemma {:induction false} TrimmedLayout(lead: string, s: string, tail: string)
    requires Blank(lead) && Blank(tail) && s != "" && IsTrimmed(s)
    ensures Trimmed(lead + (s + tail)) == s
  {
    TrimmedBetween(lead, s, tail);
  }

  lemma {:induction false} ColonSplits(key: string, gap: string, right: string)
    requires CleanKey(key) && Blank(gap)
    ensures var line := key + gap + [':'] + right;
            ParseTrimmed(line) == Bound(line, key + gap, right)
  {
    assert ':' !in gap;
    FirstAt(key + gap, ':', right);
  }

  lemma {:induction false} BoundReads(line: string, key: string, gap: string, pad: string, v: string)
    requires CleanKey(key) && Blank(gap) && Blank(pad) && IsTrimmed(v)
    ensures Bound(line, key + gap, pad + v) == Ok(Some((key, v))) <==> !InQuotes(v)
    ensures forall q, inside :: (q == '"' || q == '\'') && v == [q] + inside + [q] ==>
              Bound(line, key + gap, pad + v) == Ok(Some((key, inside)))
  {
    TrimmedBetween("", key, gap);
    TrimmedBetween(pad, v, "");
    assert "" + (key + gap) == key + gap && pad + (v + "") == pad + v;
    assert Bound(line, key + gap, pad + v) == Ok(Some((key, StripQuotes(v))));
    QuotesGo(v);
  }

  lemma {:induction false} QuotesGo(v: string)
    ensures StripQuotes(v) == v <==> !InQuotes(v)
    ensures forall q, inside :: (q == '"' || q == '\'') && v == [q] + inside + [q] ==> StripQuotes(v) == inside
  {
    forall q: char, inside | v == [q] + inside + [q] ensures v[1..|v| - 1] == inside {
    }
  }

  /** Every line that binds a pair has such a layout. */
  lemma {:induction false} PairHasLayout(raw: string)
    returns (lead: string, gap: string, pad: string, v: string, tail: string)
    requires ParseLine(raw).Ok? && ParseLine(raw).value.Some?
    ensures Blank(lead) && Blank(gap) && Blank(pad) && Blank(tail) && IsTrimmed(v)
    ensures raw == Layout(lead, ParseLine(raw).value.value.0, gap, pad, v, tail)
  {
    var line := Trimmed(raw);
    var colon := IndexOf(line, ':');
    var before, after;
    lead, tail := TrimmedIsInside(raw);
    before, gap := TrimmedIsInside(line[..colon]);
    assert before == "";
    pad, after := TrimmedIsInside(line[colon + 1..]);
    assert after == "";
    v := Trimmed(line[colon + 1..]);
    LayoutOf(raw, line, colon, Trimmed(line[..colon]), lead, gap, pad, v, tail);
  }

  lemma {:induction false} LayoutOf(raw: string, line: string, colon: nat, key: string, lead: string, gap: string,
                                      pad: string, v: string, tail: string)
    requires colon < |line| && line[colon] == ':' && raw == lead + (line + tail)
    requires line[..colon] == "" + (key + gap) && line[colon + 1..] == pad + (v + "")
    ensures raw == Layout(lead, key, gap, pad, v, tail)
  {
    assert line == line[..colon] + [':'] + line[colon + 1..];
  }

  lemma {:induction false} TrimmedIsInside(s: string) returns (lead: string, tail: string)
    ensures Blank(lead) && Blank(tail) && s == lead + (Trimmed(s) + tail)
  {
    lead := SkipSpaceFrom(s);
    tail := DropSpaceFrom(SkipSpace(s));
  }

  lemma {:induction false} SkipSpaceFrom(s: string) returns (lead: string)
    ensures Blank(lead) && s == lead + SkipSpace(s)
  {
    if s != "" && IsSpace(s[0]) {
      var more := SkipSpaceFrom(s[1..]);
      lead := [s[0]] + more;
    } else {
      lead := "";
    }
  }

  lemma {:induction false} DropSpaceFrom(s: string) returns (tail: string)
    ensures Blank(tail) && s == DropSpace(s) + tail
  {
    if s != "" && IsSpace(s[|s| - 1]) {
      var more := DropSpaceFrom(s[..|s| - 1]);
      tail := more + [s[|s| - 1]];
    } else {
      tail := "";
    }
  }

  /** A line binds nothing exactly if it is blank or its first character behind white space is a hash sign. */
  lemma {:induction false} BindsNothingIff(raw: string)
    ensures ParseLine(raw) == Ok(None) <==>
            Blank(raw) || exists lead, rest :: Blank(lead) && raw == lead + (['#'] + rest)
  {
    var lead, tail := TrimmedIsInside(raw);
    var line := Trimmed(raw);
    if line != "" && line[0] == '#' {
      assert raw == lead + (['#'] + (line[1..] + tail));
    }
    if Blank(raw) {
      TrimmedBetween(raw, "", "");
      assert raw + ("" + "") == raw;
    }
    if l, rest :| Blank(l) && raw == l + (['#'] + rest) {
      SkipSpaceTo(raw, |l|);
      StartsAlike(raw[|l|..]);
      assert SkipSpace(raw[|l|..]) == raw[|l|..];
    }
  }

  /** Otherwise a line is malformed exactly if it has no colon or the first character behind white space is one, and
      the error shows the line without its outer white space. */
  lemma {:induction false} MalformedIff(raw: string)
    requires ParseLine(raw) != Ok(None)
    ensures ParseLine(raw) == Err(NoColon(Trimmed(raw))) <==> ':' !in raw
    ensures ParseLine(raw) == Err(EmptyKey(Trimmed(raw))) <==>
            exists lead, rest :: Blank(lead) && raw == lead + ([':'] + rest)
    ensures ParseLine(raw).Err? ==>
              ParseLine(raw) == Err(NoColon(Trimmed(raw))) || ParseLine(raw) == Err(EmptyKey(Trimmed(raw)))
  {
    var line := Trimmed(raw);
    var lead, tail := TrimmedIsInside(raw);
    var colon := IndexOf(line, ':');
    assert ':' in raw <==> ':' in line;
    assert colon == |line| ==> line[..colon] == line;
    if colon < |line| {
      if colon == 0 {
        assert raw == lead + ([':'] + (line[1..] + tail));
      } else {
        StartsAlike(line[..colon]);
      }
    }
    if l, rest :| Blank(l) && raw == l + ([':'] + rest) {
      SkipSpaceTo(raw, |l|);
      StartsAlike(raw[|l|..]);
      assert SkipSpace(raw[|l|..]) == raw[|l|..];
    }
  }

  // ----- Printing and reading back -----

  function PrintLine(p: Pair): string {
    p.0 + [':'] + (" \"" + p.1 + "\"")
  }

  /** A printed pair is read back exactly when its key is clean; the value may hold anything, quotes, colons, hash
      signs and outer spaces included. */
  lemma {:induction false} LineReadsBackIff(p: Pair)
    ensures ParseLine(PrintLine(p)) == Ok(Some(p)) <==> CleanKey(p.0)
  {
    if CleanKey(p.0) {
      CleanPairReadsBack(p.0, p.1);
    }
    if ParseLine(PrintLine(p)) == Ok(Some(p)) {
      ReadKeyIsClean(PrintLine(p));
    }
  }

  lemma {:induction false} CleanPairReadsBack(key: string, value: string)
    requires CleanKey(key)
    ensures ParseLine(key + [':'] + (" \"" + value + "\"")) == Ok(Some((key, value)))
  {
    var right := " \"" + value + "\"";
    var line := key + [':'] + right;
    assert line[0] == key[0] && line[|line| - 1] == '"';
    FirstAt(key, ':', right);
    QuotedValue(value);
    assert Bound(line, key, right) == Ok(Some((key, value)));
  }

  lemma {:induction false} QuotedValue(value: string)
    ensures StripQuotes(Trimmed(" \"" + value + "\"")) == value
  {
    var s := " \"" + value + "\"";
    var quoted := s[1..];
    assert quoted[0] == '"' && quoted[|quoted| - 1] == '"' && quoted[1..|quoted| - 1] == value;
    assert SkipSpace(s) == SkipSpace(quoted) == quoted;
    assert DropSpace(quoted) == quoted;
  }

  // ----- Files -----

  function Print(pairs: seq<Pair>): string {
    if pairs == [] then "" else PrintLine(pairs[0]) + ['\n'] + Print(pairs[1..])
  }

  function PrintedLines(pairs: seq<Pair>): (lines: seq<string>)
    ensures |lines| == |pairs|
  {
    if pairs == [] then [] else [PrintLine(pairs[0])] + PrintedLines(pairs[1..])
  }

  lemma {:induction false} LinesOfPrint(pairs: seq<Pair>)
    requires forall p :: p in pairs ==> '\n' !in PrintLine(p)
    ensures Lines(Print(pairs)) == PrintedLines(pairs)
  {
    if pairs != [] {
      assert pairs[0] in pairs;
      assert forall p :: p in pairs[1..] ==> p in pairs;
      LinesOfPrint(pairs[1..]);
      FirstLine(PrintLine(pairs[0]), Print(pairs[1..]));
    }
  }
}
