/** A reader of the text exposition that knows its line formats only. */
module MetricsReader {
  import opened Metrics
  import opened Strings
  import opened Wrappers

  datatype Reading =
    | Help(name: string, help: string)
    | Kind(name: string, isCounter: bool)
    | Sample(name: string, labels: seq<Label>, value: string)

  /** The position of the last space, or the length if there is none. */
  function LastSpace(s: string): (i: nat)
    ensures i <= |s|
  {
    if s == "" then 0
    else
      var n := |s| - 1;
      if s[n] == ' ' then n
      else
        var i := LastSpace(s[..n]);
        if i == n then |s| else i
  }

  /** What follows the name and the next space. */
  function SplitName(s: string): Option<(string, string)> {
    var end := IndexOf(s, ' ');
    if end == |s| then None else Some((s[..end], s[end + 1..]))
  }

  function ReadHelp(rest: string): Option<Reading> {
    match SplitName(rest)
    case None => None
    case Some((name, help)) => Some(Help(name, help))
  }

  function ReadKind(rest: string): Option<Reading> {
    match SplitName(rest)
    case None => None
    case Some((name, kind)) =>
      if kind == "counter" then Some(Kind(name, true))
      else if kind == "gauge" then Some(Kind(name, false))
      else None
  }

  function ReadSample(line: string): Option<Reading> {
    var end := LastSpace(line);
    if end == |line| then None
    else
      match ReadKey(line[..end])
      case None => None
      case Some((name, labels)) => Some(Sample(name, labels, line[end + 1..]))
  }

  function ReadLine(line: string): Option<Reading> {
    if "# HELP " <= line then ReadHelp(line[7..])
    else if "# TYPE " <= line then ReadKind(line[7..])
    else ReadSample(line)
  }

  function ReadLines(lines: seq<string>): seq<Option<Reading>> {
    if lines == [] then [] else ReadLines(lines[..|lines| - 1]) + [ReadLine(lines[|lines| - 1])]
  }

  /** An entry and its value that print without ambiguity. */
  predicate Legible(e: Entry, value: string) {
    && ' ' !in e.name && '{' !in e.name && OneLine(e.name) && OneLine(e.help)
    && CleanLabels(e.labels) && OneLine(LabelsText(e.labels))
    && ' ' !in value && OneLine(value)
  }

  /** What the text should say of the first `n` entries: name and help, name and kind wherever the name changes, and the
      sample of each. */
  function DueReadings(entries: seq<Entry>, values: seq<string>, n: nat): seq<Option<Reading>>
    requires n <= |entries| == |values|
  {
    if n == 0 then []
    else
      var e := entries[n - 1];
      DueReadings(entries, values, n - 1)
      + (if e.name == (if n == 1 then "" else entries[n - 2].name) then []
         else [Some(Help(e.name, e.help)), Some(Kind(e.name, e.counter != null))])
      + [Some(Sample(e.name, e.labels, values[n - 1]))]
  }

  lemma {:induction false} LastSpaceIs(a: string, b: string)
    requires ' ' !in b
    ensures LastSpace(a + [' '] + b) == |a|
  {
    var s := a + [' '] + b;
    if b != "" {
      assert s[..|s| - 1] == a + [' '] + b[..|b| - 1];
      LastSpaceIs(a, b[..|b| - 1]);
    }
  }

  lemma {:induction false} HelpReads(e: Entry)
    requires ' ' !in e.name
    ensures ReadLine(HelpLine(e)) == Some(Help(e.name, e.help))
  {
    FirstAt(e.name, ' ', e.help);
    assert HelpLine(e)[7..] == e.name + [' '] + e.help;
    assert HelpLine(e)[..7] == "# HELP ";
  }

  lemma {:induction false} KindReads(e: Entry)
    requires ' ' !in e.name
    ensures ReadLine(TypeLine(e)) == Some(Kind(e.name, e.counter != null))
  {
    var word := if e.counter != null then "counter" else "gauge";
    WordReads(e.name, word);
    TypeTag("# TYPE ", e.name, " ", word);
  }

  lemma {:induction false} WordReads(name: string, word: string)
    requires ' ' !in name && (word == "counter" || word == "gauge")
    ensures ReadKind(name + [' '] + word) == Some(Kind(name, word == "counter"))
  {
    FirstAt(name, ' ', word);
  }

  lemma {:induction false} TypeTag(tag: string, name: string, space: string, word: string)
    requires tag == "# TYPE " && space == [' ']
    ensures ReadLine(tag + name + space + word) == ReadKind(name + [' '] + word)
  {
    var line := tag + name + space + word;
    assert line[7..] == name + [' '] + word;
    assert line[..7] == tag && line[2] == 'T';
  }

  lemma {:induction false} SampleReads(e: Entry, value: string)
    requires Legible(e, value)
    ensures ReadLine(e.name + LabelsText(e.labels) + " " + value) == Some(Sample(e.name, e.labels, value))
  {
    var line := e.name + LabelsText(e.labels) + [' '] + value;
    LastSpaceIs(Key(e.name, e.labels), value);
    KeyReadsBackIff(e.name, e.labels);
    assert line[..|Key(e.name, e.labels)|] == Key(e.name, e.labels);
    NotAHeader(e.name, LabelsText(e.labels), value);
  }

  /** A line that starts with a hash sign and a space has no second space here. */
  lemma {:induction false} NotAHeader(name: string, labels: string, value: string)
    requires ' ' !in name && ' ' !in value && (labels != "" ==> labels[0] == '{')
    ensures var line := name + labels + [' '] + value;
            |line| > 6 && line[0] == '#' && line[1] == ' ' ==> line[6] != ' '
  {
    var line := name + labels + [' '] + value;
    if labels != "" {
      assert line[|name|] == '{';
      assert |name| > 1 ==> line[1] == name[1];
    } else if |name| == 1 && |line| > 6 {
      assert line[6] == value[4];
    } else if |name| > 1 {
      assert line[1] == name[1];
    }
  }

  ghost predicate AllLegible(entries: seq<Entry>, values: seq<string>)
    requires |entries| == |values|
  {
    forall i :: 0 <= i < |entries| ==> Legible(entries[i], values[i])
  }

  lemma {:induction false} ReadLinesAppend(lines: seq<string>, more: seq<string>)
    ensures ReadLines(lines + more) == ReadLines(lines) + ReadLines(more)
  {
    if more == [] {
      assert lines + more == lines;
    } else {
      var n := |more| - 1;
      assert (lines + more)[..|lines| + n] == lines + more[..n];
      ReadLinesAppend(lines, more[..n]);
    }
  }

  function HeaderLines(b: Block): seq<string> {
    if b.header then [b.help, b.kind] else []
  }

  function HeaderReadings(e: Entry, header: bool): seq<Option<Reading>> {
    if header then [Some(Help(e.name, e.help)), Some(Kind(e.name, e.counter != null))] else []
  }

  /** The lines of one block, read. */
  lemma {:induction false} BlockReads(e: Entry, header: bool, value: string)
    requires Legible(e, value)
    ensures ReadLines(HeaderLines(BlockOf(e, header, value))) == HeaderReadings(e, header)
    ensures ReadLines([BlockOf(e, header, value).sample]) == [Some(Sample(e.name, e.labels, value))]
  {
    var b := BlockOf(e, header, value);
    HelpReads(e);
    KindReads(e);
    SampleReads(e, value);
    ReadTwo(b.help, b.kind);
    assert [b.sample][..0] == [];
  }

  lemma {:induction false} ReadTwo(a: string, b: string)
    ensures ReadLines([a, b]) == [ReadLine(a), ReadLine(b)]
  {
    assert [a, b][..1] == [a] && [a][..0] == [];
    assert ReadLines([a]) == [ReadLine(a)];
  }

  lemma {:induction false} DueLinesRead(entries: seq<Entry>, values: seq<string>, n: nat)
    requires n <= |entries| == |values| && AllLegible(entries, values)
    ensures ReadLines(DueLines(Blocks(entries, values, n))) == DueReadings(entries, values, n)
  {
    if n > 0 {
      DueLinesRead(entries, values, n - 1);
      EntryReads(entries[n - 1], HasHeader(entries, n - 1), values[n - 1], Blocks(entries, values, n - 1));
      OneMoreEntry(entries, values, n);
    }
  }

  lemma {:induction false} EntryReads(e: Entry, header: bool, value: string, before: seq<Block>)
    requires Legible(e, value)
    ensures ReadLines(DueLines(before + [BlockOf(e, header, value)]))
         == ReadLines(DueLines(before)) + HeaderReadings(e, header) + [Some(Sample(e.name, e.labels, value))]
  {
    BlockReads(e, header, value);
    OneMoreBlock(before, BlockOf(e, header, value));
  }

  lemma {:induction false} OneMoreEntry(entries: seq<Entry>, values: seq<string>, n: nat)
    requires 0 < n <= |entries| == |values|
    ensures var e, header := entries[n - 1], HasHeader(entries, n - 1);
            DueReadings(entries, values, n) == DueReadings(entries, values, n - 1) + HeaderReadings(e, header)
                                               + [Some(Sample(e.name, e.labels, values[n - 1]))]
  {
  }

  lemma {:induction false} OneMoreBlock(blocks: seq<Block>, b: Block)
    ensures ReadLines(DueLines(blocks + [b]))
         == ReadLines(DueLines(blocks)) + ReadLines(HeaderLines(b)) + ReadLines([b.sample])
  {
    DueLinesAppend(blocks, b);
    ReadLinesAppend(DueLines(blocks) + HeaderLines(b), [b.sample]);
    ReadLinesAppend(DueLines(blocks), HeaderLines(b));
  }

  lemma {:induction false} DueLinesAppend(blocks: seq<Block>, b: Block)
    ensures DueLines(blocks + [b]) == DueLines(blocks) + (if b.header then [b.help, b.kind] else []) + [b.sample]
  {
    assert (blocks + [b])[..|blocks|] == blocks;
  }

  lemma {:induction false} LegibleIsOneLine(entries: seq<Entry>, values: seq<string>, n: nat)
    requires n <= |entries| == |values| && AllLegible(entries, values)
    ensures AllOneLine(DueLines(Blocks(entries, values, n)))
  {
    if n > 0 {
      var b := BlockOf(entries[n - 1], HasHeader(entries, n - 1), values[n - 1]);
      LegibleIsOneLine(entries, values, n - 1);
      BlockIsOneLine(entries[n - 1], HasHeader(entries, n - 1), values[n - 1]);
      DueLinesAppend(Blocks(entries, values, n - 1), b);
    }
  }

  lemma {:induction false} BlockIsOneLine(e: Entry, header: bool, value: string)
    requires Legible(e, value)
    ensures Printable(BlockOf(e, header, value))
  {
  }

  /** For all entries whose names hold no space or brace, whose labels read back and whose texts hold no line feed: the
      lines of the exposition say exactly the name and help, the name and kind, and the samples that are due. */
  lemma {:induction false} ExpositionReadsBack(entries: seq<Entry>, values: seq<string>)
    requires |entries| == |values| && AllLegible(entries, values)
    ensures ReadLines(Lines(Exposition(entries, values, |entries|))) == DueReadings(entries, values, |entries|)
  {
    LegibleIsOneLine(entries, values, |entries|);
    ExpositionIsLines(entries, values);
    DueLinesRead(entries, values, |entries|);
  }
}
