/** The metric registry: series keys, the index over the entry list, and the text exposition. */
module Metrics {
  import opened Strings
  import opened Wrappers

  /** A label set, as its name order lists it. */
  datatype Label = Label(name: string, value: string)

  function LabelText(l: Label): string {
    l.name + "=\"" + l.value + "\""
  }

  /** The labels after the first one. */
  function MoreLabels(labels: seq<Label>): string {
    if labels == [] then "" else "," + LabelText(labels[0]) + MoreLabels(labels[1..])
  }

  function LabelsText(labels: seq<Label>): string {
    if labels == [] then "" else "{" + LabelText(labels[0]) + MoreLabels(labels[1..]) + "}"
  }

  function Key(name: string, labels: seq<Label>): string {
    name + LabelsText(labels)
  }

  lemma {:induction false} MoreLabelsAppend(labels: seq<Label>, l: Label)
    ensures MoreLabels(labels + [l]) == MoreLabels(labels) + ("," + LabelText(l))
  {
    if labels == [] {
      assert [] + [l] == [l] && [l][1..] == [] && MoreLabels([]) == "";
    } else {
      assert (labels + [l])[1..] == labels[1..] + [l];
      MoreLabelsAppend(labels[1..], l);
      Join("," + LabelText(labels[0]), MoreLabels(labels[1..]), "," + LabelText(l));
    }
  }

  /** Writes the labels one by one, a comma before all but the first. */
  method RenderLabels(labels: seq<Label>) returns (out: string)
    ensures out == LabelsText(labels)
  {
    if labels == [] {
      return "";
    }
    out := "{";
    var first := true;
    for i := 0 to |labels|
      invariant first == (i == 0)
      invariant out == if i == 0 then "{" else "{" + LabelText(labels[0]) + MoreLabels(labels[1..i])
    {
      ghost var before := out;
      if !first {
        out := out + ",";
      }
      first := false;
      out := out + (labels[i].name + "=\"" + labels[i].value + "\"");
      if i > 0 {
        MoreLabelsAppend(labels[1..i], labels[i]);
        assert labels[1..i] + [labels[i]] == labels[1..i + 1];
        Join(before, ",", LabelText(labels[i]));
        Join("{" + LabelText(labels[0]), MoreLabels(labels[1..i]), "," + LabelText(labels[i]));
      }
    }
    assert labels[1..|labels|] == labels[1..];
    out := out + "}";
  }

  // ----- Reading a key back -----

  /** A label up to its closing quote, and what follows. */
  function ReadLabel(s: string): (r: Option<(Label, string)>)
    ensures r.Some? ==> |r.value.1| < |s| && '=' !in r.value.0.name && '"' !in r.value.0.value
  {
    var equals := IndexOf(s, '=');
    if equals == |s| || equals + 1 == |s| || s[equals + 1] != '"' then None
    else
      var rest := s[equals + 2..];
      var quote := IndexOf(rest, '"');
      if quote == |rest| then None else Some((Label(s[..equals], rest[..quote]), rest[quote + 1..]))
  }

  predicate CleanLabels(labels: seq<Label>) {
    forall i :: 0 <= i < |labels| ==> '=' !in labels[i].name && '"' !in labels[i].value
  }

  function ReadMore(s: string): (r: Option<seq<Label>>)
    ensures r.Some? ==> CleanLabels(r.value)
    decreases |s|
  {
    if s == "}" then Some([])
    else if s == "" || s[0] != ',' then None
    else
      match ReadLabel(s[1..])
      case None => None
      case Some((l, rest)) =>
        match ReadMore(rest)
        case None => None
        case Some(more) => Some([l] + more)
  }

  /** Takes the first brace as the end of the name, the first equals sign as the end of a label's name, and the next
      quote as the end of its value. */
  function ReadKey(key: string): (r: Option<(string, seq<Label>)>)
    ensures r.Some? ==> '{' !in r.value.0 && CleanLabels(r.value.1)
  {
    var brace := IndexOf(key, '{');
    if brace == |key| then Some((key, []))
    else
      match ReadLabel(key[brace + 1..])
      case None => None
      case Some((l, rest)) =>
        match ReadMore(rest)
        case None => None
        case Some(more) => Some((key[..brace], [l] + more))
  }

  lemma {:induction false} ReadLabelText(l: Label, rest: string)
    requires '=' !in l.name && '"' !in l.value
    ensures ReadLabel(LabelText(l) + rest) == Some((l, rest))
  {
    LabelParts(l.name, l.value, rest);
    ReadLabelParts(l, l.value + ['"'] + rest, rest);
  }

  lemma {:induction false} LabelParts(name: string, value: string, rest: string)
    ensures name + "=\"" + value + "\"" + rest == name + ['='] + ("\"" + (value + ['"'] + rest))
  {
  }

  lemma {:induction false} ReadLabelParts(l: Label, tail: string, rest: string)
    requires '=' !in l.name && '"' !in l.value && tail == l.value + ['"'] + rest
    ensures ReadLabel(l.name + ['='] + ("\"" + tail)) == Some((l, rest))
  {
    var s := l.name + ['='] + ("\"" + tail);
    FirstAt(l.name, '=', "\"" + tail);
    assert s[|l.name| + 2..] == tail && s[|l.name| + 1] == '"';
    FirstAt(l.value, '"', rest);
  }

  lemma {:induction false} ReadMoreText(labels: seq<Label>)
    requires CleanLabels(labels)
    ensures ReadMore(MoreLabels(labels) + "}") == Some(labels)
  {
    if labels == [] {
      assert MoreLabels(labels) + "}" == "}";
    } else {
      var rest := MoreLabels(labels[1..]) + "}";
      ReadMoreText(labels[1..]);
      ReadLabelText(labels[0], rest);
      ReadComma(LabelText(labels[0]) + rest, labels[0], rest, labels[1..]);
      JoinFour(",", LabelText(labels[0]), MoreLabels(labels[1..]), "}");
      assert [labels[0]] + labels[1..] == labels;
    }
  }

  lemma {:induction false} ReadComma(s: string, l: Label, rest: string, more: seq<Label>)
    requires ReadLabel(s) == Some((l, rest)) && ReadMore(rest) == Some(more)
    ensures ReadMore("," + s) == Some([l] + more)
  {
    assert ("," + s)[1..] == s && ("," + s)[0] == ',';
  }

  lemma {:induction false} KeyReadsBack(name: string, labels: seq<Label>)
    requires '{' !in name && CleanLabels(labels)
    ensures ReadKey(Key(name, labels)) == Some((name, labels))
  {
    if labels == [] {
      assert Key(name, labels) == name;
    } else {
      LabelledKeyReadsBack(name, labels[0], labels[1..]);
      assert [labels[0]] + labels[1..] == labels;
      KeyParts(name, labels);
    }
  }

  lemma {:induction false} KeyParts(name: string, labels: seq<Label>)
    requires labels != []
    ensures Key(name, labels) == name + "{" + (LabelText(labels[0]) + (MoreLabels(labels[1..]) + "}"))
  {
    JoinFour("{", LabelText(labels[0]), MoreLabels(labels[1..]), "}");
    Join(name, "{", LabelText(labels[0]) + (MoreLabels(labels[1..]) + "}"));
  }

  lemma {:induction false} LabelledKeyReadsBack(name: string, l: Label, more: seq<Label>)
    requires '{' !in name && '=' !in l.name && '"' !in l.value && CleanLabels(more)
    ensures ReadKey(name + "{" + (LabelText(l) + (MoreLabels(more) + "}"))) == Some((name, [l] + more))
  {
    var rest := MoreLabels(more) + "}";
    ReadMoreText(more);
    ReadLabelText(l, rest);
    ReadBrace(name, LabelText(l) + rest, l, rest, more);
  }

  lemma {:induction false} ReadBrace(name: string, body: string, l: Label, rest: string, more: seq<Label>)
    requires '{' !in name && ReadLabel(body) == Some((l, rest)) && ReadMore(rest) == Some(more)
    ensures ReadKey(name + "{" + body) == Some((name, [l] + more))
  {
    FirstAt(name, '{', body);
  }

  /** A key decodes to its name and labels exactly when the name has no brace, no label name an equals sign and no
      label value a quote. */
  lemma {:induction false} KeyReadsBackIff(name: string, labels: seq<Label>)
    ensures ReadKey(Key(name, labels)) == Some((name, labels)) <==> '{' !in name && CleanLabels(labels)
  {
    if '{' !in name && CleanLabels(labels) {
      KeyReadsBack(name, labels);
    }
  }

  /** Two series with clean names and labels have one key only if they are the same series. */
  lemma {:induction false} KeyIsUnique(name: string, labels: seq<Label>, name': string, labels': seq<Label>)
    requires '{' !in name && CleanLabels(labels) && '{' !in name' && CleanLabels(labels')
    ensures Key(name, labels) == Key(name', labels') <==> name == name' && labels == labels'
  {
    KeyReadsBackIff(name, labels);
    KeyReadsBackIff(name', labels');
  }

  /** Without that condition two series can share a key: a quote in a value passes for a second label. */
  lemma {:induction false} QuoteMergesSeries()
    ensures Key("m", [Label("a", "1\",b=\"2")]) == Key("m", [Label("a", "1"), Label("b", "2")])
  {
  }

  // ----- Label maps -----

  function MapOf(labels: seq<Label>): map<string, string> {
    if labels == [] then map[]
    else MapOf(labels[..|labels| - 1])[labels[|labels| - 1].name := labels[|labels| - 1].value]
  }

  /** The order in which an ordered map lists its labels. */
  predicate InNameOrder(labels: seq<Label>) {
    forall i, j :: 0 <= i < j < |labels| ==> Before(labels[i].name, labels[j].name)
  }

  /** A label map, as the list of its entries in name order. */
  type Labels = labels: seq<Label> | InNameOrder(labels)

  lemma {:induction false} BeforeIsStrict(s: string, t: string)
    ensures !(Before(s, t) && Before(t, s)) && (s == t ==> !Before(s, t))
    ensures s != t ==> Before(s, t) || Before(t, s)
  {
    if s != "" && t != "" && s[0] == t[0] {
      BeforeIsStrict(s[1..], t[1..]);
      assert s == [s[0]] + s[1..] && t == [t[0]] + t[1..];
    }
  }

  lemma {:induction false} MapOfHolds(labels: seq<Label>)
    requires InNameOrder(labels)
    ensures forall n, v :: n in MapOf(labels) && MapOf(labels)[n] == v <==> Label(n, v) in labels
  {
    if labels != [] {
      var n := |labels| - 1;
      MapOfHolds(labels[..n]);
      assert labels == labels[..n] + [labels[n]];
      forall l | l in labels[..n] ensures l.name != labels[n].name {
        BeforeIsStrict(l.name, labels[n].name);
      }
    }
  }

  /** An ordered map has one listing: equal maps, equal lists. */
  lemma {:induction false} ListingIsUnique(a: seq<Label>, b: seq<Label>)
    requires InNameOrder(a) && InNameOrder(b)
    ensures MapOf(a) == MapOf(b) <==> a == b
  {
    if MapOf(a) == MapOf(b) {
      MapOfHolds(a);
      MapOfHolds(b);
      SameElements(a, b);
    }
  }

  lemma {:induction false} SameElements(a: seq<Label>, b: seq<Label>)
    requires InNameOrder(a) && InNameOrder(b)
    requires forall l: Label :: l in a <==> l in b
    ensures a == b
  {
    assert a != [] ==> a[0] in a;
    assert b != [] ==> b[0] in b;
    if a != [] && b != [] {
      var x, y := a[0], b[0];
      assert x in b && y in a;
      BeforeIsStrict(x.name, y.name);
      assert a == [x] + a[1..] && b == [y] + b[1..];
      assert x == y;
      BeforeIsStrict(x.name, x.name);
      assert x !in a[1..] && x !in b[1..];
      forall l: Label ensures l in a[1..] <==> l in b[1..] {
        assert l in a <==> l == x || l in a[1..];
        assert l in b <==> l == x || l in b[1..];
      }
      SameElements(a[1..], b[1..]);
    }
  }

  // ----- The registry -----

  class Counter {
    var value: nat

    constructor ()
      ensures value == 0
    {
      value := 0;
    }

    method Increment(delta: nat)
      modifies this
      ensures value == old(value) + delta
    {
      value := value + delta;
    }
  }

  /** A gauge; its value is kept as the bits of a double, which are not interpreted here. */
  class Gauge {
    var bits: nat

    constructor ()
      ensures bits == 0
    {
      bits := 0;
    }
  }

  /** An entry holds one handle: of a counter or of a gauge. */
  datatype Entry = Entry(name: string, help: string, labels: Labels, counter: Counter?, gauge: Gauge?)

  /** A series as the index sees it: its key and the kind of its handle. */
  datatype Slot = Slot(key: string, isCounter: bool)

  function SlotsOf(entries: seq<Entry>): (slots: seq<Slot>)
    ensures |slots| == |entries|
  {
    if entries == [] then []
    else
      var e := entries[|entries| - 1];
      SlotsOf(entries[..|entries| - 1]) + [Slot(Key(e.name, e.labels), e.counter != null)]
  }

  lemma {:induction false} AppendSlot(entries: seq<Entry>, e: Entry)
    ensures SlotsOf(entries + [e]) == SlotsOf(entries) + [Slot(Key(e.name, e.labels), e.counter != null)]
  {
    assert (entries + [e])[..|entries|] == entries;
  }

  /** A slot tells the kind of its entry. */
  lemma {:induction false} SlotsOfAt(entries: seq<Entry>, i: nat)
    requires i < |entries|
    ensures SlotsOf(entries)[i].isCounter <==> entries[i].counter != null
  {
    if i < |entries| - 1 {
      SlotsOfAt(entries[..|entries| - 1], i);
    }
  }

  /** The position of the first slot with this key, or the length if there is none. */
  function Position(slots: seq<Slot>, key: string): (i: nat)
    ensures i <= |slots|
    ensures i < |slots| ==> slots[i].key == key
    ensures forall j :: 0 <= j < i ==> slots[j].key != key
  {
    if slots == [] || slots[0].key == key then 0 else 1 + Position(slots[1..], key)
  }

  /** Registering a series appends it unless its key is taken. */
  function Registered(slots: seq<Slot>, s: Slot): seq<Slot> {
    if Position(slots, s.key) < |slots| then slots else slots + [s]
  }

  /** The index maps each key to the position of its only slot. */
  ghost predicate Indexes(index: map<string, nat>, slots: seq<Slot>) {
    && (forall k :: k in index ==> index[k] < |slots| && slots[index[k]].key == k)
    && (forall i :: 0 <= i < |slots| ==> slots[i].key in index && index[slots[i].key] == i)
  }

  lemma {:induction false} IndexIsPosition(index: map<string, nat>, slots: seq<Slot>, k: string)
    requires Indexes(index, slots)
    ensures Position(slots, k) == if k in index then index[k] else |slots|
  {
  }

  lemma {:induction false} IndexAppend(index: map<string, nat>, slots: seq<Slot>, s: Slot)
    requires Indexes(index, slots) && s.key !in index
    ensures Indexes(index[s.key := |slots|], slots + [s])
  {
  }

  /** Every entry has a handle of one kind, and no two entries share one. */
  ghost predicate Apart(entries: seq<Entry>) {
    && (forall i :: 0 <= i < |entries| ==> OneKind(entries[i]))
    && (forall i, j :: 0 <= i < j < |entries| ==> NoneShared(entries[i], entries[j]))
  }

  predicate OneKind(e: Entry) {
    (e.counter == null) != (e.gauge == null)
  }

  predicate NoneShared(e: Entry, f: Entry) {
    (e.counter != null ==> e.counter != f.counter) && (e.gauge != null ==> e.gauge != f.gauge)
  }

  lemma {:induction false} AppendApart(entries: seq<Entry>, e: Entry)
    requires Apart(entries) && OneKind(e) && forall i :: 0 <= i < |entries| ==> NoneShared(entries[i], e)
    ensures Apart(entries + [e])
  {
  }

  class MetricRegistry {
    var entries: seq<Entry>
    var index: map<string, nat>

    ghost predicate Valid()
      reads this
    {
      Indexes(index, SlotsOf(entries)) && Apart(entries)
    }

    constructor ()
      ensures Valid() && entries == []
    {
      entries, index := [], map[];
    }

    method AddEntry(e: Entry, k: string)
      requires Valid() && k == Key(e.name, e.labels) && k !in index
      requires OneKind(e) && forall i :: 0 <= i < |entries| ==> NoneShared(entries[i], e)
      modifies this
      ensures Valid() && entries == old(entries) + [e]
      ensures SlotsOf(entries) == SlotsOf(old(entries)) + [Slot(k, e.counter != null)]
      ensures k in index && index[k] == |old(entries)|
    {
      IndexAppend(index, SlotsOf(entries), Slot(k, e.counter != null));
      AppendApart(entries, e);
      AppendSlot(entries, e);
      index := index[k := |entries|];
      entries := entries + [e];
    }

    /** The handle of the counter of this series, which is none if a gauge has taken the key. Entries never move. */
    method GetCounter(name: string, help: string, labels: Labels) returns (handle: Counter?)
      requires Valid()
      modifies this
      ensures Valid() && old(entries) <= entries
      ensures SlotsOf(entries) == Registered(SlotsOf(old(entries)), Slot(Key(name, labels), true))
      ensures var p := Position(SlotsOf(entries), Key(name, labels));
              p < |entries| && handle == entries[p].counter && (handle == null <==> !SlotsOf(entries)[p].isCounter)
      ensures |entries| > |old(entries)| ==>
                handle != null && fresh(handle) && handle.value == 0
                && entries == old(entries) + [Entry(name, help, labels, handle, null)]
    {
      var k := Key(name, labels);
      IndexIsPosition(index, SlotsOf(entries), k);
      if k in index {
        SlotsOfAt(entries, index[k]);
        return entries[index[k]].counter;
      }
      handle := new Counter();
      AddEntry(Entry(name, help, labels, handle, null), k);
      IndexIsPosition(index, SlotsOf(entries), k);
    }

    method GetGauge(name: string, help: string, labels: Labels) returns (handle: Gauge?)
      requires Valid()
      modifies this
      ensures Valid() && old(entries) <= entries
      ensures SlotsOf(entries) == Registered(SlotsOf(old(entries)), Slot(Key(name, labels), false))
      ensures var p := Position(SlotsOf(entries), Key(name, labels));
              p < |entries| && handle == entries[p].gauge && (handle == null <==> SlotsOf(entries)[p].isCounter)
      ensures |entries| > |old(entries)| ==>
                handle != null && fresh(handle) && handle.bits == 0
                && entries == old(entries) + [Entry(name, help, labels, null, handle)]
    {
      var k := Key(name, labels);
      IndexIsPosition(index, SlotsOf(entries), k);
      if k in index {
        SlotsOfAt(entries, index[k]);
        return entries[index[k]].gauge;
      }
      handle := new Gauge();
      AddEntry(Entry(name, help, labels, null, handle), k);
      IndexIsPosition(index, SlotsOf(entries), k);
    }

    /** Text exposition. `values` are the printed values of the handles. */
    method Render(values: seq<string>) returns (out: string)
      requires |values| == |entries|
      ensures out == Exposition(entries, values, |entries|)
    {
      out := "";
      var lastName := "";
      for i := 0 to |entries|
        invariant lastName == LastName(entries, i)
        invariant out == Exposition(entries, values, i)
      {
        var e := entries[i];
        ghost var before := out;
        ghost var header := "";
        if e.name != lastName {
          var lines := RenderHeader(e);
          header := lines;
          out := out + lines;
          lastName := e.name;
        }
        var labels := RenderLabels(e.labels);
        out := out + (e.name + labels + " " + values[i] + ['\n']);
        ExpositionStep(entries, values, i, before, header);
      }
    }
  }

  method RenderHeader(e: Entry) returns (lines: string)
    ensures lines == HelpLine(e) + ['\n'] + (TypeLine(e) + ['\n'])
  {
    lines := "# HELP " + e.name + " " + e.help + ['\n'];
    lines := lines + ("# TYPE " + e.name + " " + (if e.counter != null then "counter" else "gauge") + ['\n']);
  }

  lemma {:induction false} ExpositionStep(entries: seq<Entry>, values: seq<string>, i: nat, before: string,
                                          header: string)
    requires i < |entries| == |values| && before == Exposition(entries, values, i)
    requires header ==
             if HasHeader(entries, i) then HelpLine(entries[i]) + ['\n'] + (TypeLine(entries[i]) + ['\n']) else ""
    ensures var sample := entries[i].name + LabelsText(entries[i].labels) + " " + values[i] + ['\n'];
            Exposition(entries, values, i + 1) == before + header + sample
            && (header == "" ==> before + header == before)
  {
    var blocks := Blocks(entries, values, i);
    var b := BlockOf(entries[i], HasHeader(entries, i), values[i]);
    AppendBlock(blocks, b, header);
  }

  lemma {:induction false} AppendBlock(blocks: seq<Block>, b: Block, header: string)
    requires header == if b.header then b.help + ['\n'] + (b.kind + ['\n']) else ""
    ensures BlocksText(blocks + [b]) == BlocksText(blocks) + header + (b.sample + ['\n'])
  {
    assert (blocks + [b])[..|blocks|] == blocks;
    Join(BlocksText(blocks), header, b.sample + ['\n']);
  }

  // ----- Runs of registrations -----

  /** One call of counter() or gauge(). */
  datatype Call = Call(name: string, labels: Labels, isCounter: bool)

  function Asked(calls: seq<Call>): (slots: seq<Slot>)
    ensures |slots| == |calls|
  {
    if calls == [] then []
    else
      var c := calls[|calls| - 1];
      Asked(calls[..|calls| - 1]) + [Slot(Key(c.name, c.labels), c.isCounter)]
  }

  lemma {:induction false} AskedAt(calls: seq<Call>, i: nat)
    requires i < |calls|
    ensures Asked(calls)[i] == Slot(Key(calls[i].name, calls[i].labels), calls[i].isCounter)
  {
    if i < |calls| - 1 {
      AskedAt(calls[..|calls| - 1], i);
    }
  }

  /** The slots after registering these series one after the other. */
  function Slots(asked: seq<Slot>): seq<Slot> {
    if asked == [] then [] else Registered(Slots(asked[..|asked| - 1]), asked[|asked| - 1])
  }

  /** The slot whose handle call `i` got; a call of the other kind than the slot gets none. */
  function Handle(asked: seq<Slot>, i: nat): Option<nat>
    requires i < |asked|
  {
    var slots := Slots(asked[..i + 1]);
    var p := Position(slots, asked[i].key);
    if p < |slots| && slots[p].isCounter == asked[i].isCounter then Some(p) else None
  }

  /** Slots are only ever added at the end, so a position stays a series' position. */
  lemma {:induction false} SlotsGrow(asked: seq<Slot>, n: nat)
    requires n <= |asked|
    ensures Slots(asked[..n]) <= Slots(asked)
    decreases |asked|
  {
    if n < |asked| {
      var m := |asked| - 1;
      SlotsGrow(asked[..m], n);
      assert asked[..m][..n] == asked[..n];
    } else {
      assert asked[..n] == asked;
    }
  }

  lemma {:induction false} PositionStays(slots: seq<Slot>, more: seq<Slot>, key: string)
    requires slots <= more && Position(slots, key) < |slots|
    ensures Position(more, key) == Position(slots, key)
  {
    var p := Position(slots, key);
    assert more[p] == slots[p];
    assert forall j :: 0 <= j < p ==> more[j] == slots[j];
  }

  /** After a call its key has a slot, made by the first call with that key. */
  lemma {:induction false} FirstOwns(asked: seq<Slot>, i: nat) returns (first: nat)
    requires i < |asked|
    ensures first <= i && asked[first].key == asked[i].key
    ensures forall j :: 0 <= j < first ==> asked[j].key != asked[i].key
    ensures Position(Slots(asked[..i + 1]), asked[i].key) < |Slots(asked[..i + 1])|
    ensures Slots(asked[..i + 1])[Position(Slots(asked[..i + 1]), asked[i].key)] == asked[first]
  {
    var key := asked[i].key;
    if j: nat :| j < i && asked[j].key == key {
      first := FirstOwns(asked, j);
      OwnerStays(asked, j, i);
    } else {
      first := i;
      NoKeyYet(asked[..i], key);
      assert asked[..i + 1][..i] == asked[..i];
      NewSlot(Slots(asked[..i]), asked[i]);
    }
  }

  lemma {:induction false} OwnerStays(asked: seq<Slot>, j: nat, i: nat)
    requires j < i < |asked| && asked[i].key == asked[j].key
    requires Position(Slots(asked[..j + 1]), asked[j].key) < |Slots(asked[..j + 1])|
    ensures var early, late := Slots(asked[..j + 1]), Slots(asked[..i + 1]);
            var p := Position(early, asked[j].key);
            p < |late| && Position(late, asked[i].key) == p && late[p] == early[p]
  {
    assert asked[..i + 1][..j + 1] == asked[..j + 1];
    SlotsGrow(asked[..i + 1], j + 1);
    PositionStays(Slots(asked[..j + 1]), Slots(asked[..i + 1]), asked[j].key);
  }

  lemma {:induction false} NewSlot(slots: seq<Slot>, s: Slot)
    requires forall j :: 0 <= j < |slots| ==> slots[j].key != s.key
    ensures Registered(slots, s) == slots + [s] && Position(slots + [s], s.key) == |slots|
  {
    assert (slots + [s])[|slots|].key == s.key;
  }

  lemma {:induction false} NoKeyYet(asked: seq<Slot>, key: string)
    requires forall j :: 0 <= j < |asked| ==> asked[j].key != key
    ensures forall j :: 0 <= j < |Slots(asked)| ==> Slots(asked)[j].key != key
  {
    if asked != [] {
      NoKeyYet(asked[..|asked| - 1], key);
    }
  }

  /** A counter whose key a gauge has taken gets no handle, although the label map is the same. */
  lemma {:induction false} OtherKindGetsNone(key: string)
    ensures Handle([Slot(key, false), Slot(key, true)], 0) == Some(0)
    ensures Handle([Slot(key, false), Slot(key, true)], 1) == None
  {
    var asked := [Slot(key, false), Slot(key, true)];
    assert asked[..2] == asked && asked[..1] == [Slot(key, false)] && asked[..1][..0] == [];
    assert Slots(asked[..1]) == [Slot(key, false)];
    assert Slots(asked) == [Slot(key, false)];
  }

  /** A call gets no handle exactly when the first call with its key was of the other kind. */
  lemma {:induction false} NoHandleIff(asked: seq<Slot>, i: nat, first: nat)
    requires first <= i < |asked| && asked[first].key == asked[i].key
    requires forall j :: 0 <= j < first ==> asked[j].key != asked[i].key
    ensures Handle(asked, i).None? <==> asked[first].isCounter != asked[i].isCounter
  {
    var owner := FirstOwns(asked, i);
    assert owner == first;
  }

  lemma {:induction false} SameHandleIffSameKey(asked: seq<Slot>, i: nat, j: nat)
    requires i <= j < |asked| && Handle(asked, i).Some? && Handle(asked, j).Some?
    ensures Handle(asked, i) == Handle(asked, j) <==> asked[i].key == asked[j].key
  {
    assert asked[..j + 1][..i + 1] == asked[..i + 1];
    SlotsGrow(asked[..j + 1], i + 1);
    var early, late := Slots(asked[..i + 1]), Slots(asked[..j + 1]);
    var p := Position(early, asked[i].key);
    assert early[p] == late[p];
    PositionStays(early, late, asked[i].key);
  }

  predicate Clean(c: Call) {
    '{' !in c.name && CleanLabels(c.labels)
  }

  /** Two calls that got handles got the same one exactly when they name the same series: the same name and the same
      label map. */
  lemma {:induction false} SameHandleIffSameSeries(calls: seq<Call>, i: nat, j: nat)
    requires i <= j < |calls| && Clean(calls[i]) && Clean(calls[j])
    requires Handle(Asked(calls), i).Some? && Handle(Asked(calls), j).Some?
    ensures Handle(Asked(calls), i) == Handle(Asked(calls), j) <==>
            calls[i].name == calls[j].name && MapOf(calls[i].labels) == MapOf(calls[j].labels)
  {
    SameHandleIffSameKey(Asked(calls), i, j);
    AskedAt(calls, i);
    AskedAt(calls, j);
    KeyIsUnique(calls[i].name, calls[i].labels, calls[j].name, calls[j].labels);
    ListingIsUnique(calls[i].labels, calls[j].labels);
  }

  // ----- Exposition -----

  function HelpLine(e: Entry): string {
    "# HELP " + e.name + " " + e.help
  }

  function TypeLine(e: Entry): string {
    "# TYPE " + e.name + " " + if e.counter != null then "counter" else "gauge"
  }

  /** The name of the entry before position `n`. */
  function LastName(entries: seq<Entry>, n: nat): string
    requires n <= |entries|
  {
    if n == 0 then "" else entries[n - 1].name
  }

  predicate HasHeader(entries: seq<Entry>, i: nat)
    requires i < |entries|
  {
    entries[i].name != LastName(entries, i)
  }

  /** What one entry prints: its header lines if `header`, and its sample line. */
  datatype Block = Block(header: bool, help: string, kind: string, sample: string)

  function BlockOf(e: Entry, header: bool, value: string): Block {
    Block(header, HelpLine(e), TypeLine(e), e.name + LabelsText(e.labels) + " " + value)
  }

  function Blocks(entries: seq<Entry>, values: seq<string>, n: nat): (blocks: seq<Block>)
    requires n <= |entries| == |values|
    ensures |blocks| == n
  {
    if n == 0 then []
    else Blocks(entries, values, n - 1) + [BlockOf(entries[n - 1], HasHeader(entries, n - 1), values[n - 1])]
  }

  function BlockText(b: Block): string {
    (if b.header then b.help + ['\n'] + (b.kind + ['\n']) else "") + (b.sample + ['\n'])
  }

  function BlocksText(blocks: seq<Block>): string {
    if blocks == [] then "" else BlocksText(blocks[..|blocks| - 1]) + BlockText(blocks[|blocks| - 1])
  }

  /** The text of the first `n` entries. */
  function Exposition(entries: seq<Entry>, values: seq<string>, n: nat): string
    requires n <= |entries| == |values|
  {
    BlocksText(Blocks(entries, values, n))
  }

  /** The lines that are due: the two header lines wherever the name changes, and one sample line per entry. */
  function DueLines(blocks: seq<Block>): seq<string> {
    if blocks == [] then []
    else
      var b := blocks[|blocks| - 1];
      DueLines(blocks[..|blocks| - 1]) + (if b.header then [b.help, b.kind] else []) + [b.sample]
  }

  /** No line feeds in what is printed. */
  predicate Printable(b: Block) {
    (b.header ==> OneLine(b.help) && OneLine(b.kind)) && OneLine(b.sample)
  }

  predicate AllOneLine(lines: seq<string>) {
    forall l :: l in lines ==> OneLine(l)
  }

  /** The text splits into exactly the lines that are due if and only if none of them holds a line feed. */
  lemma {:induction false} ExpositionIsLines(entries: seq<Entry>, values: seq<string>)
    requires |entries| == |values|
    ensures Lines(Exposition(entries, values, |entries|)) == DueLines(Blocks(entries, values, |entries|))
            <==> AllOneLine(DueLines(Blocks(entries, values, |entries|)))
  {
    BlocksAreLinesIff(Blocks(entries, values, |entries|));
  }

  lemma {:induction false} BlocksAreLinesIff(blocks: seq<Block>)
    ensures Lines(BlocksText(blocks)) == DueLines(blocks) <==> AllOneLine(DueLines(blocks))
  {
    if AllOneLine(DueLines(blocks)) {
      DueLinesArePrintable(blocks);
      BlocksAreLines(blocks);
    }
  }

  lemma {:induction false} DueLinesArePrintable(blocks: seq<Block>)
    requires AllOneLine(DueLines(blocks))
    ensures forall b :: b in blocks ==> Printable(b)
  {
    if blocks != [] {
      var n := |blocks| - 1;
      var before, b := DueLines(blocks[..n]), blocks[n];
      var header := if b.header then [b.help, b.kind] else [];
      assert DueLines(blocks) == before + header + [b.sample];
      assert forall l :: l in before || l in header ==> l in DueLines(blocks);
      assert b.header ==> b.help in header && b.kind in header;
      assert b.sample in DueLines(blocks);
      DueLinesArePrintable(blocks[..n]);
      assert blocks == blocks[..n] + [b];
    }
  }

  lemma {:induction false} BlocksAreLines(blocks: seq<Block>)
    requires forall b :: b in blocks ==> Printable(b)
    ensures Lines(BlocksText(blocks)) == DueLines(blocks) && Terminated(BlocksText(blocks))
  {
    if blocks != [] {
      var n := |blocks| - 1;
      BlocksAreLines(blocks[..n]);
      assert Printable(blocks[n]);
      BlockIsLines(BlocksText(blocks[..n]), blocks[n]);
    }
  }

  lemma {:induction false} BlockIsLines(before: string, b: Block)
    requires Terminated(before) && Printable(b)
    ensures var text := before + BlockText(b);
            Terminated(text) && Lines(text) == Lines(before) + (if b.header then [b.help, b.kind] else []) + [b.sample]
  {
    if b.header {
      HeaderThenSample(before, b.help, b.kind, b.sample);
      Join(before, b.help + ['\n'] + (b.kind + ['\n']), b.sample + ['\n']);
    } else {
      assert "" + (b.sample + ['\n']) == b.sample + ['\n'];
      LastLine(before, b.sample);
      assert Lines(before) + [] == Lines(before);
    }
  }

  lemma {:induction false} HeaderThenSample(before: string, help: string, kind: string, sample: string)
    requires Terminated(before) && OneLine(help) && OneLine(kind) && OneLine(sample)
    ensures var text := before + (help + ['\n'] + (kind + ['\n'])) + (sample + ['\n']);
            Terminated(text) && Lines(text) == Lines(before) + [help, kind] + [sample]
  {
    var one := before + (help + ['\n']);
    var two := one + (kind + ['\n']);
    LastLine(before, help);
    LastLine(one, kind);
    LastLine(two, sample);
    Join(before, help + ['\n'], kind + ['\n']);
    TwoMore(Lines(before), help, kind);
  }

  lemma {:induction false} TwoMore(lines: seq<string>, a: string, b: string)
    ensures lines + [a] + [b] == lines + [a, b]
  {
  }

  // ----- Which header a sample stands under -----

  /** The entry whose header is the last one printed when entry `i` prints its sample. */
  function HeaderOf(entries: seq<Entry>, i: nat): (h: Option<nat>)
    requires i < |entries|
    ensures h.Some? ==> h.value <= i && HasHeader(entries, h.value) && entries[h.value].name == entries[i].name
    ensures h.None? ==> entries[i].name == ""
  {
    if HasHeader(entries, i) then Some(i) else if i == 0 then None else HeaderOf(entries, i - 1)
  }

  /** The sample stands under a header of its own kind, if under any. */
  predicate RightKind(entries: seq<Entry>, i: nat)
    requires i < |entries|
  {
    var h := HeaderOf(entries, i);
    h.Some? ==> (entries[h.value].counter == null) == (entries[i].counter == null)
  }

  /** The header above a sample always names the sample's series. It announces the right kind for all samples exactly
      if entries of one name that follow each other are of one kind. */
  lemma {:induction false} KindsAreRightIff(entries: seq<Entry>)
    requires forall i :: 0 <= i < |entries| ==> entries[i].name != ""
    ensures (forall i: nat :: i < |entries| ==> RightKind(entries, i)) <==>
            forall i :: 0 < i < |entries| && entries[i].name == entries[i - 1].name ==>
              (entries[i].counter == null) == (entries[i - 1].counter == null)
  {
    if forall i: nat :: i < |entries| ==> RightKind(entries, i) {
      forall i | 0 < i < |entries| && entries[i].name == entries[i - 1].name
        ensures (entries[i].counter == null) == (entries[i - 1].counter == null)
      {
        assert RightKind(entries, i) && RightKind(entries, i - 1);
        assert HeaderOf(entries, i) == HeaderOf(entries, i - 1);
      }
    }
    if forall i :: 0 < i < |entries| && entries[i].name == entries[i - 1].name ==>
         (entries[i].counter == null) == (entries[i - 1].counter == null) {
      forall i: nat | i < |entries| ensures RightKind(entries, i) {
        KindFromHeader(entries, i);
      }
    }
  }

  lemma {:induction false} KindFromHeader(entries: seq<Entry>, i: nat)
    requires i < |entries|
    requires forall j :: 0 < j < |entries| && entries[j].name == entries[j - 1].name ==>
               (entries[j].counter == null) == (entries[j - 1].counter == null)
    ensures RightKind(entries, i)
  {
    if !HasHeader(entries, i) && i > 0 {
      KindFromHeader(entries, i - 1);
    }
  }

  /** How often the first `n` entries print a header for this name. */
  function Headers(entries: seq<Entry>, name: string, n: nat): nat
    requires n <= |entries|
  {
    if n == 0 then 0
    else Headers(entries, name, n - 1) + (if entries[n - 1].name == name && HasHeader(entries, n - 1) then 1 else 0)
  }

  /** Entries of one name follow each other directly. */
  ghost predicate Grouped(entries: seq<Entry>, name: string) {
    forall i, j, k :: 0 <= i < j < k < |entries| && entries[i].name == name && entries[k].name == name ==>
      entries[j].name == name
  }

  lemma {:induction false} HeaderOnceSeen(entries: seq<Entry>, name: string, n: nat, i: nat)
    requires i < n <= |entries| && entries[i].name == name && name != ""
    ensures Headers(entries, name, n) >= 1
  {
    if i < n - 1 {
      HeaderOnceSeen(entries, name, n - 1, i);
    } else if !HasHeader(entries, i) {
      HeaderOnceSeen(entries, name, i, i - 1);
    }
  }

  lemma {:induction false} NoHeaderUnseen(entries: seq<Entry>, name: string, n: nat)
    requires n <= |entries| && forall i :: 0 <= i < n ==> entries[i].name != name
    ensures Headers(entries, name, n) == 0
  {
    if n > 0 {
      NoHeaderUnseen(entries, name, n - 1);
    }
  }

  lemma {:induction false} GroupedOneHeader(entries: seq<Entry>, name: string, n: nat)
    requires Grouped(entries, name) && n <= |entries|
    ensures Headers(entries, name, n) <= 1
  {
    if n > 0 {
      GroupedOneHeader(entries, name, n - 1);
      if entries[n - 1].name == name && HasHeader(entries, n - 1) {
        NoHeaderUnseen(entries, name, n - 1);
      }
    }
  }

  /** Coming back to a name after another one prints its header again. */
  lemma {:induction false} AnotherHeader(entries: seq<Entry>, name: string, j: nat, k: nat)
    requires j < k < |entries| && entries[j].name != name && entries[k].name == name
    ensures Headers(entries, name, k + 1) > Headers(entries, name, j + 1)
  {
    if entries[k - 1].name == name {
      AnotherHeader(entries, name, j, k - 1);
    } else {
      HeadersGrow(entries, name, j + 1, k);
    }
  }

  lemma {:induction false} HeadersGrow(entries: seq<Entry>, name: string, m: nat, n: nat)
    requires m <= n <= |entries|
    ensures Headers(entries, name, m) <= Headers(entries, name, n)
  {
    if m < n {
      HeadersGrow(entries, name, m, n - 1);
    }
  }

  /** A registered name gets exactly one header, as the exposition format asks, exactly when its entries were
      registered without another name in between. */
  lemma {:induction false} OneHeaderIffGrouped(entries: seq<Entry>, name: string, i: nat)
    requires i < |entries| && entries[i].name == name && name != ""
    ensures Headers(entries, name, |entries|) == 1 <==> Grouped(entries, name)
  {
    HeaderOnceSeen(entries, name, |entries|, i);
    if Grouped(entries, name) {
      GroupedOneHeader(entries, name, |entries|);
    } else {
      var a: nat, b: nat, c: nat :| a < b < c < |entries| && entries[a].name == name && entries[c].name == name
                                    && entries[b].name != name;
      SplitHasTwoHeaders(entries, name, a, b, c);
    }
  }

  lemma {:induction false} SplitHasTwoHeaders(entries: seq<Entry>, name: string, a: nat, b: nat, c: nat)
    requires a < b < c < |entries| && name != ""
    requires entries[a].name == name && entries[c].name == name && entries[b].name != name
    ensures Headers(entries, name, |entries|) >= 2
  {
    HeaderOnceSeen(entries, name, b + 1, a);
    AnotherHeader(entries, name, b, c);
    HeadersGrow(entries, name, c + 1, |entries|);
  }
}
