/** Topic formats as text: rendering them, reading them back, and the size of a record. */
module LogFormat {
  import opened Bytes
  import opened Strings
  import opened Wrappers

  datatype Field = Field(typ: string, name: string)

  /** A logged topic: its name and its fields in order. */
  datatype Topic = Topic(name: string, fields: seq<Field>)

  function FieldsText(fields: seq<Field>): string {
    if fields == [] then "" else fields[0].typ + " " + fields[0].name + ";" + FieldsText(fields[1..])
  }

  function FormatText(t: Topic): string {
    t.name + ":" + FieldsText(t.fields)
  }

  function TypeSize(typ: string): Option<nat> {
    if typ == "uint64_t" then Some(8)
    else if typ == "float" || typ == "int32_t" || typ == "uint32_t" then Some(4)
    else if typ == "uint16_t" then Some(2)
    else if typ == "uint8_t" then Some(1)
    else None
  }

  /** The bytes a record of these fields takes. */
  function Size(fields: seq<Field>): Option<nat> {
    if fields == [] then Some(0)
    else
      match (TypeSize(fields[0].typ), Size(fields[1..]))
      case (Some(n), Some(more)) => Some(n + more)
      case _ => None
  }

  /** Reads fields from text, each a type, a blank, a name and a semicolon. */
  function ReadFields(text: string): Option<seq<Field>>
    decreases |text|
  {
    if text == "" then Some([])
    else
      var semicolon := IndexOf(text, ';');
      if semicolon == |text| then None
      else
        var field := text[..semicolon];
        var blank := IndexOf(field, ' ');
        if blank == |field| then None
        else
          match ReadFields(text[semicolon + 1..])
          case None => None
          case Some(more) => Some([Field(field[..blank], field[blank + 1..])] + more)
  }

  function ReadFormat(text: string): Option<Topic> {
    var colon := IndexOf(text, ':');
    if colon == |text| then None
    else
      match ReadFields(text[colon + 1..])
      case None => None
      case Some(fields) => Some(Topic(text[..colon], fields))
  }

  /** ASCII without the characters that separate fields. */
  predicate PlainWord(s: string) {
    forall i :: 0 <= i < |s| ==> s[i] as int < 128 && s[i] != ';' && s[i] != ':' && s[i] != ' '
  }

  predicate PlainField(f: Field) {
    PlainWord(f.typ) && PlainWord(f.name) && |f.typ| + |f.name| < 40
  }

  predicate PlainFields(fields: seq<Field>) {
    forall i :: 0 <= i < |fields| ==> PlainField(fields[i])
  }

  /** A topic whose format text fits a message, reads back and has a size. */
  predicate Sound(t: Topic) {
    PlainWord(t.name) && |t.name| < 30 && PlainFields(t.fields) && |t.fields| < 10 && Size(t.fields).Some?
  }

  /** One more plain field of a known type. */
  lemma {:induction false} AddField(fields: seq<Field>, f: Field, before: nat, n: nat)
    requires PlainFields(fields) && PlainField(f) && Size(fields) == Some(before) && TypeSize(f.typ) == Some(n)
    ensures PlainFields(fields + [f]) && Size(fields + [f]) == Some(before + n)
  {
    SizeAppend(fields, f);
  }

  lemma {:induction false} SizeAppend(fields: seq<Field>, f: Field)
    requires Size(fields).Some? && TypeSize(f.typ).Some?
    ensures Size(fields + [f]) == Some(Size(fields).value + TypeSize(f.typ).value)
  {
    if fields == [] {
      assert [] + [f] == [f] && [f][1..] == [];
    } else {
      SizeAppend(fields[1..], f);
      assert (fields + [f])[1..] == fields[1..] + [f];
    }
  }

  lemma {:induction false} OneFieldText(f: Field, more: string)
    requires PlainField(f)
    ensures ReadFields(f.typ + " " + f.name + ";" + more)
         == match ReadFields(more) case None => None case Some(fields) => Some([f] + fields)
  {
    var head := f.typ + [' '] + f.name;
    assert ';' !in head;
    assert f.typ + " " + f.name + ";" + more == head + [';'] + more;
    FirstAt(head, ';', more);
    FirstAt(f.typ, ' ', f.name);
  }

  lemma {:induction false} FieldsReadBack(fields: seq<Field>)
    requires PlainFields(fields)
    ensures ReadFields(FieldsText(fields)) == Some(fields)
  {
    if fields != [] {
      FieldsReadBack(fields[1..]);
      OneFieldText(fields[0], FieldsText(fields[1..]));
      assert [fields[0]] + fields[1..] == fields;
    }
  }

  lemma {:induction false} FieldsFit(fields: seq<Field>)
    requires PlainFields(fields)
    ensures IsAscii(FieldsText(fields)) && |FieldsText(fields)| <= 42 * |fields|
  {
    if fields != [] {
      FieldsFit(fields[1..]);
      OneFieldFits(fields[0], FieldsText(fields[1..]));
    }
  }

  lemma {:induction false} OneFieldFits(f: Field, more: string)
    requires PlainField(f) && IsAscii(more)
    ensures IsAscii(f.typ + " " + f.name + ";" + more)
    ensures |f.typ + " " + f.name + ";" + more| <= 42 + |more|
  {
  }

  /** The text of a sound topic gives back the topic. */
  lemma {:induction false} FormatReadsBack(t: Topic)
    requires Sound(t)
    ensures ReadFormat(FormatText(t)) == Some(t)
  {
    FieldsReadBack(t.fields);
    ColonReadsBack(t.name, FieldsText(t.fields), t.fields);
  }

  lemma {:induction false} ColonReadsBack(name: string, text: string, fields: seq<Field>)
    requires PlainWord(name) && ReadFields(text) == Some(fields)
    ensures ReadFormat(name + ":" + text) == Some(Topic(name, fields))
  {
    assert ':' !in name;
    FirstAt(name, ':', text);
  }

  lemma {:induction false} FormatFits(t: Topic)
    requires Sound(t)
    ensures IsAscii(FormatText(t)) && |FormatText(t)| < 0x1000
  {
    FieldsFit(t.fields);
  }
}
