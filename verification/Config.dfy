/** The layered configuration store: defaults, files, then the environment. */
module Config {
  import opened ConfigText
  import opened EnvNames
  import opened Sequences
  import opened Strings
  import opened Wrappers

  type Values = map<string, string>

  // ----- What a file binds -----

  /** What a line parses to: a pair, nothing, or a syntax error. */
  type Parsed = Result<Option<Pair>, SyntaxError>

  function ParsedLines(lines: seq<string>): (parsed: seq<Parsed>)
    ensures |parsed| == |lines|
  {
    if lines == [] then [] else [ParseLine(lines[0])] + ParsedLines(lines[1..])
  }

  lemma {:induction false} ParsedAt(lines: seq<string>, i: nat)
    requires i < |lines|
    ensures ParsedLines(lines)[i] == ParseLine(lines[i])
  {
    if i > 0 {
      ParsedAt(lines[1..], i - 1);
    }
  }

  /** The position of the first malformed line, or the number of lines. */
  function FirstBad(parsed: seq<Parsed>): (n: nat)
    ensures n <= |parsed|
    ensures n < |parsed| ==> parsed[n].Err?
    ensures forall i :: 0 <= i < n ==> parsed[i].Ok?
  {
    if parsed == [] || parsed[0].Err? then 0 else 1 + FirstBad(parsed[1..])
  }

  predicate Good(parsed: seq<Parsed>) {
    forall i :: 0 <= i < |parsed| ==> parsed[i].Ok?
  }

  /** Merges the pairs of well-formed lines one after the other. */
  function Merged(values: Values, parsed: seq<Parsed>): Values
    requires Good(parsed)
  {
    if parsed == [] then values
    else
      var before := Merged(values, parsed[..|parsed| - 1]);
      match parsed[|parsed| - 1].value
      case None => before
      case Some((key, value)) => before[key := value]
  }

  lemma {:induction false} MergedStep(values: Values, parsed: seq<Parsed>, i: nat)
    requires i < FirstBad(parsed)
    ensures Merged(values, parsed[..i + 1]) ==
            match parsed[i].value
            case None => Merged(values, parsed[..i])
            case Some((key, value)) => Merged(values, parsed[..i])[key := value]
  {
    assert parsed[..i + 1][..i] == parsed[..i];
  }

  /** The last value these lines give the key. */
  function LastBinding(parsed: seq<Parsed>, key: string): Option<string>
    requires Good(parsed)
  {
    if parsed == [] then None
    else
      match parsed[|parsed| - 1].value
      case Some((k, value)) => if k == key then Some(value) else LastBinding(parsed[..|parsed| - 1], key)
      case None => LastBinding(parsed[..|parsed| - 1], key)
  }

  function Lookup(values: Values, key: string): Option<string> {
    if key in values then Some(values[key]) else None
  }

  function Or(first: Option<string>, second: Option<string>): Option<string> {
    if first.Some? then first else second
  }

  lemma {:induction false} MergedLookup(values: Values, parsed: seq<Parsed>, key: string)
    requires Good(parsed)
    ensures Lookup(Merged(values, parsed), key) == Or(LastBinding(parsed, key), Lookup(values, key))
  {
    if parsed != [] {
      MergedLookup(values, parsed[..|parsed| - 1], key);
    }
  }

  datatype LoadError = LoadError(path: string, lineno: nat, cause: SyntaxError)

  /** The lines of a file that can be opened, parsed. */
  function FileLines(content: Option<string>): seq<Parsed> {
    if content.None? then [] else ParsedLines(Lines(content.value))
  }

  /** The lines that take effect: a malformed line ends the file but not what came before it. */
  function Effective(content: Option<string>): (parsed: seq<Parsed>)
    ensures Good(parsed)
  {
    FileLines(content)[..FirstBad(FileLines(content))]
  }

  function Loaded(values: Values, content: Option<string>): Values {
    Merged(values, Effective(content))
  }

  function Failure(path: string, parsed: seq<Parsed>): Option<LoadError> {
    var n := FirstBad(parsed);
    if n == |parsed| then None else Some(LoadError(path, n + 1, parsed[n].error))
  }

  /** A failure is of the first malformed line, and its number counts the lines up to and including that one. */
  lemma {:induction false} FailureCountsLines(path: string, parsed: seq<Parsed>, e: LoadError)
    ensures Failure(path, parsed) == Some(e) <==>
            && e.path == path && 1 <= e.lineno <= |parsed| && parsed[e.lineno - 1] == Err(e.cause)
            && forall i :: 0 <= i < e.lineno - 1 ==> parsed[i].Ok?
    ensures Failure(path, parsed).None? <==> Good(parsed)
  {
    var n := FirstBad(parsed);
    if 1 <= e.lineno <= |parsed| && parsed[e.lineno - 1].Err? {
      assert n <= e.lineno - 1;
    }
    if n < |parsed| {
      assert parsed[n].Err?;
    }
  }

  /** The environment over known keys: each has its own variable asked. */
  function Overridden(values: Values, env: Values): (r: Values)
    ensures r.Keys == values.Keys
  {
    map key | key in values :: if EnvName(key) in env then env[EnvName(key)] else values[key]
  }

  /** The names that require() lists. */
  function Missing(values: Values, keys: seq<string>): string {
    if keys == [] then ""
    else
      var before := Missing(values, keys[..|keys| - 1]);
      var key := keys[|keys| - 1];
      if key in values then before else before + (if before == "" then "" else ", ") + key
  }

  class ConfigStore {
    var values: Values

    constructor (compiledDefaults: Values)
      ensures values == compiledDefaults
    {
      values := compiledDefaults;
    }

    /** `content` is the file's text if it can be opened; an absent file changes nothing and is no error. The error
        names the first malformed line, counted from 1. */
    method LoadFile(path: string, content: Option<string>) returns (r: Result<(), LoadError>)
      modifies this
      ensures values == Loaded(old(values), content)
      ensures r == match Failure(path, FileLines(content)) case None => Ok(()) case Some(e) => Err(e)
    {
      if content.None? {
        return Ok(());
      }
      r := MergeLines(path, Lines(content.value));
    }

    method MergeLines(path: string, lines: seq<string>) returns (r: Result<(), LoadError>)
      modifies this
      ensures values == Merged(old(values), ParsedLines(lines)[..FirstBad(ParsedLines(lines))])
      ensures r == match Failure(path, ParsedLines(lines)) case None => Ok(()) case Some(e) => Err(e)
    {
      ghost var all := ParsedLines(lines);
      var lineno := 0;
      while lineno < |lines|
        invariant lineno <= FirstBad(all)
        invariant values == Merged(old(values), all[..lineno])
      {
        var parsed := ParseConfigLine(lines[lineno]);
        ParsedAt(lines, lineno);
        if parsed.Err? {
          assert lineno == FirstBad(all);
          return Err(LoadError(path, lineno + 1, parsed.error));
        }
        MergedStep(old(values), all, lineno);
        if parsed.value.Some? {
          Set(parsed.value.value.0, parsed.value.value.1);
        }
        lineno := lineno + 1;
      }
      assert lineno == FirstBad(all);
      return Ok(());
    }

    method Set(key: string, value: string)
      modifies this
      ensures values == old(values)[key := value]
    {
      values := values[key := value];
    }

    /** Visits the keys in no particular order. */
    method ApplyEnvironment(env: Values)
      modifies this
      ensures values == Overridden(old(values), env)
    {
      var todo := values.Keys;
      while todo != {}
        invariant todo <= values.Keys == old(values).Keys
        invariant forall key :: key in values ==>
                    values[key] == if key in todo then old(values)[key] else Overridden(old(values), env)[key]
      {
        var key :| key in todo;
        var name := BuildEnvName(key);
        if name in env {
          values := values[key := env[name]];
        }
        todo := todo - {key};
      }
    }

    function Get(key: string): (r: Option<string>)
      reads this
      ensures r.Some? <==> key in values
      ensures r.Some? ==> values[key] == r.value
    {
      Lookup(values, key)
    }

    function GetOr(key: string, fallback: string): (r: string)
      reads this
      ensures key in values ==> values[key] == r
      ensures key !in values ==> r == fallback
    {
      var v := Get(key);
      if v.Some? then v.value else fallback
    }

    method Require(keys: seq<string>) returns (r: Result<(), string>)
      ensures r == if Missing(values, keys) == "" then Ok(()) else Err(Missing(values, keys))
    {
      var missing := "";
      for i := 0 to |keys|
        invariant missing == Missing(values, keys[..i])
      {
        assert keys[..i + 1][..i] == keys[..i];
        if Get(keys[i]).None? {
          if missing != "" {
            missing := missing + ", ";
          }
          missing := missing + keys[i];
        }
      }
      assert keys[..|keys|] == keys;
      return if missing == "" then Ok(()) else Err(missing);
    }
  }

  // ----- Layers -----

  /** The store after the defaults and these files, absent and malformed ones included. */
  function FilesLoaded(defaults: Values, files: seq<Option<string>>): Values {
    if files == [] then defaults else Loaded(FilesLoaded(defaults, files[..|files| - 1]), files[|files| - 1])
  }

  function LastInFiles(files: seq<Option<string>>, key: string): Option<string> {
    if files == [] then None
    else Or(LastBinding(Effective(files[|files| - 1]), key), LastInFiles(files[..|files| - 1], key))
  }

  lemma {:induction false} FilesLookup(defaults: Values, files: seq<Option<string>>, key: string)
    ensures Lookup(FilesLoaded(defaults, files), key) == Or(LastInFiles(files, key), Lookup(defaults, key))
  {
    if files != [] {
      var before, last := files[..|files| - 1], files[|files| - 1];
      FilesLookup(defaults, before, key);
      MergedLookup(FilesLoaded(defaults, before), Effective(last), key);
    }
  }

  /** The value of a key after all layers: a known key's variable if it is set, else the last binding among the files,
      else the default. A key that neither the defaults nor a file knows has none, whatever the environment says. */
  lemma {:induction false} LayeredLookup(defaults: Values, files: seq<Option<string>>, env: Values, key: string)
    ensures var below := Or(LastInFiles(files, key), Lookup(defaults, key));
            Lookup(Overridden(FilesLoaded(defaults, files), env), key) ==
            if below.Some? && EnvName(key) in env then Some(env[EnvName(key)]) else below
  {
    FilesLookup(defaults, files, key);
  }

  /** Setting a readable key's variable changes that key at most, among readable ones. */
  lemma {:induction false} VariableOverridesOneKey(values: Values, env: Values, key: string, value: string,
                                                     other: string)
    requires Readable(key) && Readable(other) && other != key
    ensures Lookup(Overridden(values, env[EnvName(key) := value]), other) == Lookup(Overridden(values, env), other)
  {
    OneKeyPerVariable(key, other);
  }

  // ----- Require -----

  /** The variable of a key that nothing else has bound is not looked at, whatever the environment holds. */
  lemma {:induction false} UnknownVariableIsIgnored(key: string, value: string)
    ensures Lookup(Overridden(map[], map[EnvName(key) := value]), key) == None
  {
  }

  /** A missing empty key goes unnoticed. */
  lemma {:induction false} MissingEmptyKeyPasses()
    ensures var none: Values := map[];
            "" !in none && Missing(none, [""]) == ""
  {
    assert [""][..0] == [];
  }

  /** require() succeeds exactly when every key but the empty one is there; a missing empty key goes unnoticed. */
  lemma {:induction false} RequireOkIff(values: Values, keys: seq<string>)
    ensures Missing(values, keys) == "" <==> forall i :: 0 <= i < |keys| ==> keys[i] in values || keys[i] == ""
  {
    if keys != [] {
      var n := |keys| - 1;
      RequireOkIff(values, keys[..n]);
      assert forall i :: 0 <= i < n ==> keys[..n][i] == keys[i];
    }
  }

  /** A failure names every missing key at once. */
  lemma {:induction false} RequireNamesAll(values: Values, keys: seq<string>, i: nat) returns (a: string, b: string)
    requires i < |keys| && keys[i] !in values
    ensures Missing(values, keys) == a + keys[i] + b
  {
    var n := |keys| - 1;
    var before := Missing(values, keys[..n]);
    if i == n {
      a, b := before + (if before == "" then "" else ", "), "";
    } else {
      a, b := RequireNamesAll(values, keys[..n], i);
      if keys[n] !in values {
        b := b + ((if before == "" then "" else ", ") + keys[n]);
      }
    }
  }

  /** Takes a list apart at its commas, each followed by a blank. */
  function ReadList(text: string): seq<string>
    decreases |text|
  {
    var comma := IndexOf(text, ',');
    if text == "" then []
    else if comma + 2 > |text| then [text]
    else [text[..comma]] + ReadList(text[comma + 2..])
  }

  function IsMissing(values: Values): string -> bool {
    (key: string) => key !in values
  }

  /** Keys that a list of keys can hold. */
  predicate Listable(keys: seq<string>) {
    forall i :: 0 <= i < |keys| ==> keys[i] != "" && ',' !in keys[i]
  }

  /** Keys with a comma and a blank between them. */
  function Listed(keys: seq<string>): string {
    if keys == [] then "" else if |keys| == 1 then keys[0] else keys[0] + [','] + (" " + Listed(keys[1..]))
  }

  lemma {:induction false} ListReadsBack(keys: seq<string>)
    requires Listable(keys)
    ensures ReadList(Listed(keys)) == keys
  {
    if |keys| == 1 {
      assert keys == [keys[0]];
    } else if keys != [] {
      FirstAt(keys[0], ',', " " + Listed(keys[1..]));
      ListReadsBack(keys[1..]);
      assert Listed(keys)[|keys[0]| + 2..] == Listed(keys[1..]);
      assert keys == [keys[0]] + keys[1..];
    }
  }

  lemma {:induction false} OneMoreListed(keys: seq<string>, key: string)
    requires keys != []
    ensures Listed(keys + [key]) == Listed(keys) + ", " + key
  {
    assert (keys + [key])[1..] == keys[1..] + [key];
    if |keys| == 1 {
      assert keys[1..] + [key] == [key];
    } else {
      OneMoreListed(keys[1..], key);
    }
  }

  lemma {:induction false} NothingListedIff(keys: seq<string>)
    requires Listable(keys)
    ensures Listed(keys) == "" <==> keys == []
  {
  }

  lemma {:induction false} KeptListable(values: Values, keys: seq<string>)
    requires Listable(keys)
    ensures Listable(Kept(keys, IsMissing(values)))
  {
    if keys != [] {
      KeptListable(values, keys[..|keys| - 1]);
    }
  }

  lemma {:induction false} MissingIsListed(values: Values, keys: seq<string>)
    requires Listable(keys)
    ensures Missing(values, keys) == Listed(Kept(keys, IsMissing(values)))
  {
    if keys != [] {
      var n := |keys| - 1;
      var kept := Kept(keys[..n], IsMissing(values));
      MissingIsListed(values, keys[..n]);
      KeptListable(values, keys[..n]);
      NothingListedIff(kept);
      if kept != [] {
        OneMoreListed(kept, keys[n]);
      }
      assert kept + [] == kept;
    }
  }

  /** For keys without commas the failure text lists the missing ones and no others, in the order they were asked. */
  lemma {:induction false} MissingReadsBack(values: Values, keys: seq<string>)
    requires Listable(keys)
    ensures ReadList(Missing(values, keys)) == Kept(keys, IsMissing(values))
  {
    MissingIsListed(values, keys);
    KeptListable(values, keys);
    ListReadsBack(Kept(keys, IsMissing(values)));
  }

  // ----- Printing a map and loading it -----

  function MapOf(pairs: seq<Pair>): Values {
    if pairs == [] then map[] else MapOf(pairs[..|pairs| - 1])[pairs[|pairs| - 1].0 := pairs[|pairs| - 1].1]
  }

  predicate Distinct(pairs: seq<Pair>) {
    forall i, j :: 0 <= i < j < |pairs| ==> pairs[i].0 != pairs[j].0
  }

  /** A pair that a file can hold. */
  predicate Storable(p: Pair) {
    CleanKey(p.0) && '\n' !in p.0 && '\n' !in p.1
  }

  function Read(pairs: seq<Pair>): (parsed: seq<Parsed>)
    ensures |parsed| == |pairs| && Good(parsed)
  {
    if pairs == [] then [] else [Ok(Some(pairs[0]))] + Read(pairs[1..])
  }

  lemma {:induction false} ReadAt(pairs: seq<Pair>, i: nat)
    requires i < |pairs|
    ensures Read(pairs)[i] == Ok(Some(pairs[i]))
  {
    if i > 0 {
      ReadAt(pairs[1..], i - 1);
    }
  }

  lemma {:induction false} PrintedIsRead(pairs: seq<Pair>)
    requires forall p :: p in pairs ==> CleanKey(p.0)
    ensures ParsedLines(PrintedLines(pairs)) == Read(pairs)
  {
    if pairs != [] {
      LineReadsBackIff(pairs[0]);
      PrintedIsRead(pairs[1..]);
    }
  }

  lemma {:induction false} MergedPrint(pairs: seq<Pair>, n: nat)
    requires n <= |pairs|
    ensures Merged(map[], Read(pairs)[..n]) == MapOf(pairs[..n])
  {
    if n > 0 {
      MergedPrint(pairs, n - 1);
      ReadAt(pairs, n - 1);
      assert Read(pairs)[..n][..n - 1] == Read(pairs)[..n - 1] && pairs[..n][..n - 1] == pairs[..n - 1];
    }
  }

  lemma {:induction false} StorableLine(p: Pair)
    requires Storable(p)
    ensures '\n' !in PrintLine(p)
  {
  }

  lemma {:induction false} PrintedIsRestored(pairs: seq<Pair>)
    requires forall p :: p in pairs ==> Storable(p)
    ensures Loaded(map[], Some(Print(pairs))) == MapOf(pairs)
    ensures FirstBad(FileLines(Some(Print(pairs)))) == |FileLines(Some(Print(pairs)))|
  {
    StorableFile(pairs);
    MergedPrint(pairs, |pairs|);
    assert Read(pairs)[..|pairs|] == Read(pairs) && pairs[..|pairs|] == pairs;
  }

  lemma {:induction false} StorableFile(pairs: seq<Pair>)
    requires forall p :: p in pairs ==> Storable(p)
    ensures FileLines(Some(Print(pairs))) == Read(pairs)
  {
    forall p | p in pairs ensures '\n' !in PrintLine(p) {
      StorableLine(p);
    }
    LinesOfPrint(pairs);
    PrintedIsRead(pairs);
  }

  predicate ReadsStorable(parsed: seq<Parsed>) {
    forall i :: 0 <= i < |parsed| && parsed[i].Ok? && parsed[i].value.Some? ==> Storable(parsed[i].value.value)
  }

  lemma {:induction false} LinesReadStorable(lines: seq<string>)
    requires forall l :: l in lines ==> '\n' !in l
    ensures ReadsStorable(ParsedLines(lines))
  {
    var parsed := ParsedLines(lines);
    forall i | 0 <= i < |parsed| && parsed[i].Ok? && parsed[i].value.Some? ensures Storable(parsed[i].value.value) {
      ParsedAt(lines, i);
      assert lines[i] in lines;
      LineReadsStorable(lines[i]);
    }
  }

  lemma {:induction false} LineReadsStorable(raw: string)
    requires ParseLine(raw).Ok? && ParseLine(raw).value.Some? && '\n' !in raw
    ensures Storable(ParseLine(raw).value.value)
  {
    ReadKeyIsClean(raw);
    ReadPartsAreInLine(raw);
  }

  /** Whatever a file bound was storable. */
  lemma {:induction false} LoadedIsStorable(parsed: seq<Parsed>, key: string)
    requires Good(parsed) && ReadsStorable(parsed) && key in Merged(map[], parsed)
    ensures Storable((key, Merged(map[], parsed)[key]))
  {
    var n := |parsed| - 1;
    var last := parsed[n].value;
    if last.None? || last.value.0 != key {
      LoadedIsStorable(parsed[..n], key);
    }
  }

  lemma {:induction false} ReadPartsAreInLine(raw: string)
    requires ParseLine(raw).Ok? && ParseLine(raw).value.Some? && '\n' !in raw
    ensures '\n' !in ParseLine(raw).value.value.0 && '\n' !in ParseLine(raw).value.value.1
  {
    TrimmedKeepsOut(raw, '\n');
    var line := Trimmed(raw);
    var colon := IndexOf(line, ':');
    TrimmedKeepsOut(line[..colon], '\n');
    TrimmedKeepsOut(line[colon + 1..], '\n');
  }

  lemma {:induction false} TrimmedKeepsOut(s: string, c: char)
    requires c !in s
    ensures c !in Trimmed(s)
  {
    SkipSpaceKeepsOut(s, c);
    DropSpaceKeeps(SkipSpace(s));
  }

  lemma {:induction false} SkipSpaceKeepsOut(s: string, c: char)
    requires c !in s
    ensures c !in SkipSpace(s)
  {
    if s != "" && IsSpace(s[0]) {
      SkipSpaceKeepsOut(s[1..], c);
    }
  }

  lemma {:induction false} MapOfHolds(pairs: seq<Pair>, i: nat)
    requires Distinct(pairs) && i < |pairs|
    ensures pairs[i].0 in MapOf(pairs) && MapOf(pairs)[pairs[i].0] == pairs[i].1
  {
    if i < |pairs| - 1 {
      MapOfHolds(pairs[..|pairs| - 1], i);
    }
  }

  /** A map printed as lines of quoted values, in any order, is restored by loading it into an empty store exactly when
      its keys are clean and neither keys nor values hold a newline; and then no line is malformed. */
  lemma {:induction false} PrintLoadIff(pairs: seq<Pair>)
    requires Distinct(pairs)
    ensures (forall p :: p in pairs ==> Storable(p)) ==>
              FirstBad(FileLines(Some(Print(pairs)))) == |FileLines(Some(Print(pairs)))|
    ensures Loaded(map[], Some(Print(pairs))) == MapOf(pairs) <==> forall p :: p in pairs ==> Storable(p)
  {
    if forall p :: p in pairs ==> Storable(p) {
      PrintedIsRestored(pairs);
    }
    if Loaded(map[], Some(Print(pairs))) == MapOf(pairs) {
      LinesReadStorable(Lines(Print(pairs)));
      forall p | p in pairs ensures Storable(p) {
        var i :| 0 <= i < |pairs| && pairs[i] == p;
        MapOfHolds(pairs, i);
        LoadedIsStorable(Effective(Some(Print(pairs))), p.0);
      }
    }
  }
}
