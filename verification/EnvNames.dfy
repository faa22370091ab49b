/** The environment variable that overrides a configuration key. */
module EnvNames {
  import opened Wrappers

  const PREFIX := "UAOP_"

  predicate IsUpper(c: char) {
    'A' <= c <= 'Z'
  }

  /** Upper and lower case in the C locale. */
  function Upper(c: char): char {
    if 'a' <= c <= 'z' then c - 'a' + 'A' else c
  }

  function Lower(c: char): char {
    if IsUpper(c) then c - 'A' + 'a' else c
  }

  /** A dot becomes two underscores, every other character its upper case. */
  function Mapped(key: string): string {
    if key == "" then "" else (if key[0] == '.' then "__" else [Upper(key[0])]) + Mapped(key[1..])
  }

  function EnvName(key: string): string {
    PREFIX + Mapped(key)
  }

  lemma {:induction false} MappedAppend(key: string, c: char)
    ensures Mapped(key + [c]) == Mapped(key) + if c == '.' then "__" else [Upper(c)]
  {
    if key == "" {
      assert key + [c] == [c];
    } else {
      assert (key + [c])[1..] == key[1..] + [c];
      MappedAppend(key[1..], c);
    }
  }

  method BuildEnvName(key: string) returns (name: string)
    ensures name == EnvName(key)
  {
    name := PREFIX;
    for i := 0 to |key|
      invariant name == PREFIX + Mapped(key[..i])
    {
      assert key[..i + 1] == key[..i] + [key[i]];
      MappedAppend(key[..i], key[i]);
      name := name + if key[i] == '.' then "__" else [Upper(key[i])];
    }
    assert key[..|key|] == key;
  }

  /** The natural reading of a variable's name, from left to right: two underscores are a dot. */
  function Unmapped(name: string): string {
    if name == "" then ""
    else if |name| >= 2 && name[0] == '_' && name[1] == '_' then "." + Unmapped(name[2..])
    else [Lower(name[0])] + Unmapped(name[1..])
  }

  predicate IsSeparator(c: char) {
    c == '.' || c == '_'
  }

  /** No upper case, and no underscore directly before a dot or another underscore. */
  predicate Readable(key: string) {
    key == "" ||
    (!IsUpper(key[0]) && !(key[0] == '_' && |key| > 1 && IsSeparator(key[1])) && Readable(key[1..]))
  }

  /** Keys of lower-case letters, digits and single separators are readable. */
  lemma {:induction false} PlainKeyIsReadable(key: string)
    requires forall i :: 0 <= i < |key| ==> 'a' <= key[i] <= 'z' || '0' <= key[i] <= '9' || IsSeparator(key[i])
    requires forall i :: 0 < i < |key| && IsSeparator(key[i]) ==> !IsSeparator(key[i - 1])
    ensures Readable(key)
  {
    if key != "" {
      assert forall i :: 0 < i < |key[1..]| ==> key[1..][i] == key[i + 1] && key[1..][i - 1] == key[i];
      PlainKeyIsReadable(key[1..]);
      if |key| > 1 {
        assert IsSeparator(key[1]) ==> !IsSeparator(key[0]);
      }
    }
  }

  lemma {:induction false} StartsWithUnderscore(key: string)
    ensures Mapped(key) != "" && Mapped(key)[0] == '_' <==> key != "" && IsSeparator(key[0])
  {
  }

  /** A key is read back from its variable's name exactly when it is readable. */
  lemma {:induction false} MappedReadsBackIff(key: string)
    ensures Unmapped(Mapped(key)) == key <==> Readable(key)
  {
    if key != "" {
      var c, rest := key[0], key[1..];
      var name := Mapped(key);
      assert key == [c] + rest;
      MappedReadsBackIff(rest);
      StartsWithUnderscore(rest);
      if c == '.' {
        assert name[2..] == Mapped(rest);
        assert Unmapped(name) == [c] + Unmapped(Mapped(rest));
        Prefixed(c, Unmapped(Mapped(rest)), rest);
      } else if c == '_' && rest != "" && IsSeparator(rest[0]) {
        assert name[0] == '_' && name[1] == '_';
        assert Unmapped(name)[0] == '.';
      } else {
        assert name[0] == Upper(c) && name[1..] == Mapped(rest);
        assert Unmapped(name) == [Lower(Upper(c))] + Unmapped(Mapped(rest));
        Prefixed(c, Unmapped(Mapped(rest)), rest);
      }
    }
  }

  lemma {:induction false} Prefixed(c: char, s: string, t: string)
    ensures [c] + s == [c] + t <==> s == t
  {
    assert ([c] + s)[1..] == s && ([c] + t)[1..] == t;
  }

  function KeyOf(name: string): Option<string> {
    if "UAOP_" <= name then Some(Unmapped(name[5..])) else None
  }

  lemma {:induction false} NameReadsBackIff(key: string)
    ensures KeyOf(EnvName(key)) == Some(key) <==> Readable(key)
  {
    assert EnvName(key)[5..] == Mapped(key);
    MappedReadsBackIff(key);
  }

  /** One variable overrides at most one readable key. */
  lemma {:induction false} OneKeyPerVariable(key: string, other: string)
    requires Readable(key) && Readable(other)
    ensures EnvName(key) == EnvName(other) <==> key == other
  {
    NameReadsBackIff(key);
    NameReadsBackIff(other);
  }

  /** Other keys can share a variable. */
  lemma {:induction false} DotAndUnderscoresShare()
    ensures EnvName("a.b") == EnvName("a__b") == EnvName("A.b")
  {
  }
}
