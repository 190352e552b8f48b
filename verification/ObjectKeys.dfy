/** The texts that a backup inventory may hold: opaque identities and unambiguous object keys
    (scripts/m3_11_backup_fixture.py, scripts/m3_11_backup_removal.py). */
module ObjectKeys {
  const MAX_VERSION_BYTES := 1024

  /** The number of bytes that a character takes in UTF-8. */
  function Width(c: char): nat {
    if c as int < 0x80 then 1 else if c as int < 0x800 then 2 else if c as int < 0x10000 then 3 else 4
  }

  function Encoded(text: string): nat {
    if text == "" then 0 else Width(text[0]) + Encoded(text[1..])
  }

  /** `_version`: a bounded text without control characters. */
  predicate Opaque(text: string) {
    && text != "" && text != "null" && Encoded(text) <= MAX_VERSION_BYTES
    && forall c <- text :: 0x20 <= c as int && c as int != 0x7f
  }

  /** `key.split("/")`. */
  function Parts(key: string): (parts: seq<string>)
    ensures parts != []
  {
    if key == "" then [""]
    else
      var rest := Parts(key[1..]);
      if key[0] == '/' then [""] + rest else [[key[0]] + rest[0]] + rest[1..]
  }

  predicate Unambiguous(key: string) {
    forall part <- Parts(key) :: part != "" && part != "." && part != ".."
  }

  // ------------------------------------------------------------ keys built from names

  /** `"/".join(names)`. */
  function Joined(names: seq<string>): string {
    if names == [] then "" else if |names| == 1 then names[0] else names[0] + "/" + Joined(names[1..])
  }

  predicate Whole(names: seq<string>) {
    names != [] && forall name <- names :: '/' !in name
  }

  /** Names that a path can be made of. */
  predicate Clean(names: seq<string>) {
    Whole(names) && forall name <- names :: name != "" && name != "." && name != ".."
  }

  /** One of the names is empty or a dot segment. */
  ghost predicate Ambiguous(key: string) {
    exists names :: Whole(names) && key == Joined(names) && ("" in names || "." in names || ".." in names)
  }

  lemma {:induction false} PartsOfName(name: string, rest: string)
    requires '/' !in name
    ensures Parts(name) == [name] && Parts(name + "/" + rest) == [name] + Parts(rest)
  {
    if name == "" {
      assert name + "/" + rest == "/" + rest && ("/" + rest)[1..] == rest;
    } else {
      PartsOfName(name[1..], rest);
      assert (name + "/" + rest)[1..] == name[1..] + "/" + rest;
      assert [name[0]] + name[1..] == name;
    }
  }

  /** Splitting undoes joining... */
  lemma {:induction false} PartsOfJoined(names: seq<string>)
    requires Whole(names)
    ensures Parts(Joined(names)) == names
  {
    PartsOfName(names[0], Joined(names[1..]));
    if |names| > 1 {
      PartsOfJoined(names[1..]);
    }
    assert names == [names[0]] + names[1..];
  }

  /** ... and joining undoes splitting. */
  lemma {:induction false} JoinedParts(key: string)
    ensures Whole(Parts(key)) && Joined(Parts(key)) == key
  {
    if key != "" {
      JoinedParts(key[1..]);
      OneMore(key[0], Parts(key[1..]));
      assert key == [key[0]] + key[1..];
    }
  }

  lemma {:induction false} OneMore(c: char, rest: seq<string>)
    requires Whole(rest)
    ensures Joined([""] + rest) == "/" + Joined(rest)
    ensures Joined([[c] + rest[0]] + rest[1..]) == [c] + Joined(rest)
    ensures Whole([""] + rest) && (c != '/' ==> Whole([[c] + rest[0]] + rest[1..]))
  {
    var longer := [[c] + rest[0]] + rest[1..];
    assert ([""] + rest)[1..] == rest && longer[1..] == rest[1..];
    assert |rest| > 1 ==> [c] + (rest[0] + "/" + Joined(rest[1..])) == ([c] + rest[0]) + "/" + Joined(rest[1..]);
  }

  lemma {:induction false} UnambiguousIs(key: string)
    ensures Unambiguous(key) <==> !Ambiguous(key)
  {
    JoinedParts(key);
    forall names | Whole(names) && key == Joined(names)
      ensures names == Parts(key)
    {
      PartsOfJoined(names);
    }
  }

  lemma {:induction false} JoinedConcat(a: seq<string>, b: seq<string>)
    requires a != [] && b != []
    ensures Joined(a + b) == Joined(a) + "/" + Joined(b)
  {
    if |a| == 1 {
      assert (a + b)[1..] == b;
    } else {
      assert (a + b)[1..] == a[1..] + b;
      JoinedConcat(a[1..], b);
    }
  }

  /** A key under a clean directory. */
  lemma {:induction false} CleanIsUnambiguous(directory: seq<string>, names: seq<string>)
    requires Clean(directory) && Clean(names)
    ensures Unambiguous(Joined(directory) + "/" + Joined(names))
  {
    JoinedConcat(directory, names);
    PartsOfJoined(directory + names);
  }

  /** ASCII texts are measured by their length, and longer ones are longer. */
  lemma {:induction false} EncodedAscii(text: string)
    ensures |text| <= Encoded(text) <= 4 * |text|
    ensures (forall c <- text :: c as int < 0x80) ==> Encoded(text) == |text|
  {
    if text != "" {
      EncodedAscii(text[1..]);
      assert text[0] in text && forall c <- text[1..] :: c in text;
    }
  }

  /** Printable ASCII identities of up to 1024 characters are accepted, and no text that is empty,
      longer or holds a control character is. */
  lemma {:induction false} OpaqueTexts(text: string)
    ensures 0 < |text| <= 1024 && text != "null" && (forall c <- text :: ' ' <= c <= '~') ==> Opaque(text)
    ensures |text| == 0 || |text| > 1024 || text == "null" || (exists c <- text :: c < ' ') ==> !Opaque(text)
  {
    EncodedAscii(text);
  }
}
