/** The icon resolver: maps an OpenWeather condition code such as "10n" to the
    index of a 20x20 tile in the icon sprite sheet. */
module Icons {
  import opened Wrappers
  import opened Builtins

  /** One `ICON_MAP` entry: a key pattern and its tile index. */
  datatype IconEntry = IconEntry(key: string, tile: int)

  /** `ICON_MAP` in its written order. A third key character 'X' matches any
      day/night suffix. */
  const IconMap: seq<IconEntry> := [
    IconEntry("01d", 0), IconEntry("01n", 9), IconEntry("02d", 1), IconEntry("02n", 10),
    IconEntry("03X", 2), IconEntry("04X", 3), IconEntry("09X", 4), IconEntry("10X", 5),
    IconEntry("11X", 6), IconEntry("13X", 7), IconEntry("50X", 8)
  ]

  /** The test `get_icon` applies to each key: the first two characters agree,
      and the key's third character is the wildcard or agrees too. */
  predicate KeyMatches(key: string, code: string) {
    Slice(key, 0, 2) == Slice(code, 0, 2) &&
    (Slice(key, 2, 3) == "X" || Slice(key, 2, 3) == Slice(code, 2, 3))
  }

  /** The tile of the first entry of `entries` whose key matches `code`. */
  function FirstMatch(entries: seq<IconEntry>, code: string): Option<int> {
    if entries == [] then None
    else if KeyMatches(entries[0].key, code) then Some(entries[0].tile)
    else FirstMatch(entries[1..], code)
  }

  /** The result is `None` exactly when no key matches, and otherwise the tile
      of a matching entry with no matching entry before it. */
  lemma {:induction false} FirstMatchSpec(entries: seq<IconEntry>, code: string)
    ensures var r := FirstMatch(entries, code);
      (r.None? <==> forall i :: 0 <= i < |entries| ==> !KeyMatches(entries[i].key, code)) &&
      (r.Some? ==> exists i :: 0 <= i < |entries| && KeyMatches(entries[i].key, code) &&
                               entries[i].tile == r.value &&
                               forall j :: 0 <= j < i ==> !KeyMatches(entries[j].key, code))
  {
    if entries != [] && !KeyMatches(entries[0].key, code) {
      FirstMatchSpec(entries[1..], code);
      assert forall i :: 1 <= i < |entries| ==> entries[i] == entries[1..][i - 1];
      var r := FirstMatch(entries, code);
      if r.Some? {
        var i :| 0 <= i < |entries[1..]| && KeyMatches(entries[1..][i].key, code) &&
                 entries[1..][i].tile == r.value &&
                 forall j :: 0 <= j < i ==> !KeyMatches(entries[1..][j].key, code);
        assert forall j :: 0 <= j < i + 1 ==> !KeyMatches(entries[j].key, code) by {
          forall j | 0 <= j < i + 1
            ensures !KeyMatches(entries[j].key, code)
          {
            if j > 0 {
              assert entries[j] == entries[1..][j - 1];
            }
          }
        }
        assert entries[i + 1] == entries[1..][i];
      }
    } else if entries != [] {
      assert KeyMatches(entries[0].key, code);
    }
  }

  /** What `get_icon(code)` returns, `None` when no key matches. */
  function IconLookup(code: string): Option<int> {
    FirstMatch(IconMap, code)
  }

  /** `get_icon`: scan the table in order and return at the first matching key. */
  method GetIcon(code: string) returns (r: Option<int>)
    ensures r == IconLookup(code)
  {
    var i := 0;
    while i < |IconMap|
      invariant 0 <= i <= |IconMap|
      invariant FirstMatch(IconMap[i..], code) == IconLookup(code)
    {
      var entry := IconMap[i];
      ghost var rest := IconMap[i..];
      assert rest[0] == entry && rest[1..] == IconMap[i + 1..];
      if Slice(entry.key, 0, 2) == Slice(code, 0, 2) {
        if Slice(entry.key, 2, 3) == "X" {
          assert KeyMatches(entry.key, code);
          return Some(entry.tile);
        } else if Slice(entry.key, 2, 3) == Slice(code, 2, 3) {
          assert KeyMatches(entry.key, code);
          return Some(entry.tile);
        }
      }
      assert !KeyMatches(entry.key, code);
      i := i + 1;
    }
    return None;
  }

  /** Two three-character key patterns no code can match both of: different
      prefixes, or two different literal suffixes. */
  predicate Exclusive(k1: string, k2: string) {
    |k1| == 3 && |k2| == 3 &&
    (k1[0] != k2[0] || k1[1] != k2[1] || (k1[2] != 'X' && k2[2] != 'X' && k1[2] != k2[2]))
  }

  lemma ExclusiveKeysNeverBothMatch(k1: string, k2: string, code: string)
    requires Exclusive(k1, k2)
    ensures !(KeyMatches(k1, code) && KeyMatches(k2, code))
  {
  }

  /** Every two entries of `ICON_MAP` have exclusive keys. */
  lemma IconKeysExclusive(i: int, j: int)
    requires 0 <= i < j < |IconMap|
    ensures Exclusive(IconMap[i].key, IconMap[j].key)
  {
    assert i == 0 || i == 1 || i == 2 || i == 3 || i == 4 || i == 5 || i == 6 || i == 7 || i == 8 || i == 9;
    assert j == 1 || j == 2 || j == 3 || j == 4 || j == 5 || j == 6 || j == 7 || j == 8 || j == 9 || j == 10;
  }

  /** At most one entry of `ICON_MAP` matches any code. */
  lemma MatchingEntryUnique(code: string, i: int, j: int)
    requires 0 <= i < |IconMap| && 0 <= j < |IconMap|
    requires KeyMatches(IconMap[i].key, code) && KeyMatches(IconMap[j].key, code)
    ensures i == j
  {
    if i < j {
      IconKeysExclusive(i, j);
      ExclusiveKeysNeverBothMatch(IconMap[i].key, IconMap[j].key, code);
    } else if j < i {
      IconKeysExclusive(j, i);
      ExclusiveKeysNeverBothMatch(IconMap[j].key, IconMap[i].key, code);
    }
  }

  /** Whatever the scan order, a matching entry of `ICON_MAP` gives the result. */
  lemma IconLookupAt(code: string, k: int)
    requires 0 <= k < |IconMap| && KeyMatches(IconMap[k].key, code)
    ensures IconLookup(code) == Some(IconMap[k].tile)
  {
    FirstMatchSpec(IconMap, code);
    var i :| 0 <= i < |IconMap| && KeyMatches(IconMap[i].key, code) &&
             IconMap[i].tile == IconLookup(code).value;
    MatchingEntryUnique(code, i, k);
  }

  /** The result does not depend on the order in which the table is scanned:
      any ordering of the same entries gives the same tile. */
  lemma IconLookupOrderFree(entries: seq<IconEntry>, code: string)
    requires forall e :: e in entries <==> e in IconMap
    ensures FirstMatch(entries, code) == IconLookup(code)
  {
    var r := FirstMatch(entries, code);
    FirstMatchSpec(entries, code);
    FirstMatchSpec(IconMap, code);
    if r.Some? {
      var i :| 0 <= i < |entries| && KeyMatches(entries[i].key, code) && entries[i].tile == r.value;
      assert entries[i] in IconMap;
      var k :| 0 <= k < |IconMap| && IconMap[k] == entries[i];
      IconLookupAt(code, k);
    } else {
      forall k | 0 <= k < |IconMap|
        ensures !KeyMatches(IconMap[k].key, code)
      {
        assert IconMap[k] in entries;
      }
    }
  }

  /** The two-character prefixes of the OpenWeather icon codes. */
  const OpenWeatherPrefixes: seq<string> := ["01", "02", "03", "04", "09", "10", "11", "13", "50"]

  /** Every OpenWeather icon code, day ('d') or night ('n'), resolves to a tile. */
  lemma OpenWeatherCodesResolve(i: int, suffix: char)
    requires 0 <= i < |OpenWeatherPrefixes| && (suffix == 'd' || suffix == 'n')
    ensures IconLookup(OpenWeatherPrefixes[i] + [suffix]).Some?
  {
    var code := OpenWeatherPrefixes[i] + [suffix];
    assert Slice(code, 0, 2) == OpenWeatherPrefixes[i];
    assert Slice(code, 2, 3) == [suffix];
    var k := if i < 2 then 2 * i + (if suffix == 'd' then 0 else 1) else i + 2;
    assert Slice(IconMap[k].key, 0, 2) == OpenWeatherPrefixes[i];
    assert KeyMatches(IconMap[k].key, code);
    IconLookupAt(code, k);
  }

  /** Worked cases: an exact day key, a night key that passes over the day key
      with the same prefix, and a wildcard key. */
  lemma IconLookupExamples()
    ensures IconLookup("01d") == Some(0)
    ensures IconLookup("01n") == Some(9)
    ensures IconLookup("09d") == Some(4) && IconLookup("09n") == Some(4)
  {
    IconLookupAt("01d", 0);
    IconLookupAt("01n", 1);
    IconLookupAt("09d", 6);
    IconLookupAt("09n", 6);
  }

  /** A code with an unknown prefix resolves to `None`. */
  lemma IconLookupUnknown()
    ensures IconLookup("99z") == None
  {
    FirstMatchSpec(IconMap, "99z");
    forall i | 0 <= i < |IconMap|
      ensures !KeyMatches(IconMap[i].key, "99z")
    {
      var key := IconMap[i].key;
      assert |key| == 3 && key[0] != '9' by {
        assert i == 0 || i == 1 || i == 2 || i == 3 || i == 4 || i == 5 || i == 6 || i == 7 || i == 8 || i == 9 || i == 10;
      }
      assert Slice(key, 0, 2)[0] == key[0];
      assert Slice("99z", 0, 2)[0] == '9';
    }
  }
}
