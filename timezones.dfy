/** The time tool's city-to-timezone resolution: a fixed table of
    (city, timezone) pairs searched by an ordered cascade, first hit wins. */
module Timezones {
  import opened Wrappers
  import opened Text

  /** A table as its entries in declaration order. */
  type Table = seq<(string, string)>

  /** The table, in declaration order (lines 297-353). It is written as
      consecutive groups so that a lemma about one entry stays small. */
  const CityTimezones: Table :=
    TzGroup1 + TzGroup2 + TzGroup3 + TzGroup4 + TzGroup5 + TzGroup6 + TzGroup7

  const TzGroup1: Table := [
    ("new york", "America/New_York"),
    ("san francisco", "America/Los_Angeles"),
    ("los angeles", "America/Los_Angeles"),
    ("chicago", "America/Chicago"),
    ("houston", "America/Chicago"),
    ("phoenix", "America/Phoenix")
  ]
  const TzGroup2: Table := [
    ("philadelphia", "America/New_York"),
    ("san antonio", "America/Chicago"),
    ("san diego", "America/Los_Angeles"),
    ("dallas", "America/Chicago"),
    ("san jose", "America/Los_Angeles"),
    ("austin", "America/Chicago")
  ]
  const TzGroup3: Table := [
    ("london", "Europe/London"),
    ("paris", "Europe/Paris"),
    ("berlin", "Europe/Berlin"),
    ("rome", "Europe/Rome"),
    ("madrid", "Europe/Madrid"),
    ("amsterdam", "Europe/Amsterdam"),
    ("brussels", "Europe/Brussels"),
    ("vienna", "Europe/Vienna")
  ]
  const TzGroup4: Table := [
    ("tokyo", "Asia/Tokyo"),
    ("beijing", "Asia/Shanghai"),
    ("shanghai", "Asia/Shanghai"),
    ("hong kong", "Asia/Hong_Kong"),
    ("singapore", "Asia/Singapore"),
    ("sydney", "Australia/Sydney"),
    ("melbourne", "Australia/Melbourne"),
    ("auckland", "Pacific/Auckland")
  ]
  const TzGroup5: Table := [
    ("toronto", "America/Toronto"),
    ("vancouver", "America/Vancouver"),
    ("montreal", "America/Montreal"),
    ("mexico city", "America/Mexico_City"),
    ("sao paulo", "America/Sao_Paulo"),
    ("rio de janeiro", "America/Sao_Paulo"),
    ("buenos aires", "America/Argentina/Buenos_Aires")
  ]
  const TzGroup6: Table := [
    ("lagos", "Africa/Lagos"),
    ("cairo", "Africa/Cairo"),
    ("johannesburg", "Africa/Johannesburg"),
    ("nairobi", "Africa/Nairobi"),
    ("dubai", "Asia/Dubai"),
    ("new delhi", "Asia/Kolkata"),
    ("mumbai", "Asia/Kolkata"),
    ("bangkok", "Asia/Bangkok"),
    ("jakarta", "Asia/Jakarta"),
    ("istanbul", "Europe/Istanbul"),
    ("seoul", "Asia/Seoul")
  ]
  const TzGroup7: Table := [
    ("Tunis", "Africa/Tunis"),
    ("monastir", "Africa/Tunis"),
    ("Beb El Jazira", "Africa/Tunis"),
    ("Abu Dhabi", "Asia/Dubai"),
    ("Abuja", "Africa/Lagos"),
    ("Accra", "Africa/Accra"),
    ("Addis Ababa", "Africa/Addis_Ababa"),
    ("Algiers", "Africa/Algiers")
  ]

  /** The table has 54 entries and no empty key, so a key the exact step
      finds always passes the truth test `if exact_match:`. */
  lemma TableKeysNonEmpty()
    ensures |CityTimezones| == 54
    ensures forall i :: 0 <= i < |CityTimezones| ==> CityTimezones[i].0 != ""
  {
  }

  /** How a table key is compared with the query at each step of the cascade. */
  datatype Rule =
    | Exact(city: string)           // `city in city_to_timezone`, case-sensitive
    | IgnoringCase(cityLower: string) // `city_name.lower() == city_lower`
    | Partial(cityLower: string)      // `city_lower in c.lower() or c.lower() in city_lower`

  predicate Matches(rule: Rule, key: string) {
    match rule
    case Exact(city) => key == city
    case IgnoringCase(q) => Lower(key) == q
    case Partial(q) => Contains(Lower(key), q) || Contains(q, Lower(key))
  }

  /** Index of the first entry, in table order, whose key the rule accepts. */
  function FirstMatching(table: Table, rule: Rule): (r: Option<nat>)
    ensures r.Some? ==> r.value < |table| && Matches(rule, table[r.value].0)
    ensures r.Some? ==> forall j :: 0 <= j < r.value ==> !Matches(rule, table[j].0)
    ensures r.None? ==> forall j :: 0 <= j < |table| ==> !Matches(rule, table[j].0)
  {
    if table == [] then None
    else if Matches(rule, table[0].0) then Some(0)
    else
      match FirstMatching(table[1..], rule)
      case Some(i) => Some(i + 1)
      case None => None
  }

  /** `[c for c in city_to_timezone.keys() if ...]`: every partially matching
      key, in table order. */
  function PartialMatches(table: Table, cityLower: string): (r: seq<string>)
    ensures |r| <= |table|
    ensures forall k :: 0 <= k < |r| ==> Matches(Partial(cityLower), r[k])
  {
    if table == [] then []
    else
      (if Matches(Partial(cityLower), table[0].0) then [table[0].0] else [])
        + PartialMatches(table[1..], cityLower)
  }

  ghost predicate IsKey(table: Table, key: string) {
    exists i :: 0 <= i < |table| && table[i].0 == key
  }

  /** `city_to_timezone[key]` for a key of the table: the timezone of its
      first entry. */
  function Lookup(table: Table, key: string): (tz: string)
    requires IsKey(table, key)
    ensures exists i :: 0 <= i < |table| && table[i] == (key, tz)
                        && forall j :: 0 <= j < i ==> table[j].0 != key
  {
    if table[0].0 == key then table[0].1
    else
      assert IsKey(table[1..], key) by {
        var i :| 0 <= i < |table| && table[i].0 == key;
        assert table[1..][i - 1].0 == key;
      }
      var tz := Lookup(table[1..], key);
      var i :| 0 <= i < |table[1..]| && table[1..][i] == (key, tz)
               && forall j :: 0 <= j < i ==> table[1..][j].0 != key;
      assert table[i + 1] == (key, tz);
      assert forall j :: 0 < j < i + 1 ==> table[j] == table[1..][j - 1];
      tz
  }

  /** The tool's answer, before the clock is read: the key the city resolved
      to (the name the report shows) and its timezone identifier. */
  datatype TimeResult =
    | TimeOk(city: string, tz: string)
    | TimeError(message: string)

  /** The step before the partial match: the entry found by exact matching,
      case-sensitive for the preferred city first, then ignoring case. */
  function ExactStep(table: Table, city: string, preferred: string): Option<nat> {
    if city == preferred then
      match FirstMatching(table, Exact(city))
      case Some(i) => Some(i)
      case None => FirstMatching(table, IgnoringCase(Lower(city)))
    else
      FirstMatching(table, IgnoringCase(Lower(city)))
  }

  /** The entry the exact step finds is the one the dictionary gives for its key. */
  lemma ExactStepLookup(table: Table, city: string, preferred: string)
    requires ExactStep(table, city, preferred).Some?
    ensures IsKey(table, table[ExactStep(table, city, preferred).value].0)
    ensures Lookup(table, table[ExactStep(table, city, preferred).value].0)
            == table[ExactStep(table, city, preferred).value].1
  {
    if city == preferred && FirstMatching(table, Exact(city)).Some? {
      LookupAtFirst(table, Exact(city), ExactStep(table, city, preferred).value);
    } else {
      LookupAtFirst(table, IgnoringCase(Lower(city)), ExactStep(table, city, preferred).value);
    }
  }

  /** The resolution cascade for an effective city, given the preferred city.
      A found key is used only when it is non-empty, as Python's `if exact_match:`
      tests its truth. */
  function ResolveTimezone(table: Table, city: string, preferred: string): (r: TimeResult)
    ensures r.TimeOk? ==> IsKey(table, r.city) && r.tz == Lookup(table, r.city)
  {
    var exact := ExactStep(table, city, preferred);
    if exact.Some? && table[exact.value].0 != "" then
      ExactStepLookup(table, city, preferred);
      TimeOk(table[exact.value].0, table[exact.value].1)
    else
      var matches := PartialMatches(table, Lower(city));
      if |matches| > 0 then
        PartialMatchesFromTable(table, Lower(city));
        TimeOk(matches[0], Lookup(table, matches[0]))
      else
        TimeError("Sorry, I don't have timezone information for " + city + ". Try a major city.")
  }

  /** Every partial match is a key of the table, and the list starts with the
      first partially matching key. */
  lemma {:induction false} PartialMatchesFromTable(table: Table, cityLower: string)
    ensures forall c :: c in PartialMatches(table, cityLower) ==> IsKey(table, c)
    ensures |PartialMatches(table, cityLower)| > 0 <==> FirstMatching(table, Partial(cityLower)).Some?
    ensures |PartialMatches(table, cityLower)| > 0 ==>
              PartialMatches(table, cityLower)[0] == table[FirstMatching(table, Partial(cityLower)).value].0
  {
    if table != [] {
      PartialMatchesFromTable(table[1..], cityLower);
      var rest := PartialMatches(table[1..], cityLower);
      var all := PartialMatches(table, cityLower);
      var head := if Matches(Partial(cityLower), table[0].0) then [table[0].0] else [];
      assert all == head + rest;
      forall c | c in all
        ensures IsKey(table, c)
      {
        if c in head {
          assert table[0].0 == c;
        } else {
          var i :| 0 <= i < |table[1..]| && table[1..][i].0 == c;
          assert table[i + 1].0 == c;
        }
      }
    }
  }

  /** Lines 366-371 and 377-381: scan the keys in table order for one equal to
      the lower-cased query ignoring case, stopping at the first. */
  method ScanIgnoringCase(table: Table, cityLower: string) returns (found: Option<nat>)
    ensures found == FirstMatching(table, IgnoringCase(cityLower))
  {
    found := None;
    for i := 0 to |table|
      invariant found.None?
      invariant forall j :: 0 <= j < i ==> Lower(table[j].0) != cityLower
    {
      if Lower(table[i].0) == cityLower {
        found := Some(i);
        break;
      }
    }
  }

  /** Lines 355-398: the cascade as the tool runs it. */
  method LookupTimezone(table: Table, city: string, preferred: string) returns (r: TimeResult)
    ensures r == ResolveTimezone(table, city, preferred)
  {
    var cityLower := Lower(city);
    var exact: Option<nat>;
    if city == preferred {
      exact := FirstMatching(table, Exact(city));
      if exact.None? {
        exact := ScanIgnoringCase(table, cityLower);
      }
    } else {
      exact := ScanIgnoringCase(table, cityLower);
    }
    if exact.Some? && table[exact.value].0 != "" {
      r := TimeOk(table[exact.value].0, table[exact.value].1);
    } else {
      var matches := PartialMatches(table, cityLower);
      if |matches| > 0 {
        PartialMatchesFromTable(table, cityLower);
        r := TimeOk(matches[0], Lookup(table, matches[0]));
      } else {
        r := TimeError("Sorry, I don't have timezone information for " + city + ". Try a major city.");
      }
    }
  }

  /*** What the cascade promises ***/

  lemma ContainsSelf(s: string)
    ensures Contains(s, s)
  {
    assert OccursAt(s, s, 0);
  }

  /** The key at index `i` of an entry that comes first among those the rule
      accepts is looked up at that very entry. */
  lemma LookupAtFirst(table: Table, rule: Rule, i: nat)
    requires FirstMatching(table, rule) == Some(i)
    ensures IsKey(table, table[i].0)
    ensures Lookup(table, table[i].0) == table[i].1
  {
    var key := table[i].0;
    assert IsKey(table, key);
    var tz := Lookup(table, key);
    var k :| 0 <= k < |table| && table[k] == (key, tz) && forall j :: 0 <= j < k ==> table[j].0 != key;
    assert !(i < k);
    assert !(k < i);
  }

  /** The result is always an entry of the table: the reported timezone is the
      one the table gives for the reported key. */
  lemma ResolveIsTableEntry(table: Table, city: string, preferred: string)
    ensures ResolveTimezone(table, city, preferred).TimeOk? ==>
      exists i :: 0 <= i < |table|
        && table[i] == (ResolveTimezone(table, city, preferred).city, ResolveTimezone(table, city, preferred).tz)
  {
  }

  /** A city the table knows in some spelling always resolves: the tool fails
      exactly when no key contains, or is contained in, the lower-cased city,
      and its error then names the city as given. */
  lemma ResolveFailsIffNoPartial(table: Table, city: string, preferred: string)
    ensures (ResolveTimezone(table, city, preferred).TimeError?
             <==> forall i :: 0 <= i < |table| ==> !Matches(Partial(Lower(city)), table[i].0))
    ensures ResolveTimezone(table, city, preferred).TimeError? ==>
              ResolveTimezone(table, city, preferred).message
                == "Sorry, I don't have timezone information for " + city + ". Try a major city."
  {
    var q := Lower(city);
    PartialMatchesFromTable(table, q);
    var exact := ExactStep(table, city, preferred);
    if exact.Some? {
      var key := table[exact.value].0;
      assert Lower(key) == q;
      ContainsSelf(q);
      assert Matches(Partial(q), key);
    }
  }

  /** Step 1: the preferred city, when it is a key verbatim, resolves to
      itself and its own timezone. */
  lemma ResolvePreferredVerbatim(table: Table, city: string)
    requires city != "" && IsKey(table, city)
    ensures ResolveTimezone(table, city, city) == TimeOk(city, Lookup(table, city))
  {
    var i :| 0 <= i < |table| && table[i].0 == city;
    var first := FirstMatching(table, Exact(city));
    assert first.Some?;
    LookupAtFirst(table, Exact(city), first.value);
  }

  /** Step 2: otherwise the first key equal to the city ignoring case wins. */
  lemma ResolveIgnoringCase(table: Table, city: string, preferred: string, i: nat)
    requires city != ""
    requires !(city == preferred && IsKey(table, city))
    requires FirstMatching(table, IgnoringCase(Lower(city))) == Some(i)
    ensures ResolveTimezone(table, city, preferred) == TimeOk(table[i].0, table[i].1)
  {
    if city == preferred {
      assert FirstMatching(table, Exact(city)).None?;
    }
    assert |Lower(table[i].0)| == |table[i].0|;
  }

  /** Step 3: with no exact match of either kind, the first key in table order
      that contains the lower-cased city, or is contained in it, wins. */
  lemma ResolvePartial(table: Table, city: string, preferred: string, i: nat)
    requires !(city == preferred && IsKey(table, city))
    requires FirstMatching(table, IgnoringCase(Lower(city))).None?
    requires FirstMatching(table, Partial(Lower(city))) == Some(i)
    ensures ResolveTimezone(table, city, preferred) == TimeOk(table[i].0, table[i].1)
  {
    if city == preferred {
      assert FirstMatching(table, Exact(city)).None?;
    }
    PartialMatchesFromTable(table, Lower(city));
    LookupAtFirst(table, Partial(Lower(city)), i);
  }

  /** For cities other than the preferred one, only the lower-cased spelling
      matters: two spellings resolve alike, and both fail or neither does. */
  lemma ResolveIgnoresCase(table: Table, a: string, b: string, preferred: string)
    requires a != preferred && b != preferred && Lower(a) == Lower(b)
    ensures ResolveTimezone(table, a, preferred).TimeOk? == ResolveTimezone(table, b, preferred).TimeOk?
    ensures ResolveTimezone(table, a, preferred).TimeOk? ==>
              ResolveTimezone(table, a, preferred) == ResolveTimezone(table, b, preferred)
  {
  }

  /** An upper-case spelling of a table key resolves by the case-insensitive
      step to that key. */
  lemma NewYorkAnyCase()
    ensures ResolveTimezone(CityTimezones, "NEW YORK", "Tunis") == TimeOk("new york", "America/New_York")
  {
    assert Lower("NEW YORK") == "new york";
    assert Lower("new york") == "new york";
    ResolveIgnoringCase(CityTimezones, "NEW YORK", "Tunis", 0);
  }

  /** An entry found by scanning is the first match when no earlier entry matches. */
  lemma FirstMatchingAt(table: Table, rule: Rule, i: nat)
    requires i < |table| && Matches(rule, table[i].0)
    requires forall j :: 0 <= j < i ==> !Matches(rule, table[j].0)
    ensures FirstMatching(table, rule) == Some(i)
  {
    var r := FirstMatching(table, rule);
    assert r.Some?;
    assert !(r.value < i);
  }

  /** `k` differs from "tunis" in length or, once lower-cased, in a letter. */
  predicate NotTunisAnyCase(k: string) {
    || |k| != 5
    || LowerChar(k[0]) != 't' || LowerChar(k[1]) != 'u' || LowerChar(k[2]) != 'n'
    || LowerChar(k[3]) != 'i' || LowerChar(k[4]) != 's'
  }

  predicate NoTunisKey(t: Table) {
    forall i :: 0 <= i < |t| ==> NotTunisAnyCase(t[i].0)
  }

  lemma NoTunisKeyConcat(a: Table, b: Table)
    requires NoTunisKey(a) && NoTunisKey(b)
    ensures NoTunisKey(a + b)
  {
    forall i | 0 <= i < |a + b|
      ensures NotTunisAnyCase((a + b)[i].0)
    {
      if i >= |a| {
        assert (a + b)[i] == b[i - |a|];
      }
    }
  }

  /** The entries before "Tunis": no key among them is "tunis" in any case. */
  lemma NoTunisBeforeItsEntry()
    ensures |TzGroup1 + TzGroup2 + TzGroup3 + TzGroup4 + TzGroup5 + TzGroup6| == 46
    ensures NoTunisKey(TzGroup1 + TzGroup2 + TzGroup3 + TzGroup4 + TzGroup5 + TzGroup6)
  {
    assert NoTunisKey(TzGroup1);
    assert NoTunisKey(TzGroup2);
    assert NoTunisKey(TzGroup3);
    assert NoTunisKey(TzGroup4);
    assert NoTunisKey(TzGroup5);
    assert NoTunisKey(TzGroup6);
    NoTunisKeyConcat(TzGroup1, TzGroup2);
    NoTunisKeyConcat(TzGroup1 + TzGroup2, TzGroup3);
    NoTunisKeyConcat(TzGroup1 + TzGroup2 + TzGroup3, TzGroup4);
    NoTunisKeyConcat(TzGroup1 + TzGroup2 + TzGroup3 + TzGroup4, TzGroup5);
    NoTunisKeyConcat(TzGroup1 + TzGroup2 + TzGroup3 + TzGroup4 + TzGroup5, TzGroup6);
  }

  /** The preferred city "Tunis" resolves to the same entry whether or not it
      is the preferred city: the verbatim step and the case-insensitive step
      agree on it, because no earlier key is "tunis" in another case. */
  lemma TunisEitherStep()
    ensures ResolveTimezone(CityTimezones, "Tunis", "Tunis") == TimeOk("Tunis", "Africa/Tunis")
    ensures ResolveTimezone(CityTimezones, "Tunis", "Paris") == TimeOk("Tunis", "Africa/Tunis")
  {
    var before := TzGroup1 + TzGroup2 + TzGroup3 + TzGroup4 + TzGroup5 + TzGroup6;
    assert CityTimezones == before + TzGroup7;
    NoTunisBeforeItsEntry();
    assert CityTimezones[46] == ("Tunis", "Africa/Tunis");
    assert Lower("Tunis") == "tunis";
    forall j | 0 <= j < 46
      ensures !Matches(IgnoringCase("tunis"), CityTimezones[j].0)
    {
      var k := CityTimezones[j].0;
      assert k == before[j].0;
      assert NotTunisAnyCase(k);
      if |Lower(k)| == 5 {
        assert Lower(k)[0] != 't' || Lower(k)[1] != 'u' || Lower(k)[2] != 'n'
            || Lower(k)[3] != 'i' || Lower(k)[4] != 's';
      }
    }
    FirstMatchingAt(CityTimezones, IgnoringCase("tunis"), 46);
    ResolveIgnoringCase(CityTimezones, "Tunis", "Paris", 46);
    assert IsKey(CityTimezones, "Tunis");
    ResolvePreferredVerbatim(CityTimezones, "Tunis");
    LookupAtFirst(CityTimezones, IgnoringCase("tunis"), 46);
  }

  /** The substring step does not relate "Yorks" to "new york": neither
      lower-cased string contains the other. */
  lemma YorksIsNotNewYork()
    ensures !Matches(Partial("yorks"), "new york")
  {
    assert Lower("new york") == "new york";
    forall i ensures !OccursAt("yorks", "new york", i) {
      if 0 <= i <= 3 {
        assert "new york"[i..i + 5][4] != 's';
      }
    }
  }
}
