/**
 * CategoryMappingService: translates a Guardian or New York Times section
 * name into one of the seven standard categories through a constant table.
 */
module CategoryMapping {
  import opened Wrappers
  import opened Php

  /** The closed set of categories every stored article uses. */
  const StandardCategories: seq<string> :=
    ["business", "entertainment", "general", "health", "science", "sports", "technology"]

  /** Guardian section key (spaces removed, lower-cased) to category. */
  const GuardianMapping: map<string, string> := map[
    "business" := "business",
    "technology" := "technology",
    "science" := "science",
    "sport" := "sports",
    "football" := "sports",
    "culture" := "entertainment",
    "film" := "entertainment",
    "music" := "entertainment",
    "books" := "entertainment",
    "artanddesign" := "entertainment",
    "stage" := "entertainment",
    "tv-and-radio" := "entertainment",
    "games" := "entertainment",
    "lifeandstyle" := "general",
    "fashion" := "general",
    "food" := "general",
    "travel" := "general",
    "money" := "business",
    "politics" := "general",
    "world" := "general",
    "uk-news" := "general",
    "us-news" := "general",
    "australia-news" := "general",
    "society" := "general",
    "education" := "general",
    "media" := "general",
    "law" := "general",
    "environment" := "science",
    "global-development" := "general",
    "cities" := "general",
    "commentisfree" := "general",
    "opinion" := "general"
  ]

  /** New York Times section key (spaces and hyphens removed, lower-cased) to category. */
  const NytMapping: map<string, string> := map[
    "business" := "business",
    "technology" := "technology",
    "science" := "science",
    "sports" := "sports",
    "arts" := "entertainment",
    "movies" := "entertainment",
    "music" := "entertainment",
    "books" := "entertainment",
    "theater" := "entertainment",
    "style" := "general",
    "fashion" := "general",
    "food" := "general",
    "travel" := "general",
    "politics" := "general",
    "world" := "general",
    "us" := "general",
    "nyregion" := "general",
    "opinion" := "general",
    "health" := "health",
    "well" := "health",
    "education" := "general",
    "magazine" := "general",
    "sunday-review" := "general",
    "t-magazine" := "entertainment",
    "real estate" := "business",
    "automobiles" := "general",
    "obituaries" := "general",
    "climate" := "science",
    "environment" := "science"
  ]

  const NytSeparators: set<char> := {' ', '-'}

  /** `getStandardCategories()`: the seven categories, each once, and exactly the valid ones. */
  function GetStandardCategories(): (r: seq<string>)
    ensures |r| == 7
    ensures forall i, j :: 0 <= i < j < |r| ==> r[i] != r[j]
    ensures forall c :: c in r <==>
      c in {"business", "entertainment", "general", "health", "science", "sports", "technology"}
    ensures forall c :: c in r <==> IsValidCategory(c)
  {
    StandardCategories
  }

  /** `isValidCategory($category)`: membership in the standard list. */
  predicate IsValidCategory(category: string) {
    category in StandardCategories
  }

  /** The valid categories are exactly these seven. */
  lemma ValidCategoriesExactly(category: string)
    ensures IsValidCategory(category) <==>
      category in {"business", "entertainment", "general", "health", "science", "sports", "technology"}
  {
  }

  /** The Guardian table key of a section: spaces removed, then lower-cased. */
  function GuardianKey(section: string): string {
    Lower(Strip(section, {' '}))
  }

  /** The NYT table key of a section: spaces and hyphens removed, then lower-cased. */
  function NytKey(section: string): string {
    Lower(Strip(section, NytSeparators))
  }

  /** Every category either table can produce is a standard one. */
  lemma TablesClosed()
    ensures forall k :: k in GuardianMapping ==> IsValidCategory(GuardianMapping[k])
    ensures forall k :: k in NytMapping ==> IsValidCategory(NytMapping[k])
  {
    forall k | k in GuardianMapping ensures IsValidCategory(GuardianMapping[k]) {
      var v := GuardianMapping[k];
      assert v in GuardianMapping.Values;
      assert GuardianMapping.Values <= {"business", "technology", "science", "sports", "entertainment", "general"};
    }
    forall k | k in NytMapping ensures IsValidCategory(NytMapping[k]) {
      var v := NytMapping[k];
      assert v in NytMapping.Values;
      assert NytMapping.Values <= {"business", "technology", "science", "sports", "entertainment", "general", "health"};
    }
  }

  /** `mapGuardianSection($section)`. */
  function MapGuardianSection(section: Option<string>): (r: Option<string>)
    ensures r.None? <==> section.None? || Falsy(section.value)
    ensures r.Some? ==> IsValidCategory(r.value)
    ensures r.Some? && GuardianKey(section.value) !in GuardianMapping ==> r.value == "general"
    ensures r.Some? && GuardianKey(section.value) in GuardianMapping ==> r.value == GuardianMapping[GuardianKey(section.value)]
  {
    TablesClosed();
    if section.None? || Falsy(section.value) then None
    else
      var key := GuardianKey(section.value);
      Some(if key in GuardianMapping then GuardianMapping[key] else "general")
  }

  /** `mapNYTSection($section)`. */
  function MapNytSection(section: Option<string>): (r: Option<string>)
    ensures r.None? <==> section.None? || Falsy(section.value)
    ensures r.Some? ==> IsValidCategory(r.value)
    ensures r.Some? && NytKey(section.value) !in NytMapping ==> r.value == "general"
    ensures r.Some? && NytKey(section.value) in NytMapping ==> r.value == NytMapping[NytKey(section.value)]
  {
    TablesClosed();
    if section.None? || Falsy(section.value) then None
    else
      var key := NytKey(section.value);
      Some(if key in NytMapping then NytMapping[key] else "general")
  }

  /** Two strings that agree once both are lower-cased. */
  predicate SameIgnoringCase(a: string, b: string) {
    |a| == |b| && forall i :: 0 <= i < |a| ==> LowerChar(a[i]) == LowerChar(b[i])
  }

  /** Removing non-letters keeps two case-equal strings case-equal. */
  lemma {:induction false} StripKeepsSameCase(a: string, b: string, drop: set<char>)
    requires SameIgnoringCase(a, b)
    requires forall c :: c in drop ==> !IsLetter(c)
    ensures SameIgnoringCase(Strip(a, drop), Strip(b, drop))
  {
    if a != [] {
      assert LowerChar(a[0]) == LowerChar(b[0]);
      assert a[0] in drop <==> b[0] in drop;
      assert SameIgnoringCase(a[1..], b[1..]) by {
        forall i | 0 <= i < |a[1..]| ensures LowerChar(a[1..][i]) == LowerChar(b[1..][i]) {
          assert a[1..][i] == a[i + 1] && b[1..][i] == b[i + 1];
        }
      }
      StripKeepsSameCase(a[1..], b[1..], drop);
      if a[0] !in drop {
        var sa, sb := Strip(a[1..], drop), Strip(b[1..], drop);
        forall i | 0 <= i < |[a[0]] + sa| ensures LowerChar(([a[0]] + sa)[i]) == LowerChar(([b[0]] + sb)[i]) {
          if i > 0 {
            assert ([a[0]] + sa)[i] == sa[i - 1] && ([b[0]] + sb)[i] == sb[i - 1];
          }
        }
      }
    }
  }

  /** Case-equal strings are both falsy or both not. */
  lemma SameCaseSameFalsiness(a: string, b: string)
    requires SameIgnoringCase(a, b)
    ensures Falsy(a) <==> Falsy(b)
  {
    if a == "0" {
      assert LowerChar(b[0]) == '0';
      assert b == "0";
    }
    if b == "0" {
      assert LowerChar(a[0]) == '0';
      assert a == "0";
    }
  }

  /** The Guardian mapper ignores letter case. */
  lemma GuardianIgnoresCase(a: string, b: string)
    requires SameIgnoringCase(a, b)
    ensures MapGuardianSection(Some(a)) == MapGuardianSection(Some(b))
  {
    SameCaseSameFalsiness(a, b);
    StripKeepsSameCase(a, b, {' '});
    assert GuardianKey(a) == GuardianKey(b);
  }

  /**
   * The NYT mapper ignores letter case, spaces and hyphens: two non-falsy
   * sections that agree once those are discounted map alike.
   */
  lemma NytIgnoresCaseAndSeparators(a: string, b: string)
    requires !Falsy(a) && !Falsy(b)
    requires SameIgnoringCase(Strip(a, NytSeparators), Strip(b, NytSeparators))
    ensures MapNytSection(Some(a)) == MapNytSection(Some(b))
  {
    assert NytKey(a) == NytKey(b);
  }

  /** Lower-casing never produces a space or a hyphen. */
  lemma {:induction false} NytKeyHasNoSeparators(section: string)
    ensures forall i :: 0 <= i < |NytKey(section)| ==> NytKey(section)[i] !in NytSeparators
  {
    var stripped := Strip(section, NytSeparators);
    forall i | 0 <= i < |NytKey(section)| ensures NytKey(section)[i] !in NytSeparators {
      assert NytKey(section)[i] == LowerChar(stripped[i]);
    }
  }

  /**
   * The NYT table entries `sunday-review`, `t-magazine` and `real estate` can
   * never be hit: every NYT key is free of spaces and hyphens.
   */
  lemma NytDeadEntries(section: string)
    ensures NytKey(section) != "sunday-review"
    ensures NytKey(section) != "t-magazine"
    ensures NytKey(section) != "real estate"
  {
    NytKeyHasNoSeparators(section);
    assert "sunday-review"[6] == '-';
    assert "t-magazine"[1] == '-';
    assert "real estate"[4] == ' ';
  }
  /** The Guardian table entries the examples below go through. */
  lemma GuardianRows()
    ensures "artanddesign" in GuardianMapping && GuardianMapping["artanddesign"] == "entertainment"
    ensures "tv-and-radio" in GuardianMapping && GuardianMapping["tv-and-radio"] == "entertainment"
    ensures "uk-news" in GuardianMapping && GuardianMapping["uk-news"] == "general"
    ensures "football" in GuardianMapping && GuardianMapping["football"] == "sports"
    ensures "sport" in GuardianMapping && GuardianMapping["sport"] == "sports"
    ensures "technology" in GuardianMapping && GuardianMapping["technology"] == "technology"
  {
  }

  /** The NYT table entries the examples below go through, and the keys it lacks. */
  lemma NytRows()
    ensures "technology" in NytMapping && NytMapping["technology"] == "technology"
    ensures "realestate" !in NytMapping && "sundayreview" !in NytMapping && "tmagazine" !in NytMapping
  {
  }

  /** A section without spaces: its Guardian key is the section lower-cased. */
  lemma GuardianKeyOf(section: string, key: string)
    requires forall i :: 0 <= i < |section| ==> section[i] != ' '
    requires Lower(section) == key
    ensures GuardianKey(section) == key
  {
    StripKeeps(section, {' '});
  }

  /** Three words joined by spaces: their Guardian key is the words run together, lower-cased. */
  lemma GuardianKeyOfWords(a: string, b: string, c: string, key: string)
    requires forall i :: 0 <= i < |a| ==> a[i] != ' '
    requires forall i :: 0 <= i < |b| ==> b[i] != ' '
    requires forall i :: 0 <= i < |c| ==> c[i] != ' '
    requires Lower(a + b + c) == key
    ensures GuardianKey(a + [' '] + b + [' '] + c) == key
  {
    StripJoin3(a, ' ', b, ' ', c, {' '});
  }

  /** A section without spaces or hyphens: its NYT key is the section lower-cased. */
  lemma NytKeyOf(section: string, key: string)
    requires forall i :: 0 <= i < |section| ==> section[i] !in NytSeparators
    requires Lower(section) == key
    ensures NytKey(section) == key
  {
    StripKeeps(section, NytSeparators);
  }

  /** Two words joined by a space or a hyphen: their NYT key is the words run together, lower-cased. */
  lemma NytKeyOfWords(a: string, sep: char, b: string, key: string)
    requires forall i :: 0 <= i < |a| ==> a[i] !in NytSeparators
    requires forall i :: 0 <= i < |b| ==> b[i] !in NytSeparators
    requires sep in NytSeparators
    requires Lower(a + b) == key
    ensures NytKey(a + [sep] + b) == key
  {
    StripJoin(a, sep, b, NytSeparators);
  }

  /** A section whose Guardian key is in the table gets that entry's category. */
  lemma GuardianEntry(section: string, key: string, category: string)
    requires !Falsy(section)
    requires GuardianKey(section) == key
    requires key in GuardianMapping && GuardianMapping[key] == category
    ensures MapGuardianSection(Some(section)) == Some(category)
  {
  }

  /** A section whose NYT key is in the table gets that entry's category. */
  lemma NytEntry(section: string, key: string, category: string)
    requires !Falsy(section)
    requires NytKey(section) == key
    requires key in NytMapping && NytMapping[key] == category
    ensures MapNytSection(Some(section)) == Some(category)
  {
  }

  /** A section whose NYT key is not in the table gets `general`. */
  lemma NytMiss(section: string, key: string)
    requires !Falsy(section)
    requires NytKey(section) == key
    requires key !in NytMapping
    ensures MapNytSection(Some(section)) == Some("general")
  {
  }

  /** `Real Estate` loses its space and misses the `real estate` entry. */
  lemma NytRealEstate(section: string)
    requires section == "Real Estate"
    ensures MapNytSection(Some(section)) == Some("general")
  {
    NytRows();
    assert section == "Real" + [' '] + "Estate";
    assert Lower("Real" + "Estate") == "realestate";
    NytKeyOfWords("Real", ' ', "Estate", "realestate");
    NytMiss(section, "realestate");
  }

  /** `Sunday-Review` loses its hyphen and misses the `sunday-review` entry. */
  lemma NytSundayReview(section: string)
    requires section == "Sunday-Review"
    ensures MapNytSection(Some(section)) == Some("general")
  {
    NytRows();
    assert section == "Sunday" + ['-'] + "Review";
    assert Lower("Sunday" + "Review") == "sundayreview";
    NytKeyOfWords("Sunday", '-', "Review", "sundayreview");
    NytMiss(section, "sundayreview");
  }

  /** `T-Magazine` loses its hyphen and misses the `t-magazine` entry. */
  lemma NytTMagazine(section: string)
    requires section == "T-Magazine"
    ensures MapNytSection(Some(section)) == Some("general")
  {
    NytRows();
    assert section == "T" + ['-'] + "Magazine";
    assert Lower("T" + "Magazine") == "tmagazine";
    NytKeyOfWords("T", '-', "Magazine", "tmagazine");
    NytMiss(section, "tmagazine");
  }

  /** Guardian `Art and Design` loses its spaces and hits `artanddesign`. */
  lemma GuardianArtAndDesign(section: string)
    requires section == "Art and Design"
    ensures MapGuardianSection(Some(section)) == Some("entertainment")
  {
    GuardianRows();
    assert section == "Art" + [' '] + "and" + [' '] + "Design";
    assert Lower("Art" + "and" + "Design") == "artanddesign";
    GuardianKeyOfWords("Art", "and", "Design", "artanddesign");
    GuardianEntry(section, "artanddesign", "entertainment");
  }

  /** The Guardian mapper keeps hyphens, so its hyphenated keys are reachable. */
  lemma GuardianTvAndRadio(section: string)
    requires section == "TV-and-Radio"
    ensures MapGuardianSection(Some(section)) == Some("entertainment")
  {
    GuardianRows();
    assert Lower(section) == "tv-and-radio";
    GuardianKeyOf(section, "tv-and-radio");
    GuardianEntry(section, "tv-and-radio", "entertainment");
  }

  lemma GuardianUkNews(section: string)
    requires section == "UK-News"
    ensures MapGuardianSection(Some(section)) == Some("general")
  {
    GuardianRows();
    assert Lower(section) == "uk-news";
    GuardianKeyOf(section, "uk-news");
    GuardianEntry(section, "uk-news", "general");
  }

  /** Both Guardian sport sections land in `sports`. */
  lemma GuardianFootball(section: string)
    requires section == "football"
    ensures MapGuardianSection(Some(section)) == Some("sports")
  {
    GuardianRows();
    assert Lower(section) == "football";
    GuardianKeyOf(section, "football");
    GuardianEntry(section, "football", "sports");
  }

  lemma GuardianSport(section: string)
    requires section == "sport"
    ensures MapGuardianSection(Some(section)) == Some("sports")
  {
    GuardianRows();
    assert Lower(section) == "sport";
    GuardianKeyOf(section, "sport");
    GuardianEntry(section, "sport", "sports");
  }

  /** `Technology` maps to `technology` for both sources. */
  lemma GuardianTechnology(section: string)
    requires section == "Technology"
    ensures MapGuardianSection(Some(section)) == Some("technology")
  {
    GuardianRows();
    assert Lower(section) == "technology";
    GuardianKeyOf(section, "technology");
    GuardianEntry(section, "technology", "technology");
  }

  lemma NytTechnology(section: string)
    requires section == "Technology"
    ensures MapNytSection(Some(section)) == Some("technology")
  {
    NytRows();
    assert Lower(section) == "technology";
    NytKeyOf(section, "technology");
    NytEntry(section, "technology", "technology");
  }
}

