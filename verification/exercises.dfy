/** The exercise catalogue of exercises.py: the fixed list of eight
    exercises and the three queries over it (by id, by category, and the
    "quick" list driven by a small parser of the duration text). */
module Exercises {
  import opened Common
  import opened Text

  /** One catalogue entry. The description, instructions, benefits and
      picture name are display text only and are not modelled. */
  datatype Exercise = Exercise(id: int, name: string, duration: string, difficulty: string, category: string)

  /** `_load_exercises` (exercises.py:33-213). */
  const Catalogue: seq<Exercise> := [
    Exercise(1, "Rozciąganie szyi", "2-3 minuty", "łatwe", "Szyja i kark"),
    Exercise(2, "Rozciąganie ramion i barków", "3-4 minuty", "łatwe", "Ramiona"),
    Exercise(3, "Skręty tułowia", "2-3 minuty", "łatwe", "Plecy"),
    Exercise(4, "Rozciąganie nadgarstków", "2 minuty", "łatwe", "Nadgarstki"),
    Exercise(5, "Mini spacer", "5 minut", "łatwe", "Ogólne"),
    Exercise(6, "Ćwiczenia oczu", "2 minuty", "łatwe", "Oczy"),
    Exercise(7, "Rozciąganie nóg", "3 minuty", "łatwe", "Nogi"),
    Exercise(8, "Głębokie oddychanie", "3-5 minut", "łatwe", "Relaksacja")]

  // ------------------------------------------------------------ by id

  /** Position of the first entry with the given id, or |exs| when there is none. */
  function FirstWithId(exs: seq<Exercise>, id: int): (k: nat)
    ensures k <= |exs|
    ensures k < |exs| ==> exs[k].id == id
    ensures forall j :: 0 <= j < k ==> exs[j].id != id
  {
    if exs == [] then 0
    else if exs[0].id == id then 0
    else 1 + FirstWithId(exs[1..], id)
  }

  /** `get_exercise`: the first entry with the id, or None. */
  function GetExercise(exs: seq<Exercise>, id: int): (r: Option<Exercise>)
    ensures r.None? <==> forall i :: 0 <= i < |exs| ==> exs[i].id != id
    ensures r.Some? ==> exists k :: (0 <= k < |exs| && exs[k] == r.value && r.value.id == id
      && forall j :: 0 <= j < k ==> exs[j].id != id)
  {
    var k := FirstWithId(exs, id);
    if k < |exs| then Some(exs[k]) else None
  }

  /** No two catalogue entries share an id; the ids are exactly 1..8. */
  lemma CatalogueIds()
    ensures forall i, j :: 0 <= i < j < |Catalogue| ==> Catalogue[i].id != Catalogue[j].id
    ensures forall i :: 0 <= i < |Catalogue| ==> Catalogue[i].id == i + 1
  {
  }

  /** In a list with unique ids, looking up an entry's id finds that entry. */
  lemma LookupUnique(exs: seq<Exercise>, i: nat)
    requires i < |exs|
    requires forall a, b :: 0 <= a < b < |exs| ==> exs[a].id != exs[b].id
    ensures GetExercise(exs, exs[i].id) == Some(exs[i])
  {
    var r := GetExercise(exs, exs[i].id);
    var k :| 0 <= k < |exs| && exs[k] == r.value && r.value.id == exs[i].id;
    assert k == i;
  }

  /** Each id 1..8 finds its catalogue entry; any other id finds nothing. */
  lemma CatalogueLookup(id: int)
    ensures 1 <= id <= 8 ==> GetExercise(Catalogue, id) == Some(Catalogue[id - 1])
    ensures !(1 <= id <= 8) ==> GetExercise(Catalogue, id).None?
  {
    CatalogueIds();
    if 1 <= id <= 8 {
      LookupUnique(Catalogue, id - 1);
    }
  }

  // ------------------------------------------------------ by category

  /** `get_exercises_by_category`: the entries of the category, in catalogue order. */
  function ByCategory(exs: seq<Exercise>, category: string): (r: seq<Exercise>)
    ensures SubsequenceOf(r, exs)
    ensures forall e :: e in r <==> e in exs && e.category == category
    ensures |r| == Count(exs, (e: Exercise) => e.category == category)
    ensures forall e :: multiset(r)[e] == if e.category == category then multiset(exs)[e] else 0
  {
    FilterSubsequence(exs, (e: Exercise) => e.category == category);
    FilterMultiset(exs, (e: Exercise) => e.category == category);
    Filter(exs, (e: Exercise) => e.category == category)
  }

  /** A category no catalogue entry has gives an empty list. */
  lemma UnknownCategory(category: string)
    requires forall i :: 0 <= i < |Catalogue| ==> Catalogue[i].category != category
    ensures ByCategory(Catalogue, category) == []
  {
  }

  // ---------------------------------------------------------- duration

  /** `int(d.split('-')[-1].split()[0])`: the first word after the last
      '-', read as an integer; None where the expression raises. */
  function ParseDuration(d: string): (r: Option<nat>)
    ensures r.Some? ==> FirstWord(AfterLast(d, '-')).Some?
  {
    match FirstWord(AfterLast(d, '-'))
    case None => None
    case Some(w) => ParsePyInt(w)
  }

  /** A range "lo-hi unit" parses to its upper end. */
  lemma ParseRange(d: string, lo: nat, hi: nat, unit: string)
    requires d == Decimal(lo) + "-" + Decimal(hi) + unit
    requires unit != [] ==> IsSpace(unit[0])
    requires '-' !in unit
    ensures ParseDuration(d) == Some(hi)
  {
    var x, tail := Decimal(lo), Decimal(hi) + unit;
    assert d == x + ['-'] + tail;
    ParseAfterDash(x, tail, hi, unit);
  }

  /** A figure "n unit" after the last '-' parses to n, whatever precedes the dash. */
  lemma ParseAfterDash(x: string, tail: string, n: nat, unit: string)
    requires tail == Decimal(n) + unit
    requires unit != [] ==> IsSpace(unit[0])
    requires '-' !in unit
    ensures ParseDuration(x + ['-'] + tail) == Some(n)
  {
    NoDashAfterNumeral(n, unit);
    DurationAfterDash(x, tail);
    ParseSingle(tail, n, unit);
  }

  /** Only the text after the last '-' matters to the parser. */
  lemma DurationAfterDash(x: string, tail: string)
    requires '-' !in tail
    ensures ParseDuration(x + ['-'] + tail) == ParseDuration(tail)
  {
    AfterLastAppended(x, '-', tail);
    AfterLastNone(tail, '-');
  }

  /** A numeral followed by dash-free text holds no '-'. */
  lemma NoDashAfterNumeral(n: nat, unit: string)
    requires '-' !in unit
    ensures '-' !in Decimal(n) + unit
  {
    var b := Decimal(n);
    var tail := b + unit;
    forall i | 0 <= i < |tail|
      ensures tail[i] != '-'
    {
      if i < |b| {
        assert IsDigit(b[i]);
      } else {
        assert tail[i] == unit[i - |b|];
      }
    }
  }

  /** A single figure "n unit" parses to n. */
  lemma ParseSingle(d: string, n: nat, unit: string)
    requires d == Decimal(n) + unit
    requires unit != [] ==> IsSpace(unit[0])
    requires '-' !in unit
    ensures ParseDuration(d) == Some(n)
  {
    NoDashAfterNumeral(n, unit);
    AfterLastNone(d, '-');
    NumeralThenUnit(n, unit);
  }

  /** The first word of "n unit" is the numeral, and it reads back as n. */
  lemma NumeralThenUnit(n: nat, unit: string)
    requires unit != [] ==> IsSpace(unit[0])
    ensures FirstWord(Decimal(n) + unit) == Some(Decimal(n))
    ensures ParsePyInt(Decimal(n)) == Some(n)
  {
    DigitWord(n);
    FirstWordOf(Decimal(n), unit);
    ParsePyIntDecimal(n);
  }

  /** A duration ending in '-' leaves no word to read, so it does not parse. */
  lemma TrailingDashUnparsed(d: string)
    requires d != [] && d[|d| - 1] == '-'
    ensures ParseDuration(d).None?
  {
    AfterLastAt(d, '-', |d| - 1);
  }

  /** A numeral holds no whitespace. */
  lemma DigitWord(n: nat)
    ensures forall i :: 0 <= i < |Decimal(n)| ==> !IsSpace(Decimal(n)[i])
  {
    assert forall i :: 0 <= i < |Decimal(n)| ==> IsDigit(Decimal(n)[i]);
  }

  /** The upper bounds the catalogue's durations parse to, in catalogue order. */
  const CatalogueBounds: seq<nat> := [3, 4, 3, 2, 5, 2, 3, 5]

  lemma SmallNumerals()
    ensures Decimal(2) == "2" && Decimal(3) == "3" && Decimal(4) == "4" && Decimal(5) == "5"
  {
  }

  /** Each catalogue duration parses to its listed upper bound. */
  lemma CatalogueDuration(i: nat)
    requires i < |Catalogue|
    ensures ParseDuration(Catalogue[i].duration) == Some(CatalogueBounds[i])
  {
    if i in {0, 1, 2, 7} {
      RangeDuration(i);
    } else {
      SingleDuration(i);
    }
  }

  /** The four range durations "2-3 minuty", "3-4 minuty", "2-3 minuty" and "3-5 minut". */
  lemma RangeDuration(i: nat)
    requires i in {0, 1, 2, 7}
    ensures ParseDuration(Catalogue[i].duration) == Some(CatalogueBounds[i])
  {
    var d := Catalogue[i].duration;
    SmallNumerals();
    if i == 0 || i == 2 {
      ParseRange(d, 2, 3, " minuty");
    } else if i == 1 {
      ParseRange(d, 3, 4, " minuty");
    } else {
      ParseRange(d, 3, 5, " minut");
    }
  }

  /** The four single durations "2 minuty", "5 minut", "2 minuty" and "3 minuty". */
  lemma SingleDuration(i: nat)
    requires 3 <= i <= 6
    ensures ParseDuration(Catalogue[i].duration) == Some(CatalogueBounds[i])
  {
    var d := Catalogue[i].duration;
    SmallNumerals();
    if i == 4 {
      ParseSingle(d, 5, " minut");
    } else if i == 6 {
      ParseSingle(d, 3, " minuty");
    } else {
      ParseSingle(d, 2, " minuty");
    }
  }

  // ------------------------------------------------------------- quick

  /** An entry qualifies when its parsed bound is within the limit, or when its duration cannot be parsed. */
  predicate IsQuick(e: Exercise, limit: int)
  {
    match ParseDuration(e.duration)
    case None => true
    case Some(n) => n <= limit
  }

  /** The quick test for a given limit, as a predicate on entries. */
  function QuickAt(limit: int): Exercise -> bool
  {
    e => IsQuick(e, limit)
  }

  /** `get_quick_exercises(max_duration_minutes)`. */
  function QuickExercises(exs: seq<Exercise>, limit: int): (r: seq<Exercise>)
    ensures SubsequenceOf(r, exs)
    ensures forall e :: e in r <==> e in exs && (ParseDuration(e.duration).None? || ParseDuration(e.duration).value <= limit)
    ensures |r| == Count(exs, QuickAt(limit))
    ensures forall e :: multiset(r)[e] == if IsQuick(e, limit) then multiset(exs)[e] else 0
  {
    FilterSubsequence(exs, QuickAt(limit));
    FilterMultiset(exs, QuickAt(limit));
    Filter(exs, QuickAt(limit))
  }

  /** An entry whose duration does not parse is kept whatever the limit. */
  lemma UnparsedIsKept(exs: seq<Exercise>, i: nat, limit: int)
    requires i < |exs| && ParseDuration(exs[i].duration).None?
    ensures exs[i] in QuickExercises(exs, limit)
  {
    assert exs[i] in exs;
  }

  /** Raising the limit never drops an entry, and keeps the order. */
  lemma QuickMonotone(exs: seq<Exercise>, l1: int, l2: int)
    requires l1 <= l2
    ensures SubsequenceOf(QuickExercises(exs, l1), QuickExercises(exs, l2))
  {
    FilterMonotone(exs, QuickAt(l1), QuickAt(l2));
  }

  /** A catalogue entry is quick exactly when its listed bound is within the limit. */
  lemma CatalogueQuick(i: nat, limit: int)
    requires i < |Catalogue|
    ensures IsQuick(Catalogue[i], limit) <==> CatalogueBounds[i] <= limit
  {
    CatalogueDuration(i);
  }

  /** A catalogue entry is in the quick list exactly when its listed bound is within the limit. */
  lemma QuickCatalogueMember(i: nat, limit: int)
    requires i < |Catalogue|
    ensures Catalogue[i] in QuickExercises(Catalogue, limit) <==> CatalogueBounds[i] <= limit
  {
    CatalogueQuick(i, limit);
  }

  /** The catalogue's bounds lie between two and five minutes. */
  lemma BoundRange(i: nat)
    requires i < |CatalogueBounds|
    ensures 2 <= CatalogueBounds[i] <= 5
  {
  }

  /** Whether every catalogue entry is quick, or none is, depends only on how the limit compares with 5 and 2. */
  lemma CatalogueQuickAll(limit: int)
    ensures limit >= 5 ==> forall i :: 0 <= i < |Catalogue| ==> IsQuick(Catalogue[i], limit)
    ensures limit < 2 ==> forall i :: 0 <= i < |Catalogue| ==> !IsQuick(Catalogue[i], limit)
  {
    forall i | 0 <= i < |Catalogue|
      ensures IsQuick(Catalogue[i], limit) <==> CatalogueBounds[i] <= limit
      ensures 2 <= CatalogueBounds[i] <= 5
    {
      CatalogueQuick(i, limit);
      BoundRange(i);
    }
  }

  /** With the default limit of five minutes, or any larger one, the whole catalogue is quick. */
  lemma DefaultLimitKeepsAll(limit: int)
    requires limit >= 5
    ensures QuickExercises(Catalogue, limit) == Catalogue
  {
    CatalogueQuickAll(limit);
    AllQuick(Catalogue, limit);
  }

  /** Below two minutes no catalogue exercise is quick. */
  lemma TooShortLimit(limit: int)
    requires limit < 2
    ensures QuickExercises(Catalogue, limit) == []
  {
    CatalogueQuickAll(limit);
    NoneQuick(Catalogue, limit);
  }

  /** When no entry qualifies, the quick list is empty. */
  lemma NoneQuick(exs: seq<Exercise>, limit: int)
    requires forall i :: 0 <= i < |exs| ==> !IsQuick(exs[i], limit)
    ensures QuickExercises(exs, limit) == []
  {
    assert Count(exs, QuickAt(limit)) == 0;
  }

  /** When every entry qualifies, the quick list is the whole list. */
  lemma AllQuick(exs: seq<Exercise>, limit: int)
    requires forall i :: 0 <= i < |exs| ==> IsQuick(exs[i], limit)
    ensures QuickExercises(exs, limit) == exs
  {
    FilterAll(exs, QuickAt(limit));
  }
}
