/**
 * The request space of the ScanSante activity map: the form fields of one
 * request, the fixed enumeration of requests the automation walks through,
 * and the name under which a downloaded workbook is stored.
 */
module Combinations {
  import opened Wrappers

  /**
   * The form fields of one request. `aso` (activity of care) and `cas`
   * (category of activity of care) are the two optional filters: `None`
   * is an absent key, which every reader of the fields defaults.
   */
  datatype Params = Params(
    annee: string,
    tgeo: string,
    codegeo: string,
    base: string,
    aso: Option<string>,
    cas: Option<string>,
    typrgp: string)

  /** Python truthiness of `params.get(key)`: the key is present and not empty. */
  predicate IsSet(filter: Option<string>) {
    filter.Some? && filter.value != ""
  }

  // The constant lists the enumeration iterates over.
  const Years: seq<string> := ["2024", "2023", "2022", "2021", "2020"]
  const GeoTypes: seq<string> := ["fe"]
  const GeoCodes: seq<string> := ["99"]
  const Bases: seq<string> := ["bpub"]
  const ActivityTypes: seq<string> := ["M", "C", "O"]
  const CasTypes: seq<string> := ["C", "M", "O"]

  /** Number of requests enumerated per year: all stays, three ASO, three CAS. */
  const PerYear: nat := 7

  function AllStays(y: string, g: string, c: string, b: string): Params {
    Params(y, g, c, b, Some(""), Some(""), "tous")
  }

  function ByActivity(y: string, g: string, c: string, b: string, aso: string): Params {
    Params(y, g, c, b, Some(aso), Some(""), "rgpGHM")
  }

  function ByCategory(y: string, g: string, c: string, b: string, cas: string): Params {
    Params(y, g, c, b, Some(""), Some(cas), "rgpGHM")
  }

  // One function per loop of the enumeration. Each is defined on a prefix of
  // its list and extends it at the right end, as the loop does.

  /** What the ASO loop appends for one base. */
  function ActivityEntries(y: string, g: string, c: string, b: string, asos: seq<string>): seq<Params>
  {
    if asos == [] then []
    else ActivityEntries(y, g, c, b, asos[..|asos| - 1]) + [ByActivity(y, g, c, b, asos[|asos| - 1])]
  }

  /** What the CAS loop appends for one base. */
  function CategoryEntries(y: string, g: string, c: string, b: string, cass: seq<string>): seq<Params>
  {
    if cass == [] then []
    else CategoryEntries(y, g, c, b, cass[..|cass| - 1]) + [ByCategory(y, g, c, b, cass[|cass| - 1])]
  }

  /** What the body of the innermost base loop appends. */
  function BaseBlock(y: string, g: string, c: string, b: string, asos: seq<string>, cass: seq<string>): seq<Params>
  {
    [AllStays(y, g, c, b)] + ActivityEntries(y, g, c, b, asos) + CategoryEntries(y, g, c, b, cass)
  }

  function BaseBlocks(y: string, g: string, c: string, bases: seq<string>, asos: seq<string>, cass: seq<string>): seq<Params>
  {
    if bases == [] then []
    else BaseBlocks(y, g, c, bases[..|bases| - 1], asos, cass) + BaseBlock(y, g, c, bases[|bases| - 1], asos, cass)
  }

  function CodeBlocks(y: string, g: string, codes: seq<string>, bases: seq<string>, asos: seq<string>, cass: seq<string>): seq<Params>
  {
    if codes == [] then []
    else CodeBlocks(y, g, codes[..|codes| - 1], bases, asos, cass) + BaseBlocks(y, g, codes[|codes| - 1], bases, asos, cass)
  }

  function GeoBlocks(y: string, geos: seq<string>, codes: seq<string>, bases: seq<string>, asos: seq<string>, cass: seq<string>): seq<Params>
  {
    if geos == [] then []
    else GeoBlocks(y, geos[..|geos| - 1], codes, bases, asos, cass) + CodeBlocks(y, geos[|geos| - 1], codes, bases, asos, cass)
  }

  /** The whole nested enumeration: years outermost, then geography, code, base, then the filters. */
  function Enumeration(years: seq<string>, geos: seq<string>, codes: seq<string>, bases: seq<string>, asos: seq<string>, cass: seq<string>): seq<Params>
  {
    if years == [] then []
    else Enumeration(years[..|years| - 1], geos, codes, bases, asos, cass) + GeoBlocks(years[|years| - 1], geos, codes, bases, asos, cass)
  }

  /** The requests `generate_all_combinations` returns, as a value. */
  function AllCombinations(): seq<Params> {
    Enumeration(Years, GeoTypes, GeoCodes, Bases, ActivityTypes, CasTypes)
  }

  /**
   * The order of the enumeration, slot by slot: the `k`-th request of a year
   * is "all stays" for k = 0, ASO M, C, O for k = 1..3 and CAS C, M, O for
   * k = 4..6, always for France as a whole ('fe', '99') and public base 'bpub'.
   */
  function Slot(y: string, k: nat): Params
    requires k < PerYear
  {
    if k == 0 then AllStays(y, "fe", "99", "bpub")
    else if k <= 3 then ByActivity(y, "fe", "99", "bpub", ["M", "C", "O"][k - 1])
    else ByCategory(y, "fe", "99", "bpub", ["C", "M", "O"][k - 4])
  }

  /** The shape every request must have: at most one filter, and `typrgp` follows from the filters. */
  predicate WellFormedRequest(p: Params) {
    !(IsSet(p.aso) && IsSet(p.cas)) &&
    (p.typrgp == "tous" <==> !IsSet(p.aso) && !IsSet(p.cas)) &&
    (p.typrgp == "tous" || p.typrgp == "rgpGHM")
  }

  /** The three entries the ASO loop appends for a three-element list. */
  lemma ActivityEntriesOfThree(y: string, g: string, c: string, b: string, xs: seq<string>)
    requires |xs| == 3
    ensures ActivityEntries(y, g, c, b, xs)
      == [ByActivity(y, g, c, b, xs[0]), ByActivity(y, g, c, b, xs[1]), ByActivity(y, g, c, b, xs[2])]
  {
    assert xs[..2][..1][..0] == [];
    assert ActivityEntries(y, g, c, b, xs[..1]) == [ByActivity(y, g, c, b, xs[0])];
    assert xs[..2][..1] == xs[..1];
    assert xs[..|xs| - 1] == xs[..2];
  }

  /** The three entries the CAS loop appends for a three-element list. */
  lemma CategoryEntriesOfThree(y: string, g: string, c: string, b: string, xs: seq<string>)
    requires |xs| == 3
    ensures CategoryEntries(y, g, c, b, xs)
      == [ByCategory(y, g, c, b, xs[0]), ByCategory(y, g, c, b, xs[1]), ByCategory(y, g, c, b, xs[2])]
  {
    assert xs[..2][..1][..0] == [];
    assert CategoryEntries(y, g, c, b, xs[..1]) == [ByCategory(y, g, c, b, xs[0])];
    assert xs[..2][..1] == xs[..1];
    assert xs[..|xs| - 1] == xs[..2];
  }

  /** The seven requests of one year, one by one. */
  lemma YearBlock(y: string)
    ensures |GeoBlocks(y, GeoTypes, GeoCodes, Bases, ActivityTypes, CasTypes)| == PerYear
    ensures forall k :: 0 <= k < PerYear ==> GeoBlocks(y, GeoTypes, GeoCodes, Bases, ActivityTypes, CasTypes)[k] == Slot(y, k)
  {
    var g, c, b := "fe", "99", "bpub";
    var block := BaseBlock(y, g, c, b, ActivityTypes, CasTypes);
    BaseBlockSlots(y);
    SingleBase(y, g, c, b, ActivityTypes, CasTypes);
    SingleCode(y, g, c, Bases, ActivityTypes, CasTypes);
    SingleGeo(y, g, GeoCodes, Bases, ActivityTypes, CasTypes);
    assert GeoBlocks(y, GeoTypes, GeoCodes, Bases, ActivityTypes, CasTypes) == block;
  }

  /** A loop over a one-element list of bases runs its body once. */
  lemma SingleBase(y: string, g: string, c: string, b: string, asos: seq<string>, cass: seq<string>)
    ensures BaseBlocks(y, g, c, [b], asos, cass) == BaseBlock(y, g, c, b, asos, cass)
  {
    assert [b][..0] == [];
  }

  /** A loop over a one-element list of codes runs its body once. */
  lemma SingleCode(y: string, g: string, c: string, bases: seq<string>, asos: seq<string>, cass: seq<string>)
    ensures CodeBlocks(y, g, [c], bases, asos, cass) == BaseBlocks(y, g, c, bases, asos, cass)
  {
    assert [c][..0] == [];
  }

  /** A loop over a one-element list of geography types runs its body once. */
  lemma SingleGeo(y: string, g: string, codes: seq<string>, bases: seq<string>, asos: seq<string>, cass: seq<string>)
    ensures GeoBlocks(y, [g], codes, bases, asos, cass) == CodeBlocks(y, g, codes, bases, asos, cass)
  {
    assert [g][..0] == [];
  }

  /** The requests the base loop appends for one year, as slots. */
  lemma BaseBlockSlots(y: string)
    ensures BaseBlock(y, "fe", "99", "bpub", ActivityTypes, CasTypes)
      == [Slot(y, 0), Slot(y, 1), Slot(y, 2), Slot(y, 3), Slot(y, 4), Slot(y, 5), Slot(y, 6)]
  {
    ActivityEntriesOfThree(y, "fe", "99", "bpub", ActivityTypes);
    CategoryEntriesOfThree(y, "fe", "99", "bpub", CasTypes);
  }

  /** Every request of the fixed enumeration, at its position, and its shape. */
  lemma AllCombinationsLayout()
    ensures |AllCombinations()| == PerYear * |Years| == 35
    ensures forall j :: 0 <= j < |AllCombinations()| ==> AllCombinations()[j] == Slot(Years[j / PerYear], j % PerYear)
    ensures forall p :: p in AllCombinations() ==> WellFormedRequest(p)
  {
    EnumerationAt(Years);
    var all := AllCombinations();
    forall p | p in all
      ensures WellFormedRequest(p)
    {
      var j :| 0 <= j < |all| && all[j] == p;
      SlotWellFormed(Years[j / PerYear], j % PerYear);
    }
  }

  /** Request `j` of the fixed enumeration is slot `j % 7` of year `j / 7`. */
  lemma CombinationAt(j: nat)
    requires j < |AllCombinations()|
    ensures |AllCombinations()| == PerYear * |Years|
    ensures AllCombinations()[j] == Slot(Years[j / PerYear], j % PerYear)
  {
    EnumerationAt(Years);
  }

  /** Every slot is a well-formed request. */
  lemma SlotWellFormed(y: string, k: nat)
    requires k < PerYear
    ensures WellFormedRequest(Slot(y, k))
  {
  }

  /** With the constant inner lists, request `j` of the enumeration is slot `j % 7` of year `j / 7`. */
  lemma {:induction false} EnumerationAt(years: seq<string>)
    ensures |Enumeration(years, GeoTypes, GeoCodes, Bases, ActivityTypes, CasTypes)| == PerYear * |years|
    ensures forall j :: 0 <= j < PerYear * |years| ==>
      Enumeration(years, GeoTypes, GeoCodes, Bases, ActivityTypes, CasTypes)[j] == Slot(years[j / PerYear], j % PerYear)
  {
    if years != [] {
      var n := |years|;
      var front := years[..n - 1];
      EnumerationAt(front);
      YearBlock(years[n - 1]);
      BlocksAt(years, Enumeration(front, GeoTypes, GeoCodes, Bases, ActivityTypes, CasTypes),
        GeoBlocks(years[n - 1], GeoTypes, GeoCodes, Bases, ActivityTypes, CasTypes));
    }
  }

  /**
   * The step of `EnumerationAt`: the requests of the years before the last,
   * followed by the seven of the last year, are the slots of all the years.
   */
  lemma BlocksAt(years: seq<string>, front: seq<Params>, last: seq<Params>)
    requires |years| > 0 && |front| == PerYear * (|years| - 1) && |last| == PerYear
    requires forall j :: 0 <= j < |front| ==> front[j] == Slot(years[..|years| - 1][j / PerYear], j % PerYear)
    requires forall k :: 0 <= k < PerYear ==> last[k] == Slot(years[|years| - 1], k)
    ensures forall j :: 0 <= j < PerYear * |years| ==> (front + last)[j] == Slot(years[j / PerYear], j % PerYear)
  {
    var n := |years|;
    forall j | 0 <= j < PerYear * n
      ensures (front + last)[j] == Slot(years[j / PerYear], j % PerYear)
    {
      if j < |front| {
        assert j / PerYear < n - 1;
        assert years[..n - 1][j / PerYear] == years[j / PerYear];
      } else {
        assert j / PerYear == n - 1;
        assert (front + last)[j] == last[j - |front|];
      }
    }
  }

  /**
   * The body of the innermost loop of `generate_all_combinations`: the
   * all-stays request, then one request per ASO filter, then one per CAS
   * filter, appended in that order.
   */
  method AppendBaseRequests(combinations: seq<Params>, year: string, geo: string, code: string, base: string)
    returns (extended: seq<Params>)
    ensures extended == combinations + BaseBlock(year, geo, code, base, ActivityTypes, CasTypes)
  {
    extended := combinations + [AllStays(year, geo, code, base)];
    for ai := 0 to |ActivityTypes|
      invariant extended == combinations + [AllStays(year, geo, code, base)]
                            + ActivityEntries(year, geo, code, base, ActivityTypes[..ai])
    {
      assert ActivityTypes[..ai + 1][..ai] == ActivityTypes[..ai];
      extended := extended + [ByActivity(year, geo, code, base, ActivityTypes[ai])];
    }
    assert ActivityTypes[..|ActivityTypes|] == ActivityTypes;
    for si := 0 to |CasTypes|
      invariant extended == combinations + [AllStays(year, geo, code, base)]
                            + ActivityEntries(year, geo, code, base, ActivityTypes)
                            + CategoryEntries(year, geo, code, base, CasTypes[..si])
    {
      assert CasTypes[..si + 1][..si] == CasTypes[..si];
      extended := extended + [ByCategory(year, geo, code, base, CasTypes[si])];
    }
    assert CasTypes[..|CasTypes|] == CasTypes;
  }

  /** The body of the code loop of `generate_all_combinations`: the base loop. */
  method AppendCodeRequests(combinations0: seq<Params>, year: string, geo: string, code: string)
    returns (combinations: seq<Params>)
    ensures combinations == combinations0 + BaseBlocks(year, geo, code, Bases, ActivityTypes, CasTypes)
  {
    combinations := combinations0;
    for bi := 0 to |Bases|
      invariant combinations == combinations0 + BaseBlocks(year, geo, code, Bases[..bi], ActivityTypes, CasTypes)
    {
      var base := Bases[bi];
      ghost var done := BaseBlocks(year, geo, code, Bases[..bi], ActivityTypes, CasTypes);
      ghost var block := BaseBlock(year, geo, code, base, ActivityTypes, CasTypes);
      combinations := AppendBaseRequests(combinations, year, geo, code, base);
      assert combinations == combinations0 + (done + block);
      BaseBlocksSnoc(year, geo, code, Bases, bi, ActivityTypes, CasTypes);
    }
    assert Bases[..|Bases|] == Bases;
  }

  /** The body of the geography loop of `generate_all_combinations`: the code loop. */
  method AppendGeoRequests(combinations0: seq<Params>, year: string, geo: string)
    returns (combinations: seq<Params>)
    ensures combinations == combinations0 + CodeBlocks(year, geo, GeoCodes, Bases, ActivityTypes, CasTypes)
  {
    combinations := combinations0;
    for ci := 0 to |GeoCodes|
      invariant combinations == combinations0 + CodeBlocks(year, geo, GeoCodes[..ci], Bases, ActivityTypes, CasTypes)
    {
      var code := GeoCodes[ci];
      ghost var done := CodeBlocks(year, geo, GeoCodes[..ci], Bases, ActivityTypes, CasTypes);
      ghost var block := BaseBlocks(year, geo, code, Bases, ActivityTypes, CasTypes);
      combinations := AppendCodeRequests(combinations, year, geo, code);
      assert combinations == combinations0 + (done + block);
      CodeBlocksSnoc(year, geo, GeoCodes, ci, Bases, ActivityTypes, CasTypes);
    }
    assert GeoCodes[..|GeoCodes|] == GeoCodes;
  }

  /** The body of the year loop of `generate_all_combinations`: the geography loop. */
  method AppendYearRequests(combinations0: seq<Params>, year: string) returns (combinations: seq<Params>)
    ensures combinations == combinations0 + GeoBlocks(year, GeoTypes, GeoCodes, Bases, ActivityTypes, CasTypes)
  {
    combinations := combinations0;
    for gi := 0 to |GeoTypes|
      invariant combinations == combinations0 + GeoBlocks(year, GeoTypes[..gi], GeoCodes, Bases, ActivityTypes, CasTypes)
    {
      var geo := GeoTypes[gi];
      ghost var done := GeoBlocks(year, GeoTypes[..gi], GeoCodes, Bases, ActivityTypes, CasTypes);
      ghost var block := CodeBlocks(year, geo, GeoCodes, Bases, ActivityTypes, CasTypes);
      combinations := AppendGeoRequests(combinations, year, geo);
      assert combinations == combinations0 + (done + block);
      GeoBlocksSnoc(year, GeoTypes, gi, GeoCodes, Bases, ActivityTypes, CasTypes);
    }
    assert GeoTypes[..|GeoTypes|] == GeoTypes;
  }

  /** One more turn of the base loop appends that base's requests. */
  lemma BaseBlocksSnoc(y: string, g: string, c: string, bases: seq<string>, i: nat, asos: seq<string>, cass: seq<string>)
    requires i < |bases|
    ensures BaseBlocks(y, g, c, bases[..i + 1], asos, cass)
         == BaseBlocks(y, g, c, bases[..i], asos, cass) + BaseBlock(y, g, c, bases[i], asos, cass)
  {
    assert bases[..i + 1][..i] == bases[..i];
  }

  /** One more turn of the code loop appends that code's requests. */
  lemma CodeBlocksSnoc(y: string, g: string, codes: seq<string>, i: nat, bases: seq<string>, asos: seq<string>, cass: seq<string>)
    requires i < |codes|
    ensures CodeBlocks(y, g, codes[..i + 1], bases, asos, cass)
         == CodeBlocks(y, g, codes[..i], bases, asos, cass) + BaseBlocks(y, g, codes[i], bases, asos, cass)
  {
    assert codes[..i + 1][..i] == codes[..i];
  }

  /** One more turn of the geography loop appends that geography's requests. */
  lemma GeoBlocksSnoc(y: string, geos: seq<string>, i: nat, codes: seq<string>, bases: seq<string>, asos: seq<string>, cass: seq<string>)
    requires i < |geos|
    ensures GeoBlocks(y, geos[..i + 1], codes, bases, asos, cass)
         == GeoBlocks(y, geos[..i], codes, bases, asos, cass) + CodeBlocks(y, geos[i], codes, bases, asos, cass)
  {
    assert geos[..i + 1][..i] == geos[..i];
  }

  /** One more turn of the year loop appends that year's requests. */
  lemma EnumerationSnoc(years: seq<string>, i: nat, geos: seq<string>, codes: seq<string>, bases: seq<string>,
                        asos: seq<string>, cass: seq<string>)
    requires i < |years|
    ensures Enumeration(years[..i + 1], geos, codes, bases, asos, cass)
         == Enumeration(years[..i], geos, codes, bases, asos, cass) + GeoBlocks(years[i], geos, codes, bases, asos, cass)
  {
    assert years[..i + 1][..i] == years[..i];
  }

  /**
   * `generate_all_combinations`: the nested loops append one request per
   * filter choice. The result is the enumeration, 35 requests long, in the
   * fixed order of `Slot`, every one of them well formed.
   */
  method GenerateAllCombinations() returns (combinations: seq<Params>)
    ensures combinations == AllCombinations()
    ensures |combinations| == PerYear * |Years| == 35
    ensures forall j :: 0 <= j < |combinations| ==> combinations[j] == Slot(Years[j / PerYear], j % PerYear)
    ensures forall p :: p in combinations ==> WellFormedRequest(p)
  {
    combinations := [];
    for i := 0 to |Years|
      invariant combinations == Enumeration(Years[..i], GeoTypes, GeoCodes, Bases, ActivityTypes, CasTypes)
    {
      var year := Years[i];
      combinations := AppendYearRequests(combinations, year);
      EnumerationSnoc(Years, i, GeoTypes, GeoCodes, Bases, ActivityTypes, CasTypes);
    }
    assert Years[..|Years|] == Years;
    AllCombinationsLayout();
  }

  /**
   * `generate_filename`: "scan_" + year + "_" + tgeo + "_" + codegeo + "_" +
   * typrgp, then "_ASO" + filter and "_CAS" + filter for each filter that is
   * set, then ".xls".
   */
  function GenerateFilename(p: Params): (name: string)
    ensures |name| > 9 + |p.annee| && name[..5] == "scan_" && name[5..5 + |p.annee|] == p.annee
    ensures name[|name| - 4..] == ".xls"
  {
    "scan_" + p.annee + FilenameTail(p)
  }

  /** Everything of the file name after the year. */
  function FilenameTail(p: Params): string {
    var asoPart := if IsSet(p.aso) then "_ASO" + p.aso.value else "";
    var casPart := if IsSet(p.cas) then "_CAS" + p.cas.value else "";
    "_" + p.tgeo + "_" + p.codegeo + "_" + p.typrgp + asoPart + casPart + ".xls"
  }

  /** The fields before the filters: "scan_", the year, the geography, its code and the grouping. */
  function Stem(p: Params): string {
    "scan_" + p.annee + "_" + p.tgeo + "_" + p.codegeo + "_" + p.typrgp
  }

  /** The filter part of the name: `_ASO` and the activity filter, then `_CAS` and the category filter, each when set. */
  function FilterPart(p: Params): string {
    (if IsSet(p.aso) then "_ASO" + p.aso.value else "") + (if IsSet(p.cas) then "_CAS" + p.cas.value else "")
  }

  /** The name is the stem, the filter part and `.xls`. */
  lemma FilenameShape(p: Params)
    ensures GenerateFilename(p) == Stem(p) + FilterPart(p) + ".xls"
  {
    var middle := "_" + p.tgeo + "_" + p.codegeo + "_" + p.typrgp;
    assert FilenameTail(p) == middle + FilterPart(p) + ".xls";
    assert "scan_" + p.annee + middle == Stem(p);
  }

  /** Concatenation regrouped: one part given as two pieces. */
  lemma Regroup(stem: string, x: string, y: string)
    ensures stem + (x + y) + ".xls" == stem + x + y + ".xls"
  {
  }

  /** Concatenation regrouped: two parts of two pieces each. */
  lemma Regroup2(stem: string, w: string, x: string, y: string, z: string)
    ensures stem + ((w + x) + (y + z)) + ".xls" == stem + w + x + y + z + ".xls"
  {
  }

  /**
   * The name of any request: its stem, then `_ASO` and the activity
   * filter when that is set, then `_CAS` and the category filter when that
   * is set, then `.xls`; an absent or empty filter adds nothing.
   */
  lemma FilenameFilters(p: Params)
    ensures !IsSet(p.aso) && !IsSet(p.cas) ==> GenerateFilename(p) == Stem(p) + ".xls"
    ensures IsSet(p.aso) && !IsSet(p.cas) ==> GenerateFilename(p) == Stem(p) + "_ASO" + p.aso.value + ".xls"
    ensures !IsSet(p.aso) && IsSet(p.cas) ==> GenerateFilename(p) == Stem(p) + "_CAS" + p.cas.value + ".xls"
    ensures IsSet(p.aso) && IsSet(p.cas) ==>
      GenerateFilename(p) == Stem(p) + "_ASO" + p.aso.value + "_CAS" + p.cas.value + ".xls"
  {
    FilenameShape(p);
    if IsSet(p.aso) && IsSet(p.cas) {
      Regroup2(Stem(p), "_ASO", p.aso.value, "_CAS", p.cas.value);
    } else if IsSet(p.aso) {
      assert FilterPart(p) == "_ASO" + p.aso.value;
      Regroup(Stem(p), "_ASO", p.aso.value);
    } else if IsSet(p.cas) {
      assert FilterPart(p) == "_CAS" + p.cas.value;
      Regroup(Stem(p), "_CAS", p.cas.value);
    } else {
      assert FilterPart(p) == "";
    }
  }

  /** The part of a generated request's file name after "scan_" and the year. */
  function SlotSuffix(k: nat): string
    requires k < PerYear
  {
    ["_fe_99_tous.xls",
     "_fe_99_rgpGHM_ASOM.xls", "_fe_99_rgpGHM_ASOC.xls", "_fe_99_rgpGHM_ASOO.xls",
     "_fe_99_rgpGHM_CASC.xls", "_fe_99_rgpGHM_CASM.xls", "_fe_99_rgpGHM_CASO.xls"][k]
  }

  lemma AllStaysTail(y: string)
    ensures FilenameTail(AllStays(y, "fe", "99", "bpub")) == "_fe_99_tous.xls"
  {
    assert FilenameTail(AllStays(y, "fe", "99", "bpub")) == "_" + "fe" + "_" + "99" + "_" + "tous" + "" + "" + ".xls";
  }

  lemma ByActivityTail(y: string, f: string)
    requires f in ["M", "C", "O"]
    ensures FilenameTail(ByActivity(y, "fe", "99", "bpub", f)) == "_fe_99_rgpGHM_ASO" + f + ".xls"
  {
    assert FilenameTail(ByActivity(y, "fe", "99", "bpub", f)) == "_" + "fe" + "_" + "99" + "_" + "rgpGHM" + ("_ASO" + f) + "" + ".xls";
  }

  lemma ByCategoryTail(y: string, f: string)
    requires f in ["C", "M", "O"]
    ensures FilenameTail(ByCategory(y, "fe", "99", "bpub", f)) == "_fe_99_rgpGHM_CAS" + f + ".xls"
  {
    assert FilenameTail(ByCategory(y, "fe", "99", "bpub", f)) == "_" + "fe" + "_" + "99" + "_" + "rgpGHM" + "" + ("_CAS" + f) + ".xls";
  }

  lemma SlotFilenameTail(y: string, k: nat)
    requires k < PerYear
    ensures FilenameTail(Slot(y, k)) == SlotSuffix(k)
  {
    if k == 0 {
      AllStaysTail(y);
    } else if k <= 3 {
      ByActivityTail(y, ["M", "C", "O"][k - 1]);
    } else {
      ByCategoryTail(y, ["C", "M", "O"][k - 4]);
    }
  }

  lemma SlotSuffixesDistinct(k1: nat, k2: nat)
    requires k1 < PerYear && k2 < PerYear && SlotSuffix(k1) == SlotSuffix(k2)
    ensures k1 == k2
  {
  }

  /** A generated file name gives back its year and its slot. */
  lemma SlotFilenameInjective(y1: string, k1: nat, y2: string, k2: nat)
    requires |y1| == 4 && |y2| == 4 && k1 < PerYear && k2 < PerYear
    requires GenerateFilename(Slot(y1, k1)) == GenerateFilename(Slot(y2, k2))
    ensures y1 == y2 && k1 == k2
  {
    SlotFilenameTail(y1, k1);
    SlotFilenameTail(y2, k2);
    var n1, n2 := GenerateFilename(Slot(y1, k1)), GenerateFilename(Slot(y2, k2));
    assert n1 == "scan_" + y1 + SlotSuffix(k1);
    assert n2 == "scan_" + y2 + SlotSuffix(k2);
    assert n1[5..9] == y1 && n2[5..9] == y2;
    assert n1[9..] == SlotSuffix(k1) && n2[9..] == SlotSuffix(k2);
    SlotSuffixesDistinct(k1, k2);
  }

  /**
   * No two generated requests share a file name, so no download of a run
   * overwrites another one of the same run.
   */
  lemma GeneratedFilenamesDistinct(j1: nat, j2: nat)
    requires j1 < |AllCombinations()| && j2 < |AllCombinations()|
    requires GenerateFilename(AllCombinations()[j1]) == GenerateFilename(AllCombinations()[j2])
    ensures j1 == j2
  {
    CombinationAt(j1);
    CombinationAt(j2);
    SlotFilenamesDistinct(j1, j2);
  }

  /** Positions `j1` and `j2` of the enumeration give different slots different file names. */
  lemma SlotFilenamesDistinct(j1: nat, j2: nat)
    requires j1 < PerYear * |Years| && j2 < PerYear * |Years|
    requires GenerateFilename(Slot(Years[j1 / PerYear], j1 % PerYear)) == GenerateFilename(Slot(Years[j2 / PerYear], j2 % PerYear))
    ensures j1 == j2
  {
    var i1, i2 := j1 / PerYear, j2 / PerYear;
    SlotFilenameInjective(Years[i1], j1 % PerYear, Years[i2], j2 % PerYear);
    YearsDistinct(i1, i2);
  }

  /** The years are five different strings. */
  lemma YearsDistinct(i1: nat, i2: nat)
    requires i1 < |Years| && i2 < |Years| && Years[i1] == Years[i2]
    ensures i1 == i2
  {
  }
}
