/**
 * County-name normalisation (merge-voting-stations.py:49-81).
 *
 * The source rewrites a county column by walking an ordered variant→canonical
 * table and, for each entry, overwriting every cell that contains the variant
 * (case-insensitively) with the canonical spelling. This module gives that
 * walk on a single cell (`ApplyInOrder`), the "first matching variant wins"
 * lookup (`Normalise`), and the conditions under which the two agree.
 */
module Counties {
  import opened Wrappers
  import opened Text

  /** One entry of the table: a spelling to look for and its replacement. */
  datatype Mapping = Mapping(variant: string, canonical: string)

  /** The table of merge-voting-stations.py:59-76, in its listed order. */
  const CountyMapping: seq<Mapping> := [
    Mapping("ILFOV", "ILFOV"),
    Mapping("BRASOV", "BRAȘOV"),
    Mapping("MURES", "MUREȘ"),
    Mapping("TIMIS", "TIMIȘ"),
    Mapping("ARGES", "ARGEȘ"),
    Mapping("BUCURESTI", "BUCUREŞTI"),
    Mapping("NEAMT", "NEAMȚ"),
    Mapping("DAMBOVITA", "DÂMBOVIȚA"),
    Mapping("VALCEA", "VÂLCEA"),
    Mapping("BISTRITA-NASAUD", "BISTRIȚA-NĂSĂUD"),
    Mapping("MARAMURES", "MARAMUREȘ"),
    Mapping("IALOMITA", "IALOMIȚA"),
    Mapping("CARAS-SEVERIN", "CARAȘ-SEVERIN"),
    Mapping("CALARASI", "CĂLĂRAȘI"),
    Mapping("GORJ", "GORJ"),
    Mapping("BUZAU", "BUZĂU")
  ]

  /** The prefixes removed from location-side names: cedilla Ţ, then comma Ț. */
  const CedillaPrefix: string := "JUDEŢUL "
  const CommaPrefix: string := "JUDEȚUL "

  /** Location-side county before mapping (merge-voting-stations.py:54-56). */
  function LocationCounty(s: string): string
  {
    Upper(RemoveAll(RemoveAll(s, CedillaPrefix), CommaPrefix))
  }

  /** Vote-side county before mapping (merge-voting-stations.py:49): no prefix is stripped. */
  function VoteCounty(s: string): string
  {
    Upper(s)
  }

  // ---------------------------------------------------------------------------
  // The loop and the lookup

  /** What one pass of the loop (one table entry) does to one cell. */
  function Step(s: string, e: Mapping): string
  {
    if ContainsCI(s, e.variant) then e.canonical else s
  }

  /** The whole loop on one cell: every entry in turn, each on the current value. */
  function ApplyInOrder(s: string, t: seq<Mapping>): string
    decreases |t|
  {
    if t == [] then s else ApplyInOrder(Step(s, t[0]), t[1..])
  }

  /** Running the loop one entry further is one more step on the result so far. */
  lemma {:induction false} ApplyInOrderSnoc(s: string, t: seq<Mapping>, e: Mapping)
    ensures ApplyInOrder(s, t + [e]) == Step(ApplyInOrder(s, t), e)
    decreases |t|
  {
    if t == [] {
      assert [] + [e] == [e];
    } else {
      assert (t + [e])[1..] == t[1..] + [e];
      ApplyInOrderSnoc(Step(s, t[0]), t[1..], e);
    }
  }

  /** Position of the first entry whose variant the name contains, if any. */
  function FirstMatch(s: string, t: seq<Mapping>): (r: Option<nat>)
    ensures r.Some? ==> r.value < |t| && ContainsCI(s, t[r.value].variant)
    ensures r.Some? ==> forall i :: 0 <= i < r.value ==> !ContainsCI(s, t[i].variant)
    ensures r.None? <==> forall i :: 0 <= i < |t| ==> !ContainsCI(s, t[i].variant)
    decreases |t|
  {
    if t == [] then None
    else if ContainsCI(s, t[0].variant) then Some(0)
    else match FirstMatch(s, t[1..])
      case None => None
      case Some(k) => Some(k + 1)
  }

  /** "First matching variant wins"; a name matching no variant is kept. */
  function Normalise(s: string, t: seq<Mapping>): string
  {
    match FirstMatch(s, t)
    case Some(k) => t[k].canonical
    case None => s
  }

  /** The county normalisation the source performs. */
  function NormaliseCounty(s: string): string
  {
    Normalise(s, CountyMapping)
  }

  /** No canonical spelling contains the variant of a later entry. */
  ghost predicate NoLaterVariant(t: seq<Mapping>)
  {
    forall j, i :: 0 <= j < i < |t| ==> !ContainsCI(t[j].canonical, t[i].variant)
  }

  /** No canonical spelling contains the variant of any other entry. */
  ghost predicate NoOtherVariant(t: seq<Mapping>)
  {
    forall j, i :: 0 <= j < |t| && 0 <= i < |t| && i != j ==> !ContainsCI(t[j].canonical, t[i].variant)
  }

  /** A name that matches no variant goes through the loop unchanged. */
  lemma {:induction false} ApplyInOrderNoMatch(s: string, t: seq<Mapping>)
    requires forall i :: 0 <= i < |t| ==> !ContainsCI(s, t[i].variant)
    ensures ApplyInOrder(s, t) == s
    decreases |t|
  {
    if t != [] {
      assert !ContainsCI(s, t[0].variant);
      ApplyInOrderNoMatch(s, t[1..]);
    }
  }

  /**
   * The in-place loop equals the first-match lookup, provided a rewritten cell
   * never matches a later variant: then no cell is rewritten twice.
   */
  lemma {:induction false} LoopIsFirstMatch(s: string, t: seq<Mapping>)
    requires NoLaterVariant(t)
    ensures ApplyInOrder(s, t) == Normalise(s, t)
    decreases |t|
  {
    if t != [] {
      var rest := t[1..];
      if ContainsCI(s, t[0].variant) {
        forall i | 0 <= i < |rest| ensures !ContainsCI(t[0].canonical, rest[i].variant) {
          assert rest[i] == t[i + 1];
        }
        ApplyInOrderNoMatch(t[0].canonical, rest);
      } else {
        assert NoLaterVariant(rest) by {
          forall j, i | 0 <= j < i < |rest| ensures !ContainsCI(rest[j].canonical, rest[i].variant) {
            assert rest[j] == t[j + 1] && rest[i] == t[i + 1];
          }
        }
        LoopIsFirstMatch(s, rest);
        match FirstMatch(s, rest)
        case None =>
        case Some(k) => assert t[k + 1] == rest[k];
      }
    }
  }

  lemma NoOtherImpliesNoLater(t: seq<Mapping>)
    requires NoOtherVariant(t)
    ensures NoLaterVariant(t)
  {
  }

  /** Each canonical spelling is left alone by the lookup. */
  lemma CanonicalIsFixed(t: seq<Mapping>, j: nat)
    requires NoOtherVariant(t) && j < |t|
    ensures Normalise(t[j].canonical, t) == t[j].canonical
  {
    match FirstMatch(t[j].canonical, t)
    case None =>
    case Some(k) => assert k == j;
  }

  /** Normalising an already normalised name changes nothing. */
  lemma NormaliseIdempotent(s: string, t: seq<Mapping>)
    requires NoOtherVariant(t)
    ensures Normalise(Normalise(s, t), t) == Normalise(s, t)
  {
    match FirstMatch(s, t)
    case None =>
    case Some(k) => CanonicalIsFixed(t, k);
  }

  /** Running the whole loop a second time on its own output changes no cell. */
  lemma LoopTwiceIsLoopOnce(s: string, t: seq<Mapping>)
    requires NoOtherVariant(t)
    ensures ApplyInOrder(ApplyInOrder(s, t), t) == ApplyInOrder(s, t)
  {
    LoopIsFirstMatch(s, t);
    LoopIsFirstMatch(Normalise(s, t), t);
    NormaliseIdempotent(s, t);
  }

  // ---------------------------------------------------------------------------
  // The concrete table: every spelling is upper case, and no canonical spelling
  // contains another entry's variant.
  //
  // These are two facts about the table as a whole: `TableIsUpperCase` and
  // `CountyMappingSettled`. The lemmas below split them by index range
  // (`...From0` to `...From12`) and by entry (`OnlyOwnVariantIlfov` to
  // `OnlyOwnVariantBuzau`). Each piece unfolds only a few string literals,
  // which keeps every proof small; the pieces are not separate properties.

  lemma IndexCases(i: nat)
    requires i < 16
    ensures i == 0 || i == 1 || i == 2 || i == 3 || i == 4 || i == 5 || i == 6 || i == 7 ||
            i == 8 || i == 9 || i == 10 || i == 11 || i == 12 || i == 13 || i == 14 || i == 15
  {
  }

  lemma VariantsAreUpperCase(k: nat)
    requires k < |CountyMapping|
    ensures Upper(CountyMapping[k].variant) == CountyMapping[k].variant
  {
    if k < 4 {
      VariantsUpperFrom0(k);
    } else if k < 8 {
      VariantsUpperFrom4(k);
    } else if k < 12 {
      VariantsUpperFrom8(k);
    } else {
      VariantsUpperFrom12(k);
    }
  }

  lemma VariantsUpperFrom0(k: nat)
    requires k < 4
    ensures Upper(CountyMapping[k].variant) == CountyMapping[k].variant
  {
    assert k == 0 || k == 1 || k == 2 || k == 3;
  }

  lemma VariantsUpperFrom4(k: nat)
    requires 4 <= k < 8
    ensures Upper(CountyMapping[k].variant) == CountyMapping[k].variant
  {
    assert k == 4 || k == 5 || k == 6 || k == 7;
  }

  lemma VariantsUpperFrom8(k: nat)
    requires 8 <= k < 12
    ensures Upper(CountyMapping[k].variant) == CountyMapping[k].variant
  {
    assert k == 8 || k == 9 || k == 10 || k == 11;
  }

  lemma VariantsUpperFrom12(k: nat)
    requires 12 <= k < 16
    ensures Upper(CountyMapping[k].variant) == CountyMapping[k].variant
  {
    assert k == 12 || k == 13 || k == 14 || k == 15;
  }

  lemma CanonicalsAreUpperCase(k: nat)
    requires k < |CountyMapping|
    ensures Upper(CountyMapping[k].canonical) == CountyMapping[k].canonical
  {
    if k < 4 {
      CanonicalsUpperFrom0(k);
    } else if k < 8 {
      CanonicalsUpperFrom4(k);
    } else if k < 12 {
      CanonicalsUpperFrom8(k);
    } else {
      CanonicalsUpperFrom12(k);
    }
  }

  lemma CanonicalsUpperFrom0(k: nat)
    requires k < 4
    ensures Upper(CountyMapping[k].canonical) == CountyMapping[k].canonical
  {
    assert k == 0 || k == 1 || k == 2 || k == 3;
  }

  lemma CanonicalsUpperFrom4(k: nat)
    requires 4 <= k < 8
    ensures Upper(CountyMapping[k].canonical) == CountyMapping[k].canonical
  {
    assert k == 4 || k == 5 || k == 6 || k == 7;
  }

  lemma CanonicalsUpperFrom8(k: nat)
    requires 8 <= k < 12
    ensures Upper(CountyMapping[k].canonical) == CountyMapping[k].canonical
  {
    assert k == 8 || k == 9 || k == 10 || k == 11;
  }

  lemma CanonicalsUpperFrom12(k: nat)
    requires 12 <= k < 16
    ensures Upper(CountyMapping[k].canonical) == CountyMapping[k].canonical
  {
    assert k == 12 || k == 13 || k == 14 || k == 15;
  }

  lemma TableIsUpperCase()
    ensures forall k :: 0 <= k < |CountyMapping| ==>
      Upper(CountyMapping[k].variant) == CountyMapping[k].variant &&
      Upper(CountyMapping[k].canonical) == CountyMapping[k].canonical
  {
    forall k | 0 <= k < |CountyMapping|
      ensures Upper(CountyMapping[k].variant) == CountyMapping[k].variant
      ensures Upper(CountyMapping[k].canonical) == CountyMapping[k].canonical
    {
      VariantsAreUpperCase(k);
      CanonicalsAreUpperCase(k);
    }
  }

  /** The canonical spelling at position `j` contains no other entry's variant, as written. */
  ghost predicate OnlyOwnVariant(t: seq<Mapping>, j: nat)
    requires j < |t|
  {
    forall i :: 0 <= i < |t| && i != j ==> !Contains(t[j].canonical, t[i].variant)
  }

  lemma OnlyOwnVariantIlfov()
    ensures OnlyOwnVariant(CountyMapping, 0)
  {
    var c := CountyMapping[0].canonical;
    forall i | 0 <= i < |CountyMapping| && i != 0 ensures !Contains(c, CountyMapping[i].variant) {
      IndexCases(i);
      NotContainsByMismatch(c, CountyMapping[i].variant);
    }
  }

  lemma OnlyOwnVariantBrasov()
    ensures OnlyOwnVariant(CountyMapping, 1)
  {
    BrasovAvoidsFirstHalf();
    BrasovAvoidsSecondHalf();
  }

  lemma BrasovAvoidsFirstHalf()
    ensures forall i :: 0 <= i < 8 && i != 1 ==> !Contains(CountyMapping[1].canonical, CountyMapping[i].variant)
  {
    var c := CountyMapping[1].canonical;
    forall i | 0 <= i < 8 && i != 1 ensures !Contains(c, CountyMapping[i].variant) {
      assert i == 0 || i == 2 || i == 3 || i == 4 || i == 5 || i == 6 || i == 7;
      NotContainsByMismatch(c, CountyMapping[i].variant);
    }
  }

  lemma BrasovAvoidsSecondHalf()
    ensures forall i :: 8 <= i < 16 ==> !Contains(CountyMapping[1].canonical, CountyMapping[i].variant)
  {
    var c := CountyMapping[1].canonical;
    forall i | 8 <= i < 16 ensures !Contains(c, CountyMapping[i].variant) {
      assert i == 8 || i == 9 || i == 10 || i == 11 || i == 12 || i == 13 || i == 14 || i == 15;
      NotContainsByMismatch(c, CountyMapping[i].variant);
    }
  }

  lemma OnlyOwnVariantMures()
    ensures OnlyOwnVariant(CountyMapping, 2)
  {
    var c := CountyMapping[2].canonical;
    forall i | 0 <= i < |CountyMapping| && i != 2 ensures !Contains(c, CountyMapping[i].variant) {
      IndexCases(i);
      NotContainsByMismatch(c, CountyMapping[i].variant);
    }
  }

  lemma OnlyOwnVariantTimis()
    ensures OnlyOwnVariant(CountyMapping, 3)
  {
    var c := CountyMapping[3].canonical;
    forall i | 0 <= i < |CountyMapping| && i != 3 ensures !Contains(c, CountyMapping[i].variant) {
      IndexCases(i);
      NotContainsByMismatch(c, CountyMapping[i].variant);
    }
  }

  lemma OnlyOwnVariantArges()
    ensures OnlyOwnVariant(CountyMapping, 4)
  {
    var c := CountyMapping[4].canonical;
    forall i | 0 <= i < |CountyMapping| && i != 4 ensures !Contains(c, CountyMapping[i].variant) {
      IndexCases(i);
      NotContainsByMismatch(c, CountyMapping[i].variant);
    }
  }

  lemma OnlyOwnVariantBucuresti()
    ensures OnlyOwnVariant(CountyMapping, 5)
  {
    var c := CountyMapping[5].canonical;
    forall i | 0 <= i < |CountyMapping| && i != 5 ensures !Contains(c, CountyMapping[i].variant) {
      IndexCases(i);
      NotContainsByMismatch(c, CountyMapping[i].variant);
    }
  }

  lemma OnlyOwnVariantNeamt()
    ensures OnlyOwnVariant(CountyMapping, 6)
  {
    var c := CountyMapping[6].canonical;
    forall i | 0 <= i < |CountyMapping| && i != 6 ensures !Contains(c, CountyMapping[i].variant) {
      IndexCases(i);
      NotContainsByMismatch(c, CountyMapping[i].variant);
    }
  }

  lemma OnlyOwnVariantDambovita()
    ensures OnlyOwnVariant(CountyMapping, 7)
  {
    var c := CountyMapping[7].canonical;
    forall i | 0 <= i < |CountyMapping| && i != 7 ensures !Contains(c, CountyMapping[i].variant) {
      IndexCases(i);
      NotContainsByMismatch(c, CountyMapping[i].variant);
    }
  }

  lemma OnlyOwnVariantValcea()
    ensures OnlyOwnVariant(CountyMapping, 8)
  {
    var c := CountyMapping[8].canonical;
    forall i | 0 <= i < |CountyMapping| && i != 8 ensures !Contains(c, CountyMapping[i].variant) {
      IndexCases(i);
      NotContainsByMismatch(c, CountyMapping[i].variant);
    }
  }

  lemma OnlyOwnVariantBistritaNasaud()
    ensures OnlyOwnVariant(CountyMapping, 9)
  {
    var c := CountyMapping[9].canonical;
    forall i | 0 <= i < |CountyMapping| && i != 9 ensures !Contains(c, CountyMapping[i].variant) {
      IndexCases(i);
      NotContainsByMismatch(c, CountyMapping[i].variant);
    }
  }

  lemma OnlyOwnVariantMaramures()
    ensures OnlyOwnVariant(CountyMapping, 10)
  {
    var c := CountyMapping[10].canonical;
    forall i | 0 <= i < |CountyMapping| && i != 10 ensures !Contains(c, CountyMapping[i].variant) {
      IndexCases(i);
      NotContainsByMismatch(c, CountyMapping[i].variant);
    }
  }

  lemma OnlyOwnVariantIalomita()
    ensures OnlyOwnVariant(CountyMapping, 11)
  {
    var c := CountyMapping[11].canonical;
    forall i | 0 <= i < |CountyMapping| && i != 11 ensures !Contains(c, CountyMapping[i].variant) {
      IndexCases(i);
      NotContainsByMismatch(c, CountyMapping[i].variant);
    }
  }

  lemma OnlyOwnVariantCarasSeverin()
    ensures OnlyOwnVariant(CountyMapping, 12)
  {
    var c := CountyMapping[12].canonical;
    forall i | 0 <= i < |CountyMapping| && i != 12 ensures !Contains(c, CountyMapping[i].variant) {
      IndexCases(i);
      NotContainsByMismatch(c, CountyMapping[i].variant);
    }
  }

  lemma OnlyOwnVariantCalarasi()
    ensures OnlyOwnVariant(CountyMapping, 13)
  {
    var c := CountyMapping[13].canonical;
    forall i | 0 <= i < |CountyMapping| && i != 13 ensures !Contains(c, CountyMapping[i].variant) {
      IndexCases(i);
      NotContainsByMismatch(c, CountyMapping[i].variant);
    }
  }

  lemma OnlyOwnVariantGorj()
    ensures OnlyOwnVariant(CountyMapping, 14)
  {
    var c := CountyMapping[14].canonical;
    forall i | 0 <= i < |CountyMapping| && i != 14 ensures !Contains(c, CountyMapping[i].variant) {
      IndexCases(i);
      NotContainsByMismatch(c, CountyMapping[i].variant);
    }
  }

  lemma OnlyOwnVariantBuzau()
    ensures OnlyOwnVariant(CountyMapping, 15)
  {
    var c := CountyMapping[15].canonical;
    forall i | 0 <= i < |CountyMapping| && i != 15 ensures !Contains(c, CountyMapping[i].variant) {
      IndexCases(i);
      NotContainsByMismatch(c, CountyMapping[i].variant);
    }
  }

  /** The source's table satisfies the condition under which the loop is a lookup. */
  lemma CountyMappingSettled()
    ensures NoOtherVariant(CountyMapping)
  {
    forall j | 0 <= j < |CountyMapping| ensures OnlyOwnVariant(CountyMapping, j) {
      if j == 0 {
        OnlyOwnVariantIlfov();
      } else if j == 1 {
        OnlyOwnVariantBrasov();
      } else if j == 2 {
        OnlyOwnVariantMures();
      } else if j == 3 {
        OnlyOwnVariantTimis();
      } else if j == 4 {
        OnlyOwnVariantArges();
      } else if j == 5 {
        OnlyOwnVariantBucuresti();
      } else if j == 6 {
        OnlyOwnVariantNeamt();
      } else if j == 7 {
        OnlyOwnVariantDambovita();
      } else if j == 8 {
        OnlyOwnVariantValcea();
      } else if j == 9 {
        OnlyOwnVariantBistritaNasaud();
      } else if j == 10 {
        OnlyOwnVariantMaramures();
      } else if j == 11 {
        OnlyOwnVariantIalomita();
      } else if j == 12 {
        OnlyOwnVariantCarasSeverin();
      } else if j == 13 {
        OnlyOwnVariantCalarasi();
      } else if j == 14 {
        OnlyOwnVariantGorj();
      } else {
        OnlyOwnVariantBuzau();
      }
    }
    TableIsUpperCase();
    forall j, i | 0 <= j < |CountyMapping| && 0 <= i < |CountyMapping| && i != j
      ensures !ContainsCI(CountyMapping[j].canonical, CountyMapping[i].variant)
    {
      assert OnlyOwnVariant(CountyMapping, j);
    }
  }

  // ---------------------------------------------------------------------------
  // Consequences of the table's order

  /** Any name containing MURES, ahead of ILFOV and BRASOV, becomes MUREȘ. */
  lemma MuresWins(s: string)
    requires ContainsCI(s, "MURES")
    requires !ContainsCI(s, "ILFOV") && !ContainsCI(s, "BRASOV")
    ensures NormaliseCounty(s) == "MUREȘ"
  {
    var r := FirstMatch(s, CountyMapping);
    assert CountyMapping[2].variant == "MURES";
    assert r.Some? && r.value <= 2;
    assert r.value != 0 && r.value != 1;
  }

  lemma MaramuresContainsMures()
    ensures ContainsCI("MARAMURES", "MURES")
  {
    VariantsAreUpperCase(2);
    VariantsAreUpperCase(10);
    assert OccursAt("MARAMURES", "MURES", 4);
  }

  /** A Maramureș name without ILFOV or BRASOV in it is mapped to MUREȘ. */
  lemma MaramuresBecomesMures(s: string)
    requires ContainsCI(s, "MARAMURES")
    requires !ContainsCI(s, "ILFOV") && !ContainsCI(s, "BRASOV")
    ensures NormaliseCounty(s) == "MUREȘ"
  {
    MaramuresContainsMures();
    ContainsCITransitive(s, "MARAMURES", "MURES");
    MuresWins(s);
  }

  /** The MARAMURES entry never decides the outcome: MURES, earlier, always matches first. */
  lemma MaramuresEntryUnreachable(s: string)
    ensures FirstMatch(s, CountyMapping) != Some(10)
  {
    if ContainsCI(s, "MARAMURES") {
      MaramuresContainsMures();
      ContainsCITransitive(s, "MARAMURES", "MURES");
      assert CountyMapping[2].variant == "MURES";
    }
  }

  /** Only the MARAMURES entry has the canonical spelling MARAMUREȘ. */
  lemma OnlyMaramuresGivesMaramures(k: nat)
    requires k < |CountyMapping| && k != 10
    ensures CountyMapping[k].canonical != "MARAMUREȘ"
  {
    IndexCases(k);
  }

  /** Only the BRASOV entry has the canonical spelling BRAȘOV. */
  lemma OnlyBrasovGivesBrasov(k: nat)
    requires k < |CountyMapping| && k != 1
    ensures CountyMapping[k].canonical != "BRAȘOV"
  {
    IndexCases(k);
  }

  lemma MaramuresFixed()
    ensures NormaliseCounty("MARAMUREȘ") == "MARAMUREȘ"
  {
    CountyMappingSettled();
    CanonicalIsFixed(CountyMapping, 10);
  }

  /** The result MARAMUREȘ comes only from a name that was already exactly MARAMUREȘ. */
  lemma MaramuresOnlyFromItself(s: string)
    ensures NormaliseCounty(s) == "MARAMUREȘ" <==> s == "MARAMUREȘ"
  {
    MaramuresFixed();
    MaramuresEntryUnreachable(s);
    match FirstMatch(s, CountyMapping)
    case None =>
    case Some(k) => OnlyMaramuresGivesMaramures(k);
  }

  /** The table with the MARAMURES entry moved ahead of MURES. */
  const CorrectedCountyMapping: seq<Mapping> :=
    CountyMapping[..2] + [CountyMapping[10]] + CountyMapping[2..10] + CountyMapping[11..]

  /** Position in `CountyMapping` of each entry of `CorrectedCountyMapping`. */
  function MovedFrom(k: nat): nat
  {
    if k < 2 then k else if k == 2 then 10 else if k <= 10 then k - 1 else k
  }

  lemma CorrectedIsReordering()
    ensures |CorrectedCountyMapping| == |CountyMapping|
    ensures forall k :: 0 <= k < |CorrectedCountyMapping| ==>
      MovedFrom(k) < |CountyMapping| && CorrectedCountyMapping[k] == CountyMapping[MovedFrom(k)]
  {
  }

  /** A reordering keeps the property that no canonical contains another entry's variant. */
  lemma {:induction false} NoOtherVariantReordered(t: seq<Mapping>, u: seq<Mapping>, from: nat -> nat)
    requires NoOtherVariant(t)
    requires forall k :: 0 <= k < |u| ==> from(k) < |t| && u[k] == t[from(k)]
    requires forall j, i :: 0 <= j < |u| && 0 <= i < |u| && i != j ==> from(j) != from(i)
    ensures NoOtherVariant(u)
  {
    forall j, i | 0 <= j < |u| && 0 <= i < |u| && i != j
      ensures !ContainsCI(u[j].canonical, u[i].variant)
    {
      assert from(j) != from(i);
      assert !ContainsCI(t[from(j)].canonical, t[from(i)].variant);
    }
  }

  lemma CorrectedSettled()
    ensures NoOtherVariant(CorrectedCountyMapping)
  {
    CountyMappingSettled();
    CorrectedIsReordering();
    NoOtherVariantReordered(CountyMapping, CorrectedCountyMapping, MovedFrom);
  }

  /** An entry the name does not match can be dropped without changing the lookup. */
  lemma {:induction false} NormaliseSkipsUnmatched(s: string, a: seq<Mapping>, e: Mapping, b: seq<Mapping>)
    requires !ContainsCI(s, e.variant)
    ensures Normalise(s, a + [e] + b) == Normalise(s, a + b)
    decreases |a|
  {
    if a == [] {
      assert a + [e] + b == [e] + b && a + b == b;
      assert ([e] + b)[1..] == b;
      match FirstMatch(s, b)
      case None =>
      case Some(k) => assert ([e] + b)[k + 1] == b[k];
    } else {
      var l := a + [e] + b;
      var r := a + b;
      assert l[0] == a[0] && r[0] == a[0];
      if !ContainsCI(s, a[0].variant) {
        assert l[1..] == a[1..] + [e] + b;
        assert r[1..] == a[1..] + b;
        NormaliseSkipsUnmatched(s, a[1..], e, b);
        match FirstMatch(s, l[1..])
        case None =>
        case Some(k) => assert l[k + 1] == l[1..][k];
        match FirstMatch(s, r[1..])
        case None =>
        case Some(k) => assert r[k + 1] == r[1..][k];
      }
    }
  }

  /** Moving entry 10 to position 2 does not affect a name that does not match it. */
  lemma {:induction false} MovedLookupAgrees(s: string, t: seq<Mapping>)
    requires |t| == 16
    requires !ContainsCI(s, t[10].variant)
    ensures Normalise(s, t[..2] + [t[10]] + t[2..10] + t[11..]) == Normalise(s, t)
  {
    var e := t[10];
    assert t == t[..10] + [e] + t[11..];
    NormaliseSkipsUnmatched(s, t[..10], e, t[11..]);
    assert t[..2] + [e] + t[2..10] + t[11..] == t[..2] + [e] + (t[2..10] + t[11..]);
    NormaliseSkipsUnmatched(s, t[..2], e, t[2..10] + t[11..]);
    assert t[..2] + (t[2..10] + t[11..]) == t[..10] + t[11..];
  }

  /** The corrected table agrees with the source's on every name not containing MARAMURES. */
  lemma CorrectedAgreesElsewhere(s: string)
    requires !ContainsCI(s, "MARAMURES")
    ensures Normalise(s, CorrectedCountyMapping) == NormaliseCounty(s)
  {
    MovedLookupAgrees(s, CountyMapping);
  }

  /** With the corrected table, a Maramureș name (without ILFOV or BRASOV) becomes MARAMUREȘ. */
  lemma CorrectedMapsMaramures(s: string)
    requires ContainsCI(s, "MARAMURES")
    requires !ContainsCI(s, "ILFOV") && !ContainsCI(s, "BRASOV")
    ensures Normalise(s, CorrectedCountyMapping) == "MARAMUREȘ"
  {
    var r := FirstMatch(s, CorrectedCountyMapping);
    assert CorrectedCountyMapping[0].variant == "ILFOV";
    assert CorrectedCountyMapping[1].variant == "BRASOV";
    assert CorrectedCountyMapping[2] == Mapping("MARAMURES", "MARAMUREȘ");
    assert r.Some? && r.value <= 2;
    assert r.value != 0 && r.value != 1;
  }

  // ---------------------------------------------------------------------------
  // Prefix stripping on the location side

  /** A comma-Ț prefix cannot hide a cedilla-Ţ prefix, not even across its end. */
  lemma CommaPrefixedHasNoCedilla(rest: string)
    requires !Contains(rest, CedillaPrefix)
    ensures !Contains(CommaPrefix + rest, CedillaPrefix)
  {
    var s := CommaPrefix + rest;
    forall m: nat | m <= |s| ensures !OccursAt(s, CedillaPrefix, m) {
      if m + 8 <= |s| {
        var w := s[m..m + 8];
        if m == 0 {
          assert w[4] == s[4] == 'Ț';
        } else if m < 8 {
          assert w[0] == s[m] == CommaPrefix[m];
        } else {
          assert w == rest[m - 8..m];
          assert !OccursAt(rest, CedillaPrefix, m - 8);
        }
      }
    }
  }

  /**
   * Either spelling of the upper-case prefix is removed, and the rest is
   * upper-cased; a name with no prefix is only upper-cased.
   */
  lemma LocationCountyStripsPrefix(rest: string)
    requires !Contains(rest, CedillaPrefix) && !Contains(rest, CommaPrefix)
    ensures LocationCounty(CedillaPrefix + rest) == Upper(rest)
    ensures LocationCounty(CommaPrefix + rest) == Upper(rest)
    ensures LocationCounty(rest) == Upper(rest)
  {
    RemoveAllAbsent(rest, CedillaPrefix);
    RemoveAllAbsent(rest, CommaPrefix);
    RemoveAllLeading(CedillaPrefix, rest);
    RemoveAllLeading(CommaPrefix, rest);
    CommaPrefixedHasNoCedilla(rest);
    RemoveAllAbsent(CommaPrefix + rest, CedillaPrefix);
  }

  lemma UpperOfTitleCase()
    ensures Upper("Județul Brașov") == "JUDEȚUL BRAȘOV"
  {
  }

  lemma UpperOfCapitals()
    ensures Upper("JUDEȚUL BRAȘOV") == "JUDEȚUL BRAȘOV"
    ensures Upper("JUDETUL BRASOV") == "JUDETUL BRASOV"
  {
  }

  lemma UpperOfBrasov()
    ensures Upper("BRAȘOV") == "BRAȘOV" && Upper("BRASOV") == "BRASOV" && Upper("ILFOV") == "ILFOV"
  {
  }

  lemma ShorterHasNoOccurrence(s: string, p: string)
    requires |s| < |p|
    ensures !Contains(s, p)
  {
  }

  /** The prefix is matched case-sensitively: a title-case "Județul " survives, upper-cased. */
  lemma PrefixMatchIsCaseSensitive()
    ensures LocationCounty("Județul Brașov") == "JUDEȚUL BRAȘOV"
  {
    TitleCaseHasNoPrefix();
    RemoveAllAbsent("Județul Brașov", CedillaPrefix);
    RemoveAllAbsent("Județul Brașov", CommaPrefix);
    UpperOfTitleCase();
  }

  lemma TitleCaseHasNoPrefix()
    ensures !Contains("Județul Brașov", CedillaPrefix) && !Contains("Județul Brașov", CommaPrefix)
  {
    NotContainsByMismatch("Județul Brașov", CedillaPrefix);
    NotContainsByMismatch("Județul Brașov", CommaPrefix);
  }

  /** The prefix is stripped on the location side only; the vote side keeps it. */
  lemma PrefixOnlyStrippedOnLocationSide()
    ensures LocationCounty("JUDEȚUL BRAȘOV") == "BRAȘOV"
    ensures VoteCounty("JUDEȚUL BRAȘOV") == "JUDEȚUL BRAȘOV"
  {
    ShorterHasNoOccurrence("BRAȘOV", CedillaPrefix);
    ShorterHasNoOccurrence("BRAȘOV", CommaPrefix);
    LocationCountyStripsPrefix("BRAȘOV");
    assert CommaPrefix + "BRAȘOV" == "JUDEȚUL BRAȘOV";
    UpperOfBrasov();
    UpperOfCapitals();
  }

  /** Removing the leftmost occurrence, when nothing after it occurs again. */
  lemma RemoveAllSplice(a: string, p: string, b: string)
    requires p != []
    requires forall k: nat :: k < |a| ==> !OccursAt(a + p + b, p, k)
    requires !Contains(b, p)
    ensures RemoveAll(a + p + b, p) == a + b
  {
    assert a + p + b == a + (p + b);
    RemoveAllKeepsClearPrefix(a, p + b, p);
    RemoveAllLeading(p, b);
    RemoveAllAbsent(b, p);
  }

  /** `replace` makes one pass: a prefix spliced together by a removal stays. */
  lemma RemovalIsSinglePass()
    ensures RemoveAll("JUDE" + CommaPrefix + "ȚUL BRAȘOV", CommaPrefix) == "JUDEȚUL BRAȘOV"
  {
    var s := "JUDE" + CommaPrefix + "ȚUL BRAȘOV";
    forall k: nat | k < 4 ensures !OccursAt(s, CommaPrefix, k) {
      assert s[k..k + 8][4] == s[k + 4];
    }
    NotContainsByMismatch("ȚUL BRAȘOV", CommaPrefix);
    RemoveAllSplice("JUDE", CommaPrefix, "ȚUL BRAȘOV");
  }

  /** A name containing BRASOV but not ILFOV becomes BRAȘOV. */
  lemma BrasovWins(s: string)
    requires ContainsCI(s, "BRASOV") && !ContainsCI(s, "ILFOV")
    ensures NormaliseCounty(s) == "BRAȘOV"
  {
    var r := FirstMatch(s, CountyMapping);
    assert CountyMapping[1].variant == "BRASOV";
    assert r.Some? && r.value <= 1 && r.value != 0;
  }

  /** A vote-side BRASOV and a location-side JUDEȚUL BRAȘOV meet on the same county. */
  lemma BrasovSpellingsMeet()
    ensures NormaliseCounty(VoteCounty("BRASOV")) == "BRAȘOV"
    ensures NormaliseCounty(LocationCounty("JUDEȚUL BRAȘOV")) == "BRAȘOV"
  {
    PrefixOnlyStrippedOnLocationSide();
    UpperOfBrasov();
    var v := "BRASOV";
    assert OccursAt(v, "BRASOV", 0);
    NotContainsByMismatch(v, "ILFOV");
    BrasovWins(v);
    CountyMappingSettled();
    CanonicalIsFixed(CountyMapping, 1);
  }

  lemma VoteSidePrefixedBrasov()
    ensures NormaliseCounty(VoteCounty("JUDETUL BRASOV")) == "BRAȘOV"
  {
    var v := "JUDETUL BRASOV";
    UpperOfCapitals();
    UpperOfBrasov();
    assert OccursAt(v, "BRASOV", 8);
    NotContainsByMismatch(v, "ILFOV");
    BrasovWins(v);
  }

  /** The upper-cased, unstripped title-case name does not contain BRASOV. */
  lemma TitleCaseBrasovMissesVariant()
    ensures !ContainsCI("JUDEȚUL BRAȘOV", "BRASOV")
  {
    UpperOfCapitals();
    UpperOfBrasov();
    NotContainsByMismatch("JUDEȚUL BRAȘOV", "BRASOV");
  }

  /** A name other than BRAȘOV that does not contain BRASOV is never mapped to BRAȘOV. */
  lemma NeverBrasovWithoutVariant(s: string)
    requires !ContainsCI(s, "BRASOV") && s != "BRAȘOV"
    ensures NormaliseCounty(s) != "BRAȘOV"
  {
    assert CountyMapping[1].variant == "BRASOV";
    match FirstMatch(s, CountyMapping)
    case None =>
    case Some(k) => OnlyBrasovGivesBrasov(k);
  }

  /**
   * A location-side "Județul Brașov" keeps its prefix and so never becomes
   * BRAȘOV, while a vote-side "JUDETUL BRASOV" does: such rows never join.
   */
  lemma LocationSideTitleCaseBrasov()
    ensures NormaliseCounty(LocationCounty("Județul Brașov")) != "BRAȘOV"
  {
    PrefixMatchIsCaseSensitive();
    TitleCaseBrasovMissesVariant();
    NeverBrasovWithoutVariant("JUDEȚUL BRAȘOV");
  }
}
