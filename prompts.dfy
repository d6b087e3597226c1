/** The two derived prompts (`imagePrompt`, `pokedexPrompt`) and what they are
    built from: the ability lookup (`selectedAbility`) and the ranking of the
    stats. A prompt is represented by the values filled into its template. */
module Prompts {
  import opened Options
  import opened Text
  import opened Catalog
  import opened Profile

  // ----- Ability lookup -----

  datatype AbilityMatch = AbilityMatch(group: AbilityGroup, ability: Ability)

  /** `abilities.find((a) => a.code === code)`: the first ability with the code. */
  function FindAbility(abilities: seq<Ability>, code: string): (r: Option<Ability>)
    ensures r.Some? <==> exists j :: 0 <= j < |abilities| && abilities[j].code == code
    ensures r.Some? ==> r.value in abilities && r.value.code == code
    decreases |abilities|
  {
    if abilities == [] then None
    else if abilities[0].code == code then Some(abilities[0])
    else
      var r := FindAbility(abilities[1..], code);
      assert forall j :: 1 <= j < |abilities| ==> abilities[j] == abilities[1..][j - 1];
      r
  }

  /** `find` returns the first match, not just any. */
  lemma {:induction false} FindAbilityFirst(abilities: seq<Ability>, code: string, j: nat)
    requires j < |abilities| && abilities[j].code == code
    requires forall i :: 0 <= i < j ==> abilities[i].code != code
    ensures FindAbility(abilities, code) == Some(abilities[j])
    decreases j
  {
    if j > 0 {
      FindAbilityFirst(abilities[1..], code, j - 1);
    }
  }

  predicate GroupHasCode(g: AbilityGroup, code: string) {
    exists j :: 0 <= j < |g.abilities| && g.abilities[j].code == code
  }

  /** The first group, in order, holding an ability with the code, with that
      ability. */
  function LookupAbility(groups: seq<AbilityGroup>, code: string): (r: Option<AbilityMatch>)
    ensures r.Some? <==> exists i :: 0 <= i < |groups| && GroupHasCode(groups[i], code)
    ensures r.Some? ==> r.value.group in groups && r.value.ability in r.value.group.abilities
    ensures r.Some? ==> r.value.ability.code == code
    decreases |groups|
  {
    if groups == [] then None
    else
      match FindAbility(groups[0].abilities, code)
      case Some(a) => Some(AbilityMatch(groups[0], a))
      case None =>
        var r := LookupAbility(groups[1..], code);
        assert forall i :: 1 <= i < |groups| ==> groups[i] == groups[1..][i - 1];
        r
  }

  /** The lookup answers with the first group, in order, that holds the code. */
  lemma {:induction false} LookupAbilityFirst(groups: seq<AbilityGroup>, code: string, i: nat)
    requires i < |groups| && GroupHasCode(groups[i], code)
    requires forall j :: 0 <= j < i ==> !GroupHasCode(groups[j], code)
    ensures FindAbility(groups[i].abilities, code).Some?
    ensures LookupAbility(groups, code) == Some(AbilityMatch(groups[i], FindAbility(groups[i].abilities, code).value))
    decreases i
  {
    if i > 0 {
      assert forall j :: 0 <= j < i - 1 ==> groups[1..][j] == groups[j + 1];
      LookupAbilityFirst(groups[1..], code, i - 1);
    }
  }

  /** No two abilities of the groups share a code. */
  predicate CodesUnique(groups: seq<AbilityGroup>) {
    forall g1, j1, g2, j2 ::
      && 0 <= g1 < |groups| && 0 <= j1 < |groups[g1].abilities|
      && 0 <= g2 < |groups| && 0 <= j2 < |groups[g2].abilities|
      && groups[g1].abilities[j1].code == groups[g2].abilities[j2].code
      ==> g1 == g2 && j1 == j2
  }

  /** With unique codes, looking up an ability's code finds that very ability
      in its own group. */
  lemma UniqueCodeFound(groups: seq<AbilityGroup>, g: nat, j: nat)
    requires CodesUnique(groups)
    requires g < |groups| && j < |groups[g].abilities|
    ensures LookupAbility(groups, groups[g].abilities[j].code) == Some(AbilityMatch(groups[g], groups[g].abilities[j]))
  {
    var code := groups[g].abilities[j].code;
    assert GroupHasCode(groups[g], code);
    forall h, k | 0 <= h < g && 0 <= k < |groups[h].abilities|
      ensures groups[h].abilities[k].code != code
    {
      assert h != g;
    }
    FindAbilityFirst(groups[g].abilities, code, j);
    LookupAbilityFirst(groups, code, g);
  }

  /** `selectedAbility`: the loop over the groups (the component runs it on
      `ABILITY_GROUPS`) that returns at the first group whose `find`
      succeeds, or null. */
  method SelectedAbility(groups: seq<AbilityGroup>, code: string) returns (r: Option<AbilityMatch>)
    ensures r == LookupAbility(groups, code)
  {
    var i := 0;
    while i < |groups|
      invariant 0 <= i <= |groups|
      invariant LookupAbility(groups[i..], code) == LookupAbility(groups, code)
    {
      var found := FindAbility(groups[i].abilities, code);
      if found.Some? {
        return Some(AbilityMatch(groups[i], found.value));
      }
      assert groups[i..][1..] == groups[i + 1..];
      i := i + 1;
    }
    return None;
  }

  /** The position, in catalog order, of the ability whose code has the
      length and first letter of `c`; no two catalog codes share both. */
  function CatalogSlot(c: string): int {
    if c == [] then -1
    else match (|c|, c[0])
      case (10, 't') => 0
      case (11, 's') => 1
      case (5, 'm') => 2
      case (11, 'i') => 3
      case (9, 'o') => 4
      case (13, 'c') => 5
      case (12, 'f') => 6
      case (7, 'b') => 7
      case (6, 'h') => 8
      case (11, 'r') => 9
      case (6, 'f') => 10
      case (4, 'g') => 11
      case _ => -1
  }

  /** The catalog's twelve codes are distinct. */
  lemma CatalogCodesUnique()
    ensures CodesUnique(ABILITY_GROUPS)
  {
    forall g, j | 0 <= g < |ABILITY_GROUPS| && 0 <= j < |ABILITY_GROUPS[g].abilities|
      ensures |ABILITY_GROUPS[g].abilities| == 3 && CatalogSlot(ABILITY_GROUPS[g].abilities[j].code) == 3 * g + j
    {
      var a := ABILITY_GROUPS[g].abilities;
      assert |a| == 3;
      if j == 0 {
        assert CatalogSlot(a[0].code) == 3 * g;
      } else if j == 1 {
        assert CatalogSlot(a[1].code) == 3 * g + 1;
      } else {
        assert CatalogSlot(a[2].code) == 3 * g + 2;
      }
    }
  }

  /** Every catalog ability is found by its code, as itself and in its own
      group, so the prompt shows its own name and description. */
  lemma CatalogAbilityFound(g: nat, j: nat)
    requires g < |ABILITY_GROUPS| && j < |ABILITY_GROUPS[g].abilities|
    ensures LookupAbility(ABILITY_GROUPS, ABILITY_GROUPS[g].abilities[j].code)
            == Some(AbilityMatch(ABILITY_GROUPS[g], ABILITY_GROUPS[g].abilities[j]))
  {
    CatalogCodesUnique();
    UniqueCodeFound(ABILITY_GROUPS, g, j);
  }

  // ----- Species -----

  /** A species label: a pictograph, a space, then a Latin-1 name that
      neither starts nor ends with white space. */
  predicate LabelShaped(sp: string) {
    && |sp| >= 3 && IsPictograph(sp[0]) && sp[1] == ' ' && !IsSpace(sp[2]) && !IsSpace(sp[|sp| - 1])
    && forall k :: 2 <= k < |sp| ==> sp[k] <= '\U{00FF}'
  }

  /** Every entry of the species catalog has that form. */
  lemma CatalogLabelsShaped()
    ensures forall i :: 0 <= i < |SPECIES_OPTIONS| ==> LabelShaped(SPECIES_OPTIONS[i])
  {
    assert LabelShaped("\U{1F426} Bird Pok\U{00E9}mon");
    assert LabelShaped("\U{1F431} Cat Pok\U{00E9}mon");
    assert LabelShaped("\U{1F409} Dragon Pok\U{00E9}mon");
    assert LabelShaped("\U{1F41F} Fish Pok\U{00E9}mon");
    assert LabelShaped("\U{1F33B} Flower Pok\U{00E9}mon");
    assert LabelShaped("\U{1F98E} Lizard Pok\U{00E9}mon");
    assert LabelShaped("\U{1F42D} Mouse Pok\U{00E9}mon");
    assert LabelShaped("\U{1F344} Mushroom Pok\U{00E9}mon");
    assert LabelShaped("\U{1F40D} Snake Pok\U{00E9}mon");
    assert LabelShaped("\U{1F422} Turtle Pok\U{00E9}mon");
  }

  /** Every catalog species prints as the text after its pictograph and space. */
  lemma CatalogSpeciesName(i: nat)
    requires i < |SPECIES_OPTIONS|
    ensures |SPECIES_OPTIONS[i]| >= 3
    ensures SpeciesName(SPECIES_OPTIONS[i]) == SPECIES_OPTIONS[i][2..]
  {
    var sp := SPECIES_OPTIONS[i];
    CatalogLabelsShaped();
    assert NoPictograph(sp[2..]);
    SpeciesNameOfLabel(sp);
  }

  // ----- Stat ranking -----

  datatype StatEntry = StatEntry(key: StatKey, value: int)

  /** The stats from position `i` of the declaration order on. */
  function EntriesFrom(s: Stats, i: nat): (es: seq<StatEntry>)
    requires i <= 6
    ensures |es| == 6 - i
    ensures forall j :: 0 <= j < |es| ==> KeyIndex(es[j].key) == i + j && es[j].value == s.Get(es[j].key)
    decreases 6 - i
  {
    if i == 6 then [] else [StatEntry(STAT_KEYS[i], s.Get(STAT_KEYS[i]))] + EntriesFrom(s, i + 1)
  }

  /** The stats as `STAT_DEFS.map(...)` lists them: in declaration order. */
  function Entries(s: Stats): (es: seq<StatEntry>)
    ensures |es| == 6
    ensures forall i :: 0 <= i < 6 ==> KeyIndex(es[i].key) == i && es[i].value == s.Get(es[i].key)
  {
    EntriesFrom(s, 0)
  }

  /** `a` comes before `b` in a stable descending sort of declaration-ordered
      entries: a higher value, or an equal value declared earlier. */
  predicate RanksBefore(a: StatEntry, b: StatEntry) {
    a.value > b.value || (a.value == b.value && KeyIndex(a.key) < KeyIndex(b.key))
  }

  predicate Ranked(es: seq<StatEntry>) {
    forall i, j :: 0 <= i < j < |es| ==> RanksBefore(es[i], es[j])
  }

  /** Inserts `e` before the first entry whose value does not exceed its own. */
  function Insert(e: StatEntry, es: seq<StatEntry>): (r: seq<StatEntry>)
    ensures multiset(r) == multiset(es) + multiset{e}
    decreases |es|
  {
    if es == [] || e.value >= es[0].value then [e] + es
    else
      assert es == [es[0]] + es[1..];
      [es[0]] + Insert(e, es[1..])
  }

  /** `[...entries].sort((a, b) => b.value - a.value)`: a stable sort by value,
      descending (insertion from the back keeps equal values in order). */
  function SortDescending(es: seq<StatEntry>): (r: seq<StatEntry>)
    ensures multiset(r) == multiset(es)
    decreases |es|
  {
    if es == [] then []
    else
      assert es == [es[0]] + es[1..];
      Insert(es[0], SortDescending(es[1..]))
  }

  lemma {:induction false} InsertRanked(e: StatEntry, es: seq<StatEntry>)
    requires Ranked(es)
    requires forall x :: x in es ==> KeyIndex(e.key) < KeyIndex(x.key)
    ensures Ranked(Insert(e, es))
    decreases |es|
  {
    if es != [] && e.value < es[0].value {
      InsertRanked(e, es[1..]);
      var r := Insert(e, es);
      var tail := Insert(e, es[1..]);
      assert r == [es[0]] + tail;
      forall x | x in tail ensures RanksBefore(es[0], x) {
        assert x in multiset(tail);
      }
    }
  }

  /** The sort yields the stable descending order when the input lists the
      stats in declaration order. */
  lemma {:induction false} SortRanked(es: seq<StatEntry>)
    requires forall i, j :: 0 <= i < j < |es| ==> KeyIndex(es[i].key) < KeyIndex(es[j].key)
    ensures Ranked(SortDescending(es))
    decreases |es|
  {
    if es != [] {
      SortRanked(es[1..]);
      var rest := SortDescending(es[1..]);
      forall x | x in rest ensures KeyIndex(es[0].key) < KeyIndex(x.key) {
        assert x in multiset(es[1..]);
      }
      InsertRanked(es[0], rest);
    }
  }

  /** The sort of a declaration-ordered list is a stable descending
      ordering of the same entries. */
  lemma SortFacts(es: seq<StatEntry>)
    requires forall i, j :: 0 <= i < j < |es| ==> KeyIndex(es[i].key) < KeyIndex(es[j].key)
    ensures |SortDescending(es)| == |es| && Ranked(SortDescending(es))
    ensures forall x :: x in SortDescending(es) <==> x in es
  {
    var r := SortDescending(es);
    SortRanked(es);
    assert |r| == |multiset(r)| == |multiset(es)| == |es|;
    forall x ensures x in r <==> x in es {
      assert x in r <==> x in multiset(r);
      assert x in es <==> x in multiset(es);
    }
  }

  /** `sortedStats`: the six entries in stable descending order. */
  function Ranking(s: Stats): (r: seq<StatEntry>)
    ensures |r| == 6 && Ranked(r)
    ensures forall x :: x in r <==> x in Entries(s)
  {
    var es := Entries(s);
    assert forall i, j :: 0 <= i < j < |es| ==> KeyIndex(es[i].key) < KeyIndex(es[j].key);
    SortFacts(es);
    SortDescending(es)
  }

  /** Each ranked entry carries its own stat's value. */
  lemma RankingValues(s: Stats)
    ensures |Ranking(s)| == 6
    ensures forall i :: 0 <= i < 6 ==> Ranking(s)[i].value == s.Get(Ranking(s)[i].key)
  {
    var es := Entries(s);
    var r := Ranking(s);
    SortFacts(es);
    forall i | 0 <= i < 6 ensures r[i].value == s.Get(r[i].key) {
      assert r[i] in es;
    }
  }

  /** Every stat appears in the ranking. */
  lemma RankingHasStat(s: Stats, k: StatKey)
    ensures StatEntry(k, s.Get(k)) in Ranking(s)
  {
    var es := Entries(s);
    assert es[KeyIndex(k)].key == k;
    assert es[KeyIndex(k)] in es;
    SortFacts(es);
  }

  /** The three stats the narrative prompt names. */
  datatype StatPicks = StatPicks(top1: StatKey, top2: StatKey, lowest: StatKey)

  function PickStats(s: Stats): StatPicks {
    var r := Ranking(s);
    StatPicks(r[0].key, r[1].key, r[5].key)
  }

  /** The first pick is a highest stat, the second is highest among the
      rest, and the last is a lowest stat; among equal values the earlier
      declared stat ranks first. */
  lemma {:induction false} PickStatsExtremes(s: Stats)
    ensures PickStats(s).top2 != PickStats(s).top1
    ensures forall k :: s.Get(PickStats(s).top1) >= s.Get(k)
    ensures forall k :: k != PickStats(s).top1 ==> s.Get(PickStats(s).top2) >= s.Get(k)
    ensures forall k :: s.Get(PickStats(s).lowest) <= s.Get(k)
    ensures forall k :: s.Get(k) == s.Get(PickStats(s).top1) ==> KeyIndex(PickStats(s).top1) <= KeyIndex(k)
    ensures forall k :: k != PickStats(s).top1 && s.Get(k) == s.Get(PickStats(s).top2)
                        ==> KeyIndex(PickStats(s).top2) <= KeyIndex(k)
    ensures forall k :: s.Get(k) == s.Get(PickStats(s).lowest) ==> KeyIndex(k) <= KeyIndex(PickStats(s).lowest)
  {
    RankingValues(s);
    var r := Ranking(s);
    var p := PickStats(s);
    assert p == StatPicks(r[0].key, r[1].key, r[5].key);
    assert RanksBefore(r[0], r[1]);
    forall k ensures s.Get(p.top1) >= s.Get(k) && s.Get(p.lowest) <= s.Get(k)
      && (s.Get(k) == s.Get(p.top1) ==> KeyIndex(p.top1) <= KeyIndex(k))
      && (k != p.top1 ==> s.Get(p.top2) >= s.Get(k))
      && (k != p.top1 && s.Get(k) == s.Get(p.top2) ==> KeyIndex(p.top2) <= KeyIndex(k))
      && (s.Get(k) == s.Get(p.lowest) ==> KeyIndex(k) <= KeyIndex(p.lowest))
    {
      RankingHasStat(s, k);
      var i :| 0 <= i < |r| && r[i] == StatEntry(k, s.Get(k));
      if i > 0 { assert RanksBefore(r[0], r[i]); }
      if i > 1 { assert RanksBefore(r[1], r[i]); }
      if i < 5 { assert RanksBefore(r[i], r[5]); }
    }
  }

  /** With every stat equal the picks follow declaration order. */
  lemma InitialPicks()
    ensures PickStats(INITIAL_STATS) == StatPicks(Strategy, Focus, Adaptability)
  {
    PickStatsExtremes(INITIAL_STATS);
    var p := PickStats(INITIAL_STATS);
    assert KeyIndex(p.top1) <= KeyIndex(Strategy);
    assert KeyIndex(p.top2) <= KeyIndex(Focus);
    assert KeyIndex(Adaptability) <= KeyIndex(p.lowest);
  }

  // ----- Prompts -----

  /** The narrative prompt: the fixed fallback text, or the values filled into
      the instruction template. */
  datatype PokedexPrompt =
    | PokedexFallback
    | PokedexRequest(name: string, typeText: string, speciesName: string,
                     topStat1: string, topStat2: string, lowestStat: string,
                     abilityName: string, abilityDescription: string)

  const ABILITY_NAME_PLACEHOLDER: string := "[ABILITY NAME]"
  const ABILITY_DESCRIPTION_PLACEHOLDER: string := "[ABILITY DESCRIPTION]"

  /** `type2 ? \`${type1} and ${type2}\` : type1`. */
  function TypeText(types: seq<string>): (r: string)
    requires types != []
    ensures types[0] <= r
    ensures r == types[0] <==> !(|types| >= 2 && types[1] != "")
  {
    if |types| >= 2 && types[1] != "" then types[0] + " and " + types[1] else types[0]
  }

  /** The narrative prompt needs a Pokémon name, a first type, a species and
      an ability. */
  predicate PokedexReady(f: Form) {
    f.pokemonName != "" && f.types != [] && f.types[0] != "" && f.species != "" && f.ability != ""
  }

  /** `pokedexPrompt`: the fallback text unless the form is ready; otherwise
      the template filled with the name, the type text, the species name, the
      labels of the three picked stats and the ability's name and description. */
  function Pokedex(f: Form, s: Stats): (r: PokedexPrompt)
    ensures r.PokedexFallback? <==> !PokedexReady(f)
  {
    if !PokedexReady(f) then PokedexFallback
    else
      var picks := PickStats(s);
      PokedexRequest(
        f.pokemonName, TypeText(f.types), SpeciesName(f.species),
        Label(picks.top1), Label(picks.top2), Label(picks.lowest),
        AbilityNameText(f.ability), AbilityDescriptionText(f.ability))
  }

  /** The ability name shown in the prompt: the catalogue's, or a placeholder. */
  function AbilityNameText(code: string): (r: string)
    ensures r != ""
  {
    var found := LookupAbility(ABILITY_GROUPS, code);
    if found.Some? && found.value.ability.name != "" then found.value.ability.name else ABILITY_NAME_PLACEHOLDER
  }

  /** The ability description shown in the prompt: the catalogue's, or a placeholder. */
  function AbilityDescriptionText(code: string): (r: string)
    ensures r != ""
  {
    var found := LookupAbility(ABILITY_GROUPS, code);
    if found.Some? && found.value.ability.description != "" then found.value.ability.description
    else ABILITY_DESCRIPTION_PLACEHOLDER
  }

  /** The fallback text appears exactly when the Pokémon name, the first type,
      the species or the ability is empty. */
  lemma PokedexFallbackIff(f: Form, s: Stats)
    ensures Pokedex(f, s).PokedexFallback?
            <==> (f.pokemonName == "" || f.types == [] || f.types[0] == "" || f.species == "" || f.ability == "")
  {
  }

  /** A filled-in prompt carries the Pokémon name as typed and the species
      label without its pictograph; a catalog species shows its name part. */
  lemma PokedexSlots(f: Form, s: Stats)
    requires PokedexReady(f)
    ensures Pokedex(f, s).name == f.pokemonName
    ensures Pokedex(f, s).speciesName == SpeciesName(f.species)
    ensures f.species in SPECIES_OPTIONS ==> |f.species| >= 3 && Pokedex(f, s).speciesName == f.species[2..]
  {
    if f.species in SPECIES_OPTIONS {
      var i :| 0 <= i < |SPECIES_OPTIONS| && SPECIES_OPTIONS[i] == f.species;
      CatalogSpeciesName(i);
    }
  }

  /** A filled-in prompt carries the labels of the three picks. */
  lemma PokedexPickLabels(f: Form, s: Stats)
    requires PokedexReady(f)
    ensures Pokedex(f, s).topStat1 == Label(PickStats(s).top1)
    ensures Pokedex(f, s).topStat2 == Label(PickStats(s).top2)
    ensures Pokedex(f, s).lowestStat == Label(PickStats(s).lowest)
  {
  }

  /** A filled-in prompt names, by label, a highest stat and then a different
      stat that is highest among the others. */
  lemma PokedexTopStats(f: Form, s: Stats)
    requires PokedexReady(f)
    ensures Pokedex(f, s).topStat1 != Pokedex(f, s).topStat2
    ensures forall k1, k :: Label(k1) == Pokedex(f, s).topStat1 ==> s.Get(k1) >= s.Get(k)
    ensures forall k2, k :: Label(k2) == Pokedex(f, s).topStat2 && Label(k) != Pokedex(f, s).topStat1
                            ==> s.Get(k2) >= s.Get(k)
  {
    var p := PickStats(s);
    var q := Pokedex(f, s);
    PokedexPickLabels(f, s);
    PickStatsExtremes(s);
    LabelInjective(p.top1, p.top2);
    forall k1, k | Label(k1) == q.topStat1 ensures s.Get(k1) >= s.Get(k) {
      LabelInjective(k1, p.top1);
    }
    forall k2, k | Label(k2) == q.topStat2 && Label(k) != q.topStat1 ensures s.Get(k2) >= s.Get(k) {
      LabelInjective(k2, p.top2);
    }
  }

  /** A filled-in prompt names, by label, a lowest stat. */
  lemma PokedexLowestStat(f: Form, s: Stats)
    requires PokedexReady(f)
    ensures forall k3, k :: Label(k3) == Pokedex(f, s).lowestStat ==> s.Get(k3) <= s.Get(k)
  {
    var p := PickStats(s);
    PokedexPickLabels(f, s);
    PickStatsExtremes(s);
    forall k3, k | Label(k3) == Pokedex(f, s).lowestStat ensures s.Get(k3) <= s.Get(k) {
      LabelInjective(k3, p.lowest);
    }
  }

  /** A filled-in prompt joins the two selected types with "and", or uses the
      first type alone. */
  lemma PokedexTypeText(f: Form, s: Stats)
    requires PokedexReady(f)
    ensures |f.types| >= 2 && f.types[1] != "" ==> Pokedex(f, s).typeText == f.types[0] + " and " + f.types[1]
    ensures !(|f.types| >= 2 && f.types[1] != "") ==> Pokedex(f, s).typeText == f.types[0]
  {
  }

  /** An ability code the catalog does not know yields both placeholders. */
  lemma PokedexUnknownAbility(f: Form, s: Stats)
    requires PokedexReady(f)
    requires forall i :: 0 <= i < |ABILITY_GROUPS| ==> !GroupHasCode(ABILITY_GROUPS[i], f.ability)
    ensures Pokedex(f, s).abilityName == ABILITY_NAME_PLACEHOLDER
    ensures Pokedex(f, s).abilityDescription == ABILITY_DESCRIPTION_PLACEHOLDER
  {
  }

  /** A catalog ability fills in its own name and description. */
  lemma PokedexKnownAbility(f: Form, s: Stats, m: AbilityMatch)
    requires PokedexReady(f)
    requires LookupAbility(ABILITY_GROUPS, f.ability) == Some(m)
    requires m.ability.name != "" && m.ability.description != ""
    ensures Pokedex(f, s).abilityName == m.ability.name && Pokedex(f, s).abilityDescription == m.ability.description
    ensures m.ability.code == f.ability
  {
  }

  /** The image prompt: the values filled into the appearance template. */
  datatype ImagePrompt = ImagePrompt(name: string, speciesName: string, type1: string, type2: Option<string>)

  const NAME_PLACEHOLDER: string := "[Name]"
  const SPECIES_PLACEHOLDER: string := "[Species Name]"
  const TYPE_PLACEHOLDER: string := "[First Type]"

  /** `imagePrompt`: the name, species and first type, each with its
      placeholder when missing, and the second type when one is selected. */
  function Image(f: Form): (r: ImagePrompt)
    ensures r.name != "" && r.type1 != ""
  {
    ImagePrompt(
      if f.pokemonName != "" then f.pokemonName else NAME_PLACEHOLDER,
      SpeciesName(if f.species != "" then f.species else SPECIES_PLACEHOLDER),
      if f.types != [] && f.types[0] != "" then f.types[0] else TYPE_PLACEHOLDER,
      if |f.types| >= 2 && f.types[1] != "" then Some(f.types[1]) else None)
  }

  /** The image prompt always has a name and a first type, placeholders when
      missing, and mentions a second type exactly when one is selected. */
  lemma ImagePlaceholders(f: Form)
    ensures Image(f).name != "" && Image(f).type1 != ""
    ensures Image(f).name == NAME_PLACEHOLDER <==> f.pokemonName == "" || f.pokemonName == NAME_PLACEHOLDER
    ensures Image(f).type2.Some? <==> |f.types| >= 2 && f.types[1] != ""
    ensures Image(f).type2.Some? ==> Image(f).type2.value == f.types[1]
    ensures f.types != [] && f.types[0] != "" ==> Image(f).type1 == f.types[0]
    ensures !(f.types != [] && f.types[0] != "") ==> Image(f).type1 == TYPE_PLACEHOLDER
    ensures f.pokemonName != "" ==> Image(f).name == f.pokemonName
  {
  }

  /** The species placeholder is plain Latin-1 text without edge spaces. */
  lemma PlaceholderClean()
    ensures NoPictograph(SPECIES_PLACEHOLDER)
    ensures !IsSpace(SPECIES_PLACEHOLDER[0]) && !IsSpace(SPECIES_PLACEHOLDER[|SPECIES_PLACEHOLDER| - 1])
  {
    var p := SPECIES_PLACEHOLDER;
    assert forall k :: 0 <= k < |p| ==> p[k] <= '\U{00FF}';
  }

  /** The species placeholder prints as itself. */
  lemma PlaceholderSpeciesName()
    ensures SpeciesName(SPECIES_PLACEHOLDER) == SPECIES_PLACEHOLDER
  {
    PlaceholderClean();
    SpeciesNameClean(SPECIES_PLACEHOLDER);
  }

  /** The image prompt's species is the placeholder when none is chosen, and
      otherwise the label as the narrative prompt prints it. */
  lemma ImageSpecies(f: Form)
    ensures f.species == "" ==> Image(f).speciesName == SPECIES_PLACEHOLDER
    ensures f.species != "" ==> Image(f).speciesName == SpeciesName(f.species)
    ensures f.species in SPECIES_OPTIONS ==> |f.species| >= 3 && Image(f).speciesName == f.species[2..]
  {
    if f.species == "" {
      PlaceholderSpeciesName();
    }
    if f.species in SPECIES_OPTIONS {
      var i :| 0 <= i < |SPECIES_OPTIONS| && SPECIES_OPTIONS[i] == f.species;
      CatalogSpeciesName(i);
    }
  }

  /** The species shown in either prompt has no pictograph left. */
  lemma PromptSpeciesHasNoPictograph(f: Form, s: Stats)
    ensures forall c :: c in Image(f).speciesName ==> !IsPictograph(c)
    ensures Pokedex(f, s).PokedexRequest? ==> forall c :: c in Pokedex(f, s).speciesName ==> !IsPictograph(c)
  {
  }
}
