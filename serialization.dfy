/** Export and import of a profile as a JSON document (`handleExportJson`,
    `handleImportJson`). Import rebuilds the whole form and all six stats from
    an untrusted parsed document, one field at a time, each falling back to
    its default when absent, mistyped or out of range. */
module Serialization {
  import opened Options
  import opened Text
  import opened Catalog
  import opened Profile
  import Allocator

  /** A parsed JSON value. Numbers are kept exact, as reals. */
  datatype Json =
    | JNull
    | JBool(b: bool)
    | JNumber(n: real)
    | JString(s: string)
    | JArray(items: seq<Json>)
    | JObject(fields: map<string, Json>)

  /** `typeof v === "object" && v !== null`: arrays pass too. */
  predicate IsObjectLike(v: Json) {
    v.JObject? || v.JArray?
  }

  /** Property access `v.key`: only an object's own member is found. */
  function Member(v: Json, key: string): (r: Option<Json>)
    ensures r.Some? <==> v.JObject? && key in v.fields
    ensures r.Some? ==> r.value == v.fields[key]
  {
    if v.JObject? && key in v.fields then Some(v.fields[key]) else None
  }

  /** `typeof v === "string" ? v : ""`. */
  function TextOr(v: Option<Json>, default: string): (r: string)
    ensures v.Some? && v.value.JString? ==> r == v.value.s
    ensures !(v.Some? && v.value.JString?) ==> r == default
  {
    match v
    case Some(JString(s)) => s
    case _ => default
  }

  /** The species: kept only when it names a catalog species. */
  function DecodeSpecies(v: Option<Json>): (r: string)
    ensures r in SPECIES_OPTIONS
    ensures v.Some? && v.value.JString? && v.value.s in SPECIES_OPTIONS ==> r == v.value.s
    ensures !(v.Some? && v.value.JString? && v.value.s in SPECIES_OPTIONS) ==> r == SPECIES_OPTIONS[0]
  {
    match v
    case Some(JString(s)) => if s in SPECIES_OPTIONS then s else SPECIES_OPTIONS[0]
    case _ => SPECIES_OPTIONS[0]
  }

  /** The catalog type names among the array's items, in order; other items
      (wrong type or unknown name) are dropped, repeats are kept. */
  function CatalogTypes(items: seq<Json>): (r: seq<string>)
    ensures |r| <= |items|
    ensures forall t :: t in r <==> JString(t) in items && t in ALL_TYPES
    decreases |items|
  {
    if items == [] then []
    else
      var rest := CatalogTypes(items[1..]);
      assert forall j :: j in items <==> j == items[0] || j in items[1..];
      match items[0]
      case JString(t) => if t in ALL_TYPES then [t] + rest else rest
      case _ => rest
  }

  /** The filter works item by item: it distributes over concatenation, so
      the kept names stay in their order, repeats included. */
  lemma {:induction false} CatalogTypesAppend(a: seq<Json>, b: seq<Json>)
    ensures CatalogTypes(a + b) == CatalogTypes(a) + CatalogTypes(b)
    decreases |a|
  {
    if a == [] {
      assert a + b == b;
    } else {
      assert (a + b)[0] == a[0] && (a + b)[1..] == a[1..] + b;
      CatalogTypesAppend(a[1..], b);
    }
  }

  /** A single item is kept exactly when it is a catalog type name. */
  lemma CatalogTypesSingle(item: Json)
    ensures CatalogTypes([item]) == if item.JString? && item.s in ALL_TYPES then [item.s] else []
  {
    assert [item][1..] == [];
  }

  /** The types: a non-empty array is filtered to catalog names and cut to
      its first two survivors (which may leave none); anything else gives the
      default single type. */
  function DecodeTypes(v: Option<Json>): (r: seq<string>)
    ensures |r| <= 2
    ensures forall t :: t in r ==> t in ALL_TYPES
    ensures !(v.Some? && v.value.JArray? && v.value.items != []) ==> r == [DEFAULT_TYPE]
    ensures v.Some? && v.value.JArray? && v.value.items != []
            ==> r == CatalogTypes(v.value.items)[..if |CatalogTypes(v.value.items)| < 2 then |CatalogTypes(v.value.items)| else 2]
  {
    match v
    case Some(JArray(items)) =>
      if items == [] then [DEFAULT_TYPE]
      else
        var kept := CatalogTypes(items);
        if |kept| <= 2 then kept else kept[..2]
    case _ => [DEFAULT_TYPE]
  }

  /** The image: a string, else absent. */
  function DecodeImage(v: Option<Json>): (r: Option<string>)
    ensures r.Some? <==> v.Some? && v.value.JString?
    ensures r.Some? ==> r.value == v.value.s
  {
    match v
    case Some(JString(s)) => Some(s)
    case _ => None
  }

  /** One stat: a number within 1..255 is kept, rounded; anything else gives 100. */
  function DecodeStat(v: Option<Json>): (r: int)
    ensures STAT_MIN <= r <= STAT_MAX
    ensures !(v.Some? && v.value.JNumber? && 1.0 <= v.value.n <= 255.0) ==> r == INITIAL_STAT
  {
    match v
    case Some(JNumber(n)) =>
      if 1.0 <= n <= 255.0 then Allocator.Round(n) else INITIAL_STAT
    case _ => INITIAL_STAT
  }

  /** `parsed.stats?.<label>`. */
  function StatMember(doc: Json, k: StatKey): Option<Json> {
    match Member(doc, "stats")
    case Some(stats) => Member(stats, Label(k))
    case None => None
  }

  /** The form part of an import: text fields as given or empty, a catalog
      species, any ability string, the decoded types and image. */
  function DecodeForm(doc: Json): (f: Form)
    ensures f.species in SPECIES_OPTIONS
    ensures |f.types| <= 2 && forall t :: t in f.types ==> t in ALL_TYPES
    ensures f.trainerName == TextOr(Member(doc, "trainerName"), "")
    ensures f.pokemonName == TextOr(Member(doc, "pokemonName"), "")
    ensures f.pokedexEntry == TextOr(Member(doc, "pokedexEntry"), "")
    ensures f.species == DecodeSpecies(Member(doc, "species"))
    ensures f.ability == TextOr(Member(doc, "ability"), DEFAULT_ABILITY)
    ensures f.types == DecodeTypes(Member(doc, "types"))
    ensures f.imageBase64 == DecodeImage(Member(doc, "imageBase64"))
  {
    Form(
      TextOr(Member(doc, "trainerName"), ""),
      TextOr(Member(doc, "pokemonName"), ""),
      TextOr(Member(doc, "pokedexEntry"), ""),
      DecodeSpecies(Member(doc, "species")),
      TextOr(Member(doc, "ability"), DEFAULT_ABILITY),
      DecodeTypes(Member(doc, "types")),
      DecodeImage(Member(doc, "imageBase64")))
  }

  /** The stats part of an import: each stat decoded on its own, so all six
      are in range, whatever their total. */
  function DecodeStats(doc: Json): (s: Stats)
    ensures s.InRange()
    ensures forall k :: s.Get(k) == DecodeStat(StatMember(doc, k))
  {
    Stats(
      DecodeStat(StatMember(doc, Strategy)),
      DecodeStat(StatMember(doc, Focus)),
      DecodeStat(StatMember(doc, Expression)),
      DecodeStat(StatMember(doc, Collaboration)),
      DecodeStat(StatMember(doc, Grit)),
      DecodeStat(StatMember(doc, Adaptability)))
  }

  datatype Imported = Imported(form: Form, stats: Stats)

  /** The body of the import `onload`, after `JSON.parse`: nothing when the
      document is not an object (or is null), otherwise the fully defaulted
      form and stats, both at once. */
  function Decode(doc: Json): (r: Option<Imported>)
    ensures r.Some? <==> IsObjectLike(doc)
    ensures r.Some? ==> r.value == Imported(DecodeForm(doc), DecodeStats(doc))
    ensures r.Some? ==> r.value.stats.InRange()
    ensures r.Some? ==> r.value.form.species in SPECIES_OPTIONS
    ensures r.Some? ==> |r.value.form.types| <= 2 && forall t :: t in r.value.form.types ==> t in ALL_TYPES
  {
    if IsObjectLike(doc) then Some(Imported(DecodeForm(doc), DecodeStats(doc))) else None
  }

  /** The `stats` member of an exported document: the six values under their
      labels and the computed total. */
  function StatsPayload(s: Stats): (r: Json)
    ensures r.JObject? && "total" in r.fields && r.fields["total"] == JNumber(Total(s) as real)
    ensures r.fields.Keys == {"Strategy", "Focus", "Expression", "Collaboration", "Grit", "Adaptability", "total"}
    ensures forall k :: Label(k) in r.fields && r.fields[Label(k)] == JNumber(s.Get(k) as real)
  {
    JObject(map[
      "Strategy" := JNumber(s.strategy as real),
      "Focus" := JNumber(s.focus as real),
      "Expression" := JNumber(s.expression as real),
      "Collaboration" := JNumber(s.collaboration as real),
      "Grit" := JNumber(s.grit as real),
      "Adaptability" := JNumber(s.adaptability as real),
      "total" := JNumber(Total(s) as real)])
  }

  /** The types as a JSON array of strings, in order. */
  function TypesJson(ts: seq<string>): (r: seq<Json>)
    ensures |r| == |ts|
    ensures forall i :: 0 <= i < |ts| ==> r[i] == JString(ts[i])
    decreases |ts|
  {
    if ts == [] then [] else [JString(ts[0])] + TypesJson(ts[1..])
  }

  /** The eight keys of an export payload are distinct, so each reads back
      its own value. */
  lemma PayloadFields(trainer: Json, pokemon: Json, entry: Json, species: Json,
                      ability: Json, types: Json, image: Json, stats: Json)
    ensures var m := map["trainerName" := trainer, "pokemonName" := pokemon, "pokedexEntry" := entry,
                         "species" := species, "ability" := ability, "types" := types,
                         "imageBase64" := image, "stats" := stats];
            && "trainerName" in m && m["trainerName"] == trainer
            && "pokemonName" in m && m["pokemonName"] == pokemon
            && "pokedexEntry" in m && m["pokedexEntry"] == entry
            && "species" in m && m["species"] == species
            && "ability" in m && m["ability"] == ability
            && "types" in m && m["types"] == types
            && "imageBase64" in m && m["imageBase64"] == image
            && "stats" in m && m["stats"] == stats
            && m.Keys == {"trainerName", "pokemonName", "pokedexEntry", "species", "ability", "types", "imageBase64", "stats"}
  {
  }

  /** The export payload: trimmed names and entry, the other form fields as
      stored, and the stats. */
  function Payload(f: Form, s: Stats): (r: Json)
    ensures r.JObject?
    ensures r.fields.Keys
            == {"trainerName", "pokemonName", "pokedexEntry", "species", "ability", "types", "imageBase64", "stats"}
    ensures Member(r, "trainerName") == Some(JString(Trim(f.trainerName)))
    ensures Member(r, "pokemonName") == Some(JString(Trim(f.pokemonName)))
    ensures Member(r, "pokedexEntry") == Some(JString(Trim(f.pokedexEntry)))
    ensures Member(r, "species") == Some(JString(f.species))
    ensures Member(r, "ability") == Some(JString(f.ability))
    ensures Member(r, "types") == Some(JArray(TypesJson(f.types)))
    ensures Member(r, "stats") == Some(StatsPayload(s))
    ensures f.imageBase64.Some? ==> Member(r, "imageBase64") == Some(JString(f.imageBase64.value))
    ensures f.imageBase64.None? ==> Member(r, "imageBase64") == Some(JNull)
  {
    var trainer := JString(Trim(f.trainerName));
    var pokemon := JString(Trim(f.pokemonName));
    var entry := JString(Trim(f.pokedexEntry));
    var species := JString(f.species);
    var ability := JString(f.ability);
    var types := JArray(TypesJson(f.types));
    var image := match f.imageBase64 case Some(img) => JString(img) case None => JNull;
    var stats := StatsPayload(s);
    PayloadFields(trainer, pokemon, entry, species, ability, types, image, stats);
    JObject(map[
      "trainerName" := trainer, "pokemonName" := pokemon, "pokedexEntry" := entry,
      "species" := species, "ability" := ability, "types" := types,
      "imageBase64" := image, "stats" := stats])
  }

  /** The exported total is the sum of the six exported stats. */
  lemma PayloadTotal(f: Form, s: Stats)
    ensures Member(Payload(f, s), "stats") == Some(StatsPayload(s))
    ensures StatsPayload(s).fields["total"].n
            == (s.strategy + s.focus + s.expression + s.collaboration + s.grit + s.adaptability) as real
  {
    TotalIsSum(s);
  }

  /** Filtering items that are all catalog type names keeps them all. */
  lemma {:induction false} CatalogTypesOfCatalog(ts: seq<string>)
    requires forall t :: t in ts ==> t in ALL_TYPES
    ensures CatalogTypes(TypesJson(ts)) == ts
    decreases |ts|
  {
    if ts != [] {
      assert TypesJson(ts)[1..] == TypesJson(ts[1..]);
      CatalogTypesOfCatalog(ts[1..]);
    }
  }

  /** A whole number in range survives the number encoding and rounding. */
  lemma StatRoundTrip(v: int)
    requires STAT_MIN <= v <= STAT_MAX
    ensures DecodeStat(Some(JNumber(v as real))) == v
  {
  }

  /** Any document whose `stats` member is an exported stats object decodes
      to those stats. */
  lemma DecodeExportedStats(doc: Json, s: Stats)
    requires s.InRange()
    requires Member(doc, "stats") == Some(StatsPayload(s))
    ensures DecodeStats(doc) == s
  {
    forall k ensures DecodeStats(doc).Get(k) == s.Get(k) {
      assert StatMember(doc, k) == Some(JNumber(s.Get(k) as real));
      StatRoundTrip(s.Get(k));
    }
  }

  /** The exported stats decode back to themselves when in range. */
  lemma StatsRoundTrip(f: Form, s: Stats)
    requires s.InRange()
    ensures DecodeStats(Payload(f, s)) == s
  {
    DecodeExportedStats(Payload(f, s), s);
  }

  /** The exported form decodes back to itself with names and entry trimmed,
      when its species and types are catalog ones and it has a type. */
  lemma FormRoundTrip(f: Form, s: Stats)
    requires f.species in SPECIES_OPTIONS
    requires 1 <= |f.types| <= 2 && forall t :: t in f.types ==> t in ALL_TYPES
    ensures DecodeForm(Payload(f, s))
            == f.(trainerName := Trim(f.trainerName),
                  pokemonName := Trim(f.pokemonName),
                  pokedexEntry := Trim(f.pokedexEntry))
  {
    var doc := Payload(f, s);
    var g := DecodeForm(doc);
    assert g.trainerName == Trim(f.trainerName) && g.pokemonName == Trim(f.pokemonName);
    assert g.pokedexEntry == Trim(f.pokedexEntry) && g.species == f.species && g.ability == f.ability;
    CatalogTypesOfCatalog(f.types);
    assert g.types == f.types;
    assert g.imageBase64 == f.imageBase64;
  }

  /** Importing an exported profile gives back the profile with its names and
      entry trimmed, provided its species is a catalog species, it has one or
      two catalog types and its stats are in range. */
  lemma ExportImportRoundTrip(f: Form, s: Stats)
    requires f.species in SPECIES_OPTIONS
    requires 1 <= |f.types| <= 2 && forall t :: t in f.types ==> t in ALL_TYPES
    requires s.InRange()
    ensures Decode(Payload(f, s))
            == Some(Imported(f.(trainerName := Trim(f.trainerName),
                                pokemonName := Trim(f.pokemonName),
                                pokedexEntry := Trim(f.pokedexEntry)), s))
  {
    FormRoundTrip(f, s);
    StatsRoundTrip(f, s);
  }

  /** Exporting again after such a round trip yields the same document. */
  lemma ReExportStable(f: Form, s: Stats)
    requires f.species in SPECIES_OPTIONS
    requires 1 <= |f.types| <= 2 && forall t :: t in f.types ==> t in ALL_TYPES
    requires s.InRange()
    ensures Decode(Payload(f, s)).Some?
    ensures Payload(Decode(Payload(f, s)).value.form, Decode(Payload(f, s)).value.stats) == Payload(f, s)
  {
    ExportImportRoundTrip(f, s);
    TrimIdempotent(f.trainerName);
    TrimIdempotent(f.pokemonName);
    TrimIdempotent(f.pokedexEntry);
  }

  /** A document that is not an object, such as the string "hello", is refused. */
  lemma NonObjectRefused(doc: Json)
    requires doc.JString? || doc.JNull? || doc.JNumber? || doc.JBool?
    ensures Decode(doc).None?
  {
  }

  /** An array passes the structural check and yields the all-default profile. */
  lemma ArrayGivesDefaults(items: seq<Json>)
    ensures Decode(JArray(items)) == Some(Imported(INITIAL_FORM, INITIAL_STATS))
  {
  }

  /** `{"stats": {"Strategy": 999}}` imports successfully, with every field
      at its default (999 is out of range). */
  lemma OutOfRangeStatExample()
    ensures Decode(JObject(map["stats" := JObject(map["Strategy" := JNumber(999.0)])]))
            == Some(Imported(INITIAL_FORM, INITIAL_STATS))
  {
  }

  /** Import does not enforce the 600-point ceiling. */
  lemma ImportIgnoresCeiling()
    ensures var doc := JObject(map["stats" := JObject(map[
              "Strategy" := JNumber(255.0), "Focus" := JNumber(255.0), "Expression" := JNumber(255.0),
              "Collaboration" := JNumber(255.0), "Grit" := JNumber(255.0), "Adaptability" := JNumber(255.0)])]);
            Decode(doc).Some? && Total(Decode(doc).value.stats) == 1530
  {
    var doc := JObject(map["stats" := JObject(map[
              "Strategy" := JNumber(255.0), "Focus" := JNumber(255.0), "Expression" := JNumber(255.0),
              "Collaboration" := JNumber(255.0), "Grit" := JNumber(255.0), "Adaptability" := JNumber(255.0)])]);
    assert DecodeStats(doc) == Stats(255, 255, 255, 255, 255, 255);
    TotalIsSum(Stats(255, 255, 255, 255, 255, 255));
  }

  /** A non-empty types array with no usable entry, such as
      `["Lava", 3]`, yields no types at all, not the default type. */
  lemma InvalidTypesGiveNone(doc: Json)
    requires doc.JObject? && Member(doc, "types") == Some(JArray([JString("Lava"), JNumber(3.0)]))
    ensures Decode(doc).Some? && Decode(doc).value.form.types == []
  {
    var items := [JString("Lava"), JNumber(3.0)];
    assert "Lava" !in ALL_TYPES;
    assert CatalogTypes(items) == [];
  }

  /** Import keeps repeated types: `["Fire", "Fire", "Water"]` gives Fire
      twice. */
  lemma ImportKeepsDuplicateTypes(doc: Json)
    requires doc.JObject? && Member(doc, "types") == Some(JArray([JString("Fire"), JString("Fire"), JString("Water")]))
    ensures Decode(doc).Some? && Decode(doc).value.form.types == ["Fire", "Fire"]
  {
    var items := [JString("Fire"), JString("Fire"), JString("Water")];
    assert items == [items[0]] + ([items[1]] + [items[2]]);
    CatalogTypesAppend([items[0]], [items[1]] + [items[2]]);
    CatalogTypesAppend([items[1]], [items[2]]);
    CatalogTypesSingle(items[0]);
    CatalogTypesSingle(items[1]);
    CatalogTypesSingle(items[2]);
    assert CatalogTypes(items) == ["Fire", "Fire", "Water"];
  }

  /** A profile exported with no type selected comes back as Fire: the empty
      array falls back to the default type. */
  lemma EmptyTypesImportAsFire(f: Form, s: Stats)
    requires f.types == []
    ensures Decode(Payload(f, s)).Some?
    ensures Decode(Payload(f, s)).value.form.types == [DEFAULT_TYPE]
  {
    assert Member(Payload(f, s), "types") == Some(JArray([]));
  }

  /** Import keeps any ability string, even one the catalog does not know. */
  lemma ImportKeepsUnknownAbility(code: string)
    ensures Decode(JObject(map["ability" := JString(code)])).Some?
    ensures Decode(JObject(map["ability" := JString(code)])).value.form.ability == code
  {
  }
}
