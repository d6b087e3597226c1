/** The editor's state (`App`): the form, the stats and the name errors, and
    the handlers that update them. Each handler applies the pure updater of
    its module to the previous state, as the component's `setForm`,
    `setStats` and `setErrors` calls do. */
module App {
  import opened Options
  import opened Catalog
  import opened Profile
  import opened Allocator
  import opened Types
  import opened Validation
  import opened Serialization

  /** The text fields `handleBasicChange` is called with. */
  datatype FormField = TrainerName | PokemonName | PokedexEntry | Species | AbilityCode

  /** `{ ...prev, [field]: value }`. */
  function WithField(f: Form, field: FormField, value: string): (r: Form)
    ensures r.types == f.types && r.imageBase64 == f.imageBase64
    ensures field == TrainerName ==> r == f.(trainerName := value)
    ensures field == PokemonName ==> r == f.(pokemonName := value)
    ensures field == PokedexEntry ==> r == f.(pokedexEntry := value)
    ensures field == Species ==> r == f.(species := value)
    ensures field == AbilityCode ==> r == f.(ability := value)
  {
    match field
    case TrainerName => f.(trainerName := value)
    case PokemonName => f.(pokemonName := value)
    case PokedexEntry => f.(pokedexEntry := value)
    case Species => f.(species := value)
    case AbilityCode => f.(ability := value)
  }

  class ProfileState {
    var form: Form
    var stats: Stats
    var errors: Errors

    /** What every handler keeps: each stat in 1..255 and at most two types. */
    ghost predicate Valid()
      reads this
    {
      stats.InRange() && |form.types| <= 2
    }

    /** The initial state: an empty form with the first species, the first
        ability and Fire, all stats at 100 (the full budget), no errors. */
    constructor()
      ensures form == INITIAL_FORM && stats == INITIAL_STATS && errors == NO_ERRORS
      ensures Valid() && Total(stats) == STAT_CEILING
    {
      form := INITIAL_FORM;
      stats := INITIAL_STATS;
      errors := NO_ERRORS;
      InitialStatsFull();
    }

    /** `handleStatChange(key, raw)`: only the stats change, by the allocator;
        the range of every stat is kept, and so is a total within 600. */
    method SetStat(key: StatKey, raw: real)
      modifies this
      ensures stats == Allocate(old(stats), key, raw)
      ensures form == old(form) && errors == old(errors)
      ensures old(Valid()) ==> Valid()
      ensures old(Total(stats)) <= STAT_CEILING ==> Total(stats) <= STAT_CEILING
    {
      var prev := stats;
      stats := Allocate(prev, key, raw);
      AllocateNeverOvershoots(prev, key, raw);
      if prev.InRange() {
        forall k | k != key ensures stats.Get(k) == prev.Get(k) {
          AllocateTouchesOnlyKey(prev, key, raw, k);
        }
      }
    }

    /** `toggleType(t)`: only the types change, by the toggle rule, and stay
        at most two. */
    method ToggleType(t: string)
      modifies this
      ensures form == old(form).(types := Toggled(old(form.types), t))
      ensures stats == old(stats) && errors == old(errors)
      ensures old(Valid()) ==> Valid()
    {
      var types := Toggled(form.types, t);
      if |form.types| <= 2 && t !in form.types {
        ToggleAddsUnselected(form.types, t);
      }
      form := form.(types := types);
    }

    /** `handleBasicChange(field, value)`: the field takes the value; after a
        change of either name, both name errors are recomputed by the live
        rules from the new names, and other errors are left as they were. */
    method ChangeField(field: FormField, value: string)
      modifies this
      ensures form == WithField(old(form), field, value)
      ensures stats == old(stats)
      ensures field == TrainerName || field == PokemonName
              ==> errors == LiveErrors(form.trainerName, form.pokemonName)
      ensures !(field == TrainerName || field == PokemonName) ==> errors == old(errors)
      ensures old(Valid()) ==> Valid()
    {
      form := WithField(form, field, value);
      if field == TrainerName || field == PokemonName {
        errors := LiveErrors(form.trainerName, form.pokemonName);
      }
    }

    /** `validate()`: the errors are replaced by the submit rules' verdict on
        the current names, and the result says whether there are none. */
    method Validate() returns (ok: bool)
      modifies this
      ensures errors == SubmitErrors(form.trainerName, form.pokemonName)
      ensures form == old(form) && stats == old(stats)
      ensures ok <==> errors.IsEmpty()
      ensures ok <==> Accepted(form.trainerName, form.pokemonName)
    {
      errors := SubmitErrors(form.trainerName, form.pokemonName);
      ok := errors.IsEmpty();
      SubmitValidIff(form.trainerName, form.pokemonName);
    }

    /** `handleExportJson()`: validates, and yields the payload exactly when
        the names pass; the form and stats are untouched. */
    method ExportJson() returns (payload: Option<Json>)
      modifies this
      ensures errors == SubmitErrors(form.trainerName, form.pokemonName)
      ensures form == old(form) && stats == old(stats)
      ensures payload.Some? <==> Accepted(form.trainerName, form.pokemonName)
      ensures payload.Some? ==> payload.value == Payload(form, stats)
    {
      var ok := Validate();
      if !ok {
        return None;
      }
      return Some(Payload(form, stats));
    }

    /** `handleImportJson` after parsing: a document that is not an object
        leaves everything as it was; otherwise the form and the stats are
        both replaced by the decoded ones. The errors are never touched. */
    method ImportJson(doc: Json) returns (ok: bool)
      modifies this
      ensures ok <==> IsObjectLike(doc)
      ensures ok ==> form == DecodeForm(doc) && stats == DecodeStats(doc)
      ensures !ok ==> form == old(form) && stats == old(stats)
      ensures errors == old(errors)
      ensures old(Valid()) ==> Valid()
    {
      var imported := Decode(doc);
      match imported
      case None =>
        ok := false;
      case Some(next) =>
        form := next.form;
        stats := next.stats;
        ok := true;
    }
  }
}
