/** The profile records the editor keeps: the form (`TrainerForm`), the six
    stats (`StatState`) and the two name-error slots (`ValidationErrors`). */
module Profile {
  import opened Options
  import opened Catalog

  /** The six stat values. Values are plain integers: nothing in the record
      itself keeps them in range. */
  datatype Stats = Stats(strategy: int, focus: int, expression: int,
                         collaboration: int, grit: int, adaptability: int)
  {
    function Get(k: StatKey): int {
      match k
      case Strategy => strategy
      case Focus => focus
      case Expression => expression
      case Collaboration => collaboration
      case Grit => grit
      case Adaptability => adaptability
    }

    /** The record with stat `k` replaced by `v` (`{ ...prev, [key]: v }`). */
    function With(k: StatKey, v: int): (r: Stats)
      ensures r.Get(k) == v
      ensures forall j :: j != k ==> r.Get(j) == Get(j)
    {
      match k
      case Strategy => this.(strategy := v)
      case Focus => this.(focus := v)
      case Expression => this.(expression := v)
      case Collaboration => this.(collaboration := v)
      case Grit => this.(grit := v)
      case Adaptability => this.(adaptability := v)
    }

    /** `Object.values(stats)`: the values in key order. */
    function Values(): (vs: seq<int>)
      ensures |vs| == 6
      ensures forall k :: vs[KeyIndex(k)] == Get(k)
    {
      [strategy, focus, expression, collaboration, grit, adaptability]
    }

    /** Every stat lies in 1..255. */
    predicate InRange() {
      forall k :: STAT_MIN <= Get(k) <= STAT_MAX
    }
  }

  /** `INITIAL_STATS`: every stat at 100. */
  const INITIAL_STATS: Stats := Stats(100, 100, 100, 100, 100, 100)

  /** The left fold `values.reduce((sum, v) => sum + v, acc)`. */
  function SumFrom(acc: int, xs: seq<int>): (r: int)
    ensures (forall i :: 0 <= i < |xs| ==> STAT_MIN <= xs[i] <= STAT_MAX)
            ==> acc + |xs| * STAT_MIN <= r <= acc + |xs| * STAT_MAX
    decreases |xs|
  {
    if xs == [] then acc else SumFrom(acc + xs[0], xs[1..])
  }

  /** Folding from an accumulator adds the accumulator to the fold from zero. */
  lemma {:induction false} SumFromShift(acc: int, xs: seq<int>)
    ensures SumFrom(acc, xs) == acc + SumFrom(0, xs)
    decreases |xs|
  {
    if xs != [] {
      SumFromShift(acc + xs[0], xs[1..]);
      SumFromShift(xs[0], xs[1..]);
    }
  }

  /** `totalStats`: the sum of the six values, as the source's reduce computes it. */
  function Total(s: Stats): (t: int)
    ensures s.InRange() ==> 6 * STAT_MIN <= t <= 6 * STAT_MAX
  {
    var vs := s.Values();
    assert s.InRange() ==> forall i :: 0 <= i < 6 ==> STAT_MIN <= vs[i] <= STAT_MAX by {
      forall i | 0 <= i < 6 ensures vs[i] == s.Get(STAT_KEYS[i]) {
        assert KeyIndex(STAT_KEYS[i]) == i;
      }
    }
    SumFrom(0, vs)
  }

  /** The reduce adds up exactly the six stats. */
  lemma TotalIsSum(s: Stats)
    ensures Total(s) == s.strategy + s.focus + s.expression + s.collaboration + s.grit + s.adaptability
  {
    var vs := s.Values();
    SumFromShift(s.strategy, vs[1..]);
    SumFromShift(s.focus, vs[2..]);
    SumFromShift(s.expression, vs[3..]);
    SumFromShift(s.collaboration, vs[4..]);
    SumFromShift(s.grit, vs[5..]);
    SumFromShift(s.adaptability, vs[6..]);
  }

  /** Replacing one stat changes the total by exactly the difference. */
  lemma TotalWith(s: Stats, k: StatKey, v: int)
    ensures Total(s.With(k, v)) == Total(s) - s.Get(k) + v
  {
    TotalIsSum(s);
    TotalIsSum(s.With(k, v));
  }

  /** The initial stats spend the whole budget. */
  lemma InitialStatsFull()
    ensures INITIAL_STATS.InRange() && Total(INITIAL_STATS) == STAT_CEILING
  {
    TotalIsSum(INITIAL_STATS);
  }

  /** `TrainerForm`. */
  datatype Form = Form(trainerName: string, pokemonName: string, pokedexEntry: string,
                       species: string, ability: string, types: seq<string>,
                       imageBase64: Option<string>)

  /** The form a fresh editor starts with. */
  const INITIAL_FORM: Form :=
    Form("", "", "", SPECIES_OPTIONS[0], DEFAULT_ABILITY, [DEFAULT_TYPE], None)

  /** The messages the two error slots can hold. */
  datatype NameError = TrainerRequired | TrainerSingleWord | PokemonRequired | NamesMismatch
  {
    function Message(): string {
      match this
      case TrainerRequired => "Trainer name is required."
      case TrainerSingleWord => "Trainer name should be a single word (no spaces)."
      case PokemonRequired => "Pok\U{00E9}mon name is required."
      case NamesMismatch => "First and last letters of the trainer and Pok\U{00E9}mon names must match."
    }
  }

  /** `ValidationErrors`: an optional message for each name field. */
  datatype Errors = Errors(trainerName: Option<NameError>, pokemonName: Option<NameError>)
  {
    predicate IsEmpty() {
      trainerName.None? && pokemonName.None?
    }
  }

  const NO_ERRORS: Errors := Errors(None, None)
}
