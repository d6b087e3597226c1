/** The two name validators: the live check run whenever a name field changes
    (inside `handleBasicChange`) and the submit check `validate`. Both fill the
    same two error slots from the trimmed names. */
module Validation {
  import opened Options
  import opened Text
  import opened Profile

  /** The first and the last characters of two non-empty names agree,
      ignoring case. */
  predicate NamesPair(trainer: string, pokemon: string)
    requires trainer != [] && pokemon != []
  {
    && LowerChar(trainer[0]) == LowerChar(pokemon[0])
    && LowerChar(trainer[|trainer| - 1]) == LowerChar(pokemon[|pokemon| - 1])
  }

  /** The trainer-name slot, shared by both validators: required first, then
      a single word. */
  function TrainerError(trimmed: string): (r: Option<NameError>)
    ensures r.None? <==> trimmed != [] && NoSpace(trimmed)
    ensures r == Some(TrainerRequired) <==> trimmed == []
    ensures r.Some? ==> r.value == TrainerRequired || r.value == TrainerSingleWord
  {
    if trimmed == [] then Some(TrainerRequired)
    else if SplitLength(trimmed) != 1 then Some(TrainerSingleWord)
    else None
  }

  /** The pairing error: reported only when both trimmed names are non-empty
      and their first or last characters differ. */
  function PairingError(trimmedTrainer: string, trimmedPokemon: string): (r: Option<NameError>)
    ensures r.Some? ==> r.value == NamesMismatch
    ensures r.Some? ==> trimmedTrainer != [] && trimmedPokemon != []
                        && (|| LowerChar(trimmedTrainer[0]) != LowerChar(trimmedPokemon[0])
                            || LowerChar(trimmedTrainer[|trimmedTrainer| - 1])
                               != LowerChar(trimmedPokemon[|trimmedPokemon| - 1]))
  {
    if trimmedTrainer != [] && trimmedPokemon != [] && !NamesPair(trimmedTrainer, trimmedPokemon)
    then Some(NamesMismatch)
    else None
  }

  /** Live validation: both slots recomputed together from the current names. */
  function LiveErrors(trainerName: string, pokemonName: string): (r: Errors)
    ensures r.trainerName.None? <==> Trim(trainerName) != [] && NoSpace(Trim(trainerName))
    ensures r.pokemonName.None? || r.pokemonName.value == NamesMismatch
  {
    var t := Trim(trainerName);
    var p := Trim(pokemonName);
    Errors(TrainerError(t), PairingError(t, p))
  }

  /** `validate`: as the live check, and an empty Pokémon name is an error too. */
  function SubmitErrors(trainerName: string, pokemonName: string): (r: Errors)
    ensures r.trainerName.None? <==> Trim(trainerName) != [] && NoSpace(Trim(trainerName))
    ensures r.pokemonName == Some(PokemonRequired) <==> Trim(pokemonName) == []
    ensures r.pokemonName.None? || r.pokemonName.value in {PokemonRequired, NamesMismatch}
  {
    var t := Trim(trainerName);
    var p := Trim(pokemonName);
    Errors(TrainerError(t), if p == [] then Some(PokemonRequired) else PairingError(t, p))
  }

  /** The trainer slot is clear exactly when the trimmed trainer name is a
      single non-empty word, and says "required" exactly when it is blank. */
  lemma TrainerSlotIff(trainerName: string)
    ensures TrainerError(Trim(trainerName)).None? <==> Trim(trainerName) != [] && NoSpace(Trim(trainerName))
    ensures TrainerError(Trim(trainerName)) == Some(TrainerRequired)
            <==> forall i :: 0 <= i < |trainerName| ==> IsSpace(trainerName[i])
  {
    TrimEmptyIff(trainerName);
  }

  /** The live Pokémon slot only ever reports a pairing mismatch, and does so
      exactly when both trimmed names are non-empty and do not pair. */
  lemma LivePokemonSlotIff(trainerName: string, pokemonName: string)
    ensures LiveErrors(trainerName, pokemonName).pokemonName in {None, Some(NamesMismatch)}
    ensures LiveErrors(trainerName, pokemonName).pokemonName == Some(NamesMismatch)
            <==> (Trim(trainerName) != [] && Trim(pokemonName) != []
                  && !NamesPair(Trim(trainerName), Trim(pokemonName)))
  {
  }

  /** The submit check differs from the live one only in requiring a Pokémon
      name. */
  lemma SubmitExtendsLive(trainerName: string, pokemonName: string)
    ensures SubmitErrors(trainerName, pokemonName).trainerName == LiveErrors(trainerName, pokemonName).trainerName
    ensures Trim(pokemonName) != [] ==> SubmitErrors(trainerName, pokemonName) == LiveErrors(trainerName, pokemonName)
    ensures Trim(pokemonName) == [] ==> SubmitErrors(trainerName, pokemonName).pokemonName == Some(PokemonRequired)
  {
  }

  /** What `validate()` accepts: a single-word trainer name and a non-empty
      Pokémon name, trimmed, whose first and last letters match ignoring case. */
  predicate Accepted(trainerName: string, pokemonName: string) {
    var t := Trim(trainerName);
    var p := Trim(pokemonName);
    t != [] && NoSpace(t) && p != [] && NamesPair(t, p)
  }

  /** `validate()` returns true exactly when the trimmed trainer name is one
      word, the trimmed Pokémon name is non-empty, and their first and last
      letters match ignoring case. */
  lemma SubmitValidIff(trainerName: string, pokemonName: string)
    ensures SubmitErrors(trainerName, pokemonName).IsEmpty() <==> Accepted(trainerName, pokemonName)
  {
    TrainerSlotIff(trainerName);
  }

  /** Surrounding white space never changes either validator's verdict. */
  lemma ErrorsIgnoreSurroundingSpace(trainerName: string, pokemonName: string)
    ensures LiveErrors(Trim(trainerName), Trim(pokemonName)) == LiveErrors(trainerName, pokemonName)
    ensures SubmitErrors(Trim(trainerName), Trim(pokemonName)) == SubmitErrors(trainerName, pokemonName)
  {
    TrimIdempotent(trainerName);
    TrimIdempotent(pokemonName);
  }

  /** For two names without surrounding white space and a one-word trainer
      name, only the pairing rule decides. */
  lemma WordNamesErrors(trainerName: string, pokemonName: string)
    requires trainerName != [] && !IsSpace(trainerName[0]) && NoSpace(trainerName)
    requires pokemonName != [] && !IsSpace(pokemonName[0]) && !IsSpace(pokemonName[|pokemonName| - 1])
    ensures LiveErrors(trainerName, pokemonName) == SubmitErrors(trainerName, pokemonName)
    ensures LiveErrors(trainerName, pokemonName)
            == Errors(None, if NamesPair(trainerName, pokemonName) then None else Some(NamesMismatch))
  {
    TrimUnchanged(trainerName);
    TrimUnchanged(pokemonName);
  }

  /** "Ash" and "Alph" pair: no error in either slot. */
  lemma MatchingNamesExample()
    ensures LiveErrors("Ash", "Alph") == NO_ERRORS
  {
    WordNamesErrors("Ash", "Alph");
  }

  /** "Ash" and "Alpha" do not pair, and the mismatch lands on the Pokémon slot. */
  lemma MismatchedNamesExample()
    ensures LiveErrors("Ash", "Alpha") == Errors(None, Some(NamesMismatch))
  {
    WordNamesErrors("Ash", "Alpha");
    var t, p := "Ash", "Alpha";
    assert t[|t| - 1] == 'h' && p[|p| - 1] == 'a';
  }

  /** Pairing ignores case: "ash" and "ALPH" pass the submit check. */
  lemma CaseInsensitiveExample()
    ensures SubmitErrors("ash", "ALPH").IsEmpty()
  {
    WordNamesErrors("ash", "ALPH");
    var t, p := "ash", "ALPH";
    assert t[0] == 'a' && t[|t| - 1] == 'h' && p[0] == 'A' && p[|p| - 1] == 'H';
    assert LowerChar('A') == 'a' && LowerChar('H') == 'h';
  }

  /** "Ash Ketchum" is reported as not a single word, whatever the Pokémon name. */
  lemma TwoWordTrainerExample(pokemonName: string)
    ensures LiveErrors("Ash Ketchum", pokemonName).trainerName == Some(TrainerSingleWord)
    ensures SubmitErrors("Ash Ketchum", pokemonName).trainerName == Some(TrainerSingleWord)
  {
    TrimUnchanged("Ash Ketchum");
    assert IsSpace("Ash Ketchum"[3]);
  }

  /** A blank trainer name is reported as required, whatever the Pokémon name. */
  lemma BlankTrainerExample(pokemonName: string)
    ensures SubmitErrors("  ", pokemonName).trainerName == Some(TrainerRequired)
    ensures !SubmitErrors("  ", pokemonName).IsEmpty()
  {
    TrimEmptyIff("  ");
  }
}
