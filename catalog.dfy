/** The static reference data of the profile editor, used as membership sets
    and lookup tables: the six stat definitions, the type catalog, the species
    catalog and the grouped ability catalog. */
module Catalog {

  /** The six stats, in their declaration order. */
  datatype StatKey = Strategy | Focus | Expression | Collaboration | Grit | Adaptability

  /** Position of a stat in the declaration order (`STAT_DEFS`). */
  function KeyIndex(k: StatKey): (i: nat)
    ensures i < 6 && STAT_KEYS[i] == k
  {
    match k
    case Strategy => 0
    case Focus => 1
    case Expression => 2
    case Collaboration => 3
    case Grit => 4
    case Adaptability => 5
  }

  /** The stat's display label, which is also its key in an exported document. */
  function Label(k: StatKey): string {
    match k
    case Strategy => "Strategy"
    case Focus => "Focus"
    case Expression => "Expression"
    case Collaboration => "Collaboration"
    case Grit => "Grit"
    case Adaptability => "Adaptability"
  }

  /** Distinct stats have distinct labels, so a label names one stat. */
  lemma LabelInjective(a: StatKey, b: StatKey)
    ensures Label(a) == Label(b) ==> a == b
  {
    if Label(a) == Label(b) {
      assert |Label(a)| == |Label(b)|;
    }
  }

  const STAT_KEYS: seq<StatKey> := [Strategy, Focus, Expression, Collaboration, Grit, Adaptability]

  /** Lower and upper bound of every stat, the total-points ceiling, and the
      value every stat starts at (six times 100 is exactly the ceiling). */
  const STAT_MIN: int := 1
  const STAT_MAX: int := 255
  const STAT_CEILING: int := 600
  const INITIAL_STAT: int := 100

  /** The type catalog: the keys of `TYPE_COLORS`, in declaration order. */
  const ALL_TYPES: seq<string> := [
    "Fire", "Water", "Grass", "Electric", "Psychic", "Ice", "Dragon", "Dark", "Fairy",
    "Steel", "Fighting", "Flying", "Poison", "Ground", "Rock", "Bug", "Ghost", "Normal"
  ]

  /** The type a fresh profile, and an import without usable types, starts with. */
  const DEFAULT_TYPE: string := "Fire"

  /** The species catalog; its first entry is the default. */
  const SPECIES_OPTIONS: seq<string> := [
    "\U{1F426} Bird Pok\U{00E9}mon",
    "\U{1F431} Cat Pok\U{00E9}mon",
    "\U{1F409} Dragon Pok\U{00E9}mon",
    "\U{1F41F} Fish Pok\U{00E9}mon",
    "\U{1F33B} Flower Pok\U{00E9}mon",
    "\U{1F98E} Lizard Pok\U{00E9}mon",
    "\U{1F42D} Mouse Pok\U{00E9}mon",
    "\U{1F344} Mushroom Pok\U{00E9}mon",
    "\U{1F40D} Snake Pok\U{00E9}mon",
    "\U{1F422} Turtle Pok\U{00E9}mon"
  ]

  datatype Ability = Ability(code: string, name: string, description: string)
  datatype AbilityGroup = AbilityGroup(icon: string, title: string, abilities: seq<Ability>)

  /** The ability catalog: four groups of three abilities each. */
  const ABILITY_GROUPS: seq<AbilityGroup> := [
    AbilityGroup("\U{1F50B}", "Execution & Flow", [
      Ability("technician", "Technician",
        "High proficiency in \"low power\" tasks; makes small, repetitive chores look effortless and high-quality."),
      Ability("speed-boost", "Speed Boost",
        "Productivity steadily increases the longer a meeting or work session lasts."),
      Ability("moxie", "Moxie",
        "Gains a burst of motivation and energy immediately after completing a major task or winning a deal.")
    ]),
    AbilityGroup("\U{1F9E0}", "Strategic & Mental", [
      Ability("inner-focus", "Inner Focus",
        "Immune to \"flinching\"; stays completely locked in even when Slack pings or interruptions fly in."),
      Ability("own-tempo", "Own Tempo",
        "Cannot be \"confused\"; remains steady and clear-headed even when project directions are vague."),
      Ability("compound-eyes", "Compound Eyes",
        "Increases \"accuracy\"; rarely misses a small detail, typo, or edge case in a project.")
    ]),
    AbilityGroup("\U{1F91D}", "Synergy & Support", [
      Ability("friend-guard", "Friend Guard",
        "Reduces the \"damage\" (stress) taken by teammates when working on a shared project."),
      Ability("battery", "Battery",
        "Passively raises the \"Special Attack\" (creative output) of all teammates working nearby."),
      Ability("healer", "Healer",
        "High chance of \"curing\" a teammate's frustration or burnout just by talking to them.")
    ]),
    AbilityGroup("\U{1F6E1}\U{FE0F}", "Resilience & Adaptability", [
      Ability("regenerator", "Regenerator",
        "Restores mental energy simply by \"switching out\" of a task and taking a short break."),
      Ability("filter", "Filter",
        "Weakens the impact of \"Super Effective\" hits; turns harsh external criticism into manageable feedback."),
      Ability("guts", "Guts",
        "Working power increases when things get tough (e.g., during a \"Burn\" or high-stress season).")
    ])
  ]

  /** The code of the first ability of the first group: the default ability. */
  const DEFAULT_ABILITY: string := "technician"

  /** The default ability is the first entry of the first catalog group. */
  lemma DefaultAbilityIsFirst()
    ensures |ABILITY_GROUPS| > 0 && |ABILITY_GROUPS[0].abilities| > 0
    ensures DEFAULT_ABILITY == ABILITY_GROUPS[0].abilities[0].code
  {
  }
}
