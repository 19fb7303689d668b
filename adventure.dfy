/**
 The game logic of the text adventure (lab_5/main.py, class TextAdventureGame):
 a fixed table of four locations, each with the actions it offers, where those
 actions lead and how likely an enemy is; an inventory of resources and water
 that actions increase; and a raft that wins the game once enough has been
 collected. The two random draws of the source are parameters: `gathered` is
 the `random.randint(1, 3)` of a gathering action and `roll` is the
 `random.random()` of an encounter.
 */
module Adventure {
  import opened Combat

  datatype Option<T> = None | Some(value: T)

  /** One entry of the `locations` table. `next` is empty for "win", whose entry
      has no "next" key; `enemyChance` is None where the entry has no
      "enemy_chance" key. */
  datatype Place = Place(description: string, actions: seq<string>,
                         next: map<string, string>, enemyChance: Option<real>)

  const Forest := "forest"
  const Cave := "cave"
  const Lake := "lake"
  const Win := "win"

  const Gather := "Собирать ресурсы"
  const North := "Идти на север"
  const ToLake := "Идти к озеру"
  const Back := "Вернуться назад"
  const FetchWater := "Собрать воду"
  const BuildRaft := "Построить плот"

  const ResourcesKey := "ресурсы"
  const WaterKey := "вода"

  const InvalidActionReply := "Недопустимое действие!"
  const RaftRefusedReply := "Для постройки плота нужно 5 ресурсов и 1 вода."

  /** Resources and water needed for the raft. */
  const RaftResources := 5
  const RaftWater := 1

  /** The `locations` table. Its keys are the four places, every action a place
      offers has a "next" entry, and every "next" entry leads to a key. */
  function Locations(): (table: map<string, Place>)
    ensures table.Keys == {Forest, Cave, Lake, Win}
    ensures forall l, a :: l in table && a in table[l].actions ==> a in table[l].next
    ensures forall l, a :: l in table && a in table[l].next ==> table[l].next[a] in table
  {
    var table := map[
      Forest := Place("Вы в лесу. Можно идти на север или собирать ресурсы.",
                      [Gather, North], map[Gather := Forest, North := Cave], Some(0.2)),
      Cave := Place("Вы в пещере. Здесь темно и опасно.",
                    [ToLake, Back], map[ToLake := Lake, Back := Forest], Some(0.4)),
      Lake := Place("Вы у озера. Можно собрать воду или построить плот.",
                    [FetchWater, BuildRaft], map[FetchWater := Lake, BuildRaft := Win], Some(0.0)),
      Win := Place("Вы построили плот и уплыли на свободу! Поздравляем, вы победили!",
                   [], map[], None)
    ];
    assert table[Forest].next.Keys == {Gather, North};
    assert table[Cave].next.Keys == {ToLake, Back};
    assert table[Lake].next.Keys == {FetchWater, BuildRaft};
    assert table[Win].next.Keys == {};
    table
  }

  function Digit(d: nat): char
    requires d < 10
  {
    ('0' as int + d) as char
  }

  /** The decimal digits of `n`, as an f-string prints an int: decimal
      digits only, with no leading zero. */
  function NatToString(n: nat): (digits: string)
    ensures |digits| > 0
    ensures forall i :: 0 <= i < |digits| ==> '0' <= digits[i] <= '9'
    ensures digits[0] == '0' ==> n == 0
  {
    if n < 10 then [Digit(n)]
    else NatToString(n / 10) + [Digit(n % 10)]
  }

  /** Reading a string of decimal digits back as a number. */
  function DecimalValue(digits: string): nat
  {
    if digits == [] then 0
    else
      var last := digits[|digits| - 1] as int - '0' as int;
      DecimalValue(digits[..|digits| - 1]) * 10 + (if 0 <= last < 10 then last else 0)
  }

  /** Printing a count and reading it back gives the count. */
  lemma {:induction false} NatToStringRoundTrip(n: nat)
    ensures DecimalValue(NatToString(n)) == n
  {
    if n >= 10 {
      NatToStringRoundTrip(n / 10);
      var digits := NatToString(n);
      assert digits[..|digits| - 1] == NatToString(n / 10);
    }
  }

  /** The part of the game that `take_action` reads and writes. */
  datatype GameState = GameState(location: string, inventory: map<string, nat>)

  /** The reply `take_action` returns, with the state it leaves behind. */
  datatype Outcome = Outcome(state: GameState, reply: string)

  /** The location is a key of the table and the inventory holds exactly the
      two counters. */
  predicate WellFormed(s: GameState)
  {
    s.location in Locations() && s.inventory.Keys == {ResourcesKey, WaterKey}
  }

  const Initial := GameState(Forest, map[ResourcesKey := 0, WaterKey := 0])

  function Actions(location: string): seq<string>
    requires location in Locations()
  {
    Locations()[location].actions
  }

  /** `take_action(action)` as a function of the state before it, with
      `gathered` standing for the `randint(1, 3)` draw. Every action keeps the
      state well formed and no counter of the inventory ever decreases. */
  function Step(s: GameState, action: string, gathered: int): (r: Outcome)
    requires WellFormed(s)
    requires 1 <= gathered <= 3
    ensures WellFormed(r.state)
    ensures forall key :: key in s.inventory ==> r.state.inventory[key] >= s.inventory[key]
  {
    var place := Locations()[s.location];
    if action !in place.actions then Outcome(s, InvalidActionReply)
    else if action == Gather then
      var total := s.inventory[ResourcesKey] + gathered;
      Outcome(s.(inventory := s.inventory[ResourcesKey := total]),
              "Вы собрали " + NatToString(gathered) + " ресурса(-ов). У вас "
              + NatToString(total) + " ресурсов.")
    else if action == FetchWater then
      var total := s.inventory[WaterKey] + 1;
      Outcome(s.(inventory := s.inventory[WaterKey := total]),
              "Вы набрали воду. У вас " + NatToString(total) + " ед. воды.")
    else if action == BuildRaft then
      if s.inventory[ResourcesKey] >= RaftResources && s.inventory[WaterKey] >= RaftWater
      then Outcome(s.(location := Win), Locations()[Win].description)
      else Outcome(s, RaftRefusedReply)
    else
      var next := if action in place.next then place.next[action] else s.location;
      Outcome(s.(location := next), Locations()[next].description)
  }

  lemma LocationCases(location: string)
    requires location in Locations()
    ensures location == Forest || location == Cave || location == Lake || location == Win
  {
  }

  /** Every description is longer than the refusal reply, so never equal to it. */
  lemma DescriptionIsLong(location: string)
    requires location in Locations()
    ensures |Locations()[location].description| > |InvalidActionReply|
  {
    LocationCases(location);
  }

  /** An action the current location does not offer gets the error reply and
      changes nothing, and only such an action gets that reply. */
  lemma InvalidActionChangesNothing(s: GameState, action: string, gathered: int)
    requires WellFormed(s)
    requires 1 <= gathered <= 3
    ensures action !in Actions(s.location) ==> Step(s, action, gathered) == Outcome(s, InvalidActionReply)
    ensures Step(s, action, gathered).reply == InvalidActionReply ==> action !in Actions(s.location)
  {
    var r := Step(s, action, gathered);
    if action in Actions(s.location) {
      LocationCases(s.location);
      if action !in {Gather, FetchWater, BuildRaft} {
        DescriptionIsLong(Locations()[s.location].next[action]);
      } else if action == BuildRaft {
        DescriptionIsLong(Win);
      }
      assert |r.reply| > |InvalidActionReply|;
    }
  }

  /** "win" offers no action, so once reached it is never left. */
  lemma WinIsAbsorbing(s: GameState, action: string, gathered: int)
    requires WellFormed(s) && s.location == Win
    requires 1 <= gathered <= 3
    ensures Step(s, action, gathered).state == s
  {
  }

  /** Gathering in the forest adds the drawn amount to the resources and leaves
      the water and the location as they were. */
  lemma GatherAddsResources(s: GameState, gathered: int)
    requires WellFormed(s) && s.location == Forest
    requires 1 <= gathered <= 3
    ensures Step(s, Gather, gathered).state.location == Forest
    ensures Step(s, Gather, gathered).state.inventory[ResourcesKey] == s.inventory[ResourcesKey] + gathered
    ensures Step(s, Gather, gathered).state.inventory[WaterKey] == s.inventory[WaterKey]
    ensures Step(s, Gather, gathered).reply[..11] == "Вы собрали "
  {
  }

  /** Fetching water at the lake adds one unit of water and nothing else. */
  lemma FetchWaterAddsOne(s: GameState, gathered: int)
    requires WellFormed(s) && s.location == Lake
    requires 1 <= gathered <= 3
    ensures Step(s, FetchWater, gathered).state ==
            s.(inventory := s.inventory[WaterKey := s.inventory[WaterKey] + 1])
  {
  }

  /** Building the raft at the lake wins exactly when there are at least five
      resources and one water; it never spends them, and when refused it
      changes nothing. */
  lemma RaftNeedsSupplies(s: GameState, gathered: int)
    requires WellFormed(s) && s.location == Lake
    requires 1 <= gathered <= 3
    ensures Step(s, BuildRaft, gathered).state.location == Win <==>
            s.inventory[ResourcesKey] >= RaftResources && s.inventory[WaterKey] >= RaftWater
    ensures Step(s, BuildRaft, gathered).state.inventory == s.inventory
    ensures Step(s, BuildRaft, gathered).state.location != Win ==>
            Step(s, BuildRaft, gathered) == Outcome(s, RaftRefusedReply)
  {
  }

  /** The only way into "win" is a successful raft at the lake. */
  lemma WinOnlyByRaft(s: GameState, action: string, gathered: int)
    requires WellFormed(s) && s.location != Win
    requires 1 <= gathered <= 3
    requires Step(s, action, gathered).state.location == Win
    ensures s.location == Lake && action == BuildRaft
    ensures s.inventory[ResourcesKey] >= RaftResources && s.inventory[WaterKey] >= RaftWater
  {
    LocationCases(s.location);
  }

  /** A movement action goes where the location's "next" entry says, replies
      with the description of the place reached and leaves the inventory alone. */
  lemma MovementFollowsTable(s: GameState, action: string, gathered: int)
    requires WellFormed(s)
    requires 1 <= gathered <= 3
    requires action in Actions(s.location)
    requires action != Gather && action != FetchWater && action != BuildRaft
    ensures action in Locations()[s.location].next
    ensures Step(s, action, gathered) ==
            Outcome(s.(location := Locations()[s.location].next[action]),
                    Locations()[Locations()[s.location].next[action]].description)
  {
    LocationCases(s.location);
  }

  /** The `enemy_chance` of a location, 0 where the entry has none. */
  function EnemyChance(location: string): (chance: real)
    requires location in Locations()
    ensures 0.0 <= chance < 1.0
    ensures Locations()[location].enemyChance == None ==> chance == 0.0
  {
    match Locations()[location].enemyChance
    case None => 0.0
    case Some(chance) => chance
  }

  /** An encounter happens when the roll falls below the location's chance. */
  predicate EnemyAppears(location: string, roll: real)
    requires location in Locations()
  {
    roll < EnemyChance(location)
  }

  /** With a roll in [0, 1): a goblin turns up in the forest below 0.2 and in
      the cave below 0.4, and never at the lake or after winning. */
  lemma EncounterOdds(roll: real)
    requires 0.0 <= roll < 1.0
    ensures EnemyAppears(Forest, roll) <==> roll < 0.2
    ensures EnemyAppears(Cave, roll) <==> roll < 0.4
    ensures !EnemyAppears(Lake, roll) && !EnemyAppears(Win, roll)
  {
  }

  class TextAdventureGame {
    const locations: map<string, Place> := Locations()
    var currentLocation: string
    const player: CombatEntity
    var inventory: map<string, nat>

    ghost predicate Valid()
      reads this
    {
      WellFormed(State())
    }

    function State(): GameState
      reads this
    {
      GameState(currentLocation, inventory)
    }

    /** A new game starts in the forest with empty pockets and the default
        player (100 health, 10 attack, 5 defense). */
    constructor ()
      ensures Valid() && State() == Initial
      ensures fresh(player) && player.name == "Игрок" && player.View() == Stats(100, 10, 5)
    {
      currentLocation := Forest;
      player := new CombatEntity("Игрок", 100, 10, 5);
      inventory := map[ResourcesKey := 0, WaterKey := 0];
    }

    /** `get_description`: never one of the replies `take_action` uses for a
        refusal. */
    function GetDescription(): (description: string)
      reads this
      requires Valid()
      ensures description != InvalidActionReply && description != RaftRefusedReply
    {
      locations[currentLocation].description
    }

    /** `get_actions`: two actions everywhere except "win", which has none. */
    function GetActions(): (actions: seq<string>)
      reads this
      requires Valid()
      ensures actions == [] <==> currentLocation == Win
      ensures currentLocation != Win ==> |actions| == 2
    {
      locations[currentLocation].actions
    }

    /** `take_action`, with `gathered` standing for the `randint(1, 3)` draw. */
    method TakeAction(action: string, gathered: int) returns (reply: string)
      requires Valid()
      requires 1 <= gathered <= 3
      modifies this
      ensures Valid()
      ensures Outcome(State(), reply) == Step(old(State()), action, gathered)
    {
      ghost var before := State();
      ghost var outcome := Step(before, action, gathered);
      if action !in GetActions() {
        return InvalidActionReply;
      }
      if action == Gather {
        inventory := inventory[ResourcesKey := inventory[ResourcesKey] + gathered];
        return "Вы собрали " + NatToString(gathered) + " ресурса(-ов). У вас "
               + NatToString(inventory[ResourcesKey]) + " ресурсов.";
      }
      if action == FetchWater {
        inventory := inventory[WaterKey := inventory[WaterKey] + 1];
        return "Вы набрали воду. У вас " + NatToString(inventory[WaterKey]) + " ед. воды.";
      }
      if action == BuildRaft {
        if inventory[ResourcesKey] >= RaftResources && inventory[WaterKey] >= RaftWater {
          currentLocation := Win;
          return GetDescription();
        }
        return RaftRefusedReply;
      }
      var next := if action in locations[currentLocation].next
                  then locations[currentLocation].next[action]
                  else currentLocation;
      assert outcome.state == before.(location := next);
      currentLocation := next;
      reply := GetDescription();
    }

    /** `encounter_enemy`, with `roll` standing for the `random.random()` draw:
        a fresh goblin (50 health, 8 attack, 2 defense) exactly when the roll
        is below the current location's chance. */
    method EncounterEnemy(roll: real) returns (enemy: CombatEntity?)
      requires Valid()
      requires 0.0 <= roll < 1.0
      ensures (enemy != null) == EnemyAppears(currentLocation, roll)
      ensures enemy != null ==> fresh(enemy) && enemy.name == "Гоблин" && enemy.View() == Stats(50, 8, 2)
    {
      var chance := match locations[currentLocation].enemyChance
                    case None => 0.0
                    case Some(c) => c;
      if roll < chance {
        return new CombatEntity("Гоблин", 50, 8, 2);
      }
      return null;
    }
  }
}
