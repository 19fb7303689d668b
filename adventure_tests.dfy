/**
 The unit tests of lab_5/test.py, restated as client methods: each builds the
 objects the test's fixtures build and asserts what the test asserts, from the
 contracts of the game and the combatants alone.
 */
module AdventureTests {
  import opened Combat
  import opened Adventure

  method TestInitialLocation()
  {
    var game := new TextAdventureGame();
    assert game.currentLocation == Forest;
    assert game.GetDescription() == "Вы в лесу. Можно идти на север или собирать ресурсы.";
  }

  method TestValidActionCollectResources(gathered: int)
    requires 1 <= gathered <= 3
  {
    var game := new TextAdventureGame();
    var reply := game.TakeAction(Gather, gathered);
    GatherAddsResources(Initial, gathered);
    assert reply[..11] == "Вы собрали ";
    assert game.inventory[ResourcesKey] > 0;
  }

  method TestValidActionTravel()
  {
    var game := new TextAdventureGame();
    var reply := game.TakeAction(North, 1);
    assert reply == "Вы в пещере. Здесь темно и опасно.";
    assert game.currentLocation == Cave;
  }

  method TestInvalidAction()
  {
    var game := new TextAdventureGame();
    var reply := game.TakeAction("Неправильное действие", 1);
    assert reply == "Недопустимое действие!";
    assert game.State() == Initial;
  }

  method TestCombatEntityDamage()
  {
    var player := new CombatEntity("Игрок", 100, 10, 5);
    var taken := player.TakeDamage(15);
    assert taken == 10;
    assert player.health == 90;
  }

  method TestCombatEntitySurvival()
  {
    var player := new CombatEntity("Игрок", 100, 10, 5);
    var _ := player.TakeDamage(120);
    assert !player.IsAlive();
  }

  method TestParametrizedLocationTransitions(gathered: int)
    requires 1 <= gathered <= 3
  {
    var game := new TextAdventureGame();
    var _ := game.TakeAction(Gather, gathered);
    assert game.currentLocation == Forest;
    game := new TextAdventureGame();
    var _ := game.TakeAction(North, gathered);
    assert game.currentLocation == Cave;
  }

  method TestEncounterEnemyChance()
  {
    var game := new TextAdventureGame();
    var enemy := game.EncounterEnemy(0.1);
    assert enemy != null;
    assert enemy.name == "Гоблин";
  }

  method TestEncounterNoEnemyChance()
  {
    var game := new TextAdventureGame();
    var enemy := game.EncounterEnemy(0.9);
    assert enemy == null;
  }

  /** One case of `test_parametrized_combat_damage`. */
  method CombatDamageCase(damage: int) returns (health: int)
    ensures health == 100 - DamageTaken(damage, 5)
  {
    var player := new CombatEntity("Игрок", 100, 10, 5);
    var _ := player.TakeDamage(damage);
    health := player.health;
  }

  method TestParametrizedCombatDamage()
  {
    var health := CombatDamageCase(20);
    assert health == 85;
    health := CombatDamageCase(5);
    assert health == 100;
    health := CombatDamageCase(100);
    assert health == 5;
  }

  method TestFullCombatSimulation()
  {
    var player := new CombatEntity("Игрок", 100, 10, 5);
    var enemy := new CombatEntity("Гоблин", 50, 8, 2);
    Fight(player, enemy);
    GoblinLosesToDefaultPlayer();
    assert player.IsAlive() && !enemy.IsAlive();
  }

  /** Not one of the unit tests: the shortest way through the game, gathering
      six resources and one water before building the raft. */
  method TestWinningPath()
  {
    var game := new TextAdventureGame();
    GatherTwice(game);
    WalkToLake(game);
    var _ := game.TakeAction(FetchWater, 1);
    assert game.State() == GameState(Lake, map[ResourcesKey := 6, WaterKey := 1]);
    var reply := game.TakeAction(BuildRaft, 1);
    assert game.currentLocation == Win;
    assert reply == "Вы построили плот и уплыли на свободу! Поздравляем, вы победили!";
  }

  method GatherTwice(game: TextAdventureGame)
    requires game.Valid() && game.State() == Initial
    modifies game
    ensures game.Valid() && game.State() == GameState(Forest, map[ResourcesKey := 6, WaterKey := 0])
  {
    var _ := game.TakeAction(Gather, 3);
    assert game.State() == GameState(Forest, map[ResourcesKey := 3, WaterKey := 0]);
    var _ := game.TakeAction(Gather, 3);
  }

  method WalkToLake(game: TextAdventureGame)
    requires game.Valid() && game.State() == GameState(Forest, map[ResourcesKey := 6, WaterKey := 0])
    modifies game
    ensures game.Valid() && game.State() == GameState(Lake, map[ResourcesKey := 6, WaterKey := 0])
  {
    var _ := game.TakeAction(North, 1);
    assert game.State() == GameState(Cave, map[ResourcesKey := 6, WaterKey := 0]);
    var _ := game.TakeAction(ToLake, 1);
  }
}
