/**
 Combatants of the text-adventure game (lab_5/main.py, class CombatEntity) and
 the fight that its unit tests run between the player and a goblin.
 */
module Combat {

  /** The numbers of a combatant; `health` may fall below zero. */
  datatype Stats = Stats(health: int, attack: int, defense: int)

  /** `max(damage - defense, 0)`: what a blow of strength `damage` takes off. */
  function DamageTaken(damage: int, defense: int): (taken: nat)
    ensures taken >= damage - defense
    ensures taken == 0 || taken == damage - defense
  {
    if damage - defense > 0 then damage - defense else 0
  }

  /** A combatant is alive while its health is positive. */
  predicate Alive(s: Stats)
  {
    s.health > 0
  }

  /** The combatant after one `take_damage(damage)`: health never rises, it
      falls by exactly the damage taken, and attack and defense do not move. */
  function Hit(s: Stats, damage: int): (r: Stats)
    ensures r.health <= s.health
    ensures s.health - r.health == DamageTaken(damage, s.defense)
    ensures r.attack == s.attack && r.defense == s.defense
  {
    s.(health := s.health - DamageTaken(damage, s.defense))
  }

  /** A blow kills exactly when the damage it takes reaches the remaining health. */
  lemma HitKills(s: Stats, damage: int)
    requires Alive(s)
    ensures !Alive(Hit(s, damage)) <==> damage - s.defense >= s.health
  {
  }

  /** Unless one side can wound the other, the fight below never ends while
      both sides are alive. */
  predicate CanEnd(player: Stats, enemy: Stats)
  {
    player.attack > enemy.defense || enemy.attack > player.defense
  }

  /** A bound on the rounds left: the health of the side that is being worn down. */
  function RoundsBound(player: Stats, enemy: Stats): nat
  {
    if !(Alive(player) && Alive(enemy)) then 0
    else if player.attack > enemy.defense then enemy.health
    else player.health
  }

  /** The outcome of the fight loop of lab_5/test.py: while both are alive the
      player strikes, and the enemy strikes back if it survived. The fight ends
      with at least one side dead, and neither side ever heals. */
  function Battle(player: Stats, enemy: Stats): (outcome: (Stats, Stats))
    requires CanEnd(player, enemy) || !(Alive(player) && Alive(enemy))
    ensures !(Alive(outcome.0) && Alive(outcome.1))
    ensures outcome.0.health <= player.health && outcome.1.health <= enemy.health
    ensures outcome.0.attack == player.attack && outcome.0.defense == player.defense
    ensures outcome.1.attack == enemy.attack && outcome.1.defense == enemy.defense
    ensures !(Alive(player) && Alive(enemy)) ==> outcome == (player, enemy)
    decreases RoundsBound(player, enemy)
  {
    if !(Alive(player) && Alive(enemy)) then (player, enemy)
    else
      var enemy' := Hit(enemy, player.attack);
      if Alive(enemy') then Battle(Hit(player, enemy.attack), enemy')
      else (player, enemy')
  }

  /** The fight of `test_full_combat_simulation`: the default player
      (100/10/5) beats the goblin (50/8/2) after seven blows, losing 18 health. */
  lemma GoblinLosesToDefaultPlayer()
    ensures Battle(Stats(100, 10, 5), Stats(50, 8, 2)) == (Stats(82, 10, 5), Stats(-6, 8, 2))
  {
  }

  /** A fight in which one side is already dead is over before it starts,
      whatever the attack and defense values. */
  lemma FightAlreadyOver()
    ensures Battle(Stats(0, 0, 0), Stats(10, 0, 0)) == (Stats(0, 0, 0), Stats(10, 0, 0))
  {
  }

  class CombatEntity {
    const name: string
    var health: int
    const attack: int
    const defense: int

    constructor (name: string, health: int, attack: int, defense: int)
      ensures this.name == name
      ensures View() == Stats(health, attack, defense)
    {
      this.name := name;
      this.health := health;
      this.attack := attack;
      this.defense := defense;
    }

    function View(): Stats
      reads this
    {
      Stats(health, attack, defense)
    }

    /** `take_damage`: lowers health by what the blow takes and returns that amount. */
    method TakeDamage(damage: int) returns (taken: int)
      modifies this
      ensures taken == DamageTaken(damage, defense)
      ensures View() == Hit(old(View()), damage)
    {
      taken := if damage - defense > 0 then damage - defense else 0;
      health := health - taken;
    }

    /** `is_alive`: the entity is alive exactly when its numbers are. */
    predicate IsAlive()
      reads this
      ensures IsAlive() <==> Alive(View())
    {
      health > 0
    }
  }

  /** The loop of `test_full_combat_simulation` over two distinct combatants;
      it ends in the state `Battle` predicts. */
  method Fight(player: CombatEntity, enemy: CombatEntity)
    requires player != enemy
    requires CanEnd(player.View(), enemy.View()) || !(player.IsAlive() && enemy.IsAlive())
    modifies player, enemy
    ensures (player.View(), enemy.View()) == Battle(old(player.View()), old(enemy.View()))
    ensures !(player.IsAlive() && enemy.IsAlive())
  {
    while player.IsAlive() && enemy.IsAlive()
      invariant CanEnd(player.View(), enemy.View()) || !(player.IsAlive() && enemy.IsAlive())
      invariant Battle(player.View(), enemy.View()) == Battle(old(player.View()), old(enemy.View()))
      decreases RoundsBound(player.View(), enemy.View())
    {
      var _ := enemy.TakeDamage(player.attack);
      if enemy.IsAlive() {
        var _ := player.TakeDamage(enemy.attack);
      }
    }
  }
}
