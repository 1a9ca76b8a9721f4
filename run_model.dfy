/**
 * The run store as a value: one battle from character selection to victory or
 * defeat. Each store action is a function from the state before to the state
 * after; the class in RunStore is proved to compute exactly these functions.
 * The clock is a parameter (`now`, in milliseconds) and the two timers of the
 * enemy turn are explicit steps (`PlayEnemyTurn`, then `EndTurn`).
 */
module RunModel {
  import opened Wrappers
  import opened Seqs
  import opened Catalog
  import opened Combat

  datatype Phase = Setup | CharacterSelect | EncounterSelect | Battle | Victory | Defeat

  datatype GameState = GameState(phase: Phase, turn: int, playerTurn: bool)

  datatype GameStats = GameStats(startTime: int, endTime: Option<int>, cardsPlayed: int,
                                 damageDealt: int, damageTaken: int, totalTurns: int)

  datatype Side = PlayerSide | EnemySide

  datatype Run = Run(game: GameState, character: Option<Character>, encounter: Option<Encounter>,
                     player: Combatant, enemy: Combatant,
                     playerDeck: seq<Card>, playerHand: seq<Card>, playerDiscard: seq<Card>,
                     enemyDeck: seq<Card>, enemyHand: seq<Card>, enemyDiscard: seq<Card>,
                     stats: GameStats)

  const StartingPlayer: Combatant := Combatant(100, 100, 3, 3, 0, [])
  const StartingEnemy: Combatant := Combatant(60, 60, 2, 2, 0, [])
  const EnemyBaseEnergy: int := 2
  const PlayerOpeningHand: nat := 5
  const EnemyOpeningHand: nat := 3
  const DefaultScoreBase: int := 100
  const DefaultScoreMultiplier: real := 1.0
  const SpeedBonusSeconds: int := 300

  // ---------------------------------------------------------------- access by side

  function Opponent(side: Side): Side
  {
    if side == PlayerSide then EnemySide else PlayerSide
  }

  function Fighter(r: Run, side: Side): Combatant
  {
    if side == PlayerSide then r.player else r.enemy
  }

  function WithFighter(r: Run, side: Side, c: Combatant): Run
  {
    if side == PlayerSide then r.(player := c) else r.(enemy := c)
  }

  function Deck(r: Run, side: Side): seq<Card>
  {
    if side == PlayerSide then r.playerDeck else r.enemyDeck
  }

  function Hand(r: Run, side: Side): seq<Card>
  {
    if side == PlayerSide then r.playerHand else r.enemyHand
  }

  function Discard(r: Run, side: Side): seq<Card>
  {
    if side == PlayerSide then r.playerDiscard else r.enemyDiscard
  }

  /** The phase the run ends in when `side` dies. */
  function DeathPhase(side: Side): Phase
  {
    if side == PlayerSide then Defeat else Victory
  }

  /** The ids of a pile, counted with multiplicity. */
  function IdBag(cards: seq<Card>): multiset<int>
  {
    multiset(IdsOf(cards))
  }

  /** The ids of every card a side owns, wherever it is. */
  function PileIds(r: Run, side: Side): multiset<int>
  {
    IdBag(Deck(r, side)) + IdBag(Hand(r, side)) + IdBag(Discard(r, side))
  }

  predicate SamePiles(a: Run, b: Run)
  {
    a.playerDeck == b.playerDeck && a.playerHand == b.playerHand && a.playerDiscard == b.playerDiscard &&
    a.enemyDeck == b.enemyDeck && a.enemyHand == b.enemyHand && a.enemyDiscard == b.enemyDiscard
  }

  /** Whose turn it is, the selections and the turn counters agree. */
  predicate SameTurn(a: Run, b: Run)
  {
    a.character == b.character && a.encounter == b.encounter &&
    a.game.turn == b.game.turn && a.game.playerTurn == b.game.playerTurn &&
    a.stats.startTime == b.stats.startTime && a.stats.cardsPlayed == b.stats.cardsPlayed &&
    a.stats.totalTurns == b.stats.totalTurns
  }

  /**
   * The run invariant: both combatants within bounds with at most one status of
   * each kind, every card and ability the run holds well-formed, and the turn
   * number at 1 (nothing ever sets it to anything else).
   */
  predicate Valid(r: Run)
  {
    r.game.turn == 1 &&
    WellFormed(r.player) && WellFormed(r.enemy) &&
    WellFormedCards(r.playerDeck) && WellFormedCards(r.playerHand) && WellFormedCards(r.playerDiscard) &&
    WellFormedCards(r.enemyDeck) && WellFormedCards(r.enemyHand) && WellFormedCards(r.enemyDiscard) &&
    (r.character.Some? ==> WellFormedCharacter(r.character.value))
  }

  /** The state of a new store, and the state `resetGame` returns to. */
  function Initial(now: int): (r: Run)
    ensures r.game == GameState(Setup, 1, true) && r.character.None? && r.encounter.None?
    ensures r.player == StartingPlayer && r.enemy == StartingEnemy
    ensures r.playerDeck == [] && r.playerHand == [] && r.playerDiscard == []
    ensures r.enemyDeck == [] && r.enemyHand == [] && r.enemyDiscard == []
    ensures r.stats == GameStats(now, None, 0, 0, 0, 0)
  {
    Run(GameState(Setup, 1, true), None, None, StartingPlayer, StartingEnemy,
        [], [], [], [], [], [], GameStats(now, None, 0, 0, 0, 0))
  }

  // ---------------------------------------------------------------- cards

  /**
   * `drawCards(deck, hand, count)` on the two piles, giving (deck', hand'): up to
   * `count` cards leave the front of the deck and join the end of the hand, fewer
   * when the deck runs out.
   */
  function Drawn(deck: seq<Card>, hand: seq<Card>, count: nat): (res: (seq<Card>, seq<Card>))
    ensures res.1 + res.0 == hand + deck
    ensures |res.1| == |hand| + Min(count, |deck|)
  {
    var k := if count <= |deck| then count else |deck|;
    assert deck == deck[..k] + deck[k..];
    (deck[k..], hand + deck[..k])
  }

  function WithPiles(r: Run, side: Side, deck: seq<Card>, hand: seq<Card>): Run
  {
    if side == PlayerSide then r.(playerDeck := deck, playerHand := hand)
    else r.(enemyDeck := deck, enemyHand := hand)
  }

  /** A side draws `count` cards. */
  function Draw(r: Run, side: Side, count: nat): Run
  {
    var piles := Drawn(Deck(r, side), Hand(r, side), count);
    WithPiles(r, side, piles.0, piles.1)
  }

  /** `findIndex(c => c.id === id)` over a hand. */
  function IndexOfId(cards: seq<Card>, id: int): (r: Option<nat>)
    ensures r.None? <==> forall i :: 0 <= i < |cards| ==> cards[i].id != id
    ensures r.Some? ==> r.value < |cards| && cards[r.value].id == id
    ensures r.Some? ==> forall j :: 0 <= j < r.value ==> cards[j].id != id
  {
    FindIndex(cards, (c: Card) => c.id == id)
  }

  // ---------------------------------------------------------------- combat

  /** The run ended with `side` dead at time `now`. */
  predicate EndedBy(r: Run, side: Side, now: int)
  {
    r.game.phase == DeathPhase(side) && r.stats.endTime == Some(now)
  }

  /** Neither the phase nor the end time moved from `a` to `b`. */
  predicate Unended(a: Run, b: Run)
  {
    b.game.phase == a.game.phase && b.stats.endTime == a.stats.endTime
  }

  /** `endGame(result)` without the leaderboard submission: the phase and the end time. */
  function EndGame(r: Run, result: Phase, now: int): (r': Run)
    requires result == Victory || result == Defeat
    ensures r'.game.phase == result && r'.stats.endTime == Some(now)
    ensures r' == r.(game := r.game.(phase := result), stats := r.stats.(endTime := Some(now)))
  {
    r.(game := r.game.(phase := result), stats := r.stats.(endTime := Some(now)))
  }

  /**
   * `dealDamage(target, amount)`: the hit goes through armor, and a target left at
   * exactly 0 health ends the run at once (defeat for the player, victory for the enemy).
   */
  function DealDamage(r: Run, side: Side, amount: int, now: int): (r': Run)
    ensures Fighter(r', side) == Damage(Fighter(r, side), amount)
    ensures Fighter(r', Opponent(side)) == Fighter(r, Opponent(side))
    ensures Fighter(r', side).health == 0 ==> EndedBy(r', side, now)
    ensures Fighter(r', side).health != 0 ==> Unended(r, r')
    ensures SamePiles(r, r') && SameTurn(r, r')
    ensures r'.stats.damageDealt == r.stats.damageDealt && r'.stats.damageTaken == r.stats.damageTaken
  {
    var target := Damage(Fighter(r, side), amount);
    var r1 := WithFighter(r, side, target);
    if target.health == 0 then EndGame(r1, DeathPhase(side), now) else r1
  }

  /** The same state with `side`'s status list replaced. */
  function WithStatuses(r: Run, side: Side, effects: seq<StatusEffect>): Run
  {
    WithFighter(r, side, Fighter(r, side).(statusEffects := effects))
  }

  function AddStatusTo(r: Run, side: Side, e: StatusEffect): Run
  {
    WithStatuses(r, side, AddStatus(Fighter(r, side).statusEffects, e))
  }

  /** The amount a damage effect adds to the damage counters: its raw amount, before armor. */
  function RawDamage(e: Effect): int
  {
    if e.kind == "damage" && Truthy(e.amount) then e.amount.value else 0
  }

  function RawDamageTotal(effects: seq<Effect>): int
    decreases |effects|
  {
    if effects == [] then 0
    else RawDamageTotal(effects[..|effects| - 1]) + RawDamage(effects[|effects| - 1])
  }

  /** A damage effect: armor first, the run ends if the target drops to 0, the raw amount is counted. */
  function CastDamage(r: Run, amount: int, caster: Side, now: int): (r': Run)
    ensures SamePiles(r, r') && SameTurn(r, r')
    ensures Fighter(r', caster) == Fighter(r, caster)
    ensures Fighter(r', Opponent(caster)) == Damage(Fighter(r, Opponent(caster)), amount)
    ensures Fighter(r', Opponent(caster)).health == 0 ==> EndedBy(r', Opponent(caster), now)
    ensures Fighter(r', Opponent(caster)).health != 0 ==> Unended(r, r')
    ensures r'.stats.damageDealt == r.stats.damageDealt + (if caster == PlayerSide then amount else 0)
    ensures r'.stats.damageTaken == r.stats.damageTaken + (if caster == EnemySide then amount else 0)
  {
    var r1 := DealDamage(r, Opponent(caster), amount, now);
    if caster == PlayerSide then r1.(stats := r1.stats.(damageDealt := r1.stats.damageDealt + amount))
    else r1.(stats := r1.stats.(damageTaken := r1.stats.damageTaken + amount))
  }

  /** The status a poison, burn or stun effect puts on the target. */
  function StatusOf(e: Effect): StatusEffect
    requires e.kind == "poison" || e.kind == "burn" || e.kind == "stun"
    requires e.duration.Some?
  {
    if e.kind == "stun" then StatusEffect(Stun, None, e.duration.value, None)
    else StatusEffect(if e.kind == "poison" then Poison else Burn, e.amount, e.duration.value, None)
  }

  /** Whether an effect descriptor does anything: a known kind with the truthy fields it needs. */
  predicate Acts(e: Effect)
  {
    ((e.kind == "damage" || e.kind == "heal" || e.kind == "armor" || e.kind == "energy") && Truthy(e.amount)) ||
    ((e.kind == "poison" || e.kind == "burn") && Truthy(e.amount) && Truthy(e.duration)) ||
    (e.kind == "stun" && Truthy(e.duration))
  }

  /** One effect descriptor of a card cast by `caster` (one case of `applyCardEffects`). */
  function ApplyEffect(r: Run, e: Effect, caster: Side, now: int): (r': Run)
    ensures SamePiles(r, r') && SameTurn(r, r')
    ensures Unended(r, r') || EndedBy(r', Opponent(caster), now)
    ensures Fighter(r, Opponent(caster)).health != 0 && Fighter(r', Opponent(caster)).health == 0 ==>
              EndedBy(r', Opponent(caster), now)
    ensures r'.stats.damageDealt == r.stats.damageDealt + (if caster == PlayerSide then RawDamage(e) else 0)
    ensures r'.stats.damageTaken == r.stats.damageTaken + (if caster == EnemySide then RawDamage(e) else 0)
    ensures e.kind == "damage" && Truthy(e.amount) ==>
              Fighter(r', Opponent(caster)) == Damage(Fighter(r, Opponent(caster)), e.amount.value) &&
              Fighter(r', caster) == Fighter(r, caster)
    ensures !Acts(e) ==> r' == r
  {
    var target := Opponent(caster);
    var source := Fighter(r, caster);
    if e.kind == "damage" then
      if Truthy(e.amount) then CastDamage(r, e.amount.value, caster, now) else r
    else if e.kind == "heal" then
      if Truthy(e.amount) then WithFighter(r, caster, Heal(source, e.amount.value)) else r
    else if e.kind == "armor" then
      if Truthy(e.amount) then WithFighter(r, caster, source.(armor := source.armor + e.amount.value)) else r
    else if e.kind == "energy" then
      if Truthy(e.amount) then WithFighter(r, caster, GainEnergy(source, e.amount.value)) else r
    else if e.kind == "poison" || e.kind == "burn" then
      if Truthy(e.amount) && Truthy(e.duration) then AddStatusTo(r, target, StatusOf(e)) else r
    else if e.kind == "stun" then
      if Truthy(e.duration) then AddStatusTo(r, target, StatusOf(e)) else r
    else r
  }

  /** What each kind of effect descriptor does to the caster or to its opponent. */
  lemma ApplyEffectByKind(r: Run, e: Effect, caster: Side, now: int)
    ensures e.kind == "heal" && Truthy(e.amount) ==>
              ApplyEffect(r, e, caster, now) == WithFighter(r, caster, Heal(Fighter(r, caster), e.amount.value))
    ensures e.kind == "armor" && Truthy(e.amount) ==>
              ApplyEffect(r, e, caster, now) ==
              WithFighter(r, caster, Fighter(r, caster).(armor := Fighter(r, caster).armor + e.amount.value))
    ensures e.kind == "energy" && Truthy(e.amount) ==>
              ApplyEffect(r, e, caster, now) == WithFighter(r, caster, GainEnergy(Fighter(r, caster), e.amount.value))
    ensures (e.kind == "poison" || e.kind == "burn" || e.kind == "stun") && Acts(e) ==>
              ApplyEffect(r, e, caster, now) == AddStatusTo(r, Opponent(caster), StatusOf(e))
  {
    if e.kind == "heal" || e.kind == "armor" || e.kind == "energy" {
      assert e.kind != "damage";
    } else if e.kind == "poison" || e.kind == "burn" || e.kind == "stun" {
      assert e.kind != "damage" && e.kind != "heal" && e.kind != "armor" && e.kind != "energy";
    }
  }

  /**
   * `applyCardEffects`: the effects in list order, each seeing the state the
   * previous ones left; a death part-way does not stop the remaining effects,
   * and once the target is dead the run stays ended at `now`.
   */
  function ApplyEffects(r: Run, effects: seq<Effect>, caster: Side, now: int): (r': Run)
    decreases |effects|
    ensures SamePiles(r, r') && SameTurn(r, r')
    ensures Unended(r, r') || EndedBy(r', Opponent(caster), now)
    ensures Fighter(r, Opponent(caster)).health != 0 && Fighter(r', Opponent(caster)).health == 0 ==>
              EndedBy(r', Opponent(caster), now)
    ensures r'.stats.damageDealt == r.stats.damageDealt + (if caster == PlayerSide then RawDamageTotal(effects) else 0)
    ensures r'.stats.damageTaken == r.stats.damageTaken + (if caster == EnemySide then RawDamageTotal(effects) else 0)
  {
    if effects == [] then r
    else ApplyEffect(ApplyEffects(r, effects[..|effects| - 1], caster, now), effects[|effects| - 1], caster, now)
  }

  // ---------------------------------------------------------------- status ticks

  /** The numeric part of one status at its owner's turn end: poison and burn hit, regeneration heals. */
  function TickAction(r: Run, side: Side, e: StatusEffect, now: int): (r': Run)
    ensures SamePiles(r, r') && SameTurn(r, r')
    ensures Fighter(r', side).statusEffects == Fighter(r, side).statusEffects
    ensures Fighter(r', Opponent(side)) == Fighter(r, Opponent(side))
    ensures Unended(r, r') || EndedBy(r', side, now)
    ensures InBounds(Fighter(r, side)) && (e.amount.Some? ==> e.amount.value >= 0) ==> InBounds(Fighter(r', side))
    ensures (Fighter(r, side).health != 0 && Fighter(r', side).health == 0 &&
             InBounds(Fighter(r, side)) && (e.amount.Some? ==> e.amount.value >= 0)) ==> EndedBy(r', side, now)
    ensures r'.stats.damageDealt == r.stats.damageDealt && r'.stats.damageTaken == r.stats.damageTaken
  {
    match e.kind
    case Poison | Burn =>
      if Truthy(e.amount) then DealDamage(r, side, e.amount.value, now) else r
    case Regeneration =>
      if Truthy(e.amount) then WithFighter(r, side, Heal(Fighter(r, side), e.amount.value)) else r
    case _ => r
  }

  /** What each kind of status does when it acts. */
  lemma TickActionByKind(r: Run, side: Side, e: StatusEffect, now: int)
    ensures (e.kind == Poison || e.kind == Burn) && Truthy(e.amount) ==>
              TickAction(r, side, e, now) == DealDamage(r, side, e.amount.value, now)
    ensures e.kind == Regeneration && Truthy(e.amount) ==>
              TickAction(r, side, e, now) == WithFighter(r, side, Heal(Fighter(r, side), e.amount.value))
    ensures !((e.kind == Poison || e.kind == Burn || e.kind == Regeneration) && Truthy(e.amount)) ==>
              TickAction(r, side, e, now) == r
  {
  }

  function TickActions(r: Run, side: Side, effects: seq<StatusEffect>, now: int): (r': Run)
    decreases |effects|
    ensures SamePiles(r, r') && SameTurn(r, r')
    ensures Fighter(r', side).statusEffects == Fighter(r, side).statusEffects
    ensures Fighter(r', Opponent(side)) == Fighter(r, Opponent(side))
    ensures Unended(r, r') || EndedBy(r', side, now)
    ensures InBounds(Fighter(r, side)) && NonNegativeAmounts(effects) ==> InBounds(Fighter(r', side))
    ensures (Fighter(r, side).health != 0 && Fighter(r', side).health == 0 &&
             InBounds(Fighter(r, side)) && NonNegativeAmounts(effects)) ==> EndedBy(r', side, now)
    ensures r'.stats.damageDealt == r.stats.damageDealt && r'.stats.damageTaken == r.stats.damageTaken
  {
    if effects == [] then r
    else TickAction(TickActions(r, side, effects[..|effects| - 1], now), side, effects[|effects| - 1], now)
  }

  /**
   * `processStatusEffects`: every status acts once in stored order, then its
   * duration drops by one and the expired ones are removed.
   */
  function ProcessStatusEffects(r: Run, side: Side, now: int): (r': Run)
    ensures Fighter(r', side).statusEffects == Tick(Fighter(r, side).statusEffects)
    ensures Fighter(r', Opponent(side)) == Fighter(r, Opponent(side))
    ensures SamePiles(r, r') && SameTurn(r, r')
    ensures Unended(r, r') || EndedBy(r', side, now)
    ensures Fighter(r, side).health != 0 && Fighter(r', side).health == 0 && WellFormed(Fighter(r, side)) ==>
              EndedBy(r', side, now)
    ensures r'.stats.damageDealt == r.stats.damageDealt && r'.stats.damageTaken == r.stats.damageTaken
  {
    var r1 := TickActions(r, side, Fighter(r, side).statusEffects, now);
    WithStatuses(r1, side, Tick(Fighter(r, side).statusEffects))
  }

  // ---------------------------------------------------------------- actions

  /** The card leaves the hand at `i` for the discard pile and its cost is paid. */
  function PayAndDiscard(r: Run, side: Side, i: nat, card: Card): (r': Run)
    requires i < |Hand(r, side)|
    ensures Fighter(r', side) == Fighter(r, side).(energy := Fighter(r, side).energy - card.cost)
    ensures Fighter(r', Opponent(side)) == Fighter(r, Opponent(side))
    ensures Hand(r', side) == RemoveAt(Hand(r, side), i) && Discard(r', side) == Discard(r, side) + [card]
    ensures Deck(r', side) == Deck(r, side)
    ensures Deck(r', Opponent(side)) == Deck(r, Opponent(side)) && Hand(r', Opponent(side)) == Hand(r, Opponent(side)) &&
            Discard(r', Opponent(side)) == Discard(r, Opponent(side))
    ensures r'.game == r.game && r'.stats == r.stats && r'.character == r.character && r'.encounter == r.encounter
  {
    var c := Fighter(r, side);
    var r1 := WithFighter(r, side, c.(energy := c.energy - card.cost));
    if side == PlayerSide then r1.(playerHand := RemoveAt(r.playerHand, i), playerDiscard := r.playerDiscard + [card])
    else r1.(enemyHand := RemoveAt(r.enemyHand, i), enemyDiscard := r.enemyDiscard + [card])
  }

  /** Whether `playCard` accepts the card: the player's turn, enough energy, the id in hand. */
  predicate CanPlay(r: Run, card: Card)
  {
    r.game.playerTurn && r.player.energy >= card.cost &&
    exists i :: 0 <= i < |r.playerHand| && r.playerHand[i].id == card.id
  }

  /**
   * `playCard`: refused (and nothing changes) when it is not the player's turn,
   * the player cannot pay, or no hand card has the card's id. The phase is not
   * consulted. Otherwise the first hand card with that id leaves the hand, the
   * card goes to the discard pile, its cost is paid, its effects resolve, and
   * `cardsPlayed` goes up by one.
   */
  function PlayCard(r: Run, card: Card, now: int): (res: (Run, bool))
    ensures res.1 <==> CanPlay(r, card)
    ensures !res.1 ==> res.0 == r
    ensures res.1 ==> IndexOfId(r.playerHand, card.id).Some? &&
                      res.0.playerHand == RemoveAt(r.playerHand, IndexOfId(r.playerHand, card.id).value)
    ensures res.1 ==> res.0.playerDiscard == r.playerDiscard + [card] && res.0.playerDeck == r.playerDeck
    ensures res.0.enemyDeck == r.enemyDeck && res.0.enemyHand == r.enemyHand && res.0.enemyDiscard == r.enemyDiscard
    ensures res.1 ==> res.0.stats.cardsPlayed == r.stats.cardsPlayed + 1 && res.0.game.playerTurn
    ensures res.1 ==> res.0.stats.damageDealt == r.stats.damageDealt + RawDamageTotal(card.effects)
    ensures res.1 && r.enemy.health != 0 && res.0.enemy.health == 0 ==> EndedBy(res.0, EnemySide, now)
  {
    if !r.game.playerTurn || r.player.energy < card.cost then (r, false)
    else
      match IndexOfId(r.playerHand, card.id)
      case None => (r, false)
      case Some(i) =>
        var r1 := PayAndDiscard(r, PlayerSide, i, card);
        var r2 := ApplyEffects(r1, card.effects, PlayerSide, now);
        (r2.(stats := r2.stats.(cardsPlayed := r2.stats.cardsPlayed + 1)), true)
  }

  /** `playerStatus.canPlayCards`. */
  predicate CanPlayCards(r: Run)
  {
    r.game.playerTurn && r.player.energy > 0
  }

  /** The enemy's greedy choice: the first card in hand order it can pay for. */
  function FirstAffordable(hand: seq<Card>, energy: int): (r: Option<nat>)
    ensures r.None? <==> forall i :: 0 <= i < |hand| ==> hand[i].cost > energy
    ensures r.Some? ==> r.value < |hand| && hand[r.value].cost <= energy
    ensures r.Some? ==> forall j :: 0 <= j < r.value ==> hand[j].cost > energy
  {
    FindIndex(hand, (c: Card) => energy >= c.cost)
  }

  /**
   * `playEnemyTurn`: only on the enemy's turn in battle; plays the first
   * affordable card, or nothing. The result says whether the follow-up `endTurn`
   * is scheduled.
   */
  function PlayEnemyTurn(r: Run, now: int): (res: (Run, bool))
    ensures res.1 <==> r.game.phase == Battle && !r.game.playerTurn
    ensures !res.1 ==> res.0 == r
    ensures res.1 && FirstAffordable(r.enemyHand, r.enemy.energy).None? ==> res.0 == r
    ensures res.1 && FirstAffordable(r.enemyHand, r.enemy.energy).Some? ==>
              res.0.enemyDiscard == r.enemyDiscard + [r.enemyHand[FirstAffordable(r.enemyHand, r.enemy.energy).value]] &&
              |res.0.enemyHand| == |r.enemyHand| - 1
    ensures res.1 && FirstAffordable(r.enemyHand, r.enemy.energy).Some? ==>
              var card := r.enemyHand[FirstAffordable(r.enemyHand, r.enemy.energy).value];
              IndexOfId(r.enemyHand, card.id).Some? &&
              res.0.enemyHand == RemoveAt(r.enemyHand, IndexOfId(r.enemyHand, card.id).value)
    ensures res.0.enemyDeck == r.enemyDeck
    ensures res.0.playerDeck == r.playerDeck && res.0.playerHand == r.playerHand && res.0.playerDiscard == r.playerDiscard
    ensures SameTurn(r, res.0)
    ensures Unended(r, res.0) || EndedBy(res.0, PlayerSide, now)
  {
    if !(!r.game.playerTurn && r.game.phase == Battle) then (r, false)
    else
      match FirstAffordable(r.enemyHand, r.enemy.energy)
      case None => (r, true)
      case Some(i) =>
        var card := r.enemyHand[i];
        var j := IndexOfId(r.enemyHand, card.id).value;
        (ApplyEffects(PayAndDiscard(r, EnemySide, j, card), card.effects, EnemySide, now), true)
  }

  /** A turn-start effect of the passive ability: only `heal` is acted on. */
  predicate IsTurnStartHeal(e: Effect)
  {
    e.trigger == Some("turn_start") && e.kind == "heal" && Truthy(e.amount)
  }

  /** The sum of the turn-start heal amounts of a list of effects. */
  function HealTotal(effects: seq<Effect>): int
    decreases |effects|
  {
    if effects == [] then 0
    else
      var e := effects[|effects| - 1];
      HealTotal(effects[..|effects| - 1]) + (if IsTurnStartHeal(e) then e.amount.value else 0)
  }

  /**
   * The turn-start heals of a list of effects, one after the other: only the
   * player's health moves, and (amounts being non-negative) it ends at the total
   * healed, capped at the maximum.
   */
  function TurnStartHeals(r: Run, effects: seq<Effect>): (r': Run)
    decreases |effects|
    ensures r' == r.(player := r.player.(health := r'.player.health))
    ensures r.player.health <= r.player.maxHealth && WellFormedEffects(effects) ==>
              r.player.health <= r'.player.health <= r.player.maxHealth
    ensures r.player.health <= r.player.maxHealth && WellFormedEffects(effects) ==>
              r'.player.health == Min(r.player.maxHealth, r.player.health + HealTotal(effects))
  {
    if effects == [] then r
    else
      var r1 := TurnStartHeals(r, effects[..|effects| - 1]);
      var e := effects[|effects| - 1];
      assert WellFormedEffects(effects) ==> WellFormedEffects(effects[..|effects| - 1]);
      if IsTurnStartHeal(e) then r1.(player := Heal(r1.player, e.amount.value)) else r1
  }

  /** The ability the player's passive turn-start effects come from, if any. */
  predicate HasPassive(r: Run)
  {
    r.character.Some? && r.character.value.specialAbility.Some? &&
    r.character.value.specialAbility.value.abilityType == Passive
  }

  /** The passive ability of the selected character, applied at the start of a player turn. */
  function PassiveTurnStart(r: Run): (r': Run)
    ensures r' == r.(player := r.player.(health := r'.player.health))
    ensures !HasPassive(r) ==> r' == r
    ensures HasPassive(r) && r.player.health <= r.player.maxHealth &&
            WellFormedEffects(r.character.value.specialAbility.value.effects) ==>
              r'.player.health ==
              Min(r.player.maxHealth, r.player.health + HealTotal(r.character.value.specialAbility.value.effects))
  {
    if HasPassive(r) then TurnStartHeals(r, r.character.value.specialAbility.value.effects) else r
  }

  /** The side whose turn it is. */
  function Mover(r: Run): Side
  {
    if r.game.playerTurn then PlayerSide else EnemySide
  }

  /** The first half of `endTurn`: the mover's statuses tick, the round counter moves after the enemy's turn, the turn passes. */
  function PassTurn(r: Run, now: int): Run
  {
    var ending := Mover(r);
    var r1 := ProcessStatusEffects(r, ending, now);
    var r2 := if ending == EnemySide then r1.(stats := r1.stats.(totalTurns := r1.stats.totalTurns + 1)) else r1;
    r2.(game := r2.game.(playerTurn := !r2.game.playerTurn))
  }

  /** Refill a side's energy to its maximum. */
  function Refill(r: Run, side: Side): Run
  {
    var c := Fighter(r, side);
    WithFighter(r, side, c.(energy := c.maxEnergy))
  }

  /** The second half of `endTurn`: the new mover refills its energy and draws one card. */
  function BeginTurn(r: Run): Run
  {
    Draw(Refill(r, Mover(r)), Mover(r), 1)
  }

  /**
   * `endTurn`: a no-op outside battle (the phase is checked only here, on entry).
   * The ending side's statuses tick, the round counter moves when the enemy's
   * turn ends, the turn passes, and the new side refills its energy and draws
   * one card; the player then gets the passive turn-start heals, while the
   * enemy's reply is scheduled (the result's second component).
   */
  function EndTurn(r: Run, now: int): (res: (Run, bool))
    ensures r.game.phase != Battle ==> res == (r, false)
    ensures r.game.phase == Battle ==> res.0.game.playerTurn == !r.game.playerTurn && res.1 == r.game.playerTurn
    ensures r.game.phase == Battle ==>
              res.0.stats.totalTurns == r.stats.totalTurns + (if r.game.playerTurn then 0 else 1)
    ensures res.0.stats.cardsPlayed == r.stats.cardsPlayed && res.0.game.turn == r.game.turn
    ensures Unended(r, res.0) || EndedBy(res.0, Mover(r), now)
  {
    if r.game.phase != Battle then (r, false)
    else
      var r1 := BeginTurn(PassTurn(r, now));
      if r.game.playerTurn then (r1, true) else (PassiveTurnStart(r1), false)
  }

  // ---------------------------------------------------------------- phases

  /** `startGame`: on to character selection, from any phase. */
  function StartGame(r: Run): (r': Run)
    ensures r'.game.phase == CharacterSelect
    ensures r' == r.(game := r.game.(phase := CharacterSelect))
  {
    r.(game := r.game.(phase := CharacterSelect))
  }

  /**
   * `selectCharacter`: the player's health and energy (current and maximum) come
   * from the character, the deck is built from its starting card ids, and the
   * run moves to encounter selection. Armor, statuses, hand and discard are kept.
   */
  function SelectCharacter(r: Run, ch: Character, catalogCards: seq<Card>): (r': Run)
    ensures r'.game.phase == EncounterSelect && r'.character == Some(ch)
    ensures r'.player.health == r'.player.maxHealth == ch.baseHealth
    ensures r'.player.energy == r'.player.maxEnergy == ch.baseEnergy
    ensures r'.player.armor == r.player.armor && r'.player.statusEffects == r.player.statusEffects
    ensures IdsOf(r'.playerDeck) == Filter(ch.startingDeck, (id: int) => Resolves(catalogCards, id))
    ensures forall i :: 0 <= i < |r'.playerDeck| ==> GetCardById(catalogCards, r'.playerDeck[i].id) == Some(r'.playerDeck[i])
    ensures r'.playerHand == r.playerHand && r'.playerDiscard == r.playerDiscard && r'.enemy == r.enemy
    ensures r'.enemyDeck == r.enemyDeck && r'.enemyHand == r.enemyHand && r'.enemyDiscard == r.enemyDiscard
    ensures r'.encounter == r.encounter && r'.stats == r.stats
    ensures r'.game.turn == r.game.turn && r'.game.playerTurn == r.game.playerTurn
  {
    GetCardsByIdsKeepsResolvedIds(catalogCards, ch.startingDeck);
    r.(character := Some(ch),
       player := r.player.(health := ch.baseHealth, maxHealth := ch.baseHealth,
                           energy := ch.baseEnergy, maxEnergy := ch.baseEnergy),
       playerDeck := GetCardsByIds(catalogCards, ch.startingDeck),
       game := r.game.(phase := EncounterSelect))
  }

  /**
   * `startBattle`: battle phase, turn 1, the player to move, the clock started,
   * five cards drawn for the player and three for the enemy (fewer if a deck is short).
   */
  function StartBattle(r: Run, now: int): (r': Run)
    ensures r'.game == GameState(Battle, 1, true) && r'.stats == r.stats.(startTime := now)
    ensures r'.playerHand + r'.playerDeck == r.playerHand + r.playerDeck
    ensures |r'.playerHand| == |r.playerHand| + Min(PlayerOpeningHand, |r.playerDeck|)
    ensures r'.enemyHand + r'.enemyDeck == r.enemyHand + r.enemyDeck
    ensures |r'.enemyHand| == |r.enemyHand| + Min(EnemyOpeningHand, |r.enemyDeck|)
    ensures r'.player == r.player && r'.enemy == r.enemy
    ensures r'.playerDiscard == r.playerDiscard && r'.enemyDiscard == r.enemyDiscard
    ensures r'.character == r.character && r'.encounter == r.encounter
  {
    var r1 := r.(game := r.game.(phase := Battle, turn := 1, playerTurn := true),
                 stats := r.stats.(startTime := now));
    Draw(Draw(r1, PlayerSide, PlayerOpeningHand), EnemySide, EnemyOpeningHand)
  }

  /** The encounter is chosen and the enemy set up from it, before the battle starts. */
  function ArmEnemy(r: Run, enc: Encounter, catalogCards: seq<Card>): Run
  {
    r.(encounter := Some(enc),
       enemy := r.enemy.(health := enc.enemyHealth, maxHealth := enc.enemyHealth,
                         energy := EnemyBaseEnergy, maxEnergy := EnemyBaseEnergy),
       enemyDeck := GetCardsByIds(catalogCards, enc.enemyDeck))
  }

  /**
   * `selectEncounter`: the enemy's health comes from the encounter and its energy
   * is the base 2, its deck is built from the encounter's card ids, and the
   * battle starts at once.
   */
  function SelectEncounter(r: Run, enc: Encounter, catalogCards: seq<Card>, now: int): (r': Run)
    ensures r'.encounter == Some(enc) && r'.game == GameState(Battle, 1, true)
    ensures r'.enemy.health == r'.enemy.maxHealth == enc.enemyHealth
    ensures r'.enemy.energy == r'.enemy.maxEnergy == EnemyBaseEnergy
    ensures r'.enemy == r.enemy.(health := enc.enemyHealth, maxHealth := enc.enemyHealth,
                                 energy := EnemyBaseEnergy, maxEnergy := EnemyBaseEnergy)
    ensures r'.enemyHand + r'.enemyDeck == r.enemyHand + GetCardsByIds(catalogCards, enc.enemyDeck)
    ensures |r'.enemyHand| == |r.enemyHand| + Min(EnemyOpeningHand, |GetCardsByIds(catalogCards, enc.enemyDeck)|)
    ensures r'.playerHand + r'.playerDeck == r.playerHand + r.playerDeck
    ensures |r'.playerHand| == |r.playerHand| + Min(PlayerOpeningHand, |r.playerDeck|)
    ensures r'.stats == r.stats.(startTime := now)
    ensures r'.player == r.player && r'.character == r.character
    ensures r'.playerDiscard == r.playerDiscard && r'.enemyDiscard == r.enemyDiscard
  {
    StartBattle(ArmEnemy(r, enc, catalogCards), now)
  }

  // ---------------------------------------------------------------- score

  /** `gameDuration`: whole seconds from the start to the end time, or to `now` while no (truthy) end time is set. */
  function GameDuration(stats: GameStats, now: int): (seconds: int)
    ensures var end := if Truthy(stats.endTime) then stats.endTime.value else now;
            seconds * 1000 <= end - stats.startTime < seconds * 1000 + 1000
  {
    var end := if Truthy(stats.endTime) then stats.endTime.value else now;
    (end - stats.startTime) / 1000
  }

  /** `rewards.score_base || 100`. */
  function ScoreBase(enc: Option<Encounter>): (base: int)
    ensures enc.Some? && enc.value.rewards.Some? && enc.value.rewards.value.scoreBase != 0 ==>
              base == enc.value.rewards.value.scoreBase
    ensures enc.None? || enc.value.rewards.None? || enc.value.rewards.value.scoreBase == 0 ==> base == DefaultScoreBase
  {
    if enc.Some? && enc.value.rewards.Some? && enc.value.rewards.value.scoreBase != 0
    then enc.value.rewards.value.scoreBase else DefaultScoreBase
  }

  /** `rewards.score_multiplier || 1`. */
  function ScoreMultiplier(enc: Option<Encounter>): (m: real)
    ensures enc.Some? && enc.value.rewards.Some? && enc.value.rewards.value.scoreMultiplier != 0.0 ==>
              m == enc.value.rewards.value.scoreMultiplier
    ensures enc.None? || enc.value.rewards.None? || enc.value.rewards.value.scoreMultiplier == 0.0 ==>
              m == DefaultScoreMultiplier
  {
    if enc.Some? && enc.value.rewards.Some? && enc.value.rewards.value.scoreMultiplier != 0.0
    then enc.value.rewards.value.scoreMultiplier else DefaultScoreMultiplier
  }

  /** The score before rounding: base, twice the remaining health, and a bonus for finishing within 300 seconds. */
  function RawScore(r: Run, now: int): real
  {
    (ScoreBase(r.encounter) + r.player.health * 2 + Max(0, SpeedBonusSeconds - GameDuration(r.stats, now))) as real
      * ScoreMultiplier(r.encounter)
  }

  /** `finalScore`: 0 unless the run is won, otherwise the raw score rounded down. */
  function FinalScore(r: Run, now: int): (score: int)
    ensures r.game.phase != Victory ==> score == 0
    ensures r.game.phase == Victory ==> score as real <= RawScore(r, now) < score as real + 1.0
  {
    if r.game.phase != Victory then 0 else RawScore(r, now).Floor
  }
}
