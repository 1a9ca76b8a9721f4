/**
 * The run store as the program has it: refs that the actions update in place.
 * Each action is a method proved to leave the store in exactly the state the
 * matching RunModel function computes from the state before, so everything
 * proved about RunModel holds of the store.
 */
module RunStore {
  import opened Wrappers
  import opened Seqs
  import opened Catalog
  import opened Combat
  import opened RunModel

  /**
   * `drawCards`: `shift` from the deck and `push` onto the hand until `count`
   * cards have moved or the deck is empty; the results are the new deck and hand.
   */
  method DrawCards(deck: seq<Card>, hand: seq<Card>, count: nat) returns (deck': seq<Card>, hand': seq<Card>)
    ensures (deck', hand') == Drawn(deck, hand, count)
  {
    deck', hand' := deck, hand;
    var i := 0;
    while i < count && |deck'| > 0
      invariant 0 <= i <= count && i <= |deck|
      invariant deck' == deck[i..] && hand' == hand + deck[..i]
    {
      var card := deck'[0];
      deck' := deck'[1..];
      hand' := hand' + [card];
      assert deck[..i + 1] == deck[..i] + [deck[i]];
      i := i + 1;
    }
  }

  // ---------------------------------------------------------------- the expiry list

  /**
   * `toRemove` lists, in increasing order, exactly the indices below `n` whose
   * (already decremented) duration has run out.
   */
  predicate ExpiredBelow(dec: seq<StatusEffect>, n: int, toRemove: seq<int>)
  {
    0 <= n <= |dec| &&
    (forall a, b :: 0 <= a < b < |toRemove| ==> toRemove[a] < toRemove[b]) &&
    (forall a :: 0 <= a < |toRemove| ==> 0 <= toRemove[a] < n && dec[toRemove[a]].duration <= 0) &&
    (forall j :: 0 <= j < n && j !in toRemove ==> dec[j].duration > 0)
  }

  /** Everything below this position is still untouched by the splicing. */
  function Bound(toRemove: seq<int>, k: nat): int
    requires k <= |toRemove|
  {
    if k == 0 then 0 else toRemove[k - 1] + 1
  }

  /**
   * The list once the listed indices from position `k` on have been spliced out,
   * highest first: the untouched front, then only the survivors.
   */
  predicate SplicedDownTo(dec: seq<StatusEffect>, toRemove: seq<int>, k: nat, list: seq<StatusEffect>)
    requires k <= |toRemove|
  {
    0 <= Bound(toRemove, k) <= |dec| &&
    list == dec[..Bound(toRemove, k)] + Survivors(dec[Bound(toRemove, k)..])
  }

  /** Before any splice, the whole list is the untouched front followed by survivors only. */
  lemma SpliceStart(dec: seq<StatusEffect>, toRemove: seq<int>)
    requires ExpiredBelow(dec, |dec|, toRemove)
    ensures SplicedDownTo(dec, toRemove, |toRemove|, dec)
  {
    var b := Bound(toRemove, |toRemove|);
    AliveAfterLast(dec, toRemove);
    SurvivorsOfActive(dec[b..]);
    assert dec[..b] + dec[b..] == dec;
  }

  /** Nothing after the last listed index has expired. */
  lemma AliveAfterLast(dec: seq<StatusEffect>, toRemove: seq<int>)
    requires ExpiredBelow(dec, |dec|, toRemove)
    ensures 0 <= Bound(toRemove, |toRemove|) <= |dec|
    ensures forall j :: 0 <= j < |dec[Bound(toRemove, |toRemove|)..]| ==> dec[Bound(toRemove, |toRemove|)..][j].duration > 0
  {
    var b := Bound(toRemove, |toRemove|);
    forall j | b <= j < |dec| ensures dec[j].duration > 0 {
      forall m | 0 <= m < |toRemove| ensures toRemove[m] != j {
        if m < |toRemove| - 1 {
          assert toRemove[m] < toRemove[|toRemove| - 1];
        }
      }
    }
  }

  /** Splicing out the next lower listed index keeps the shape. */
  lemma SpliceStep(dec: seq<StatusEffect>, toRemove: seq<int>, k: nat, list: seq<StatusEffect>)
    requires ExpiredBelow(dec, |dec|, toRemove) && 0 < k <= |toRemove|
    requires SplicedDownTo(dec, toRemove, k, list)
    ensures 0 <= toRemove[k - 1] < |list|
    ensures SplicedDownTo(dec, toRemove, k - 1, RemoveAt(list, toRemove[k - 1]))
  {
    var idx := toRemove[k - 1];
    var b := Bound(toRemove, k - 1);
    if k > 1 {
      assert toRemove[k - 2] < toRemove[k - 1];
    }
    forall j | b <= j < idx ensures dec[j].duration > 0 {
      forall m | 0 <= m < |toRemove| ensures toRemove[m] != j {
        if m < k - 2 {
          assert toRemove[m] < toRemove[k - 2];
        } else if m > k - 1 {
          assert toRemove[k - 1] < toRemove[m];
        }
      }
    }
    SpliceOne(dec, b, idx);
  }

  /**
   * With everything in [b, idx) alive and the effect at `idx` expired, splicing
   * `idx` out of the front-plus-survivors list moves the front back to `b`.
   */
  lemma SpliceOne(dec: seq<StatusEffect>, b: int, idx: int)
    requires 0 <= b <= idx < |dec|
    requires forall j :: b <= j < idx ==> dec[j].duration > 0
    requires dec[idx].duration <= 0
    ensures RemoveAt(dec[..idx + 1] + Survivors(dec[idx + 1..]), idx) == dec[..b] + Survivors(dec[b..])
  {
    var tail := Survivors(dec[idx + 1..]);
    RemoveAtEndOfPrefix(dec, idx, tail);
    SurvivorsAcross(dec, b, idx);
    JoinAtSplit(dec, b, idx, tail);
  }

  /** With [b, idx) alive and `idx` expired, the survivors from `b` on are [b, idx) and the survivors after `idx`. */
  lemma SurvivorsAcross(dec: seq<StatusEffect>, b: int, idx: int)
    requires 0 <= b <= idx < |dec|
    requires forall j :: b <= j < idx ==> dec[j].duration > 0
    requires dec[idx].duration <= 0
    ensures Survivors(dec[b..]) == dec[b..idx] + Survivors(dec[idx + 1..])
  {
    SplitAround(dec, b, idx);
    SurvivorsSkipExpired(dec[b..idx], dec[idx], dec[idx + 1..]);
  }

  /** The list after splicing out the listed indices from position `k` on, highest first. */
  function SplicedFrom(dec: seq<StatusEffect>, toRemove: seq<int>, k: nat): seq<StatusEffect>
    requires k <= |toRemove|
    decreases |toRemove| - k
  {
    if k == |toRemove| then dec
    else
      var list := SplicedFrom(dec, toRemove, k + 1);
      if 0 <= toRemove[k] < |list| then RemoveAt(list, toRemove[k]) else list
  }

  lemma {:induction false} SplicedFromShape(dec: seq<StatusEffect>, toRemove: seq<int>, k: nat)
    requires ExpiredBelow(dec, |dec|, toRemove) && k <= |toRemove|
    ensures SplicedDownTo(dec, toRemove, k, SplicedFrom(dec, toRemove, k))
    decreases |toRemove| - k
  {
    if k == |toRemove| {
      SpliceStart(dec, toRemove);
    } else {
      SplicedFromShape(dec, toRemove, k + 1);
      SplicedFromShapeStep(dec, toRemove, k);
    }
  }

  lemma SplicedFromShapeStep(dec: seq<StatusEffect>, toRemove: seq<int>, k: nat)
    requires ExpiredBelow(dec, |dec|, toRemove) && k < |toRemove|
    requires SplicedDownTo(dec, toRemove, k + 1, SplicedFrom(dec, toRemove, k + 1))
    ensures SplicedDownTo(dec, toRemove, k, SplicedFrom(dec, toRemove, k))
  {
    var list := SplicedFrom(dec, toRemove, k + 1);
    SpliceStep(dec, toRemove, k + 1, list);
    assert SplicedFrom(dec, toRemove, k) == RemoveAt(list, toRemove[k]);
  }

  /** Each splice removes exactly the next listed index, which is always in range. */
  lemma SplicedFromStep(dec: seq<StatusEffect>, toRemove: seq<int>, k: nat)
    requires ExpiredBelow(dec, |dec|, toRemove) && 0 < k <= |toRemove|
    ensures 0 <= toRemove[k - 1] < |SplicedFrom(dec, toRemove, k)|
    ensures SplicedFrom(dec, toRemove, k - 1) == RemoveAt(SplicedFrom(dec, toRemove, k), toRemove[k - 1])
  {
    SplicedFromShape(dec, toRemove, k);
    SpliceStep(dec, toRemove, k, SplicedFrom(dec, toRemove, k));
  }

  /** With every listed index spliced out, the list is exactly the survivors. */
  lemma SplicedFromAll(dec: seq<StatusEffect>, toRemove: seq<int>)
    requires ExpiredBelow(dec, |dec|, toRemove)
    ensures SplicedFrom(dec, toRemove, 0) == Survivors(dec)
  {
    SplicedFromShape(dec, toRemove, 0);
    assert dec[..0] == [] && dec[0..] == dec;
  }

  /** Scanning one more index keeps the expiry list exact. */
  lemma ExpiredStep(dec: seq<StatusEffect>, index: int, toRemove: seq<int>)
    requires ExpiredBelow(dec, index, toRemove) && index < |dec|
    ensures ExpiredBelow(dec, index + 1, if dec[index].duration <= 0 then toRemove + [index] else toRemove)
  {
    if dec[index].duration <= 0 {
      var grown := toRemove + [index];
      forall a, b | 0 <= a < b < |grown|
        ensures grown[a] < grown[b]
      {
        assert grown[a] == toRemove[a];
      }
      forall a | 0 <= a < |grown|
        ensures 0 <= grown[a] < index + 1 && dec[grown[a]].duration <= 0
      {
      }
      forall j | 0 <= j < index + 1 && j !in grown
        ensures dec[j].duration > 0
      {
        assert j != grown[|toRemove|];
      }
    } else {
      forall a | 0 <= a < |toRemove|
        ensures toRemove[a] < index + 1
      {
      }
    }
  }

  /** The run after the first `index` statuses of `effects` have acted, one at a time. */
  ghost function Acted(start: Run, side: Side, effects: seq<StatusEffect>, index: nat, now: int): Run
    requires index <= |effects|
    decreases index
  {
    if index == 0 then start
    else TickAction(Acted(start, side, effects, index - 1, now), side, effects[index - 1], now)
  }

  /** Acting on a prefix one status at a time is `TickActions` of that prefix. */
  lemma {:induction false} ActedIsTickActions(start: Run, side: Side, effects: seq<StatusEffect>, index: nat, now: int)
    requires index <= |effects|
    ensures Acted(start, side, effects, index, now) == TickActions(start, side, effects[..index], now)
    decreases index
  {
    if index == 0 {
      assert effects[..0] == [];
    } else {
      ActedIsTickActions(start, side, effects, index - 1, now);
      assert effects[..index][..index - 1] == effects[..index - 1];
    }
  }

  /** Before the `forEach` pass nothing has acted and no duration has dropped. */
  lemma ActedNone(start: Run, side: Side, now: int)
    ensures var effects := Fighter(start, side).statusEffects;
            WithStatuses(Acted(start, side, effects, 0, now), side, Decrement(effects)[..0] + effects[0..]) == start
  {
    var effects := Fighter(start, side).statusEffects;
    assert Decrement(effects)[..0] + effects[0..] == effects;
  }

  /** After the `forEach` pass every status has acted and every duration has dropped. */
  lemma ActedAll(start: Run, side: Side, effects: seq<StatusEffect>, now: int)
    ensures WithStatuses(Acted(start, side, effects, |effects|, now), side, Decrement(effects)[..|effects|] + effects[|effects|..])
         == WithStatuses(TickActions(start, side, effects, now), side, Decrement(effects))
  {
    ActedIsTickActions(start, side, effects, |effects|, now);
    assert effects[..|effects|] == effects;
    assert Decrement(effects)[..|effects|] + effects[|effects|..] == Decrement(effects);
  }

  /** The acting half of one step of the `forEach` pass. */
  lemma ActOnce(start: Run, side: Side, effects: seq<StatusEffect>, index: nat, now: int)
    requires index < |effects|
    ensures TickAction(WithStatuses(Acted(start, side, effects, index, now), side, Decrement(effects)[..index] + effects[index..]), side, effects[index], now)
         == WithStatuses(Acted(start, side, effects, index + 1, now), side, Decrement(effects)[..index] + effects[index..])
  {
    TickActionIgnoresStatuses(Acted(start, side, effects, index, now), side, effects[index], now, Decrement(effects)[..index] + effects[index..]);
  }

  /** Writing a side's status list twice keeps only the second write. */
  lemma WithStatusesTwice(r: Run, side: Side, first: seq<StatusEffect>, second: seq<StatusEffect>)
    ensures Fighter(WithStatuses(r, side, first), side).statusEffects == first
    ensures WithStatuses(WithStatuses(r, side, first), side, second) == WithStatuses(r, side, second)
  {
  }

  /** A status tick acts on health and armor only, whatever the status list holds at the time. */
  lemma TickActionIgnoresStatuses(r: Run, side: Side, e: StatusEffect, now: int, effects: seq<StatusEffect>)
    ensures TickAction(WithStatuses(r, side, effects), side, e, now) == WithStatuses(TickAction(r, side, e, now), side, effects)
  {
  }

  // ---------------------------------------------------------------- the store

  class Store {
    var gameState: GameState
    var selectedCharacter: Option<Character>
    var selectedEncounter: Option<Encounter>
    var player: Combatant
    var enemy: Combatant
    var playerDeck: seq<Card>
    var playerHand: seq<Card>
    var playerDiscard: seq<Card>
    var enemyDeck: seq<Card>
    var enemyHand: seq<Card>
    var enemyDiscard: seq<Card>
    var gameStats: GameStats
    const catalog: CatalogStore

    /** The store's refs as one value. */
    function State(): Run
      reads this
    {
      Run(gameState, selectedCharacter, selectedEncounter, player, enemy,
          playerDeck, playerHand, playerDiscard, enemyDeck, enemyHand, enemyDiscard, gameStats)
    }

    /** The refs' initial values; `now` stands for the `Date.now()` of the start time. */
    constructor(catalog: CatalogStore, now: int)
      ensures State() == Initial(now) && this.catalog == catalog
    {
      var r := Initial(now);
      gameState, selectedCharacter, selectedEncounter := r.game, r.character, r.encounter;
      player, enemy := r.player, r.enemy;
      playerDeck, playerHand, playerDiscard := r.playerDeck, r.playerHand, r.playerDiscard;
      enemyDeck, enemyHand, enemyDiscard := r.enemyDeck, r.enemyHand, r.enemyDiscard;
      gameStats := r.stats;
      this.catalog := catalog;
    }

    function FighterOf(side: Side): Combatant
      reads this
    {
      if side == PlayerSide then player else enemy
    }

    method SetFighter(side: Side, c: Combatant)
      modifies this
      ensures State() == WithFighter(old(State()), side, c)
    {
      if side == PlayerSide {
        player := c;
      } else {
        enemy := c;
      }
    }

    method StartGame()
      modifies this
      ensures State() == RunModel.StartGame(old(State()))
    {
      gameState := gameState.(phase := CharacterSelect);
    }

    method SelectCharacter(character: Character)
      modifies this
      ensures State() == RunModel.SelectCharacter(old(State()), character, catalog.cards)
    {
      ghost var r0 := State();
      selectedCharacter := Some(character);
      player := player.(health := character.baseHealth, maxHealth := character.baseHealth);
      player := player.(energy := character.baseEnergy, maxEnergy := character.baseEnergy);
      playerDeck := GetCardsByIds(catalog.cards, character.startingDeck);
      gameState := gameState.(phase := EncounterSelect);
      assert State() == r0.(character := Some(character),
                            player := r0.player.(health := character.baseHealth, maxHealth := character.baseHealth,
                                                 energy := character.baseEnergy, maxEnergy := character.baseEnergy),
                            playerDeck := GetCardsByIds(catalog.cards, character.startingDeck),
                            game := r0.game.(phase := EncounterSelect));
    }

    method SelectEncounter(encounter: Encounter, now: int)
      modifies this
      ensures State() == RunModel.SelectEncounter(old(State()), encounter, catalog.cards, now)
    {
      ghost var r0 := State();
      selectedEncounter := Some(encounter);
      enemy := enemy.(health := encounter.enemyHealth, maxHealth := encounter.enemyHealth);
      enemy := enemy.(energy := EnemyBaseEnergy, maxEnergy := EnemyBaseEnergy);
      enemyDeck := GetCardsByIds(catalog.cards, encounter.enemyDeck);
      assert State() == ArmEnemy(r0, encounter, catalog.cards);
      StartBattle(now);
    }

    method StartBattle(now: int)
      modifies this
      ensures State() == RunModel.StartBattle(old(State()), now)
    {
      ghost var r0 := State();
      gameState := gameState.(phase := Battle, turn := 1, playerTurn := true);
      gameStats := gameStats.(startTime := now);
      ghost var r1 := State();
      assert r1 == r0.(game := r0.game.(phase := Battle, turn := 1, playerTurn := true), stats := r0.stats.(startTime := now));
      DrawFor(PlayerSide, PlayerOpeningHand);
      assert State() == Draw(r1, PlayerSide, PlayerOpeningHand);
      DrawFor(EnemySide, EnemyOpeningHand);
    }

    method DrawFor(side: Side, count: nat)
      modifies this
      ensures State() == Draw(old(State()), side, count)
    {
      if side == PlayerSide {
        playerDeck, playerHand := DrawCards(playerDeck, playerHand, count);
      } else {
        enemyDeck, enemyHand := DrawCards(enemyDeck, enemyHand, count);
      }
    }

    method PlayCard(card: Card, now: int) returns (played: bool)
      modifies this
      ensures (State(), played) == RunModel.PlayCard(old(State()), card, now)
    {
      if !gameState.playerTurn || player.energy < card.cost {
        return false;
      }
      var cardIndex := IndexOfId(playerHand, card.id);
      if cardIndex.None? {
        return false;
      }
      PayAndApply(PlayerSide, cardIndex.value, card, now);
      gameStats := gameStats.(cardsPlayed := gameStats.cardsPlayed + 1);
      return true;
    }

    /**
     * The shared middle of `playCard` and `playEnemyTurn`: the card leaves the
     * hand at `cardIndex`, is pushed onto the discard pile, its cost is paid, and
     * its effects are applied.
     */
    method PayAndApply(side: Side, cardIndex: nat, card: Card, now: int)
      requires cardIndex < |Hand(State(), side)|
      modifies this
      ensures State() == ApplyEffects(PayAndDiscard(old(State()), side, cardIndex, card), card.effects, side, now)
    {
      if side == PlayerSide {
        playerHand := RemoveAt(playerHand, cardIndex);
        playerDiscard := playerDiscard + [card];
        player := player.(energy := player.energy - card.cost);
      } else {
        enemyHand := RemoveAt(enemyHand, cardIndex);
        enemyDiscard := enemyDiscard + [card];
        enemy := enemy.(energy := enemy.energy - card.cost);
      }
      assert State() == PayAndDiscard(old(State()), side, cardIndex, card);
      ApplyCardEffects(card, side, now);
    }

    method ApplyCardEffects(card: Card, caster: Side, now: int)
      modifies this
      ensures State() == ApplyEffects(old(State()), card.effects, caster, now)
    {
      for i := 0 to |card.effects|
        invariant State() == ApplyEffects(old(State()), card.effects[..i], caster, now)
      {
        ApplyCardEffect(card.effects[i], caster, now);
        PrefixGrow(card.effects, i);
      }
      assert card.effects[..|card.effects|] == card.effects;
    }

    /** One `case` of the effect `switch`. */
    method ApplyCardEffect(effect: Effect, caster: Side, now: int)
      modifies this
      ensures State() == ApplyEffect(old(State()), effect, caster, now)
    {
      var target := Opponent(caster);
      var source := FighterOf(caster);
      if effect.kind == "damage" {
        if Truthy(effect.amount) {
          DealDamage(target, effect.amount.value, now);
          if caster == PlayerSide {
            gameStats := gameStats.(damageDealt := gameStats.damageDealt + effect.amount.value);
          } else {
            gameStats := gameStats.(damageTaken := gameStats.damageTaken + effect.amount.value);
          }
        }
      } else if effect.kind == "heal" {
        if Truthy(effect.amount) {
          Heal(caster, effect.amount.value);
        }
      } else if effect.kind == "armor" {
        if Truthy(effect.amount) {
          SetFighter(caster, source.(armor := source.armor + effect.amount.value));
        }
      } else if effect.kind == "energy" {
        if Truthy(effect.amount) {
          SetFighter(caster, source.(energy := Min(source.maxEnergy, source.energy + effect.amount.value)));
        }
      } else if effect.kind == "poison" {
        if Truthy(effect.amount) && Truthy(effect.duration) {
          AddStatusEffect(target, StatusEffect(Poison, Some(effect.amount.value), effect.duration.value, None));
        }
      } else if effect.kind == "burn" {
        if Truthy(effect.amount) && Truthy(effect.duration) {
          AddStatusEffect(target, StatusEffect(Burn, Some(effect.amount.value), effect.duration.value, None));
        }
      } else if effect.kind == "stun" {
        if Truthy(effect.duration) {
          AddStatusEffect(target, StatusEffect(Stun, None, effect.duration.value, None));
        }
      }
    }

    method DealDamage(side: Side, amount: int, now: int)
      modifies this
      ensures State() == RunModel.DealDamage(old(State()), side, amount, now)
    {
      var target := FighterOf(side);
      var actualDamage := Max(1, amount - target.armor);
      target := target.(armor := Max(0, target.armor - amount));
      target := target.(health := Max(0, target.health - actualDamage));
      SetFighter(side, target);
      if target.health == 0 {
        EndGame(DeathPhase(side), now);
      }
    }

    method Heal(side: Side, amount: int)
      modifies this
      ensures State() == WithFighter(old(State()), side, Combat.Heal(Fighter(old(State()), side), amount))
    {
      var target := FighterOf(side);
      SetFighter(side, target.(health := Min(target.maxHealth, target.health + amount)));
    }

    method AddStatusEffect(side: Side, effect: StatusEffect)
      modifies this
      ensures State() == AddStatusTo(old(State()), side, effect)
    {
      var target := FighterOf(side);
      var kept := RemoveKind(target.statusEffects, effect.kind);
      SetFighter(side, target.(statusEffects := kept + [effect]));
    }

    /** The numeric part of one status: the `switch` inside the `forEach`. */
    method TickStatus(side: Side, effect: StatusEffect, now: int)
      modifies this
      ensures State() == TickAction(old(State()), side, effect, now)
    {
      match effect.kind
      case Poison | Burn =>
        if Truthy(effect.amount) {
          DealDamage(side, effect.amount.value, now);
        }
      case Regeneration =>
        if Truthy(effect.amount) {
          Heal(side, effect.amount.value);
        }
      case _ =>
    }

    /**
     * `processStatusEffects`: one pass that acts, decrements in place and
     * collects the expired indices, then a pass that splices them out from the
     * highest index down.
     */
    method ProcessStatusEffects(side: Side, now: int)
      modifies this
      ensures State() == RunModel.ProcessStatusEffects(old(State()), side, now)
    {
      ghost var effects := FighterOf(side).statusEffects;
      var effectsToRemove := ActAndDecrement(side, now);
      RemoveExpired(side, Decrement(effects), effectsToRemove);
      assert Tick(effects) == Survivors(Decrement(effects));
    }

    /** The `forEach` pass: each status acts, then its duration drops by one in place. */
    method ActAndDecrement(side: Side, now: int) returns (effectsToRemove: seq<int>)
      modifies this
      ensures ExpiredBelow(Decrement(old(FighterOf(side).statusEffects)), |old(FighterOf(side).statusEffects)|, effectsToRemove)
      ensures State() == WithStatuses(TickActions(old(State()), side, old(FighterOf(side).statusEffects), now),
                                      side, Decrement(old(FighterOf(side).statusEffects)))
    {
      ghost var start := State();
      var effects := FighterOf(side).statusEffects;
      ActedNone(start, side, now);
      effectsToRemove := ActOnAll(start, side, effects, now);
      ActedAll(start, side, effects, now);
    }

    /** The loop of the `forEach` pass, from the state `start` whose statuses are `effects`. */
    method ActOnAll(ghost start: Run, side: Side, effects: seq<StatusEffect>, now: int) returns (effectsToRemove: seq<int>)
      requires State() == WithStatuses(Acted(start, side, effects, 0, now), side, Decrement(effects)[..0] + effects[0..])
      modifies this
      ensures ExpiredBelow(Decrement(effects), |effects|, effectsToRemove)
      ensures State() == WithStatuses(Acted(start, side, effects, |effects|, now), side,
                                      Decrement(effects)[..|effects|] + effects[|effects|..])
    {
      ghost var dec := Decrement(effects);
      effectsToRemove := [];
      for index := 0 to |effects|
        invariant State() == WithStatuses(Acted(start, side, effects, index, now), side, dec[..index] + effects[index..])
        invariant ExpiredBelow(dec, index, effectsToRemove)
      {
        effectsToRemove := ActAt(start, side, effects, dec, index, now, effectsToRemove);
      }
    }

    /**
     * One turn of the `forEach`: the status at `index` acts, its duration drops
     * by one in place, and its index is collected when it has expired.
     */
    method ActAt(ghost start: Run, side: Side, effects: seq<StatusEffect>, ghost dec: seq<StatusEffect>, index: nat, now: int,
                 toRemove: seq<int>)
      returns (toRemove': seq<int>)
      requires index < |effects| && dec == Decrement(effects)
      requires State() == WithStatuses(Acted(start, side, effects, index, now), side, dec[..index] + effects[index..])
      requires ExpiredBelow(dec, index, toRemove)
      modifies this
      ensures State() == WithStatuses(Acted(start, side, effects, index + 1, now), side, dec[..index + 1] + effects[index + 1..])
      ensures ExpiredBelow(dec, index + 1, toRemove')
    {
      var effect := effects[index];
      TickStatus(side, effect, now);
      assert State() == WithStatuses(Acted(start, side, effects, index + 1, now), side, dec[..index] + effects[index..]) by {
        ActOnce(start, side, effects, index, now);
      }
      var decremented := effect.(duration := effect.duration - 1);
      ghost var acted := Acted(start, side, effects, index + 1, now);
      ghost var before := dec[..index] + effects[index..];
      ghost var after := dec[..index + 1] + effects[index + 1..];
      ghost var mid := WithStatuses(acted, side, before);
      WithStatusesTwice(acted, side, before, after);
      UpdateAtBoundary(dec, effects, index);
      assert after == before[index := decremented];
      SetStatus(side, index, decremented);
      assert State() == WithStatuses(mid, side, before[index := decremented]);
      assert State() == WithStatuses(acted, side, after);
      ExpiredStep(dec, index, toRemove);
      toRemove' := if decremented.duration <= 0 then toRemove + [index] else toRemove;
    }

    /** `statusEffects[index] = effect` on one fighter. */
    method SetStatus(side: Side, index: int, effect: StatusEffect)
      requires 0 <= index < |Fighter(State(), side).statusEffects|
      modifies this
      ensures State() == WithStatuses(old(State()), side, Fighter(old(State()), side).statusEffects[index := effect])
    {
      var c := FighterOf(side);
      SetFighter(side, c.(statusEffects := c.statusEffects[index := effect]));
    }

    /** The `splice` pass, from the highest listed index down. */
    method RemoveExpired(side: Side, ghost dec: seq<StatusEffect>, effectsToRemove: seq<int>)
      requires Fighter(State(), side).statusEffects == dec
      requires ExpiredBelow(dec, |dec|, effectsToRemove)
      modifies this
      ensures State() == WithStatuses(old(State()), side, Survivors(dec))
    {
      ghost var start := State();
      var k := |effectsToRemove|;
      assert State() == WithStatuses(start, side, SplicedFrom(dec, effectsToRemove, k));
      while k > 0
        invariant 0 <= k <= |effectsToRemove|
        invariant State() == WithStatuses(start, side, SplicedFrom(dec, effectsToRemove, k))
      {
        SplicedFromStep(dec, effectsToRemove, k);
        Splice(side, effectsToRemove[k - 1]);
        k := k - 1;
      }
      SplicedFromAll(dec, effectsToRemove);
    }

    /** `statusEffects.splice(index, 1)` on one fighter. */
    method Splice(side: Side, index: int)
      requires 0 <= index < |Fighter(State(), side).statusEffects|
      modifies this
      ensures State() == WithStatuses(old(State()), side, RemoveAt(Fighter(old(State()), side).statusEffects, index))
    {
      var c := FighterOf(side);
      SetFighter(side, c.(statusEffects := RemoveAt(c.statusEffects, index)));
    }

    /** `endTurn`; the result says whether the enemy's reply is scheduled. */
    method EndTurn(now: int) returns (enemyTurnScheduled: bool)
      modifies this
      ensures (State(), enemyTurnScheduled) == RunModel.EndTurn(old(State()), now)
    {
      enemyTurnScheduled := false;
      if gameState.phase != Battle {
        return;
      }
      ghost var begun := BeginTurn(PassTurn(old(State()), now));
      PassCurrentTurn(now);
      StartNextTurn();
      assert State() == begun;
      if gameState.playerTurn {
        ApplyTurnStartAbility();
      } else {
        enemyTurnScheduled := true;
      }
    }

    /** The first half of `endTurn`: the mover's statuses tick, the round counter moves after the enemy's turn, and the turn passes. */
    method PassCurrentTurn(now: int)
      modifies this
      ensures State() == PassTurn(old(State()), now)
    {
      if gameState.playerTurn {
        ProcessStatusEffects(PlayerSide, now);
      } else {
        ProcessStatusEffects(EnemySide, now);
        gameStats := gameStats.(totalTurns := gameStats.totalTurns + 1);
      }
      gameState := gameState.(playerTurn := !gameState.playerTurn);
    }

    /** The second half: the new mover's energy is refilled and it draws one card. */
    method StartNextTurn()
      modifies this
      ensures State() == BeginTurn(old(State()))
    {
      ghost var passed := State();
      if gameState.playerTurn {
        player := player.(energy := player.maxEnergy);
        assert State() == Refill(passed, PlayerSide);
        DrawFor(PlayerSide, 1);
      } else {
        enemy := enemy.(energy := enemy.maxEnergy);
        assert State() == Refill(passed, EnemySide);
        DrawFor(EnemySide, 1);
      }
    }

    /** The passive ability's `turn_start` heals at the start of the player's turn. */
    method ApplyTurnStartAbility()
      modifies this
      ensures State() == PassiveTurnStart(old(State()))
    {
      if selectedCharacter.Some? && selectedCharacter.value.specialAbility.Some? &&
         selectedCharacter.value.specialAbility.value.abilityType == Passive {
        var ability := selectedCharacter.value.specialAbility.value;
        ghost var begun := State();
        for i := 0 to |ability.effects|
          invariant State() == TurnStartHeals(begun, ability.effects[..i])
        {
          var effect := ability.effects[i];
          if effect.trigger == Some("turn_start") {
            if effect.kind == "heal" && Truthy(effect.amount) {
              Heal(PlayerSide, effect.amount.value);
            }
          }
          PrefixGrow(ability.effects, i);
        }
        assert ability.effects[..|ability.effects|] == ability.effects;
      }
    }

    /** `playEnemyTurn`; the result says whether the closing `endTurn` is scheduled. */
    method PlayEnemyTurn(now: int) returns (endTurnScheduled: bool)
      modifies this
      ensures (State(), endTurnScheduled) == RunModel.PlayEnemyTurn(old(State()), now)
    {
      endTurnScheduled := false;
      if !gameState.playerTurn && gameState.phase == Battle {
        var hand := enemyHand;
        var i := 0;
        while i < |hand|
          invariant 0 <= i <= |hand|
          invariant forall j :: 0 <= j < i ==> hand[j].cost > enemy.energy
          invariant State() == old(State())
        {
          var card := hand[i];
          if enemy.energy >= card.cost {
            assert FirstAffordable(hand, enemy.energy) == Some(i);
            var cardIndex := IndexOfId(enemyHand, card.id).value;
            PayAndApply(EnemySide, cardIndex, card, now);
            break;
          }
          i := i + 1;
        }
        endTurnScheduled := true;
      }
    }

    /** `endGame` without the leaderboard submission. */
    method EndGame(result: Phase, now: int)
      requires result == Victory || result == Defeat
      modifies this
      ensures State() == RunModel.EndGame(old(State()), result, now)
    {
      gameState := gameState.(phase := result);
      gameStats := gameStats.(endTime := Some(now));
    }

    /** `resetGame`: every ref back to its initial value, with a new start time. */
    method ResetGame(now: int)
      modifies this
      ensures State() == Initial(now)
    {
      var r := Initial(now);
      gameState, selectedCharacter, selectedEncounter := r.game, r.character, r.encounter;
      player, enemy := r.player, r.enemy;
      playerDeck, playerHand, playerDiscard := r.playerDeck, r.playerHand, r.playerDiscard;
      enemyDeck, enemyHand, enemyDiscard := r.enemyDeck, r.enemyHand, r.enemyDiscard;
      gameStats := r.stats;
      assert State() == r;
    }
  }
}
