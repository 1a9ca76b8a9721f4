/**
 * What the run model keeps across its actions: the run invariant, the ids of
 * every side's cards, the alternation of turns, and the score formula.
 */
module RunProperties {
  import opened Wrappers
  import opened Seqs
  import opened Catalog
  import opened Combat
  import opened RunModel

  // ---------------------------------------------------------------- piles

  lemma {:induction false} IdsOfAppend(a: seq<Card>, b: seq<Card>)
    ensures IdsOf(a + b) == IdsOf(a) + IdsOf(b)
  {
    assert |IdsOf(a + b)| == |IdsOf(a) + IdsOf(b)|;
    forall i | 0 <= i < |a + b| ensures IdsOf(a + b)[i] == (IdsOf(a) + IdsOf(b))[i] {
      if i < |a| {
        assert (a + b)[i] == a[i];
      } else {
        assert (a + b)[i] == b[i - |a|];
      }
    }
  }

  lemma IdBagAppend(a: seq<Card>, b: seq<Card>)
    ensures IdBag(a + b) == IdBag(a) + IdBag(b)
  {
    IdsOfAppend(a, b);
  }

  lemma WellFormedCardsAppend(a: seq<Card>, b: seq<Card>)
    ensures WellFormedCards(a + b) <==> WellFormedCards(a) && WellFormedCards(b)
  {
    if WellFormedCards(a + b) {
      forall i | 0 <= i < |a| ensures WellFormedCard(a[i]) {
        assert a[i] == (a + b)[i];
      }
      forall i | 0 <= i < |b| ensures WellFormedCard(b[i]) {
        assert b[i] == (a + b)[|a| + i];
      }
    }
    if WellFormedCards(a) && WellFormedCards(b) {
      forall i | 0 <= i < |a + b| ensures WellFormedCard((a + b)[i]) {
        if i >= |a| {
          assert (a + b)[i] == b[i - |a|];
        }
      }
    }
  }

  /** Cards moved between a hand and a deck without being reordered keep their ids. */
  lemma MovedKeepsIds(hand: seq<Card>, deck: seq<Card>, hand': seq<Card>, deck': seq<Card>, discard: seq<Card>)
    requires hand' + deck' == hand + deck
    ensures IdBag(deck') + IdBag(hand') + IdBag(discard) == IdBag(deck) + IdBag(hand) + IdBag(discard)
  {
    IdBagAppend(hand', deck');
    IdBagAppend(hand, deck);
  }

  /** Drawing takes exactly the front of the deck, in order, onto the end of the hand. */
  lemma DrawnTakesFront(deck: seq<Card>, hand: seq<Card>, count: nat)
    ensures Drawn(deck, hand, count).1 == hand + deck[..Min(count, |deck|)]
    ensures Drawn(deck, hand, count).0 == deck[Min(count, |deck|)..]
    ensures |Drawn(deck, hand, count).0| + |Drawn(deck, hand, count).1| == |deck| + |hand|
  {
    var piles := Drawn(deck, hand, count);
    var k := Min(count, |deck|);
    assert piles.1 == (piles.1 + piles.0)[..|hand| + k];
    assert (hand + deck)[..|hand| + k] == hand + deck[..k];
    assert piles.0 == (piles.1 + piles.0)[|hand| + k..];
    assert (hand + deck)[|hand| + k..] == deck[k..];
  }

  /** Drawing moves cards between one side's deck and hand: no side gains or loses an id. */
  lemma DrawKeepsIds(r: Run, side: Side, count: nat)
    ensures PileIds(Draw(r, side, count), PlayerSide) == PileIds(r, PlayerSide)
    ensures PileIds(Draw(r, side, count), EnemySide) == PileIds(r, EnemySide)
  {
    var r' := Draw(r, side, count);
    if side == PlayerSide {
      MovedKeepsIds(r.playerHand, r.playerDeck, r'.playerHand, r'.playerDeck, r.playerDiscard);
    } else {
      MovedKeepsIds(r.enemyHand, r.enemyDeck, r'.enemyHand, r'.enemyDeck, r.enemyDiscard);
    }
  }

  lemma DrawValid(r: Run, side: Side, count: nat)
    requires Valid(r)
    ensures Valid(Draw(r, side, count))
  {
    var r' := Draw(r, side, count);
    WellFormedCardsAppend(Hand(r, side), Deck(r, side));
    WellFormedCardsAppend(Hand(r', side), Deck(r', side));
  }

  /** Removing the card at `i` from a pile removes exactly its id. */
  lemma RemoveAtIds(cards: seq<Card>, i: nat)
    requires i < |cards|
    ensures IdBag(RemoveAt(cards, i)) + multiset{cards[i].id} == IdBag(cards)
  {
    assert cards == cards[..i] + [cards[i]] + cards[i + 1..];
    IdBagAppend(cards[..i] + [cards[i]], cards[i + 1..]);
    IdBagAppend(cards[..i], [cards[i]]);
    IdBagAppend(cards[..i], cards[i + 1..]);
  }

  /** Paying for a card whose id is at `i` moves that id from the hand to the discard pile. */
  lemma PayAndDiscardKeepsIds(r: Run, side: Side, i: nat, card: Card)
    requires i < |Hand(r, side)| && Hand(r, side)[i].id == card.id
    ensures PileIds(PayAndDiscard(r, side, i, card), side) == PileIds(r, side)
    ensures PileIds(PayAndDiscard(r, side, i, card), Opponent(side)) == PileIds(r, Opponent(side))
  {
    if side == PlayerSide {
      DiscardKeepsIds(r.playerDeck, r.playerHand, r.playerDiscard, i, card);
    } else {
      DiscardKeepsIds(r.enemyDeck, r.enemyHand, r.enemyDiscard, i, card);
    }
  }

  lemma DiscardKeepsIds(deck: seq<Card>, hand: seq<Card>, discard: seq<Card>, i: nat, card: Card)
    requires i < |hand| && hand[i].id == card.id
    ensures IdBag(deck) + IdBag(RemoveAt(hand, i)) + IdBag(discard + [card])
         == IdBag(deck) + IdBag(hand) + IdBag(discard)
  {
    RemoveAtIds(hand, i);
    IdBagAppend(discard, [card]);
    assert IdBag([card]) == multiset{card.id};
  }

  lemma PayAndDiscardValid(r: Run, side: Side, i: nat, card: Card)
    requires Valid(r) && i < |Hand(r, side)| && WellFormedCard(card) && Fighter(r, side).energy >= card.cost
    ensures Valid(PayAndDiscard(r, side, i, card))
  {
    var hand := Hand(r, side);
    forall j | 0 <= j < |RemoveAt(hand, i)| ensures WellFormedCard(RemoveAt(hand, i)[j]) {
      if j < i {
        assert RemoveAt(hand, i)[j] == hand[j];
      } else {
        assert RemoveAt(hand, i)[j] == hand[j + 1];
      }
    }
    WellFormedCardsAppend(Discard(r, side), [card]);
  }

  // ---------------------------------------------------------------- the run invariant

  lemma DealDamageValid(r: Run, side: Side, amount: int, now: int)
    requires Valid(r)
    ensures Valid(DealDamage(r, side, amount, now))
  {
  }

  /** One card effect keeps the invariant when its amount is not negative. */
  lemma ApplyEffectValid(r: Run, e: Effect, caster: Side, now: int)
    requires Valid(r) && (e.amount.Some? ==> e.amount.value >= 0)
    ensures Valid(ApplyEffect(r, e, caster, now))
  {
    var source := Fighter(r, caster);
    if e.kind == "damage" {
      if Truthy(e.amount) {
        DealDamageValid(r, Opponent(caster), e.amount.value, now);
      }
    } else if e.kind == "heal" || e.kind == "armor" || e.kind == "energy" {
      if Truthy(e.amount) {
        var c := if e.kind == "heal" then Heal(source, e.amount.value)
                 else if e.kind == "armor" then source.(armor := source.armor + e.amount.value)
                 else GainEnergy(source, e.amount.value);
        assert ApplyEffect(r, e, caster, now) == WithFighter(r, caster, c);
        WithFighterValid(r, caster, c);
      }
    } else if e.kind == "poison" || e.kind == "burn" {
      if Truthy(e.amount) && Truthy(e.duration) {
        var kind := if e.kind == "poison" then Poison else Burn;
        AddStatusToValid(r, Opponent(caster), StatusEffect(kind, Some(e.amount.value), e.duration.value, None));
      }
    } else if e.kind == "stun" {
      if Truthy(e.duration) {
        AddStatusToValid(r, Opponent(caster), StatusEffect(Stun, None, e.duration.value, None));
      }
    }
  }

  lemma WithFighterValid(r: Run, side: Side, c: Combatant)
    requires Valid(r) && WellFormed(c)
    ensures Valid(WithFighter(r, side, c))
  {
  }

  lemma AddStatusToValid(r: Run, side: Side, e: StatusEffect)
    requires Valid(r) && (e.amount.Some? ==> e.amount.value >= 0)
    ensures Valid(AddStatusTo(r, side, e))
  {
    var c := Fighter(r, side);
    var c' := c.(statusEffects := AddStatus(c.statusEffects, e));
    assert InBounds(c') && OneOfEachKind(c'.statusEffects) && NonNegativeAmounts(c'.statusEffects);
    assert AddStatusTo(r, side, e) == WithFighter(r, side, c');
    WithFighterValid(r, side, c');
  }

  lemma {:induction false} ApplyEffectsValid(r: Run, effects: seq<Effect>, caster: Side, now: int)
    requires Valid(r) && WellFormedEffects(effects)
    ensures Valid(ApplyEffects(r, effects, caster, now))
    decreases |effects|
  {
    if effects != [] {
      var init := effects[..|effects| - 1];
      assert forall i :: 0 <= i < |init| ==> init[i] == effects[i];
      ApplyEffectsValid(r, init, caster, now);
      ApplyEffectValid(ApplyEffects(r, init, caster, now), effects[|effects| - 1], caster, now);
    }
  }

  lemma {:induction false} TickActionsValid(r: Run, side: Side, effects: seq<StatusEffect>, now: int)
    requires Valid(r) && NonNegativeAmounts(effects)
    ensures Valid(TickActions(r, side, effects, now))
    decreases |effects|
  {
    if effects != [] {
      var init := effects[..|effects| - 1];
      assert forall i :: 0 <= i < |init| ==> init[i] == effects[i];
      TickActionsValid(r, side, init, now);
      var e := effects[|effects| - 1];
      if e.kind.Poison? || e.kind.Burn? {
        if Truthy(e.amount) {
          DealDamageValid(TickActions(r, side, init, now), side, e.amount.value, now);
        }
      }
    }
  }

  lemma ProcessStatusEffectsValid(r: Run, side: Side, now: int)
    requires Valid(r)
    ensures Valid(ProcessStatusEffects(r, side, now))
  {
    TickActionsValid(r, side, Fighter(r, side).statusEffects, now);
  }

  lemma PlayCardValid(r: Run, card: Card, now: int)
    requires Valid(r) && WellFormedCard(card)
    ensures Valid(PlayCard(r, card, now).0)
  {
    if CanPlay(r, card) {
      var i := IndexOfId(r.playerHand, card.id).value;
      PayAndDiscardValid(r, PlayerSide, i, card);
      ApplyEffectsValid(PayAndDiscard(r, PlayerSide, i, card), card.effects, PlayerSide, now);
    }
  }

  lemma PlayEnemyTurnValid(r: Run, now: int)
    requires Valid(r)
    ensures Valid(PlayEnemyTurn(r, now).0)
  {
    if r.game.phase == Battle && !r.game.playerTurn && FirstAffordable(r.enemyHand, r.enemy.energy).Some? {
      var card := r.enemyHand[FirstAffordable(r.enemyHand, r.enemy.energy).value];
      var j := IndexOfId(r.enemyHand, card.id).value;
      PayAndDiscardValid(r, EnemySide, j, card);
      ApplyEffectsValid(PayAndDiscard(r, EnemySide, j, card), card.effects, EnemySide, now);
    }
  }

  lemma PassiveTurnStartValid(r: Run)
    requires Valid(r)
    ensures Valid(PassiveTurnStart(r))
  {
  }

  lemma EndTurnValid(r: Run, now: int)
    requires Valid(r)
    ensures Valid(EndTurn(r, now).0)
  {
    if r.game.phase == Battle {
      ProcessStatusEffectsValid(r, Mover(r), now);
      var passed := PassTurn(r, now);
      assert Valid(passed);
      DrawValid(Refill(passed, Mover(passed)), Mover(passed), 1);
      PassiveTurnStartValid(BeginTurn(passed));
    }
  }

  lemma SelectCharacterValid(r: Run, ch: Character, catalogCards: seq<Card>)
    requires Valid(r) && WellFormedCharacter(ch) && WellFormedCards(catalogCards)
    ensures Valid(SelectCharacter(r, ch, catalogCards))
  {
    GetCardsByIdsWellFormed(catalogCards, ch.startingDeck);
  }

  lemma StartBattleValid(r: Run, now: int)
    requires Valid(r)
    ensures Valid(StartBattle(r, now))
  {
    var r1 := r.(game := r.game.(phase := Battle, turn := 1, playerTurn := true), stats := r.stats.(startTime := now));
    DrawValid(r1, PlayerSide, PlayerOpeningHand);
    DrawValid(Draw(r1, PlayerSide, PlayerOpeningHand), EnemySide, EnemyOpeningHand);
  }

  lemma SelectEncounterValid(r: Run, enc: Encounter, catalogCards: seq<Card>, now: int)
    requires Valid(r) && WellFormedEncounter(enc) && WellFormedCards(catalogCards)
    ensures Valid(SelectEncounter(r, enc, catalogCards, now))
  {
    GetCardsByIdsWellFormed(catalogCards, enc.enemyDeck);
    StartBattleValid(ArmEnemy(r, enc, catalogCards), now);
  }

  // ---------------------------------------------------------------- cards are conserved

  /** A played card's id moves from the hand to the discard pile; the enemy's piles are untouched. */
  lemma PlayCardKeepsIds(r: Run, card: Card, now: int)
    ensures PileIds(PlayCard(r, card, now).0, PlayerSide) == PileIds(r, PlayerSide)
    ensures PileIds(PlayCard(r, card, now).0, EnemySide) == PileIds(r, EnemySide)
  {
    if CanPlay(r, card) {
      PayAndDiscardKeepsIds(r, PlayerSide, IndexOfId(r.playerHand, card.id).value, card);
    }
  }

  lemma PlayEnemyTurnKeepsIds(r: Run, now: int)
    ensures PileIds(PlayEnemyTurn(r, now).0, PlayerSide) == PileIds(r, PlayerSide)
    ensures PileIds(PlayEnemyTurn(r, now).0, EnemySide) == PileIds(r, EnemySide)
  {
    if r.game.phase == Battle && !r.game.playerTurn && FirstAffordable(r.enemyHand, r.enemy.energy).Some? {
      var card := r.enemyHand[FirstAffordable(r.enemyHand, r.enemy.energy).value];
      PayAndDiscardKeepsIds(r, EnemySide, IndexOfId(r.enemyHand, card.id).value, card);
    }
  }

  lemma EndTurnKeepsIds(r: Run, now: int)
    ensures PileIds(EndTurn(r, now).0, PlayerSide) == PileIds(r, PlayerSide)
    ensures PileIds(EndTurn(r, now).0, EnemySide) == PileIds(r, EnemySide)
  {
    if r.game.phase == Battle {
      var passed := PassTurn(r, now);
      var begun := BeginTurn(passed);
      PassTurnKeepsPiles(r, now);
      BeginTurnKeepsIds(passed);
      PassiveTurnStartKeepsPiles(begun);
    }
  }

  lemma PassTurnKeepsPiles(r: Run, now: int)
    ensures SamePiles(r, PassTurn(r, now))
  { }

  lemma PassiveTurnStartKeepsPiles(r: Run)
    ensures SamePiles(r, PassiveTurnStart(r))
  { }

  /** The new mover's refill and draw keep both sides' ids. */
  lemma BeginTurnKeepsIds(r: Run)
    ensures PileIds(BeginTurn(r), PlayerSide) == PileIds(r, PlayerSide)
    ensures PileIds(BeginTurn(r), EnemySide) == PileIds(r, EnemySide)
  {
    var refilled := Refill(r, Mover(r));
    assert SamePiles(r, refilled);
    DrawKeepsIds(refilled, Mover(r), 1);
  }

  // ---------------------------------------------------------------- turns

  /**
   * In battle, `endTurn` ticks the statuses of the side whose turn ends, and the
   * side whose turn starts has full energy and one more card from the front of its
   * deck (none if the deck is empty); the ending side's deck and hand are untouched.
   */
  lemma EndTurnStartsNextTurn(r: Run, now: int)
    requires r.game.phase == Battle
    ensures var r' := EndTurn(r, now).0;
            var ending := Mover(r);
            var starting := Opponent(ending);
            Fighter(r', ending).statusEffects == Tick(Fighter(r, ending).statusEffects) &&
            Fighter(r', starting).energy == Fighter(r', starting).maxEnergy &&
            Hand(r', starting) == Hand(r, starting) + Deck(r, starting)[..Min(1, |Deck(r, starting)|)] &&
            Deck(r', starting) == Deck(r, starting)[Min(1, |Deck(r, starting)|)..] &&
            Hand(r', ending) == Hand(r, ending) && Deck(r', ending) == Deck(r, ending)
  {
    var passed := PassTurn(r, now);
    DrawnTakesFront(Deck(passed, Mover(passed)), Hand(passed, Mover(passed)), 1);
  }

  /**
   * The passive ability's turn-start heals happen when the player's turn starts and
   * never when the enemy's turn starts; they raise health without passing the maximum.
   */
  lemma PassiveHealOnlyOnPlayerTurn(r: Run, now: int)
    requires r.game.phase == Battle
    ensures r.game.playerTurn ==> EndTurn(r, now).0.player == ProcessStatusEffects(r, PlayerSide, now).player
    ensures !r.game.playerTurn && r.player.health <= r.player.maxHealth &&
            (r.character.Some? ==> WellFormedCharacter(r.character.value)) ==>
              var after := EndTurn(r, now).0.player;
              r.player.health <= after.health <= r.player.maxHealth &&
              after == r.player.(health := after.health, energy := r.player.maxEnergy) &&
              after.health == (if HasPassive(r) then
                                 Min(r.player.maxHealth,
                                     r.player.health + HealTotal(r.character.value.specialAbility.value.effects))
                               else r.player.health)
  {
    var passed := PassTurn(r, now);
    if r.game.playerTurn {
      assert BeginTurn(passed).player == passed.player;
    } else {
      PlayerTurnStartHeals(r, now);
    }
  }

  /** The enemy's turn ends: the player's fighter is refilled, then healed by the passive ability. */
  lemma PlayerTurnStartHeals(r: Run, now: int)
    requires r.game.phase == Battle && !r.game.playerTurn
    ensures var begun := BeginTurn(PassTurn(r, now));
            begun.player == r.player.(energy := r.player.maxEnergy) && begun.character == r.character &&
            EndTurn(r, now).0 == PassiveTurnStart(begun)
  {
    var passed := PassTurn(r, now);
    assert passed.player == r.player;
  }

  /**
   * The enemy's reply after the player ends a turn: `endTurn`, then (if it was
   * scheduled) `playEnemyTurn`, then (if that scheduled it) `endTurn` again, at
   * three moments of the clock.
   */
  function Round(r: Run, t1: int, t2: int, t3: int): Run
  {
    var (r1, scheduled) := EndTurn(r, t1);
    if !scheduled then r1
    else
      var (r2, again) := PlayEnemyTurn(r1, t2);
      if !again then r2 else EndTurn(r2, t3).0
  }

  /**
   * After a player turn and the enemy's reply, either the run has ended (in
   * victory or defeat) or it is the player's turn again with one more round counted.
   */
  lemma RoundReturnsToPlayer(r: Run, t1: int, t2: int, t3: int)
    requires r.game.phase == Battle && r.game.playerTurn
    ensures var r' := Round(r, t1, t2, t3);
            r'.game.phase == Battle || r'.game.phase == Victory || r'.game.phase == Defeat
    ensures var r' := Round(r, t1, t2, t3);
            r'.game.phase == Battle ==> r'.game.playerTurn && r'.stats.totalTurns == r.stats.totalTurns + 1
  {
    var (r1, scheduled) := EndTurn(r, t1);
    assert scheduled && !r1.game.playerTurn && r1.stats.totalTurns == r.stats.totalTurns;
    var (r2, again) := PlayEnemyTurn(r1, t2);
    assert r2.stats.totalTurns == r.stats.totalTurns && !r2.game.playerTurn;
  }

  // ---------------------------------------------------------------- the whole run

  /** The store's entry points, with the clock reading at which each runs. */
  datatype Action =
    | BeginGame
    | ChooseCharacter(character: Character, catalogCards: seq<Card>)
    | ChooseEncounter(encounter: Encounter, catalogCards: seq<Card>)
    | BeginBattle
    | Play(card: Card)
    | FinishTurn
    | EnemyActs
    | Finish(won: bool)
    | Restart

  datatype Event = Event(action: Action, now: int)

  function Step(r: Run, ev: Event): Run
  {
    match ev.action
    case BeginGame => StartGame(r)
    case ChooseCharacter(ch, cards) => SelectCharacter(r, ch, cards)
    case ChooseEncounter(enc, cards) => SelectEncounter(r, enc, cards, ev.now)
    case BeginBattle => StartBattle(r, ev.now)
    case Play(card) => PlayCard(r, card, ev.now).0
    case FinishTurn => EndTurn(r, ev.now).0
    case EnemyActs => PlayEnemyTurn(r, ev.now).0
    case Finish(won) => EndGame(r, if won then Victory else Defeat, ev.now)
    case Restart => Initial(ev.now)
  }

  function Execute(r: Run, events: seq<Event>): Run
    decreases |events|
  {
    if events == [] then r else Execute(Step(r, events[0]), events[1..])
  }

  /** The data an action brings in is well-formed (no negative costs, amounts or base stats). */
  predicate WellFormedAction(a: Action)
  {
    match a
    case ChooseCharacter(ch, cards) => WellFormedCharacter(ch) && WellFormedCards(cards)
    case ChooseEncounter(enc, cards) => WellFormedEncounter(enc) && WellFormedCards(cards)
    case Play(card) => WellFormedCard(card)
    case _ => true
  }

  /** A new or reset store starts in a valid state. */
  lemma InitialValid(now: int)
    ensures Valid(Initial(now))
  {
    assert WellFormed(StartingPlayer) && WellFormed(StartingEnemy);
  }

  lemma StepValid(r: Run, ev: Event)
    requires Valid(r) && WellFormedAction(ev.action)
    ensures Valid(Step(r, ev))
  {
    match ev.action
    case BeginGame =>
    case ChooseCharacter(ch, cards) => SelectCharacterValid(r, ch, cards);
    case ChooseEncounter(enc, cards) => SelectEncounterValid(r, enc, cards, ev.now);
    case BeginBattle => StartBattleValid(r, ev.now);
    case Play(card) => PlayCardValid(r, card, ev.now);
    case FinishTurn => EndTurnValid(r, ev.now);
    case EnemyActs => PlayEnemyTurnValid(r, ev.now);
    case Finish(won) =>
    case Restart => InitialValid(ev.now);
  }

  /**
   * From a valid state, any sequence of store calls with well-formed data keeps
   * health within [0, maxHealth], energy within [0, maxEnergy], armor non-negative,
   * at most one status of each kind, and the turn number at 1.
   */
  lemma {:induction false} ExecuteValid(r: Run, events: seq<Event>)
    requires Valid(r)
    requires forall i :: 0 <= i < |events| ==> WellFormedAction(events[i].action)
    ensures Valid(Execute(r, events))
    decreases |events|
  {
    if events != [] {
      StepValid(r, events[0]);
      ExecuteValid(Step(r, events[0]), events[1..]);
    }
  }

  /** Actions taken during a battle. */
  predicate InBattle(a: Action)
  {
    a.Play? || a.FinishTurn? || a.EnemyActs? || a.Finish?
  }

  /**
   * During a battle no card id is created or lost: each side's deck, hand and
   * discard pile together always hold the same ids.
   */
  lemma {:induction false} BattleKeepsIds(r: Run, events: seq<Event>)
    requires forall i :: 0 <= i < |events| ==> InBattle(events[i].action)
    ensures PileIds(Execute(r, events), PlayerSide) == PileIds(r, PlayerSide)
    ensures PileIds(Execute(r, events), EnemySide) == PileIds(r, EnemySide)
    decreases |events|
  {
    if events != [] {
      StepKeepsIds(r, events[0], PlayerSide);
      StepKeepsIds(r, events[0], EnemySide);
      BattleKeepsIds(Step(r, events[0]), events[1..]);
    }
  }

  lemma StepKeepsIds(r: Run, ev: Event, side: Side)
    requires InBattle(ev.action)
    ensures PileIds(Step(r, ev), side) == PileIds(r, side)
  {
    var next := Step(r, ev);
    if ev.action.Play? {
      PlayStepKeepsIds(r, ev, side);
    } else if ev.action.FinishTurn? {
      assert next == EndTurn(r, ev.now).0;
      EndTurnKeepsIds(r, ev.now);
    } else if ev.action.EnemyActs? {
      assert next == PlayEnemyTurn(r, ev.now).0;
      PlayEnemyTurnKeepsIds(r, ev.now);
    } else {
      assert next == EndGame(r, if ev.action.won then Victory else Defeat, ev.now);
      assert SamePiles(r, next);
    }
  }

  lemma PlayStepKeepsIds(r: Run, ev: Event, side: Side)
    requires ev.action.Play?
    ensures PileIds(Step(r, ev), side) == PileIds(r, side)
  {
    assert Step(r, ev) == PlayCard(r, ev.action.card, ev.now).0;
    PlayCardKeepsIds(r, ev.action.card, ev.now);
  }

  /**
   * A new player turn always allows playing cards: the player's energy is refilled
   * to its maximum, so a positive maximum is enough.
   */
  lemma CanPlayCardsAfterTurnStart(r: Run, now: int)
    requires r.game.phase == Battle && !r.game.playerTurn && r.player.maxEnergy > 0
    ensures EndTurn(r, now).0.player.energy == r.player.maxEnergy
    ensures CanPlayCards(EndTurn(r, now).0)
  {
    var passed := PassTurn(r, now);
    assert passed.player == r.player;
    assert BeginTurn(passed).player == r.player.(energy := r.player.maxEnergy);
  }

  /**
   * `playCard` does not look at the phase: a card the player holds and can pay
   * for is still accepted, and counted, after the run has been won.
   */
  lemma CardPlayableAfterVictory(r: Run, card: Card, now: int)
    requires r.game.phase == Victory && CanPlay(r, card)
    ensures PlayCard(r, card, now).1
    ensures PlayCard(r, card, now).0.stats.cardsPlayed == r.stats.cardsPlayed + 1
  {
  }

  /** `canPlayCards` is stricter than `playCard`: a free card is accepted at zero energy. */
  lemma FreeCardPlayableWithoutEnergy(r: Run, card: Card, now: int)
    requires r.game.playerTurn && r.player.energy == 0 && card.cost == 0
    requires exists i :: 0 <= i < |r.playerHand| && r.playerHand[i].id == card.id
    ensures !CanPlayCards(r) && PlayCard(r, card, now).1
  {
  }

  // ---------------------------------------------------------------- score

  /** With no rewards configured, a win scores 100 plus twice the health plus the speed bonus, exactly. */
  lemma DefaultRewardsScore(r: Run, now: int)
    requires r.game.phase == Victory && (r.encounter.None? || r.encounter.value.rewards.None?)
    ensures FinalScore(r, now) == DefaultScoreBase + 2 * r.player.health + Max(0, SpeedBonusSeconds - GameDuration(r.stats, now))
  {
    var n := DefaultScoreBase + 2 * r.player.health + Max(0, SpeedBonusSeconds - GameDuration(r.stats, now));
    assert RawScore(r, now) == n as real;
  }

  /** A won run of 120 seconds at 50 health with base 100 and multiplier 2 scores floor((100 + 100 + 180) * 2) = 760. */
  lemma FinalScoreExample(r: Run, now: int)
    requires r.game.phase == Victory && r.player.health == 50
    requires r.encounter.Some? && r.encounter.value.rewards == Some(Rewards(100, 2.0))
    requires r.stats.startTime == 1000 && r.stats.endTime == Some(121500)
    ensures FinalScore(r, now) == 760
  {
    assert GameDuration(r.stats, now) == 120;
    assert RawScore(r, now) == 760.0;
  }

  /** More health left never lowers the score (for a non-negative multiplier). */
  lemma FinalScoreMonotoneInHealth(r: Run, health: int, now: int)
    requires health >= r.player.health && ScoreMultiplier(r.encounter) >= 0.0
    ensures FinalScore(r.(player := r.player.(health := health)), now) >= FinalScore(r, now)
  {
    var r' := r.(player := r.player.(health := health));
    var m := ScoreMultiplier(r.encounter);
    var a := ScoreBase(r.encounter) + r.player.health * 2 + Max(0, SpeedBonusSeconds - GameDuration(r.stats, now));
    var b := ScoreBase(r.encounter) + health * 2 + Max(0, SpeedBonusSeconds - GameDuration(r.stats, now));
    assert RawScore(r', now) - RawScore(r, now) == (b - a) as real * m;
    assert (b - a) as real * m >= 0.0;
  }

  /** A falsy end time (absent or 0) means the clock is still running. */
  lemma ZeroEndTimeMeansRunning(stats: GameStats, now: int)
    requires stats.endTime == Some(0)
    ensures GameDuration(stats, now) == GameDuration(stats.(endTime := None), now)
  {
  }

  // ---------------------------------------------------------------- effects

  /** Applying the effects of `a + b` is applying those of `a`, then those of `b`. */
  lemma {:induction false} ApplyEffectsAppend(r: Run, a: seq<Effect>, b: seq<Effect>, caster: Side, now: int)
    decreases |b|
    ensures ApplyEffects(r, a + b, caster, now) == ApplyEffects(ApplyEffects(r, a, caster, now), b, caster, now)
  {
    if b == [] {
      assert a + b == a;
    } else {
      var n := |b|;
      var front, last := b[..n - 1], b[n - 1];
      assert (a + b)[..|a + b| - 1] == a + front;
      assert (a + b)[|a + b| - 1] == last;
      ApplyEffectsAppend(r, a, front, caster, now);
      var prefix := ApplyEffects(r, a + front, caster, now);
      assert ApplyEffects(r, a + b, caster, now) == ApplyEffect(prefix, last, caster, now);
      assert prefix == ApplyEffects(ApplyEffects(r, a, caster, now), front, caster, now);
    }
  }

  /** An effect that refills the caster's energy. */
  predicate GivesEnergy(e: Effect)
  {
    e.kind == "energy" && Truthy(e.amount)
  }

  /** Every other effect leaves the caster's energy alone. */
  lemma ApplyEffectKeepsEnergy(r: Run, e: Effect, caster: Side, now: int)
    requires !GivesEnergy(e)
    ensures Fighter(ApplyEffect(r, e, caster, now), caster).energy == Fighter(r, caster).energy
    ensures Fighter(ApplyEffect(r, e, caster, now), caster).maxEnergy == Fighter(r, caster).maxEnergy
  {
  }

  lemma {:induction false} ApplyEffectsKeepsEnergy(r: Run, effects: seq<Effect>, caster: Side, now: int)
    requires forall i :: 0 <= i < |effects| ==> !GivesEnergy(effects[i])
    decreases |effects|
    ensures Fighter(ApplyEffects(r, effects, caster, now), caster).energy == Fighter(r, caster).energy
  {
    if effects != [] {
      var n := |effects|;
      ApplyEffectsKeepsEnergy(r, effects[..n - 1], caster, now);
      ApplyEffectKeepsEnergy(ApplyEffects(r, effects[..n - 1], caster, now), effects[n - 1], caster, now);
    }
  }

  /** A played card without an energy effect leaves the player exactly its cost poorer. */
  lemma PlayCardPays(r: Run, card: Card, now: int)
    requires CanPlay(r, card)
    requires forall i :: 0 <= i < |card.effects| ==> !GivesEnergy(card.effects[i])
    ensures PlayCard(r, card, now).1
    ensures PlayCard(r, card, now).0.player.energy == r.player.energy - card.cost
  {
    var i := IndexOfId(r.playerHand, card.id).value;
    ApplyEffectsKeepsEnergy(PayAndDiscard(r, PlayerSide, i, card), card.effects, PlayerSide, now);
  }

  /** The enemy pays for the card it picks in the same way. */
  lemma PlayEnemyTurnPays(r: Run, now: int, i: nat)
    requires r.game.phase == Battle && !r.game.playerTurn
    requires FirstAffordable(r.enemyHand, r.enemy.energy) == Some(i)
    requires forall k :: 0 <= k < |r.enemyHand[i].effects| ==> !GivesEnergy(r.enemyHand[i].effects[k])
    ensures PlayEnemyTurn(r, now).0.enemy.energy == r.enemy.energy - r.enemyHand[i].cost
  {
    var card := r.enemyHand[i];
    var j := IndexOfId(r.enemyHand, card.id).value;
    ApplyEffectsKeepsEnergy(PayAndDiscard(r, EnemySide, j, card), card.effects, EnemySide, now);
  }

  /**
   * An accepted card resolves: the state is the card's effects, in list order,
   * applied by the player after the card was paid for and discarded, with one
   * more card counted.
   */
  lemma PlayCardResolvesEffects(r: Run, card: Card, now: int)
    requires CanPlay(r, card)
    ensures var paid := PayAndDiscard(r, PlayerSide, IndexOfId(r.playerHand, card.id).value, card);
            var applied := ApplyEffects(paid, card.effects, PlayerSide, now);
            PlayCard(r, card, now) == (applied.(stats := applied.stats.(cardsPlayed := applied.stats.cardsPlayed + 1)), true)
  {
  }

  /** The enemy's chosen card resolves the same way, cast by the enemy, with no card counted. */
  lemma PlayEnemyTurnResolvesEffects(r: Run, now: int, i: nat)
    requires r.game.phase == Battle && !r.game.playerTurn
    requires FirstAffordable(r.enemyHand, r.enemy.energy) == Some(i)
    ensures var card := r.enemyHand[i];
            var paid := PayAndDiscard(r, EnemySide, IndexOfId(r.enemyHand, card.id).value, card);
            PlayEnemyTurn(r, now) == (ApplyEffects(paid, card.effects, EnemySide, now), true)
  {
  }

  /** A one-effect damage card of `a` leaves the enemy at `Damage(enemy, a)`. */
  lemma DamageCardHitsEnemy(r: Run, card: Card, a: int, now: int)
    requires CanPlay(r, card) && a != 0
    requires card.effects == [Effect("damage", Some(a), None, None)]
    ensures PlayCard(r, card, now).0.enemy == Damage(r.enemy, a)
  {
    var paid := PayAndDiscard(r, PlayerSide, IndexOfId(r.playerHand, card.id).value, card);
    assert card.effects[..0] == [];
    assert ApplyEffects(paid, card.effects, PlayerSide, now) == ApplyEffect(paid, card.effects[0], PlayerSide, now);
  }

  // ---------------------------------------------------------------- statuses

  /** A status that does something when it ticks: a poison, burn or regeneration with an amount. */
  predicate TickActs(e: StatusEffect)
  {
    (e.kind == Poison || e.kind == Burn || e.kind == Regeneration) && Truthy(e.amount)
  }

  /** The statuses of `a + b` act as those of `a` and then those of `b`, each seeing the state the previous left. */
  lemma {:induction false} TickActionsAppend(r: Run, side: Side, a: seq<StatusEffect>, b: seq<StatusEffect>, now: int)
    decreases |b|
    ensures TickActions(r, side, a + b, now) == TickActions(TickActions(r, side, a, now), side, b, now)
  {
    if b == [] {
      assert a + b == a;
    } else {
      var n := |b|;
      var front, last := b[..n - 1], b[n - 1];
      assert (a + b)[..|a + b| - 1] == a + front;
      assert (a + b)[|a + b| - 1] == last;
      TickActionsAppend(r, side, a, front, now);
      var prefix := TickActions(r, side, a + front, now);
      assert TickActions(r, side, a + b, now) == TickAction(prefix, side, last, now);
      assert prefix == TickActions(TickActions(r, side, a, now), side, front, now);
    }
  }

  /** Statuses that do nothing when they tick leave the run as it was. */
  lemma {:induction false} InertTickActions(r: Run, side: Side, effects: seq<StatusEffect>, now: int)
    requires forall i :: 0 <= i < |effects| ==> !TickActs(effects[i])
    decreases |effects|
    ensures TickActions(r, side, effects, now) == r
  {
    if effects != [] {
      InertTickActions(r, side, effects[..|effects| - 1], now);
      TickActionByKind(r, side, effects[|effects| - 1], now);
    }
  }

  /** With only inert statuses, the owner's turn end just counts their durations down. */
  lemma InertStatusesOnlyTick(r: Run, side: Side, now: int)
    requires forall i :: 0 <= i < |Fighter(r, side).statusEffects| ==> !TickActs(Fighter(r, side).statusEffects[i])
    ensures ProcessStatusEffects(r, side, now) ==
            WithStatuses(r, side, Tick(Fighter(r, side).statusEffects))
  {
    InertTickActions(r, side, Fighter(r, side).statusEffects, now);
  }

  /** A lone poison or burn hits its owner once, through armor, and then counts down. */
  lemma LoneDamageStatusHitsOwner(r: Run, side: Side, now: int)
    requires |Fighter(r, side).statusEffects| == 1
    requires Fighter(r, side).statusEffects[0].kind == Poison || Fighter(r, side).statusEffects[0].kind == Burn
    requires Truthy(Fighter(r, side).statusEffects[0].amount)
    ensures var c := Fighter(r, side);
            Fighter(ProcessStatusEffects(r, side, now), side) ==
            Damage(c, c.statusEffects[0].amount.value).(statusEffects := Tick(c.statusEffects))
  {
    var c := Fighter(r, side);
    var list := c.statusEffects;
    assert list[..|list| - 1] == [];
    assert TickActions(r, side, [], now) == r;
    var acted := TickActions(r, side, list, now);
    assert acted == TickAction(r, side, list[0], now);
    TickActionByKind(r, side, list[0], now);
    assert Fighter(acted, side) == Damage(c, list[0].amount.value);
  }

  // ---------------------------------------------------------------- turn steps

  /** Drawing moves the front of one side's deck to the end of its hand and touches nothing else. */
  lemma DrawMovesFront(r: Run, side: Side, count: nat)
    ensures var r' := Draw(r, side, count);
            var k := Min(count, |Deck(r, side)|);
            Hand(r', side) == Hand(r, side) + Deck(r, side)[..k] && Deck(r', side) == Deck(r, side)[k..] &&
            Discard(r', side) == Discard(r, side) &&
            Hand(r', Opponent(side)) == Hand(r, Opponent(side)) && Deck(r', Opponent(side)) == Deck(r, Opponent(side)) &&
            Discard(r', Opponent(side)) == Discard(r, Opponent(side)) &&
            r'.player == r.player && r'.enemy == r.enemy && r'.game == r.game && r'.stats == r.stats &&
            r'.character == r.character && r'.encounter == r.encounter
  {
    DrawnTakesFront(Deck(r, side), Hand(r, side), count);
  }

  /** The first half of `endTurn`: the ending side's statuses tick and the turn passes. */
  lemma PassTurnEndsTurn(r: Run, now: int)
    ensures var r' := PassTurn(r, now);
            var ending := Mover(r);
            Fighter(r', ending).statusEffects == Tick(Fighter(r, ending).statusEffects) &&
            Fighter(r', Opponent(ending)) == Fighter(r, Opponent(ending)) &&
            r'.game.playerTurn == !r.game.playerTurn &&
            r'.stats.totalTurns == r.stats.totalTurns + (if ending == EnemySide then 1 else 0) &&
            SamePiles(r, r') && (Unended(r, r') || EndedBy(r', ending, now))
  {
  }

  /** The second half: the new mover has full energy and one more card from the front of its deck; nothing else changes. */
  lemma BeginTurnStartsTurn(r: Run)
    ensures var r' := BeginTurn(r);
            var s := Mover(r);
            var k := Min(1, |Deck(r, s)|);
            Fighter(r', s) == Fighter(r, s).(energy := Fighter(r, s).maxEnergy) &&
            Fighter(r', Opponent(s)) == Fighter(r, Opponent(s)) &&
            Hand(r', s) == Hand(r, s) + Deck(r, s)[..k] && Deck(r', s) == Deck(r, s)[k..] &&
            Hand(r', Opponent(s)) == Hand(r, Opponent(s)) && Deck(r', Opponent(s)) == Deck(r, Opponent(s)) &&
            Discard(r', s) == Discard(r, s) && Discard(r', Opponent(s)) == Discard(r, Opponent(s)) &&
            r'.game == r.game && r'.stats == r.stats && r'.character == r.character && r'.encounter == r.encounter
  {
    var refilled := Refill(r, Mover(r));
    DrawMovesFront(refilled, Mover(r), 1);
  }
}
