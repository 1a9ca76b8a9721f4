# Cloud Isles Tactics: the combat store and the card catalog

A Dafny model of the two client-side stores of the card battler:

- the **run store** (`apps/web/src/stores/run.ts`): one run from character selection
  through a turn-based battle to victory or defeat, the score, and the reset;
- the **catalog store** (`apps/web/src/stores/catalog.ts`): the cards, characters and
  encounters the run is built from, the lookups, filters and searches over them, and
  the cache bookkeeping that decides when they are fetched again.

Files and modules:

| file | module | contents |
|---|---|---|
| `wrappers.dfy` | `Wrappers` | `Option` and JavaScript truthiness of an optional number |
| `seqs.dfy` | `Seqs` | `filter`, `find`, `findIndex`, `splice(i, 1)` on sequences, and small sequence lemmas |
| `catalog.dfy` | `Catalog` | the catalog datatypes, the pure queries with their contracts, and the class `CatalogStore` (loads, `clearCache`) |
| `combat.dfy` | `Combat` | combatant arithmetic (damage through armor, capped heal and energy) and status-effect lists (replace on add, one tick) |
| `run_model.dfy` | `RunModel` | the run as a value `Run`, and one function per store action from the state before to the state after |
| `run_properties.dfy` | `RunProperties` | what holds across actions: the run invariant, conservation of card ids, turn alternation, the score |
| `run_store.dfy` | `RunStore` | the class `Store` with the store's refs as fields and one method per action, each proved to compute its `RunModel` function |

The store is imperative: its fields are updated in place, `drawCards` is a loop over
`shift`/`push`, `processStatusEffects` is a `forEach` that acts, decrements durations
in place and collects expired indices, followed by a reversed `splice` pass. The
class `RunStore.Store` keeps that shape (loops with invariants, `modifies this`), and
every method's postcondition is `State() == RunModel.X(old(State()), ...)`, where
`State()` reads the refs as one `Run`. The properties are then proved once, about the
`RunModel` functions, and hold of the store by those postconditions.

The clock is a parameter `now` (milliseconds) everywhere the code reads
`Date.now()` (for the loads' stamp, a second parameter `fetchedAt`). The two `setTimeout` calls become explicit steps: after the player's
`endTurn` schedules the enemy's reply (the result's boolean), the driver calls
`playEnemyTurn` and then, if that scheduled it, `endTurn` again
(`RunProperties.Round`). `RunProperties.Execute` runs any sequence of store calls.

Points where the code does something one might not expect, all modelled as written:

- `playCard` never looks at the phase: a card can still be played, and counted, after
  the run is won (`RunProperties.CardPlayableAfterVictory`). The documented intent that
  a finished run accepts no further hand or energy changes therefore does not hold for
  `playCard`; the model follows the code.
- `dealDamage` itself ends the run when health reaches exactly 0; the remaining effects
  of the card still resolve, and `cardsPlayed` still goes up.
- The damage counters add the raw `amount` of a damage effect, not what got through armor.
- Poison and burn ticks go through `dealDamage`, so armor and the minimum of 1 apply.
- `addStatusEffect` moves a replaced status to the end of the list.
- `gameState.turn` is only ever set to 1 (it is part of the run invariant); rounds are
  counted in `gameStats.totalTurns`, which goes up when the enemy's turn ends.
- Amounts and durations are tested by truthiness: 0 (or absent) skips the effect; a
  falsy `endTime`, `score_base` or `score_multiplier` falls back to `Date.now()`, 100, 1.
- `isCacheValid` is a Vue `computed` over `Date.now()`, which is not reactive: the
  first read after `lastFetched` changes decides it, and the verdict is kept until
  `lastFetched` changes again. Once a load has found the cache fresh, every later
  non-forced load reuses it however old it gets; the five-minute limit only applies
  to that first read (`Catalog.StaleCacheIsReused`, `Catalog.LateFirstReadRefetches`).
  The loads' `&&` reads it only for a non-forced load of a non-empty catalog.
- `canPlayCards` (`energy > 0`) is stricter than `playCard` (`energy >= cost`): a free
  card is accepted at zero energy (`RunProperties.FreeCardPlayableWithoutEnergy`).

The run invariant `RunModel.Valid` (health in [0, maxHealth], energy in [0, maxEnergy],
armor at least 0, at most one status of each kind with no negative amount, every card
well-formed, turn 1) is preserved by every action when the data the action brings in
is well-formed: no negative card cost, effect amount or base stat. The code does not
check this; negative amounts from the catalog would break the bounds.

## Model

| member | source | states |
|---|---|---|
| Catalog.GetCardById | apps/web/src/stores/catalog.ts:44-46 | None exactly when no card has the id; otherwise a card of the list with that id, and no earlier card has it |
| Catalog.GetCharacterById | apps/web/src/stores/catalog.ts:49-51 | None exactly when no character has the id; otherwise the first character with that id |
| Catalog.GetEncounterById | apps/web/src/stores/catalog.ts:54-56 | None exactly when no encounter has the id; otherwise the first encounter with that id |
| Catalog.GetCardsByIds | apps/web/src/stores/catalog.ts:59-61 | at most one card per id; every card is a catalog card and is what the lookup returns for its own id |
| Catalog.GetCardsByIdsKeepsResolvedIds | apps/web/src/stores/catalog.ts:59-61 | the deck's ids are exactly the ids that resolve, in the order given and with their repetitions; ids with no card are dropped |
| Catalog.GetCardsByIdsAppend | apps/web/src/stores/catalog.ts:59-61 | the deck built from `a + b` is the deck from `a` followed by the deck from `b` |
| Catalog.GetCardsByIdsAllResolve | apps/web/src/stores/catalog.ts:59-61 | when every id resolves the deck has one card per id, the i-th card carrying the i-th id |
| Catalog.GetCardsByIdsWellFormed | apps/web/src/stores/catalog.ts:59-61 | a deck built from a well-formed catalog is well-formed |
| Catalog.GetCardsByType | apps/web/src/stores/catalog.ts:22-24 | an order-preserving sublist holding every card of the type, as often as in the catalog, and nothing else |
| Catalog.GetCardsByRarity | apps/web/src/stores/catalog.ts:27-29 | an order-preserving sublist holding exactly the cards of the rarity, with their multiplicities |
| Catalog.GetCharactersByClass | apps/web/src/stores/catalog.ts:32-34 | an order-preserving sublist holding exactly the characters of the class, with their multiplicities |
| Catalog.GetEncountersByDifficulty | apps/web/src/stores/catalog.ts:37-41 | an order-preserving sublist holding exactly the encounters with difficulty at least `min` and, when `max` is truthy, at most `max` |
| Catalog.ZeroMaxDifficultyIsUnbounded | apps/web/src/stores/catalog.ts:39 | a maximum of 0 gives the same list as no maximum |
| Catalog.ToLower | apps/web/src/stores/catalog.ts:171 | same length, each character lower-cased (ASCII letters) |
| Catalog.IncludesIffOccurs | apps/web/src/stores/catalog.ts:173-176 | `includes` holds exactly when the query occurs at some position of the string |
| Catalog.SearchCards | apps/web/src/stores/catalog.ts:170-178 | an order-preserving sublist holding exactly the cards whose lower-cased name, description, type or rarity contains the lower-cased query |
| Catalog.SearchCharacters | apps/web/src/stores/catalog.ts:180-187 | the same for characters over name, description and class |
| Catalog.SearchEncounters | apps/web/src/stores/catalog.ts:189-196 | the same for encounters over name, description and AI personality |
| Catalog.EmptySearchKeepsAllCards | apps/web/src/stores/catalog.ts:170-178 | searching for the empty query returns the whole card list |
| Catalog.CatalogStore.constructor | apps/web/src/stores/catalog.ts:7-12 | empty lists, not loading, no error, `lastFetched` 0, and no kept `isCacheValid` verdict |
| Catalog.CatalogStore.ReadCacheValid | apps/web/src/stores/catalog.ts:19 | a read of `isCacheValid` returns the kept verdict when there is one, and otherwise `now - lastFetched < 5 minutes`, which it then keeps; no other field changes |
| Catalog.CatalogStore.Stamp | apps/web/src/stores/catalog.ts:89 | assigning `lastFetched` drops the kept verdict exactly when the value changes; no other field changes |
| Catalog.CatalogStore.LoadAll | apps/web/src/stores/catalog.ts:64-104 | a loaded catalog whose `isCacheValid` reads true (kept or fresh at `now`) is reused with nothing changed but the verdict kept; otherwise the three lists are replaced together and stamped with `fetchedAt` when all queries succeed, and the catalog then counts as loaded exactly when no table came back empty; on the first failure nothing is replaced, `error` holds its message (or the fallback) and the call fails; the verdict read by the test is kept unless the stamp changed; `loading` ends false |
| Catalog.CatalogStore.LoadCards | apps/web/src/stores/catalog.ts:106-125 | reuses a non-empty card list while `isCacheValid` reads true; otherwise replaces it and stamps `fetchedAt`, or records the error and fails; the verdict read by the test is kept unless the stamp changed; the other lists are untouched |
| Catalog.CatalogStore.LoadCharacters | apps/web/src/stores/catalog.ts:127-146 | the same for characters |
| Catalog.CatalogStore.LoadEncounters | apps/web/src/stores/catalog.ts:148-167 | the same for encounters |
| Catalog.CatalogStore.ClearCache | apps/web/src/stores/catalog.ts:199-205 | the three lists are empty, `lastFetched` is 0 (dropping the kept verdict if it was not 0 already), the error is cleared, the catalog no longer counts as loaded, and `loadAll` will not reuse the cache at any time, forced or not |
| Catalog.StaleCacheIsReused | apps/web/src/stores/catalog.ts:19-67 | after a successful load at `t` and a reuse one minute later, a `loadAll` ten minutes after the fetch still returns at once (its failing queries are never made) and `lastFetched` stays `t` |
| Catalog.LateFirstReadRefetches | apps/web/src/stores/catalog.ts:19-67 | when the first read of `isCacheValid` after a fetch comes six minutes late, `loadAll` queries again |
| Combat.Damage | apps/web/src/stores/run.ts:261-265 | only health and armor change; armor loses `min(armor, amount)`; health drops by the excess over armor, or by 1 when armor absorbs it all, never below 0; a living target always loses health; bounds are kept |
| Combat.Heal | apps/web/src/stores/run.ts:277-279 | only health changes; it becomes `health + amount` when that is at most `maxHealth`, and `maxHealth` otherwise; bounds are kept for a non-negative amount |
| Combat.GainEnergy | apps/web/src/stores/run.ts:223-227 | only energy changes; it becomes `energy + amount` when that is at most `maxEnergy`, and `maxEnergy` otherwise |
| Combat.RemoveKind | apps/web/src/stores/run.ts:283 | no effect of the kind is left, the kept effects are an order-preserving sublist of the list, and one-per-kind and non-negative amounts are kept |
| Combat.RemoveKindIsFilter | apps/web/src/stores/run.ts:283 | the result is exactly the stable filter of the list by "kind differs": every other effect kept, in order |
| Combat.OfKindAfterRemoveKind | apps/web/src/stores/run.ts:283 | the effects of every other kind are exactly as before, in order |
| Combat.AddStatus | apps/web/src/stores/run.ts:281-285 | the new effect is last and the only one of its kind; everything before it is an order-preserving sublist of the old list; every other kind's effects are unchanged and in order; one-per-kind and non-negative amounts are kept |
| Combat.Decrement | apps/web/src/stores/run.ts:307 | same length, each effect with one turn less and otherwise unchanged |
| Combat.SurvivorsIsFilter | apps/web/src/stores/run.ts:308-316 | the expired-index collection plus reversed splice keeps exactly the effects with duration above 0, in order (the stable filter by duration > 0) |
| Combat.SurvivorsFromList | apps/web/src/stores/run.ts:308-316 | the kept effects all have duration above 0 and are drawn from the list without duplication |
| Combat.SurvivorsKeepActive | apps/web/src/stores/run.ts:308-316 | no effect with duration above 0 is dropped |
| Combat.SurvivorsKeepInvariants | apps/web/src/stores/run.ts:308-316 | removing expired effects keeps one-per-kind and non-negative amounts |
| Combat.Tick | apps/web/src/stores/run.ts:306-316 | an order-preserving sublist of the decremented list, every remaining duration above 0, one-per-kind and non-negative amounts kept |
| Combat.TickIsStableFilter | apps/web/src/stores/run.ts:306-316 | a tick is the stable filter of the decremented list by duration > 0, and holds each such effect exactly as often as the decremented list does |
| Combat.TickOrigin | apps/web/src/stores/run.ts:306-316 | every effect left after a tick is one of the originals with exactly one turn less |
| Combat.TickKeepsUnexpired | apps/web/src/stores/run.ts:306-316 | every effect with more than one turn left is still there after the tick, one turn shorter |
| Combat.AllExpireAfterLongestDuration | apps/web/src/stores/run.ts:287-317 | after as many ticks as the longest duration no effect is left |
| RunModel.Initial | apps/web/src/stores/run.ts:44-87 | setup phase, turn 1, the player to move; no character or encounter; the player at 100/100 health and 3/3 energy and the enemy at 60/60 and 2/2, no armor or statuses; all six piles empty; the stats zeroed with the start time `now` and no end time |
| RunModel.Drawn | apps/web/src/stores/run.ts:166-171 | hand followed by deck is the same sequence as before, and the hand grew by `min(count, deck size)` |
| RunProperties.DrawMovesFront | apps/web/src/stores/run.ts:166-171 | drawing for a side moves the first `min(count, deck size)` deck cards to the end of its hand; its discard, the other side's piles, both fighters, the game, the stats, the character and the encounter are unchanged |
| RunModel.IndexOfId | apps/web/src/stores/run.ts:179-180 | None exactly when no hand card has the id; otherwise the first position holding it |
| RunModel.PayAndDiscard | apps/web/src/stores/run.ts:179-186 | the payer's energy drops by the cost and nothing else of it changes; the card at the index leaves its hand, the card joins the end of its discard pile; the deck, the other side, the game and the stats are unchanged |
| RunModel.EndGame | apps/web/src/stores/run.ts:385-387 | the phase becomes the result and the end time is `now`; nothing else changes |
| RunModel.DealDamage | apps/web/src/stores/run.ts:261-275 | the target takes `Damage`, the other side is untouched, and the run ends (defeat for the player, victory for the enemy) exactly when the target is left at 0 |
| RunModel.CastDamage | apps/web/src/stores/run.ts:203-208 | the opponent becomes `Damage(opponent, amount)`, the caster is untouched, the run ends exactly when the opponent is left at 0, and the caster's counter (dealt or taken) grows by the raw amount |
| RunModel.ApplyEffect | apps/web/src/stores/run.ts:202-257 | piles and turn untouched; the run either stays as it was or ends by the opponent's death at `now`; the counters grow by the raw damage; a truthy damage effect leaves the opponent at `Damage(opponent, amount)` and the caster untouched; an unknown kind, or a falsy amount or duration, changes nothing |
| RunModel.ApplyEffectByKind | apps/web/src/stores/run.ts:210-256 | heal is `Combat.Heal` of the caster, armor adds the amount to the caster's armor, energy is `Combat.GainEnergy` of the caster, and poison, burn and stun add the status (amount and duration, or duration only for stun) to the opponent by `Combat.AddStatus` |
| RunModel.ApplyEffects | apps/web/src/stores/run.ts:197-259 | the effects in order: piles and turn untouched, the opponent reaching 0 ends the run at `now`, the counters grow by the raw damage total |
| RunProperties.ApplyEffectsAppend | apps/web/src/stores/run.ts:197-259 | applying the effects of `a + b` is applying those of `a` and then those of `b` to the result |
| RunProperties.ApplyEffectKeepsEnergy | apps/web/src/stores/run.ts:202-257 | every effect but a truthy `energy` one leaves the caster's energy and maximum energy as they were |
| RunProperties.ApplyEffectsKeepsEnergy | apps/web/src/stores/run.ts:197-259 | a list of effects without a truthy `energy` effect leaves the caster's energy as it was |
| RunModel.TickAction | apps/web/src/stores/run.ts:291-304 | the status list, the other side and the piles are untouched; the owner stays within bounds for a non-negative amount, and its reaching 0 ends the run at `now`; the damage counters do not move |
| RunModel.TickActionByKind | apps/web/src/stores/run.ts:291-304 | a poison or burn with a truthy amount is `dealDamage` of the owner by the amount; a regeneration with a truthy amount is `Combat.Heal` of the owner; anything else changes nothing |
| RunModel.TickActions | apps/web/src/stores/run.ts:290-311 | every status acts in stored order, with the same guarantees |
| RunProperties.TickActionsAppend | apps/web/src/stores/run.ts:290-305 | the statuses of `a + b` act as those of `a` and then those of `b` on the resulting state |
| RunModel.ProcessStatusEffects | apps/web/src/stores/run.ts:287-317 | the owner's status list becomes its `Tick`; the other side and the piles are untouched; the owner reaching 0 ends the run |
| RunProperties.InertTickActions | apps/web/src/stores/run.ts:291-304 | statuses that do nothing when they act (stun, slow, strength, or a falsy amount) leave the run exactly as it was |
| RunProperties.InertStatusesOnlyTick | apps/web/src/stores/run.ts:287-317 | with only such statuses the owner's turn end changes nothing but its status list, which becomes its `Tick` |
| RunProperties.LoneDamageStatusHitsOwner | apps/web/src/stores/run.ts:287-317 | a lone poison or burn with an amount leaves its owner at `Damage(owner, amount)` with the ticked list |
| RunModel.PlayCard | apps/web/src/stores/run.ts:173-195 | accepted exactly when it is the player's turn, the player can pay and a hand card has the id; refused with no change otherwise; when accepted the first matching hand card leaves, the card is discarded, `cardsPlayed` goes up by 1 and damage dealt by the raw damage |
| RunProperties.PlayCardResolvesEffects | apps/web/src/stores/run.ts:173-195 | an accepted card is paid for and discarded, then its effects apply in list order as the player's, then `cardsPlayed` goes up by one |
| RunProperties.DamageCardHitsEnemy | apps/web/src/stores/run.ts:189-208 | an accepted card with one damage effect of a non-zero amount leaves the enemy at `Damage(enemy, amount)` |
| RunProperties.PlayCardPays | apps/web/src/stores/run.ts:173-195 | an accepted card without a truthy `energy` effect leaves the player exactly its cost poorer |
| RunModel.FirstAffordable | apps/web/src/stores/run.ts:366-367 | the first hand position whose cost the energy covers, or None when none does |
| RunModel.PlayEnemyTurn | apps/web/src/stores/run.ts:363-383 | acts exactly on the enemy's turn in battle; plays the first affordable card or nothing; a played card goes to the end of the discard pile and the first hand card with its id leaves the hand; the player's piles and the turn are untouched |
| RunProperties.PlayEnemyTurnResolvesEffects | apps/web/src/stores/run.ts:363-375 | the card the enemy picks is paid for and discarded (the first hand card with its id leaves), then its effects apply as the enemy's, and `endTurn` is scheduled |
| RunProperties.PlayEnemyTurnPays | apps/web/src/stores/run.ts:363-383 | the card the enemy picks, without a truthy `energy` effect, leaves it exactly that card's cost poorer |
| RunModel.TurnStartHeals | apps/web/src/stores/run.ts:342-349 | only the player's health changes; from a health at most the maximum and non-negative amounts it ends at `min(maxHealth, health + sum of the truthy turn-start heal amounts)` |
| RunModel.PassiveTurnStart | apps/web/src/stores/run.ts:339-350 | only the player's health changes; without a passive ability nothing changes; with one, the health ends at the capped sum of its turn-start heals |
| RunProperties.PassTurnEndsTurn | apps/web/src/stores/run.ts:322-331 | the mover's statuses tick, the other fighter is untouched, the turn flips, the round counter goes up exactly when the enemy's turn ends, the piles are untouched, and the run is unchanged or ended by the mover's death |
| RunProperties.BeginTurnStartsTurn | apps/web/src/stores/run.ts:334-354 | the new mover has its energy refilled to the maximum and nothing else of it changes, it draws the front card of its deck (if any); the other side, both discards, the game, the stats, the character and the encounter are unchanged |
| RunModel.EndTurn | apps/web/src/stores/run.ts:319-361 | no change outside battle; in battle the turn flips, the enemy's reply is scheduled exactly after the player's turn, and the round counter goes up exactly after the enemy's turn |
| RunModel.StartGame | apps/web/src/stores/run.ts:121-123 | the phase becomes character selection, from any phase |
| RunModel.SelectCharacter | apps/web/src/stores/run.ts:125-138 | the character's health and energy become current and maximum; the deck's ids are exactly the starting ids that resolve, each the catalog's card; armor, statuses, hand, discard, the enemy and its three piles, the encounter, the stats and the turn fields are kept; on to encounter selection |
| RunModel.StartBattle | apps/web/src/stores/run.ts:155-164 | battle, turn 1, the player to move, the clock started; five player cards and three enemy cards move from the front of the decks (fewer when a deck is short); fighters, discards, character and encounter are kept |
| RunModel.SelectEncounter | apps/web/src/stores/run.ts:140-153 | the enemy takes the encounter's health and energy 2 (armor and statuses kept); its deck is built from the encounter's ids and it draws min(3, deck size) from it; the player draws min(5, deck size); the battle starts at `now`; the player, the character and both discard piles are kept |
| RunModel.GameDuration | apps/web/src/stores/run.ts:104-107 | the whole seconds between the start and the end time (or `now` while no truthy end time is set), rounded down |
| RunModel.ScoreBase | apps/web/src/stores/run.ts:112 | the encounter's `score_base` when there is one and it is not 0, and 100 otherwise |
| RunModel.ScoreMultiplier | apps/web/src/stores/run.ts:113 | the encounter's `score_multiplier` when there is one and it is not 0, and 1 otherwise |
| RunModel.FinalScore | apps/web/src/stores/run.ts:109-118 | 0 unless won; otherwise the largest integer not above the raw score |
| RunProperties.DrawnTakesFront | apps/web/src/stores/run.ts:166-171 | exactly the first `min(count, deck size)` deck cards, in order, are appended to the hand, and the total size is unchanged |
| RunProperties.DrawKeepsIds | apps/web/src/stores/run.ts:166-171 | drawing keeps the ids each side owns |
| RunProperties.RemoveAtIds | apps/web/src/stores/run.ts:182 | `splice(i, 1)` removes exactly the id of the card at `i` |
| RunProperties.PayAndDiscardKeepsIds | apps/web/src/stores/run.ts:182-186 | paying for a card moves its id from the hand to the discard pile |
| RunProperties.PlayCardKeepsIds | apps/web/src/stores/run.ts:173-195 | a played card keeps the ids each side owns |
| RunProperties.PlayEnemyTurnKeepsIds | apps/web/src/stores/run.ts:363-383 | the enemy's play keeps the ids each side owns |
| RunProperties.BeginTurnKeepsIds | apps/web/src/stores/run.ts:334-355 | the refill and draw at a turn start keep the ids each side owns |
| RunProperties.EndTurnKeepsIds | apps/web/src/stores/run.ts:319-361 | ending a turn keeps the ids each side owns |
| RunProperties.StepKeepsIds | apps/web/src/stores/run.ts:173-387 | any battle action keeps the ids each side owns |
| RunProperties.BattleKeepsIds | apps/web/src/stores/run.ts:173-387 | over any sequence of battle actions, each side's deck, hand and discard together hold the same ids |
| RunProperties.DealDamageValid | apps/web/src/stores/run.ts:261-275 | a hit keeps the run invariant |
| RunProperties.ApplyEffectValid | apps/web/src/stores/run.ts:202-257 | one effect with a non-negative amount keeps the run invariant |
| RunProperties.ApplyEffectsValid | apps/web/src/stores/run.ts:197-259 | a card's well-formed effects keep the run invariant |
| RunProperties.TickActionsValid | apps/web/src/stores/run.ts:290-311 | status actions keep the run invariant |
| RunProperties.ProcessStatusEffectsValid | apps/web/src/stores/run.ts:287-317 | a status tick keeps the run invariant |
| RunProperties.PlayCardValid | apps/web/src/stores/run.ts:173-195 | playing a well-formed card keeps the run invariant (energy stays at least 0) |
| RunProperties.PlayEnemyTurnValid | apps/web/src/stores/run.ts:363-383 | the enemy's play keeps the run invariant |
| RunProperties.PassiveTurnStartValid | apps/web/src/stores/run.ts:339-350 | the passive heals keep the run invariant |
| RunProperties.EndTurnValid | apps/web/src/stores/run.ts:319-361 | ending a turn keeps the run invariant |
| RunProperties.SelectCharacterValid | apps/web/src/stores/run.ts:125-138 | choosing a well-formed character from a well-formed catalog keeps the run invariant |
| RunProperties.StartBattleValid | apps/web/src/stores/run.ts:155-164 | starting the battle keeps the run invariant |
| RunProperties.SelectEncounterValid | apps/web/src/stores/run.ts:140-153 | choosing a well-formed encounter keeps the run invariant |
| RunProperties.InitialValid | apps/web/src/stores/run.ts:44-87 | a new or reset store satisfies the run invariant |
| RunProperties.StepValid | apps/web/src/stores/run.ts:121-466 | every store action with well-formed data keeps the run invariant |
| RunProperties.ExecuteValid | apps/web/src/stores/run.ts:121-466 | any sequence of store actions with well-formed data keeps the run invariant |
| RunProperties.EndTurnStartsNextTurn | apps/web/src/stores/run.ts:319-361 | the ending side's statuses tick; the starting side has full energy and one more card from the front of its deck; the ending side's deck and hand are untouched |
| RunProperties.PassiveHealOnlyOnPlayerTurn | apps/web/src/stores/run.ts:334-350 | the player's start of turn refills energy and, with a passive ability, sets health to the capped sum of the turn-start heals; the start of the enemy's turn leaves the player as the status tick left it |
| RunProperties.PlayerTurnStartHeals | apps/web/src/stores/run.ts:333-347 | when the enemy's turn ends, the player is refilled with the selection kept, and `endTurn`'s state is the passive heals applied to that |
| RunProperties.RoundReturnsToPlayer | apps/web/src/stores/run.ts:319-383 | after the player's turn and the enemy's reply, the run has ended or it is the player's turn again with one more round counted |
| RunProperties.CardPlayableAfterVictory | apps/web/src/stores/run.ts:173-195 | a held, affordable card is accepted and counted after the run is won |
| RunProperties.FreeCardPlayableWithoutEnergy | apps/web/src/stores/run.ts:93-97 | at zero energy `canPlayCards` is false, yet a free card in hand is accepted |
| RunProperties.CanPlayCardsAfterTurnStart | apps/web/src/stores/run.ts:93-97 | at the start of every player turn `canPlayCards` holds when the maximum energy is positive, since energy is refilled to that maximum |
| RunProperties.DefaultRewardsScore | apps/web/src/stores/run.ts:109-118 | with no rewards a win scores 100 plus twice the health plus the speed bonus |
| RunProperties.FinalScoreExample | apps/web/src/stores/run.ts:109-118 | base 100, multiplier 2, health 50, 120 seconds: 760 |
| RunProperties.FinalScoreMonotoneInHealth | apps/web/src/stores/run.ts:109-118 | more health never lowers the score for a non-negative multiplier |
| RunProperties.ZeroEndTimeMeansRunning | apps/web/src/stores/run.ts:104-107 | an end time of 0 counts as unset |
| RunStore.DrawCards | apps/web/src/stores/run.ts:166-171 | the loop's new deck and hand are the ones `RunModel.Drawn` describes |
| RunStore.SplicedFromStep | apps/web/src/stores/run.ts:313-316 | each splice of the reversed list hits an index still in range and removes exactly that element |
| RunStore.SplicedFromAll | apps/web/src/stores/run.ts:313-316 | splicing out the collected indices from the highest down leaves exactly the survivors, in order |
| RunStore.Store.constructor | apps/web/src/stores/run.ts:44-87 | the refs hold `RunModel.Initial` |
| RunStore.Store.StartGame | apps/web/src/stores/run.ts:121-123 | the new state is `RunModel.StartGame` of the old |
| RunStore.Store.SelectCharacter | apps/web/src/stores/run.ts:125-138 | the new state is `RunModel.SelectCharacter` of the old, with the catalog's cards |
| RunStore.Store.SelectEncounter | apps/web/src/stores/run.ts:140-153 | the new state is `RunModel.SelectEncounter` of the old |
| RunStore.Store.StartBattle | apps/web/src/stores/run.ts:155-164 | the new state is `RunModel.StartBattle` of the old |
| RunStore.Store.DrawFor | apps/web/src/stores/run.ts:162-163 | the new state is the old with one side's cards drawn |
| RunStore.Store.PlayCard | apps/web/src/stores/run.ts:173-195 | the new state and the result are `RunModel.PlayCard` of the old |
| RunStore.Store.PayAndApply | apps/web/src/stores/run.ts:182-189 | the card leaves the hand at the index, is discarded and paid for, then its effects apply |
| RunStore.Store.ApplyCardEffects | apps/web/src/stores/run.ts:197-259 | the loop leaves the state `RunModel.ApplyEffects` describes |
| RunStore.Store.ApplyCardEffect | apps/web/src/stores/run.ts:202-257 | one case of the switch leaves the state `RunModel.ApplyEffect` describes |
| RunStore.Store.DealDamage | apps/web/src/stores/run.ts:261-275 | the new state is `RunModel.DealDamage` of the old |
| RunStore.Store.Heal | apps/web/src/stores/run.ts:277-279 | only the side's fighter changes, by `Combat.Heal` |
| RunStore.Store.AddStatusEffect | apps/web/src/stores/run.ts:281-285 | only the side's status list changes, by `Combat.AddStatus` |
| RunStore.Store.TickStatus | apps/web/src/stores/run.ts:291-304 | the new state is `RunModel.TickAction` of the old |
| RunStore.Store.ActAndDecrement | apps/web/src/stores/run.ts:290-311 | after the `forEach` every status has acted and lost one turn in place, and the collected indices are exactly the expired ones, increasing |
| RunStore.Store.ActOnAll | apps/web/src/stores/run.ts:290-311 | the loop of the `forEach`: after it, every status has acted in stored order (`RunStore.Acted` of all of them), every duration has dropped by one in place, and the collected indices are exactly the expired ones, increasing |
| RunStore.Store.ActAt | apps/web/src/stores/run.ts:291-310 | one turn of the `forEach`: the status at the index acts on the run, its duration drops by one at that index, and the index is collected exactly when the new duration is at most 0 |
| RunStore.ActedIsTickActions | apps/web/src/stores/run.ts:290-305 | acting on the first k statuses one at a time is `RunModel.TickActions` of that prefix |
| RunStore.Store.SetStatus | apps/web/src/stores/run.ts:307 | one status is overwritten in place; nothing else changes |
| RunStore.Store.Splice | apps/web/src/stores/run.ts:315 | one status is spliced out; nothing else changes |
| RunStore.Store.RemoveExpired | apps/web/src/stores/run.ts:313-316 | the reversed splice pass leaves exactly the survivors of the decremented list |
| RunStore.Store.ProcessStatusEffects | apps/web/src/stores/run.ts:287-317 | the two passes leave the state `RunModel.ProcessStatusEffects` describes |
| RunStore.Store.EndTurn | apps/web/src/stores/run.ts:319-361 | the new state and the scheduling flag are `RunModel.EndTurn` of the old |
| RunStore.Store.PassCurrentTurn | apps/web/src/stores/run.ts:322-331 | the mover's statuses are processed, the round counter moves after the enemy's turn, and the turn passes: the new state is `RunModel.PassTurn` of the old |
| RunStore.Store.StartNextTurn | apps/web/src/stores/run.ts:333-352 | the new mover's energy is refilled and it draws one card: the new state is `RunModel.BeginTurn` of the old (the passive heals follow in `ApplyTurnStartAbility`) |
| RunStore.Store.ApplyTurnStartAbility | apps/web/src/stores/run.ts:339-350 | the loop over the ability's effects leaves the state `RunModel.PassiveTurnStart` describes |
| RunStore.Store.PlayEnemyTurn | apps/web/src/stores/run.ts:363-383 | the search loop and the play leave the state and flag `RunModel.PlayEnemyTurn` describes |
| RunStore.Store.EndGame | apps/web/src/stores/run.ts:385-387 | the new state is `RunModel.EndGame` of the old |
| RunStore.Store.ResetGame | apps/web/src/stores/run.ts:424-466 | every ref is back at `RunModel.Initial` with the new start time |

## Left out

- Fetching from the database (the Supabase queries in `loadAll`, `loadCards`,
  `loadCharacters`, `loadEncounters`) is network I/O: each query's outcome is a `Fetch`
  parameter (its rows, or a failure with the message of the thrown `Error` if there is
  one). A `null` data field is passed as empty rows, as `data || []` makes it. The
  concurrency of `Promise.all` and the `console` logging are not modelled; the rethrow
  is the `false` result.
- The submission half of `endGame` (device id, signature, `submitRun`) is I/O outside
  the store; only the phase and the end time are modelled.
- `apps/web/src/lib/device.ts`, `apps/web/src/lib/leaderboard.ts`,
  `supabase/functions/submit_run/index.ts` and `apps/web/src/router/index.ts` are not part
  of this model (browser storage, cryptography, remote calls, routing).
- `setTimeout` is not modelled as concurrency: the delayed `playEnemyTurn` and
  `endTurn` are explicit steps the driver takes in order.
- `Date.now()` is the parameter `now` (and `fetchedAt` for the loads' stamp); the two computeds that read it keep their value as described for `isCacheValid` and `RunModel.GameDuration`.
- `healthPercent` is a floating-point display value and is left out; `isAlive` is
  `health > 0` and needs no separate member.
- Catalog.ToLower: lower-cases the ASCII letters only; JavaScript's `toLowerCase`
  also maps other Unicode letters.
- RunModel.FinalScore: `score_multiplier` is an exact `real`, so the floating-point
  rounding of the product before `Math.floor` is not modelled.
- The catalog fields the code never reads (card chance and percent fields, image urls,
  timestamps) are not in the datatypes; effect kinds are free text, as in the data.
- Vue reactivity (`ref`, `computed`) is not modelled in general: a computed value whose
  inputs are all reactive is a function of the state, and the catalog the run store
  reads is the `CatalogStore` it holds. The one computed the loads depend on that reads
  the clock, `isCacheValid`, keeps its verdict in `CatalogStore.cacheVerdict`.
- RunModel.GameDuration: while no end time is set, the program's value is cached from
  the computed's most recent evaluation (the clock is not reactive; it is re-evaluated
  when `startTime` or `endTime` changes); the model takes that evaluation's clock as
  `now` and does not track when it happened. `finalScore` reads it only after `endTime`
  is set, so no score is affected.
- The object identity the code relies on (`target === player.value`, `source` captured
  once per card) becomes a `Side` tag; no two refs alias in the store, so this loses nothing.

