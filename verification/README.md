# BTD6 companion: tower-selection state

A Dafny model of the selection logic of the Bloons Tower Defense 6 companion
app (`btd6_companion.py`). The app keeps a tower catalog of four categories.
It lets the user filter the catalog by category and then by individual
tower, and it draws a random monkey team from the towers that remain.

Modules:

- `Seqs` (`seqs.dfy`): duplicate-free sequences, plus the lemmas that link
  distinctness to concatenation and to multisets.
- `Catalog` (`catalog.dfy`): the constants `TOWERS` (`Towers`, with the key
  order `Keys`) and `MONKEY_IMAGES` (`MonkeyImages`). It also holds the
  facts about them: 24 distinct names, the categories partition the towers,
  and every tower has an image.
- `Derivation` (`derivation.dfy`): the available-tower pool. It is the
  concatenation of the selected categories' lists, in the order the
  categories are selected. `Derive` is the recursive definition.
  `CollectAvailable` is the source's accumulate-and-extend loop, proved
  equal to it.
- `Session` (`session.dfy`): the three session fields
  (`selected_tower_categories`, `available_towers`, `selected_towers`).
  `PartialSession` is the store before initialisation, when fields may be
  absent. This module has the four transitions: `Initialize`,
  `ChangeCategories`, `ChangeTowers` and `Reset`. It also has the
  consistency invariant `Valid`, and user actions (`Event`, `Step`, `Run`)
  with the widget guarantees written as `Admissible`.
- `Team` (`team.dfy`): the team draw. It is a method that picks positions
  nondeterministically, without replacement.

The selected categories are a sequence, not a set, because the pool follows
the order the multiselect widget hands them over in. In the source,
`selected_towers` aliases the `available_towers` list. As values, the model
simply makes the two fields equal.

## Model

| member | source | states |
|---|---|---|
| Catalog.KeysEnumerateCatalog | btd6_companion.py:42-47 | the key order lists the four categories of the catalog once each and nothing else |
| Catalog.TowerNamesDistinct | btd6_companion.py:10-41 | the four category lists together hold 24 tower names, pairwise distinct |
| Catalog.CategoriesPartitionTowers | btd6_companion.py:10-47 | no category repeats a tower; no tower is in two categories; the towers of all categories are exactly the 24 catalog towers |
| Catalog.EveryTowerHasImage | btd6_companion.py:49-74 | every tower of every category is a key of the image table, and the image table has no other keys |
| Derivation.Derive | btd6_companion.py:167-170 | a tower is in the derived pool if and only if some selected category lists it |
| Derivation.DeriveAppend | btd6_companion.py:136-139 | deriving from a selection `a + b` gives the pool of `a` followed by the pool of `b`, so the pool follows the selection order |
| Derivation.DeriveSingle | btd6_companion.py:138 | a one-category selection derives exactly that category's list |
| Derivation.DeriveLength | btd6_companion.py:147-149 | the pool's length is the sum of the selected categories' list lengths |
| Derivation.DeriveDistinct | btd6_companion.py:134-139 | a selection naming no category twice derives a pool with no repeated tower |
| Derivation.DeriveAllCategories | btd6_companion.py:134-139 | selecting all keys in catalog order derives all 24 towers in catalog order |
| Derivation.CollectAvailable | btd6_companion.py:147-150 | the start-empty-then-extend loop computes exactly the derived pool |
| Session.Initialize | btd6_companion.py:132-141 | fields already present are kept unchanged; absent categories become all keys, an absent pool is derived from the categories, absent selected towers become the pool |
| Session.InitializeEmpty | btd6_companion.py:132-141 | initialising an empty store gives all categories, and all 24 towers as both the pool and the selection |
| Session.InitializeIdempotent | btd6_companion.py:132-141 | initialising the store that initialisation produced changes nothing |
| Session.InitializeValid | btd6_companion.py:132-141 | when the pool and selection are absent and any stored categories are known and unrepeated, initialisation yields a consistent session |
| Session.ChangeCategories | btd6_companion.py:162-171 | after a category change, the categories are the new list, the pool holds exactly the towers those categories offer, and the selection is the whole new pool |
| Session.ChangeCategoriesValid | btd6_companion.py:162-171 | a category change to known, unrepeated categories leaves a consistent session |
| Session.ChangeCategoriesForgetsNarrowing | btd6_companion.py:171 | the result of a category change does not depend on the earlier session, so any earlier narrowing is lost |
| Session.ChangeTowers | btd6_companion.py:174-175 | after a tower change, the selection is exactly the given list in its order, and categories and pool are unchanged |
| Session.ChangeTowersValid | btd6_companion.py:97-103 | narrowing to unrepeated towers taken from the pool (the widget's options) keeps the session consistent |
| Session.Reset | btd6_companion.py:144-151 | from any session, reset gives the same state as initialising an empty store: all keys, and all 24 towers as pool and selection |
| Session.ResetSelectsAll | btd6_companion.py:146-151 | reset equals a category change to all keys |
| Session.ResetIdempotent | btd6_companion.py:144-151 | resetting twice equals resetting once |
| Session.StepValid | btd6_companion.py:89-103 | every action the widgets can deliver keeps a consistent session consistent |
| Session.RunValid | btd6_companion.py:89-103 | any sequence of deliverable actions keeps a consistent session consistent |
| Session.SelectedTowersHaveImages | btd6_companion.py:121-123 | in a consistent session every selected tower has an image, so the image lookup cannot fail |
| Session.ReachableSessionsConsistent | btd6_companion.py:79-103 | every session reachable from first-run initialisation through deliverable actions is consistent, and all its selected towers have images |
| Team.DrawTeam | btd6_companion.py:105-118 | for a team size from 1 to the selection size minus one, the team has exactly that many towers, drawn without replacement (its multiset is within the selection's), all of them selected; it is duplicate-free when the selection is, and every member has an image when the session is consistent |

## Left out

- Streamlit rendering is not modelled: title, tabs, headers, columns, buttons, `st.write` and `st.image` (btd6_companion.py:81-129). Only the state they read and write is modelled.
- The widget-key bookkeeping in `reset_selections` is not modelled (btd6_companion.py:153-159). It deletes and re-seeds the two multiselect keys with the same values the reset gives the session fields.
- Streamlit widget behaviour is stated as assumptions, not modelled. The category widget offers only the catalog keys. The tower widget offers only the current pool. A multiselect never returns a value twice. These assumptions make up `Session.Admissible`.
- Session.ChangeCategories: requires known categories. In the source an unknown category raises `KeyError` inside the loop, after `selected_tower_categories` has already been overwritten. The widget's options rule that case out, so the partial update is not modelled.
- Session.Initialize: requires known stored categories when the pool must be derived, for the same `KeyError` reason.
- Team.DrawTeam: the team-size bound of 1 to the selection size minus one is a precondition. When fewer than two towers are selected, the widget's maximum is below its minimum. The widget's default value is 3, which can exceed its maximum. Streamlit's handling of both cases is not part of this model.
- Team.DrawTeam: the distribution of `np.random.choice` is not modelled. The model keeps only the draw's set-level guarantees. The positions are picked by nondeterministic choice, with nothing said about uniformity.
- The upper bound of one fewer than the selection size means the whole selection can never be drawn. The model keeps this bound as written.
- Image paths are opaque strings. No image file is loaded.
- Sessions live in one process and are not persisted. Concurrency between sessions is not modelled.
