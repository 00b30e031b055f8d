/**
  The per-user selection state of the team generator and the transitions
  the app applies to it: first-visit initialisation, a new category
  selection, a new tower selection, and the reset button.
 */
module Session {
  import opened Seqs
  import opened Catalog
  import opened Derivation

  datatype Option<T> = None | Some(value: T)

  /** The three session fields, all present. */
  datatype Session = Session(
    categories: seq<Category>,
    available: seq<Tower>,
    selected: seq<Tower>)

  /** The session store before initialisation: any field may be absent. */
  datatype PartialSession = PartialSession(
    categories: Option<seq<Category>>,
    available: Option<seq<Tower>>,
    selected: Option<seq<Tower>>)

  /** A session on its very first run holds none of the fields. */
  const Empty: PartialSession := PartialSession(None, None, None)

  /** The store holding every field of `s`. */
  function Stored(s: Session): PartialSession {
    PartialSession(Some(s.categories), Some(s.available), Some(s.selected))
  }

  /** The consistency the app keeps between the fields: known categories
      named once each, the pool derived from them, and a selection drawn
      from the pool without repetition. */
  predicate Valid(s: Session) {
    && AllKnown(s.categories)
    && Distinct(s.categories)
    && s.available == Derive(s.categories)
    && Distinct(s.selected)
    && SubsetOf(s.selected, s.available)
  }

  /** Every category in key order, every tower, nothing narrowed. */
  function Default(): (s: Session)
    ensures Valid(s)
    ensures s.categories == Keys
    ensures s.available == AllTowers && s.selected == AllTowers
  {
    KeysEnumerateCatalog();
    DeriveAllCategories();
    TowerNamesDistinct();
    Session(Keys, Derive(Keys), Derive(Keys))
  }

  /** First-run initialisation: fills only the absent fields, each from the
      ones before it. Deriving the pool looks every selected category up in
      the catalog, so that case needs known categories. */
  function Initialize(p: PartialSession): (s: Session)
    requires p.available.None? && p.categories.Some? ==> AllKnown(p.categories.value)
    ensures p.categories.Some? ==> s.categories == p.categories.value
    ensures p.available.Some? ==> s.available == p.available.value
    ensures p.selected.Some? ==> s.selected == p.selected.value
    ensures p.categories.None? ==> s.categories == Keys
    ensures p.available.None? ==> s.available == Derive(s.categories)
    ensures p.selected.None? ==> s.selected == s.available
  {
    KeysEnumerateCatalog();
    var categories := if p.categories.Some? then p.categories.value else Keys;
    var available := if p.available.Some? then p.available.value else Derive(categories);
    var selected := if p.selected.Some? then p.selected.value else available;
    Session(categories, available, selected)
  }

  /** Initialising an empty store yields the default session. */
  lemma InitializeEmpty()
    ensures Initialize(Empty) == Default()
    ensures Initialize(Empty).available == AllTowers
    ensures Initialize(Empty).selected == AllTowers
  {
  }

  /** On a fully populated store initialisation changes nothing, so running
      it on every rerun of the app is harmless. */
  lemma InitializeIdempotent(p: PartialSession)
    requires p.available.None? && p.categories.Some? ==> AllKnown(p.categories.value)
    ensures Initialize(Stored(Initialize(p))) == Initialize(p)
  {
  }

  /** A store whose absent fields can be derived consistently initialises to
      a consistent session. */
  lemma InitializeValid(p: PartialSession)
    requires p.categories.Some? ==> AllKnown(p.categories.value) && Distinct(p.categories.value)
    requires p.available.None? && p.selected.None?
    ensures Valid(Initialize(p))
  {
    KeysEnumerateCatalog();
    var s := Initialize(p);
    DeriveDistinct(s.categories);
  }

  /** The category callback: store the new selection, re-derive the pool,
      and reset the tower selection to the whole new pool. */
  function ChangeCategories(s: Session, cats: seq<Category>): (r: Session)
    requires AllKnown(cats)
    ensures r.categories == cats
    ensures forall t :: t in r.available <==> Offered(cats, t)
    ensures r.selected == r.available
  {
    var available := Derive(cats);
    Session(cats, available, available)
  }

  /** A category selection that names each category once yields a
      consistent session whose pool repeats no tower. */
  lemma ChangeCategoriesValid(s: Session, cats: seq<Category>)
    requires AllKnown(cats) && Distinct(cats)
    ensures Valid(ChangeCategories(s, cats))
  {
    DeriveDistinct(cats);
  }

  /** A category change forgets any earlier narrowing: its result does not
      depend on the session it was applied to. */
  lemma ChangeCategoriesForgetsNarrowing(s: Session, s': Session, cats: seq<Category>)
    requires AllKnown(cats)
    ensures ChangeCategories(s, cats) == ChangeCategories(s', cats)
    ensures ChangeCategories(s, cats).available == Derive(cats)
  {
  }

  /** The tower callback: the selection becomes exactly the widget's list. */
  function ChangeTowers(s: Session, towers: seq<Tower>): (r: Session)
    ensures r.selected == towers
    ensures r.categories == s.categories && r.available == s.available
  {
    s.(selected := towers)
  }

  /** Narrowing to towers offered by the pool, each named once, keeps the
      session consistent. */
  lemma ChangeTowersValid(s: Session, towers: seq<Tower>)
    requires Valid(s)
    requires Distinct(towers) && SubsetOf(towers, s.available)
    ensures Valid(ChangeTowers(s, towers))
  {
  }

  /** The reset button: back to every category and every tower, whatever
      was selected before. */
  function Reset(s: Session): (r: Session)
    ensures r == Initialize(Empty)
    ensures r.categories == Keys
    ensures r.available == AllTowers && r.selected == AllTowers
    ensures Valid(r)
  {
    DeriveAllCategories();
    Default()
  }

  /** Reset is selecting every category through the category callback. */
  lemma ResetSelectsAll(s: Session)
    ensures AllKnown(Keys)
    ensures Reset(s) == ChangeCategories(s, Keys)
  {
    KeysEnumerateCatalog();
  }

  /** Pressing reset twice is the same as pressing it once. */
  lemma ResetIdempotent(s: Session)
    ensures Reset(Reset(s)) == Reset(s)
  {
  }

  /** A user action on the selection widgets or the reset button. */
  datatype Event =
    | CategoriesPicked(cats: seq<Category>)
    | TowersPicked(towers: seq<Tower>)
    | ResetPressed

  /** What the widgets can deliver: the category widget offers the catalog
      keys and the tower widget the current pool, and a multi-select never
      holds a value twice. */
  predicate Admissible(s: Session, e: Event) {
    match e
    case CategoriesPicked(cats) => AllKnown(cats) && Distinct(cats)
    case TowersPicked(towers) => Distinct(towers) && SubsetOf(towers, s.available)
    case ResetPressed => true
  }

  /** The session after one user action. */
  function Step(s: Session, e: Event): Session
    requires Admissible(s, e)
  {
    match e
    case CategoriesPicked(cats) => ChangeCategories(s, cats)
    case TowersPicked(towers) => ChangeTowers(s, towers)
    case ResetPressed => Reset(s)
  }

  /** Every action in `es` can be delivered in the state it meets. */
  predicate AdmissibleRun(s: Session, es: seq<Event>)
    decreases |es|
  {
    es == [] || (Admissible(s, es[0]) && AdmissibleRun(Step(s, es[0]), es[1..]))
  }

  /** The session after a sequence of user actions. */
  function Run(s: Session, es: seq<Event>): Session
    requires AdmissibleRun(s, es)
    decreases |es|
  {
    if es == [] then s else Run(Step(s, es[0]), es[1..])
  }

  /** Every user action keeps the session consistent. */
  lemma StepValid(s: Session, e: Event)
    requires Valid(s) && Admissible(s, e)
    ensures Valid(Step(s, e))
  {
    if e.CategoriesPicked? {
      ChangeCategoriesValid(s, e.cats);
    }
  }

  /** Any sequence of user actions keeps the session consistent. */
  lemma {:induction false} RunValid(s: Session, es: seq<Event>)
    requires Valid(s) && AdmissibleRun(s, es)
    ensures Valid(Run(s, es))
    decreases |es|
  {
    if es != [] {
      StepValid(s, es[0]);
      RunValid(Step(s, es[0]), es[1..]);
    }
  }

  /** In a consistent session every selected tower is a catalog tower and
      so has a picture. */
  lemma SelectedTowersHaveImages(s: Session)
    requires Valid(s)
    ensures forall t :: t in s.selected ==> t in MonkeyImages
  {
    CategoriesPartitionTowers();
    EveryTowerHasImage();
  }

  /** Starting from the first-run session, whatever the user does, the
      selection stays consistent and every selected tower has a picture. */
  lemma ReachableSessionsConsistent(es: seq<Event>)
    requires AdmissibleRun(Initialize(Empty), es)
    ensures Valid(Run(Initialize(Empty), es))
    ensures forall t :: t in Run(Initialize(Empty), es).selected ==> t in MonkeyImages
  {
    InitializeEmpty();
    RunValid(Initialize(Empty), es);
    SelectedTowersHaveImages(Run(Initialize(Empty), es));
  }
}
