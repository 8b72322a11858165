/**
 * The source registry: the switch in addSources that turns a category
 * identifier into a fresh source of its one concrete type, and the map it
 * fills when run over a list of identifiers.
 */
module Registry {
  import opened Wrappers
  import opened Items
  import Sources

  /** The switch: the concrete type allocated for an identifier, None for one it does not list. */
  function Lookup(i: Item): (v: Option<Sources.Variant>)
    ensures v.Some? <==> Recognised(i)
    ensures v.Some? ==> KindOf(i) == Some(Sources.KindOf(v.value))
  {
    match i
    case ChromiumPassword => Some(Sources.ChromiumPassword)
    case ChromiumCookie => Some(Sources.ChromiumCookie)
    case ChromiumBookmark => Some(Sources.ChromiumBookmark)
    case ChromiumHistory => Some(Sources.ChromiumHistory)
    case ChromiumDownload => Some(Sources.ChromiumDownload)
    case ChromiumCreditCard => Some(Sources.ChromiumCreditCard)
    case ChromiumLocalStorage => Some(Sources.ChromiumLocalStorage)
    case ChromiumSessionStorage => Some(Sources.ChromiumSessionStorage)
    case ChromiumExtension => Some(Sources.ChromiumExtension)
    case YandexPassword => Some(Sources.YandexPassword)
    case YandexCreditCard => Some(Sources.YandexCreditCard)
    case FirefoxPassword => Some(Sources.FirefoxPassword)
    case FirefoxCookie => Some(Sources.FirefoxCookie)
    case FirefoxBookmark => Some(Sources.FirefoxBookmark)
    case FirefoxHistory => Some(Sources.FirefoxHistory)
    case FirefoxDownload => Some(Sources.FirefoxDownload)
    case FirefoxLocalStorage => Some(Sources.FirefoxLocalStorage)
    case FirefoxExtension => Some(Sources.FirefoxExtension)
    case Other(_) => None
  }

  /** Distinct types carry distinct (family, category) pairs. */
  lemma KindOfInjective(v: Sources.Variant, w: Sources.Variant)
    requires Sources.KindOf(v) == Sources.KindOf(w)
    ensures v == w
  {
    match v
    case ChromiumPassword =>
    case ChromiumCookie =>
    case ChromiumBookmark =>
    case ChromiumHistory =>
    case ChromiumDownload =>
    case ChromiumCreditCard =>
    case ChromiumLocalStorage =>
    case ChromiumSessionStorage =>
    case ChromiumExtension =>
    case YandexPassword =>
    case YandexCreditCard =>
    case FirefoxPassword =>
    case FirefoxCookie =>
    case FirefoxBookmark =>
    case FirefoxHistory =>
    case FirefoxDownload =>
    case FirefoxLocalStorage =>
    case FirefoxExtension =>
  }

  /**
   * The switch is exactly "allocate the type of the same family and
   * category": Lookup(i) is v precisely when v's name and package denote
   * the pair i denotes.
   */
  lemma LookupMatchesKind(i: Item, v: Sources.Variant)
    ensures Lookup(i) == Some(v) <==> KindOf(i) == Some(Sources.KindOf(v))
  {
    if KindOf(i) == Some(Sources.KindOf(v)) {
      KindOfInjective(Lookup(i).value, v);
    }
  }

  /** Different identifiers never share a concrete type. */
  lemma LookupInjective(i: Item, j: Item)
    requires Lookup(i).Some? && Lookup(i) == Lookup(j)
    ensures i == j
  {
  }

  /** One iteration of the addSources loop: on a hit, set (or overwrite) the entry. */
  function Step(m: map<Item, Sources.Variant>, i: Item): map<Item, Sources.Variant>
  {
    match Lookup(i)
    case Some(v) => m[i := v]
    case None => m
  }

  /** The map addSources leaves when started on m: the switch run over items in order. */
  function AddAll(m: map<Item, Sources.Variant>, items: seq<Item>): map<Item, Sources.Variant>
    decreases |items|
  {
    if items == [] then m
    else Step(AddAll(m, items[..|items| - 1]), items[|items| - 1])
  }

  /** The map New(items) starts with: addSources run on an empty map. */
  function Build(items: seq<Item>): map<Item, Sources.Variant>
  {
    AddAll(map[], items)
  }

  /**
   * After addSources, an identifier has an entry exactly when it had one or
   * it is recognised and occurs in items; a requested recognised identifier's
   * entry is the type the switch assigns, any other keeps its old value.
   */
  lemma {:induction false} AddAllAt(m: map<Item, Sources.Variant>, items: seq<Item>, k: Item)
    ensures k in AddAll(m, items) <==> k in m || (k in items && Recognised(k))
    ensures k in items && Recognised(k) ==> AddAll(m, items)[k] == Lookup(k).value
    ensures k in m && !(k in items && Recognised(k)) ==> AddAll(m, items)[k] == m[k]
  {
    if items != [] {
      var init := items[..|items| - 1];
      AddAllAt(m, init, k);
      assert items == init + [items[|items| - 1]];
    }
  }

  /**
   * New(items): the keys are exactly the recognised identifiers occurring in
   * items (unrecognised ones leave no entry), and each key holds the type the
   * switch assigns to it.
   */
  lemma BuildSpec(items: seq<Item>)
    ensures Build(items).Keys == set i | i in items && Recognised(i)
    ensures forall k :: k in Build(items) ==> Build(items)[k] == Lookup(k).value
  {
    forall k
      ensures k in Build(items) <==> k in items && Recognised(k)
      ensures k in Build(items) ==> Build(items)[k] == Lookup(k).value
    {
      AddAllAt(map[], items, k);
    }
  }

  /**
   * The registry depends only on which recognised identifiers are requested:
   * not on their order, not on repetitions, not on unrecognised identifiers.
   */
  lemma BuildDependsOnlyOnRecognised(a: seq<Item>, b: seq<Item>)
    requires forall i :: Recognised(i) ==> (i in a <==> i in b)
    ensures Build(a) == Build(b)
  {
    BuildSpec(a);
    BuildSpec(b);
    assert Build(a).Keys == Build(b).Keys;
  }

  /** A repeated identifier collapses into the entry it already has. */
  lemma DuplicateCollapses(items: seq<Item>, i: Item)
    requires i in items
    ensures Build(items + [i]) == Build(items)
  {
    BuildDependsOnlyOnRecognised(items + [i], items);
  }

  /** A map holds at most one entry per recognised identifier, so never more than eighteen. */
  lemma BuildSize(items: seq<Item>)
    ensures |Build(items)| <= 18
  {
    var all := {Items.ChromiumPassword, Items.ChromiumCookie, Items.ChromiumBookmark, Items.ChromiumHistory,
                Items.ChromiumDownload, Items.ChromiumCreditCard, Items.ChromiumLocalStorage,
                Items.ChromiumSessionStorage, Items.ChromiumExtension, Items.YandexPassword,
                Items.YandexCreditCard, Items.FirefoxPassword, Items.FirefoxCookie, Items.FirefoxBookmark,
                Items.FirefoxHistory, Items.FirefoxDownload, Items.FirefoxLocalStorage, Items.FirefoxExtension};
    BuildSpec(items);
    assert Build(items).Keys <= all;
    assert |all| == 18;
    SubsetCard(Build(items).Keys, all);
  }

  lemma SubsetCard<T>(a: set<T>, b: set<T>)
    requires a <= b
    ensures |a| <= |b|
  {
    assert b == a + (b - a);
  }
}
