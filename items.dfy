/**
 * The category identifiers (item.Item) that callers hand to the registry.
 * Each recognised identifier names a (browser family, data category) pair;
 * every identifier the registry does not list is folded into Other.
 */
module Items {
  import opened Wrappers

  datatype Family = Chromium | Yandex | Firefox

  datatype Category =
    | Password | Cookie | Bookmark | History | Download
    | CreditCard | LocalStorage | SessionStorage | Extension

  /** A (browser family, data category) pair. */
  datatype Kind = Kind(family: Family, category: Category)

  datatype Item =
    | ChromiumPassword | ChromiumCookie | ChromiumBookmark | ChromiumHistory | ChromiumDownload
    | ChromiumCreditCard | ChromiumLocalStorage | ChromiumSessionStorage | ChromiumExtension
    | YandexPassword | YandexCreditCard
    | FirefoxPassword | FirefoxCookie | FirefoxBookmark | FirefoxHistory | FirefoxDownload
    | FirefoxLocalStorage | FirefoxExtension
      /** Any other identifier of the enumeration (key files and the like), by its code. */
    | Other(code: nat)

  /** The pair an identifier denotes, read off its name; None for Other. */
  function KindOf(i: Item): Option<Kind>
  {
    match i
    case ChromiumPassword => Some(Kind(Chromium, Password))
    case ChromiumCookie => Some(Kind(Chromium, Cookie))
    case ChromiumBookmark => Some(Kind(Chromium, Bookmark))
    case ChromiumHistory => Some(Kind(Chromium, History))
    case ChromiumDownload => Some(Kind(Chromium, Download))
    case ChromiumCreditCard => Some(Kind(Chromium, CreditCard))
    case ChromiumLocalStorage => Some(Kind(Chromium, LocalStorage))
    case ChromiumSessionStorage => Some(Kind(Chromium, SessionStorage))
    case ChromiumExtension => Some(Kind(Chromium, Extension))
    case YandexPassword => Some(Kind(Yandex, Password))
    case YandexCreditCard => Some(Kind(Yandex, CreditCard))
    case FirefoxPassword => Some(Kind(Firefox, Password))
    case FirefoxCookie => Some(Kind(Firefox, Cookie))
    case FirefoxBookmark => Some(Kind(Firefox, Bookmark))
    case FirefoxHistory => Some(Kind(Firefox, History))
    case FirefoxDownload => Some(Kind(Firefox, Download))
    case FirefoxLocalStorage => Some(Kind(Firefox, LocalStorage))
    case FirefoxExtension => Some(Kind(Firefox, Extension))
    case Other(_) => None
  }

  /** The identifiers the registry has a source type for. */
  predicate Recognised(i: Item)
  {
    !i.Other?
  }
}
