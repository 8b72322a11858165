/**
 * The Source contract (Parse / Name / Len) and the eighteen concrete source
 * types the registry can construct. The concrete parsing, decryption and
 * naming code of those types is outside the model: it is supplied as a
 * SourceImpl oracle.
 */
module Sources {
  import opened Wrappers
  import opened Items

  /** The concrete source types, named as in their packages: password.ChromiumPassword is ChromiumPassword. */
  datatype Variant =
    | ChromiumPassword | ChromiumCookie | ChromiumBookmark | ChromiumHistory | ChromiumDownload
    | ChromiumCreditCard | ChromiumLocalStorage | ChromiumSessionStorage | ChromiumExtension
    | YandexPassword | YandexCreditCard
    | FirefoxPassword | FirefoxCookie | FirefoxBookmark | FirefoxHistory | FirefoxDownload
    | FirefoxLocalStorage | FirefoxExtension

  /** The browser family of a type's name and the package (data category) it lives in. */
  function KindOf(v: Variant): Kind
  {
    match v
    case ChromiumPassword => Kind(Chromium, Password)
    case ChromiumCookie => Kind(Chromium, Cookie)
    case ChromiumBookmark => Kind(Chromium, Bookmark)
    case ChromiumHistory => Kind(Chromium, History)
    case ChromiumDownload => Kind(Chromium, Download)
    case ChromiumCreditCard => Kind(Chromium, CreditCard)
    case ChromiumLocalStorage => Kind(Chromium, LocalStorage)
    case ChromiumSessionStorage => Kind(Chromium, SessionStorage)
    case ChromiumExtension => Kind(Chromium, Extension)
    case YandexPassword => Kind(Yandex, Password)
    case YandexCreditCard => Kind(Yandex, CreditCard)
    case FirefoxPassword => Kind(Firefox, Password)
    case FirefoxCookie => Kind(Firefox, Cookie)
    case FirefoxBookmark => Kind(Firefox, Bookmark)
    case FirefoxHistory => Kind(Firefox, History)
    case FirefoxDownload => Kind(Firefox, Download)
    case FirefoxLocalStorage => Kind(Firefox, LocalStorage)
    case FirefoxExtension => Kind(Firefox, Extension)
  }

  /** One decrypted record; its category-specific schema is not modelled. */
  type Record

  /** What the encoders see of a source: its type and its records. */
  datatype Snapshot = Snapshot(variant: Variant, records: seq<Record>)

  /** What one call of Parse does: the records it leaves behind and the error it returns, if any. */
  datatype ParseOutcome = ParseOutcome(records: seq<Record>, err: Option<string>)

  /**
   * The behaviour of the concrete types that is not part of this model:
   * Name() is a constant per type, and Parse's effect depends only on the
   * type, the records the source already holds and the master key.
   */
  datatype SourceImpl = SourceImpl(
    name: Variant -> string,
    parse: (Variant, seq<Record>, seq<bv8>) -> ParseOutcome)

  /** A source object as the registry allocates it: a type and the records it holds. */
  class Source {
    const variant: Variant
    var records: seq<Record>

    /** A fresh, zero-state source (&password.ChromiumPassword{} and the like). */
    constructor (variant: Variant)
      ensures this.variant == variant && records == []
    {
      this.variant := variant;
      records := [];
    }

    function Len(): nat
      reads this
    {
      |records|
    }

    function Name(impl: SourceImpl): string
    {
      impl.name(variant)
    }

    function Snap(): Snapshot
      reads this
    {
      Snapshot(variant, records)
    }

    /** Parse(masterKey): replaces the records with what the concrete type decrypts, and reports its error. */
    method Parse(masterKey: seq<bv8>, impl: SourceImpl) returns (err: Option<string>)
      modifies this
      ensures records == impl.parse(variant, old(records), masterKey).records
      ensures err == impl.parse(variant, old(records), masterKey).err
    {
      var outcome := impl.parse(variant, records, masterKey);
      records := outcome.records;
      err := outcome.err;
    }
  }
}
