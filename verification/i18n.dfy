/**
 * Translation lookup: per-locale message catalogs, a memo cache filled only
 * in production, fallback to the "en" catalog, and the choice of locale
 * from the request context.
 *
 * The bundled catalog files are given as a map from locale to its decoded
 * catalog; a locale without a file stands for a read or decode failure, on
 * which the source panics. A plural-rule parser is represented by the
 * culture code it was built for.
 */
module I18n {
  import opened Wrappers

  /** The plural culture of each supported locale. */
  const LocaleToPlurals: map<string, string> := map["en" := "en", "pt-BR" := "pt"]

  /** The locale whose catalog answers keys missing elsewhere. */
  const FallbackLocale: string := "en"

  /** Looking up a locale the table lacks yields the empty culture, as a
      missing key of a Go map yields the zero value. */
  function PluralCulture(locale: string): string
  {
    if locale in LocaleToPlurals then LocaleToPlurals[locale] else ""
  }

  /** The table sends English to the "en" culture and Brazilian Portuguese to "pt". */
  lemma PluralTable()
    ensures PluralCulture("en") == "en" && PluralCulture("pt-BR") == "pt"
    ensures LocaleToPlurals.Keys == {"en", "pt-BR"}
  {
  }

  datatype Parser = Parser(culture: string)

  /** A loaded locale: its key-to-template catalog and its plural parser. */
  datatype LocaleData = LocaleData(file: map<string, string>, parser: Parser)

  /** Why the source panics: the locale's catalog could not be read. */
  datatype I18nError = MissingLocale(locale: string)

  /** The bundled catalogs, by locale. */
  type Catalogs = map<string, map<string, string>>

  /** Reading, decoding and preparing one locale. */
  function Load(files: Catalogs, locale: string): Result<LocaleData, I18nError>
  {
    if locale in files then Success(LocaleData(files[locale], Parser(PluralCulture(locale))))
    else Failure(MissingLocale(locale))
  }

  /** The message for `key` in `locale` and the parser that goes with it; when
      the locale's catalog lacks the key, the "en" catalog's message (empty
      if it lacks it too) with the "en" parser. */
  function Message(files: Catalogs, locale: string, key: string): (r: Result<(string, Parser), I18nError>)
    ensures locale !in files ==> r == Failure(MissingLocale(locale))
    ensures locale in files && key in files[locale] ==>
      r == Success((files[locale][key], Parser(PluralCulture(locale))))
    ensures locale in files && key !in files[locale] && FallbackLocale !in files ==>
      r == Failure(MissingLocale(FallbackLocale))
    ensures locale in files && key !in files[locale] && FallbackLocale in files ==>
      r == Success((if key in files[FallbackLocale] then files[FallbackLocale][key] else "", Parser("en")))
  {
    match Load(files, locale)
    case Failure(e) => Failure(e)
    case Success(data) =>
      if key in data.file then Success((data.file[key], data.parser))
      else
        match Load(files, FallbackLocale)
        case Failure(e) => Failure(e)
        case Success(en) => Success((if key in en.file then en.file[key] else "", en.parser))
  }

  /** The locale a request is served in: the context's locale when it holds a
      string, the configured default otherwise. */
  function ResolveLocale(ctxLocale: Option<string>, defaultLocale: string): string
  {
    match ctxLocale
    case Some(l) => l
    case None => defaultLocale
  }

  /** Every loadable locale is loaded, with a parser for one of the table's
      cultures or for the empty culture, the empty one exactly for locales the
      table does not list. */
  lemma LoadedParserCulture(files: Catalogs, locale: string)
    requires locale in files
    ensures Load(files, locale).Success?
    ensures Load(files, locale).value.file == files[locale]
    ensures Load(files, locale).value.parser.culture in {"en", "pt", ""}
    ensures Load(files, locale).value.parser.culture == "" <==> locale !in {"en", "pt-BR"}
  {
  }

  /** The translation state: the bundled catalogs, the environment, and the
      memo cache of loaded locales. */
  class LocaleStore {
    const files: Catalogs
    const production: bool
    const defaultLocale: string
    var cache: map<string, LocaleData>

    /** Every cached entry is what loading its locale yields, and nothing is
        cached outside production. */
    ghost predicate Valid()
      reads this
    {
      && (forall l :: l in cache ==> Load(files, l) == Success(cache[l]))
      && (!production ==> cache == map[])
    }

    constructor (files: Catalogs, production: bool, defaultLocale: string)
      ensures Valid()
      ensures this.files == files && this.production == production && this.defaultLocale == defaultLocale
      ensures cache == map[]
    {
      this.files := files;
      this.production := production;
      this.defaultLocale := defaultLocale;
      cache := map[];
    }

    /** The loaded data of `locale`: from the cache when present, otherwise
        loaded, and kept in the cache only in production. */
    method GetLocaleData(locale: string) returns (r: Result<LocaleData, I18nError>)
      requires Valid()
      modifies this
      ensures Valid()
      ensures r == Load(files, locale)
      ensures locale in old(cache) ==> r == Success(old(cache)[locale]) && cache == old(cache)
      ensures locale !in old(cache) ==>
        cache == if production && r.Success? then old(cache)[locale := r.value] else old(cache)
    {
      if locale in cache {
        return Success(cache[locale]);
      }
      r := Load(files, locale);
      if r.Failure? {
        return;
      }
      if production {
        cache := cache[locale := r.value];
      }
    }

    /** The message for `key` in `locale`, falling back to "en". In production
        the requested locale, and "en" when the fallback ran, are cached afterwards. */
    method GetMessage(locale: string, key: string) returns (r: Result<(string, Parser), I18nError>)
      requires Valid()
      modifies this
      ensures Valid()
      ensures r == Message(files, locale, key)
      ensures old(cache).Keys <= cache.Keys <= old(cache).Keys + {locale, FallbackLocale}
      ensures cache.Keys == old(cache).Keys
        + (if production && locale in files then {locale} else {})
        + (if production && locale in files && key !in files[locale] && FallbackLocale in files
           then {FallbackLocale} else {})
      ensures forall l :: l in old(cache) ==> cache[l] == old(cache)[l]
    {
      var data := GetLocaleData(locale);
      if data.Failure? {
        return Failure(data.error);
      }
      if key in data.value.file {
        return Success((data.value.file[key], data.value.parser));
      }
      var en := GetLocaleData(FallbackLocale);
      if en.Failure? {
        return Failure(en.error);
      }
      r := Success((if key in en.value.file then en.value.file[key] else "", en.value.parser));
    }

    /** Translation without parameters: the message for `key` in the request's
        locale, returned as it is; in production the locales it loaded stay cached. */
    method T(ctxLocale: Option<string>, key: string) returns (r: Result<string, I18nError>)
      requires Valid()
      modifies this
      ensures Valid()
      ensures var m := Message(files, ResolveLocale(ctxLocale, defaultLocale), key);
        r == if m.Success? then Success(m.value.0) else Failure(m.error)
      ensures old(cache).Keys <= cache.Keys
      ensures var locale := ResolveLocale(ctxLocale, defaultLocale);
        cache.Keys == old(cache).Keys
          + (if production && locale in files then {locale} else {})
          + (if production && locale in files && key !in files[locale] && FallbackLocale in files
             then {FallbackLocale} else {})
      ensures forall l :: l in old(cache) ==> cache[l] == old(cache)[l]
    {
      var locale := ResolveLocale(ctxLocale, defaultLocale);
      var msg := GetMessage(locale, key);
      if msg.Failure? {
        return Failure(msg.error);
      }
      r := Success(msg.value.0);
    }
  }
}
