/**
 * The per-wiki configuration document store as the resolver sees it: the
 * `authService` property of the `XWiki.Authentication.ConfigurationClass`
 * object on each wiki's `XWiki.Authentication.Configuration` document,
 * together with the blank-to-absent rule applied when it is loaded and the
 * `defaultString` rule applied when it is written.
 */
module ConfigStore {
  import opened Wrappers

  /** Name of the object property that holds the authenticator hint in a wiki. */
  const ConfigurationWikiProperty: string := "authService"

  /** Name of the instance-level (xwiki.properties) property holding the hint. */
  const ConfigurationInstanceProperty: string := "security.authentication." + ConfigurationWikiProperty

  /**
   * Java's `Character.isWhitespace` as of Java 9 (Unicode 6.3 and later):
   * the Unicode space, line and paragraph separators except the non-breaking
   * ones (U+00A0, U+2007, U+202F), and the controls U+0009..U+000D and
   * U+001C..U+001F. On Java 8, U+180E MONGOLIAN VOWEL SEPARATOR is
   * whitespace as well; this model follows the later definition.
   */
  predicate IsWhitespace(c: char)
  {
    var n := c as int;
    (0x09 <= n <= 0x0D) || (0x1C <= n <= 0x20) || n == 0x1680
    || (0x2000 <= n <= 0x2006) || (0x2008 <= n <= 0x200A)
    || n == 0x2028 || n == 0x2029 || n == 0x205F || n == 0x3000
  }

  /** `StringUtils.isBlank`, scanning the string one character at a time. */
  function IsBlank(s: string): (blank: bool)
    ensures blank <==> forall i :: 0 <= i < |s| ==> IsWhitespace(s[i])
  {
    if |s| == 0 then true else IsWhitespace(s[0]) && IsBlank(s[1..])
  }

  /** `StringUtils.defaultString`: a null string becomes the empty string. */
  function DefaultString(id: Option<string>): (r: string)
    ensures id.Some? ==> r == id.value
    ensures id.None? ==> r == ""
    ensures IsBlank(r) <==> id.None? || IsBlank(id.value)
  {
    match id
    case Some(s) => s
    case None => ""
  }

  /** Why reading or writing a wiki's configuration failed. */
  datatype StoreError =
    | DocumentAccessFailed(wiki: string)        // getDocument threw an XWikiException
    | MissingConfigurationObject(wiki: string)  // the document has no configuration object
    | DocumentSaveFailed(wiki: string)          // saveDocument threw an XWikiException

  /**
   * The configuration object of one wiki. `authService` is what
   * `getStringValue("authService")` yields: the empty string when unset.
   */
  datatype ConfigObject = ConfigObject(authService: string)

  /**
   * The document store: the configuration object of every wiki whose
   * configuration document carries one, the wikis whose document cannot be
   * read at all (`failing`), and the wikis whose document can be read but
   * not saved (`saveFailing`).
   */
  datatype DocumentStore = DocumentStore(objects: map<string, ConfigObject>, failing: set<string>, saveFailing: set<string>)

  /** Fetch a wiki's configuration document and its configuration object. */
  function GetConfigObject(store: DocumentStore, wiki: string): Result<ConfigObject, StoreError>
  {
    if wiki in store.failing then Err(DocumentAccessFailed(wiki))
    else if wiki !in store.objects then Err(MissingConfigurationObject(wiki))
    else Ok(store.objects[wiki])
  }

  /**
   * `loadAuthenticationService`: the stored hint, or absent when the stored
   * value is blank; fails exactly when the document or its object cannot be had.
   */
  function LoadAuthenticationService(store: DocumentStore, wiki: string): (r: Result<Option<string>, StoreError>)
    ensures r.Err? <==> (wiki in store.failing || wiki !in store.objects)
    ensures r.Err? ==> r.error == (if wiki in store.failing then DocumentAccessFailed(wiki) else MissingConfigurationObject(wiki))
    ensures r.Ok? ==> var stored := store.objects[wiki].authService;
                      && (r.value.None? <==> forall i :: 0 <= i < |stored| ==> IsWhitespace(stored[i]))
                      && (r.value.Some? ==> r.value.value == stored)
  {
    match GetConfigObject(store, wiki)
    case Err(e) => Err(e)
    case Ok(obj) => Ok(if IsBlank(obj.authService) then None else Some(obj.authService))
  }

  /** What a load reads back after `id` has been written. */
  function ReadBack(id: Option<string>): Option<string>
  {
    if IsBlank(DefaultString(id)) then None else Some(DefaultString(id))
  }

  /**
   * The private `setAuthenticationService(id, wiki, xcontext)`: fetch the
   * wiki's configuration object, store `defaultString(id)` in it and save the
   * document. It fails with the load's error when the document or its object
   * cannot be had, and with `DocumentSaveFailed` when only the save throws.
   * On success the wiki's object holds exactly `defaultString(id)` (a blank
   * id is stored verbatim), so a load reads `id` back (absent when it is null
   * or blank); every other wiki's object is as before, and which wikis fail
   * is unchanged.
   */
  function SaveAuthenticationService(store: DocumentStore, wiki: string, id: Option<string>): (r: Result<DocumentStore, StoreError>)
    ensures LoadAuthenticationService(store, wiki).Err? ==> r == Err(LoadAuthenticationService(store, wiki).error)
    ensures LoadAuthenticationService(store, wiki).Ok? ==> (r.Err? <==> wiki in store.saveFailing)
    ensures LoadAuthenticationService(store, wiki).Ok? && r.Err? ==> r.error == DocumentSaveFailed(wiki)
    ensures r.Ok? ==> wiki in r.value.objects && r.value.objects[wiki].authService == DefaultString(id)
    ensures r.Ok? ==> LoadAuthenticationService(r.value, wiki) == Ok(ReadBack(id))
    ensures r.Ok? ==> r.value.objects.Keys == store.objects.Keys
    ensures r.Ok? ==> forall w :: w in store.objects && w != wiki ==> r.value.objects[w] == store.objects[w]
    ensures r.Ok? ==> forall w :: w != wiki ==> LoadAuthenticationService(r.value, w) == LoadAuthenticationService(store, w)
    ensures r.Ok? ==> r.value.failing == store.failing && r.value.saveFailing == store.saveFailing
  {
    match GetConfigObject(store, wiki)
    case Err(e) => Err(e)
    case Ok(obj) =>
      if wiki in store.saveFailing then Err(DocumentSaveFailed(wiki))
      else Ok(store.(objects := store.objects[wiki := obj.(authService := DefaultString(id))]))
  }
}
