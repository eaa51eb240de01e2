/**
 * The browser service's collaborators outside this model: Qt's URL parser and printer, the
 * host-address test, the public-suffix list, and the user's browser-integration settings.
 * Each foreign routine is a field of a datatype that the operations take as a parameter, so
 * every statement proved holds for any behaviour of these routines.
 */
module Env {

  datatype Option<+T> = None | Some(value: T)

  /** The parts of a parsed QUrl that the browser service consults. `port` is -1 when absent. */
  datatype Url = Url(scheme: string, host: string, port: int, path: string, hasQuery: bool, hasFragment: bool)

  /** Qt's URL services. */
  datatype UrlParser = UrlParser(
    parse: string -> Url,            // QUrl(QString)
    fromUserInput: string -> Url,    // QUrl::fromUserInput, which guesses a scheme
    topLevelDomain: Url -> string,   // QUrl::topLevelDomain, from the public-suffix list, e.g. ".co.uk"
    isIpAddress: string -> bool,     // !QHostAddress(s).isNull()
    render: Url -> string,           // toString(StripTrailingSlash)
    renderBase: Url -> string        // toString(StripTrailingSlash | RemovePath | RemoveQuery | RemoveFragment)
  )

  /** The switches of BrowserSettings that the matching engine reads. */
  datatype BrowserSettings = BrowserSettings(
    matchUrlScheme: bool,
    alwaysAllowAccess: bool,
    httpAuthPermission: bool,         // true: HTTP Basic Auth entries skip the confirmation
    searchInAllDatabases: bool,
    sortByTitle: bool,
    bestMatchOnly: bool,
    allowExpiredCredentials: bool
  )

  /** A URL whose scheme is empty gets "https" (QUrl::setScheme). */
  function WithDefaultScheme(u: Url): (r: Url)
    ensures r.scheme != []
    ensures u.scheme != [] ==> r == u
    ensures r.host == u.host && r.port == u.port && r.path == u.path
  {
    if u.scheme == [] then u.(scheme := "https") else u
  }
}
