/**
 * Where the front end sends its API calls: the page's own protocol and host,
 * with port 8080 on a local host and the page's port elsewhere (written only
 * when it is neither empty, `80` nor `443`).
 */
module ApiConfig {
  /** The parts of `window.location` the base address is built from; `port` is empty when the URL names none. */
  datatype Location = Location(protocol: string, hostname: string, port: string)

  predicate IsLocal(hostname: string) {
    hostname == "localhost" || hostname == "127.0.0.1"
  }

  /** The port suffix of the API address. */
  function ApiPort(loc: Location): (p: string)
    ensures IsLocal(loc.hostname) ==> p == ":8080"
    ensures !IsLocal(loc.hostname) && loc.port in {"", "80", "443"} ==> p == ""
    ensures p == "" || p[0] == ':'
  {
    if IsLocal(loc.hostname) then ":8080"
    else if loc.port != "" && loc.port != "80" && loc.port != "443" then ":" + loc.port
    else ""
  }

  /** `getApiBaseUrl`: protocol, `//`, host name and the port suffix. */
  function ApiBaseUrl(loc: Location): (url: string)
    ensures IsLocal(loc.hostname) ==> url == loc.protocol + "//" + loc.hostname + ":8080"
    ensures !IsLocal(loc.hostname) && loc.port in {"", "80", "443"} ==> url == loc.protocol + "//" + loc.hostname
    ensures !IsLocal(loc.hostname) && loc.port !in {"", "80", "443"} ==> url == PageOrigin(loc)
  {
    loc.protocol + "//" + loc.hostname + ApiPort(loc)
  }

  /** The origin of the page itself: the port written whenever the URL names one. */
  function PageOrigin(loc: Location): string {
    loc.protocol + "//" + loc.hostname + (if loc.port == "" then "" else ":" + loc.port)
  }

  /** The address keeps the page's protocol and host: it is `protocol//hostname` followed by nothing or by a port. */
  lemma KeepsProtocolAndHost(loc: Location)
    ensures var prefix := loc.protocol + "//" + loc.hostname;
      |prefix| <= |ApiBaseUrl(loc)| && ApiBaseUrl(loc)[..|prefix|] == prefix
    ensures var rest := ApiBaseUrl(loc)[|loc.protocol + "//" + loc.hostname|..];
      rest == "" || rest[0] == ':'
  {
    var prefix := loc.protocol + "//" + loc.hostname;
    assert ApiBaseUrl(loc) == prefix + ApiPort(loc);
    assert (prefix + ApiPort(loc))[..|prefix|] == prefix;
    assert (prefix + ApiPort(loc))[|prefix|..] == ApiPort(loc);
  }

  /** Away from a local host, and unless the page names port 80 or 443, the API is the page's own origin. */
  lemma RemoteUsesPageOrigin(loc: Location)
    requires !IsLocal(loc.hostname) && loc.port != "80" && loc.port != "443"
    ensures ApiBaseUrl(loc) == PageOrigin(loc)
  {
  }

  /** On a local host the API is always on port 8080, whatever port the page was served from. */
  lemma LocalIgnoresPagePort(loc: Location, port: string)
    requires IsLocal(loc.hostname)
    ensures ApiBaseUrl(loc) == ApiBaseUrl(loc.(port := port))
    ensures ApiBaseUrl(loc) == PageOrigin(loc.(port := "8080"))
  {
  }

  /** `API_BASE_URL`: the address worked out once, when the script loads. */
  class Config {
    const location: Location
    const apiBaseUrl: string

    constructor (location: Location)
      ensures this.location == location && apiBaseUrl == ApiBaseUrl(location)
    {
      this.location := location;
      apiBaseUrl := ApiBaseUrl(location);
    }
  }
}
