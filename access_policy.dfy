/**
 * The per-entry access policy (BrowserEntryConfig) and the tri-state verdict of checkAccess.
 */
module AccessPolicy {
  import opened Env
  import opened Store

  datatype Access = Denied | Unknown | Allowed

  /** Hosts the user allowed or denied for an entry, and the HTTP authentication realm. */
  datatype EntryConfig = EntryConfig(allowedHosts: set<string>, deniedHosts: set<string>, realm: string)

  /** A default-constructed BrowserEntryConfig. */
  const EmptyConfig := EntryConfig({}, {}, [])

  /** The JSON form of a BrowserEntryConfig, produced and parsed by Qt's JSON classes. */
  datatype ConfigCodec = ConfigCodec(toJson: EntryConfig -> string, fromJson: string -> Option<EntryConfig>)

  /** The codec reads back what it writes, and what it writes is never empty. */
  ghost predicate RoundTrips(codec: ConfigCodec) {
    forall c :: codec.fromJson(codec.toJson(c)) == Some(c) && codec.toJson(c) != []
  }

  /** allow(host): the host becomes allowed and stops being denied. */
  function Allow(c: EntryConfig, host: string): (r: EntryConfig)
    ensures host in r.allowedHosts && host !in r.deniedHosts
    ensures forall h :: h != host ==> (h in r.allowedHosts <==> h in c.allowedHosts) && (h in r.deniedHosts <==> h in c.deniedHosts)
    ensures r.realm == c.realm
  {
    c.(allowedHosts := c.allowedHosts + {host}, deniedHosts := c.deniedHosts - {host})
  }

  /** deny(host): the host becomes denied and stops being allowed. */
  function Deny(c: EntryConfig, host: string): (r: EntryConfig)
    ensures host in r.deniedHosts && host !in r.allowedHosts
    ensures forall h :: h != host ==> (h in r.allowedHosts <==> h in c.allowedHosts) && (h in r.deniedHosts <==> h in c.deniedHosts)
    ensures r.realm == c.realm
  {
    c.(deniedHosts := c.deniedHosts + {host}, allowedHosts := c.allowedHosts - {host})
  }

  /** Allowing a host twice is the same as allowing it once. */
  lemma AllowIdempotent(c: EntryConfig, host: string)
    ensures Allow(Allow(c, host), host) == Allow(c, host)
  {
  }

  /** For any one host the last of allow and deny wins. */
  lemma LastDecisionWins(c: EntryConfig, host: string)
    ensures host in Allow(Deny(c, host), host).allowedHosts && host !in Allow(Deny(c, host), host).deniedHosts
    ensures host in Deny(Allow(c, host), host).deniedHosts && host !in Deny(Allow(c, host), host).allowedHosts
  {
  }

  /** config.load(entry): the stored JSON, if there is any and it parses. */
  function LoadConfig(codec: ConfigCodec, customData: map<string, string>): (r: Option<EntryConfig>)
    ensures Value(customData, BrowserSettingsName) == [] ==> r == None
  {
    var s := Value(customData, BrowserSettingsName);
    if s == [] then None else codec.fromJson(s)
  }

  /** config.save(entry): the entry's custom data with the config written to its slot. */
  function SaveConfig(codec: ConfigCodec, customData: map<string, string>, c: EntryConfig): (r: map<string, string>)
    ensures r.Keys == customData.Keys + {BrowserSettingsName}
    ensures forall k :: k in customData && k != BrowserSettingsName ==> r[k] == customData[k]
  {
    customData[BrowserSettingsName := codec.toJson(c)]
  }

  /** Saving a config and loading it back gives that config. */
  lemma SaveThenLoad(codec: ConfigCodec, customData: map<string, string>, c: EntryConfig)
    requires RoundTrips(codec)
    ensures LoadConfig(codec, SaveConfig(codec, customData, c)) == Some(c)
  {
    assert codec.fromJson(codec.toJson(c)) == Some(c) && codec.toJson(c) != [];
  }

  /** The host, and the submit host when there is one, are allowed. */
  predicate HostsAllowed(c: EntryConfig, host: string, submitHost: string) {
    host in c.allowedHosts && (submitHost == [] || submitHost in c.allowedHosts)
  }

  /** The host, or the submit host when there is one, is denied. */
  predicate HostsDenied(c: EntryConfig, host: string, submitHost: string) {
    host in c.deniedHosts || (submitHost != [] && submitHost in c.deniedHosts)
  }

  /**
   * checkAccess. No loadable config: Unknown. Expired entry: the allowExpiredCredentials setting
   * alone decides. Otherwise allowed hosts win over denied hosts, denied hosts and a differing
   * requested realm give Denied, and anything else is Unknown.
   */
  function CheckAccess(codec: ConfigCodec, allowExpired: bool, e: Entry, host: string, submitHost: string, realm: string): (r: Access)
    reads e
    ensures LoadConfig(codec, e.customData).None? ==> r == Unknown
    ensures LoadConfig(codec, e.customData).Some? && e.expired ==> (r == Allowed <==> allowExpired) && r != Unknown
    ensures LoadConfig(codec, e.customData).Some? && !e.expired ==>
              var c := LoadConfig(codec, e.customData).value;
              && (r == Allowed <==> HostsAllowed(c, host, submitHost))
              && (r == Denied <==> !HostsAllowed(c, host, submitHost) && (HostsDenied(c, host, submitHost) || (realm != [] && c.realm != realm)))
  {
    match LoadConfig(codec, e.customData)
    case None => Unknown
    case Some(config) =>
      if e.expired then (if allowExpired then Allowed else Denied)
      else if host in config.allowedHosts && (submitHost == [] || submitHost in config.allowedHosts) then Allowed
      else if host in config.deniedHosts || (submitHost != [] && submitHost in config.deniedHosts) then Denied
      else if realm != [] && config.realm != realm then Denied
      else Unknown
  }

  /** What "remember" does to an entry the user selected: allow the host, the submit host when it
      is non-empty and different, and record a non-empty realm. */
  function RememberAllowed(c: EntryConfig, host: string, submitHost: string, realm: string): (r: EntryConfig)
    ensures HostsAllowed(r, host, submitHost)
    ensures !HostsDenied(r, host, submitHost)
    ensures r.realm == if realm != [] then realm else c.realm
    ensures forall h :: h != host && (submitHost == [] || h != submitHost) ==>
              (h in r.allowedHosts <==> h in c.allowedHosts) && (h in r.deniedHosts <==> h in c.deniedHosts)
  {
    var c1 := Allow(c, host);
    var c2 := if submitHost != [] && host != submitHost then Allow(c1, submitHost) else c1;
    if realm != [] then c2.(realm := realm) else c2
  }

  /** What disabling an entry in the access dialog does: deny the host, the submit host when it is
      non-empty and different, and record a non-empty realm. */
  function RememberDenied(c: EntryConfig, host: string, submitHost: string, realm: string): (r: EntryConfig)
    ensures host in r.deniedHosts && host !in r.allowedHosts
    ensures submitHost != [] ==> submitHost in r.deniedHosts && submitHost !in r.allowedHosts
    ensures r.realm == if realm != [] then realm else c.realm
    ensures forall h :: h != host && (submitHost == [] || h != submitHost) ==>
              (h in r.allowedHosts <==> h in c.allowedHosts) && (h in r.deniedHosts <==> h in c.deniedHosts)
  {
    var c1 := Deny(c, host);
    var c2 := if submitHost != [] && host != submitHost then Deny(c1, submitHost) else c1;
    if realm != [] then c2.(realm := realm) else c2
  }

  /** Once a remembered approval is saved, the same request on a live entry is Allowed. */
  lemma RememberedApprovalIsAllowed(codec: ConfigCodec, allowExpired: bool, e: Entry, before: map<string, string>, c: EntryConfig,
                                    host: string, submitHost: string, realm: string)
    requires RoundTrips(codec) && !e.expired
    requires e.customData == SaveConfig(codec, before, RememberAllowed(c, host, submitHost, realm))
    ensures CheckAccess(codec, allowExpired, e, host, submitHost, realm) == Allowed
  {
    SaveThenLoad(codec, before, RememberAllowed(c, host, submitHost, realm));
  }

  /** Once a denial is saved, the same request on a live entry is Denied. */
  lemma RememberedDenialIsDenied(codec: ConfigCodec, allowExpired: bool, e: Entry, before: map<string, string>, c: EntryConfig,
                                 host: string, submitHost: string, realm: string)
    requires RoundTrips(codec) && !e.expired
    requires e.customData == SaveConfig(codec, before, RememberDenied(c, host, submitHost, realm))
    ensures CheckAccess(codec, allowExpired, e, host, submitHost, realm) == Denied
  {
    SaveThenLoad(codec, before, RememberDenied(c, host, submitHost, realm));
  }

  /** An allowed host is Allowed even when the requested realm differs from the stored one:
      the realm is only consulted after the host lists. */
  lemma AllowedHostOutranksRealm(codec: ConfigCodec, allowExpired: bool, e: Entry, host: string, submitHost: string, realm: string)
    requires LoadConfig(codec, e.customData).Some? && !e.expired
    requires HostsAllowed(LoadConfig(codec, e.customData).value, host, submitHost)
    ensures CheckAccess(codec, allowExpired, e, host, submitHost, realm) == Allowed
  {
  }

  /** The loaded config, or a default-constructed one when loading fails. */
  function ConfigOrDefault(codec: ConfigCodec, customData: map<string, string>): EntryConfig {
    match LoadConfig(codec, customData)
    case Some(c) => c
    case None => EmptyConfig
  }

  /** The stored config allows the host and the submit host. */
  predicate AllowsHosts(codec: ConfigCodec, customData: map<string, string>, host: string, submitHost: string) {
    LoadConfig(codec, customData).Some? && HostsAllowed(LoadConfig(codec, customData).value, host, submitHost)
  }

  /** The stored config denies the host and does not allow it. */
  predicate DeniesHosts(codec: ConfigCodec, customData: map<string, string>, host: string, submitHost: string) {
    && LoadConfig(codec, customData).Some?
    && HostsDenied(LoadConfig(codec, customData).value, host, submitHost)
    && !HostsAllowed(LoadConfig(codec, customData).value, host, submitHost)
  }

  /**
   * The edit of an entry's custom data made by the access dialog: load the config (a default one
   * if that fails), allow or deny the hosts and record the realm, and save it back.
   */
  function Remember(codec: ConfigCodec, customData: map<string, string>, allow: bool,
                    host: string, submitHost: string, realm: string): (r: map<string, string>)
    ensures KeepsOthers(customData, r) && BrowserSettingsName in r
    ensures RoundTrips(codec) && allow ==> AllowsHosts(codec, r, host, submitHost)
    ensures RoundTrips(codec) && !allow ==> DeniesHosts(codec, r, host, submitHost)
    ensures RoundTrips(codec) ==>
              LoadConfig(codec, r).Some? &&
              LoadConfig(codec, r).value.realm == if realm != [] then realm else ConfigOrDefault(codec, customData).realm
  {
    var before := ConfigOrDefault(codec, customData);
    var c := if allow then RememberAllowed(before, host, submitHost, realm) else RememberDenied(before, host, submitHost, realm);
    var r := SaveConfig(codec, customData, c);
    assert RoundTrips(codec) ==> LoadConfig(codec, r) == Some(c) by {
      if RoundTrips(codec) {
        SaveThenLoad(codec, customData, c);
      }
    }
    r
  }

  /** A remembered approval makes checkAccess answer Allowed for a live entry. */
  lemma AllowsHostsIsAllowed(codec: ConfigCodec, allowExpired: bool, e: Entry, host: string, submitHost: string, realm: string)
    requires AllowsHosts(codec, e.customData, host, submitHost) && !e.expired
    ensures CheckAccess(codec, allowExpired, e, host, submitHost, realm) == Allowed
  {
    AllowedHostOutranksRealm(codec, allowExpired, e, host, submitHost, realm);
  }

  /** A remembered denial makes checkAccess answer Denied for a live entry. */
  lemma DeniesHostsIsDenied(codec: ConfigCodec, allowExpired: bool, e: Entry, host: string, submitHost: string, realm: string)
    requires DeniesHosts(codec, e.customData, host, submitHost) && !e.expired
    ensures CheckAccess(codec, allowExpired, e, host, submitHost, realm) == Denied
  {
  }

  /** Every custom-data key other than the browser settings keeps its value. */
  predicate KeepsOthers(before: map<string, string>, after: map<string, string>) {
    forall k :: k in before && k != BrowserSettingsName ==> k in after && after[k] == before[k]
  }

  /** With a round-tripping codec, making the same edit twice is making it once: an entry listed
      on two rows of the dialog ends up as if it were listed on one. */
  lemma RememberIdempotent(codec: ConfigCodec, customData: map<string, string>, allow: bool,
                           host: string, submitHost: string, realm: string)
    requires RoundTrips(codec)
    ensures var once := Remember(codec, customData, allow, host, submitHost, realm);
            Remember(codec, once, allow, host, submitHost, realm) == once
  {
    var before := ConfigOrDefault(codec, customData);
    var c := if allow then RememberAllowed(before, host, submitHost, realm) else RememberDenied(before, host, submitHost, realm);
    var once := Remember(codec, customData, allow, host, submitHost, realm);
    SaveThenLoad(codec, customData, c);
    assert ConfigOrDefault(codec, once) == c;
    var c' := if allow then RememberAllowed(c, host, submitHost, realm) else RememberDenied(c, host, submitHost, realm);
    assert c'.allowedHosts == c.allowedHosts && c'.deniedHosts == c.deniedHosts;
    assert c' == c;
  }
}
