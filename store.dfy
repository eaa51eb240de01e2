/**
 * The part of the credential database that the browser service touches: entries with their
 * string attributes and custom data, the flattened group tree, and the database-wide custom
 * data that holds client keys.
 */
module Store {

  // Entry attribute names (EntryAttributes).
  const TitleKey := "Title"
  const UserNameKey := "UserName"
  const UrlKey := "URL"

  // Entry custom-data options and attribute prefixes of BrowserService.
  const TrueStr := "true"
  const OptionHideEntry := "BrowserHideEntry"
  const OptionOnlyHttpAuth := "BrowserOnlyHttpAuth"
  const AdditionalUrl := "KP2A_URL"
  /** Custom-data slot that holds an entry's BrowserEntryConfig, and the legacy attribute name. */
  const BrowserSettingsName := "KeePassXC-Browser Settings"

  // Database custom-data keys (CustomData).
  const BrowserKeyPrefix := "KPXC_BROWSER_"
  const BrowserLegacyKeyPrefix := "Public Key: "
  const Created := "_CREATED"

  /** QMap::value: the stored value, or the empty string for a missing key. */
  function Value(m: map<string, string>, k: string): (r: string)
    ensures k !in m ==> r == []
    ensures k in m ==> r == m[k]
  {
    if k in m then m[k] else []
  }

  /** A credential. Attributes and custom data are edited in place by the migration and by
      remembered access decisions; `expired` is Entry::isExpired at the time of the request. */
  class Entry {
    var attributes: map<string, string>
    var customData: map<string, string>
    var expired: bool
    var recycled: bool

    constructor (attributes: map<string, string>, customData: map<string, string>, expired: bool, recycled: bool)
      ensures this.attributes == attributes && this.customData == customData
      ensures this.expired == expired && this.recycled == recycled
    {
      this.attributes := attributes;
      this.customData := customData;
      this.expired := expired;
      this.recycled := recycled;
    }
  }

  /** One group of Group::groupsRecursive(true); `searchingEnabled` is resolveSearchingEnabled(). */
  datatype Group = Group(recycled: bool, searchingEnabled: bool, entries: seq<Entry>)

  /** A database. `groups` lists the root group and all its descendants; it is empty when the
      database has no root group. */
  class Database {
    var customData: map<string, string>
    var groups: seq<Group>

    constructor (customData: map<string, string>, groups: seq<Group>)
      ensures this.customData == customData && this.groups == groups
    {
      this.customData := customData;
      this.groups := groups;
    }
  }

  /** All entries of a list of groups. */
  function GroupEntries(gs: seq<Group>): set<Entry> {
    set g, e | g in gs && e in g.entries :: e
  }
}
