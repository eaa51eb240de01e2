# KeePassXC browser service — a Dafny model

This project models the decision logic of KeePassXC's browser integration service
(`BrowserService`). When a browser extension asks for credentials for a page, the service does
four things:

- It picks the databases that are associated with the extension. A database is associated when
  it stores one of the extension's public keys under `KPXC_BROWSER_<id>`.
- It searches those databases for entries whose URL, or whose `KP2A_URL*` attributes, may be used
  on the page (`handleURL`). Base domains must agree, and the page host must end with the entry
  host. The port must match only when the entry URL gives one explicitly. The scheme must match
  only when the matchUrlScheme setting is on and the entry URL names a scheme.
- It sorts the hits into three groups, based on each entry's stored access configuration
  (`checkAccess`) and its hide and HTTP-auth-only options:
  - entries returned straight away;
  - entries put to the user in an access dialog;
  - entries dropped.
- It ranks what is returned with the `sortPriority` score ladder. The ladder runs 100, 90, …, 5,
  0. Entries with the same score are ordered by a collation key, then by user name.

The model also covers:

- the storage of association keys (`storeKey`, `getKey`);
- the per-client handler table (`processClientMessage`);
- the migration of legacy settings and keys from entry attributes into custom data.

The modules follow the structure of the source:

- `Text`: the QString operations used.
- `Env`: the URL record, the abstract URL parser and the settings.
- `Store`: entries, groups, databases and the custom-data constants.
- `DomainMatch`: handleURL, baseDomain, removeFirstDomain and schemeFound.
- `AccessPolicy`: BrowserEntryConfig and checkAccess.
- `Authorization`: the triage loop of findMatchingEntries.
- `Search`: both searchEntries overloads and databaseConnected.
- `Ranking`: sortPriority and sortEntries.
- `Migration`: moveSettingsToCustomData and moveKeysToCustomData.
- `Service`: the `BrowserService` class with its mutable fields and its state-changing requests.

Foreign services are parameters:

- `UrlParser`: QUrl parsing and rendering, `QUrl::fromUserInput`, `topLevelDomain` and the IP
  address test.
- `ConfigCodec`: the JSON form of a BrowserEntryConfig.
- `collate`: the locale's collation key.
- The clock: the creation time stored with a key.

Dialogs are oracle inputs:

- `KeyPrompt`: one round of the association dialog, including the database being locked while
  the id dialog is open, or while the overwrite question is open.
- `AccessAnswer`: the access-control dialog, including the database being locked while it is open.

Search order is modelled exactly. The search lists an entry twice when both an additional URL
and its own URL match, because the primary URL is appended without the duplicate check
(`Search.PrimaryHitNotDeduplicated`).

## Model

| member | source | states |
|---|---|---|
| DomainMatch.HandleUrl | src/browser/BrowserService.cpp:979-1035 | An empty entry URL never matches. On a `file://` page the result is exactly "entry URL equals submit URL". Otherwise it is true exactly when the reference condition `SiteMatch` holds: a non-empty entry host, an explicit port equal to the site's, the scheme equal to the site's when matchUrlScheme is set, no illegal character, equal base domains, and the site host ending with the entry host. |
| DomainMatch.BaseDomain | src/browser/BrowserService.cpp:1042-1064 | An IP address is returned unchanged. A host that is empty or lacks its public suffix gives the empty string. When the host ends with its public suffix, the result is a suffix of the host that ends with the public suffix, has no dot in front of the suffix, and is the whole host or starts just after a dot of it. |
| DomainMatch.LabelBeforeSuffix | src/browser/BrowserService.cpp:1052-1063 | The suffix plus the label in front of it: a dot-free label, ending the host, and starting at a dot boundary. |
| DomainMatch.SubdomainPageMatches | src/browser/BrowserService.cpp:979-1035 | An entry with no port and no illegal characters matches every page whose host ends with the entry host and has the same base domain, provided the schemes agree when matchUrlScheme is set. |
| DomainMatch.ParentPageRejected | src/browser/BrowserService.cpp:1031-1034 | An entry for a subdomain never matches a page on a strictly shorter parent host. |
| DomainMatch.RemoveFirstDomain | src/browser/BrowserService.cpp:962-977 | Something is removed exactly when the hostname has more than one dot. If nothing is removed, the hostname is unchanged. If something is removed, the new hostname is the text after the first dot: non-empty, strictly shorter, and with one dot fewer. |
| AccessPolicy.Allow | src/browser/BrowserService.cpp:786-788 | The host becomes allowed and not denied. Every other host and the realm are unchanged. |
| AccessPolicy.Deny | src/browser/BrowserService.cpp:766-768 | The host becomes denied and not allowed. Every other host and the realm are unchanged. |
| AccessPolicy.LastDecisionWins | src/browser/BrowserService.cpp:762-797 | For a single host, whichever of allow and deny comes last decides. |
| AccessPolicy.AllowIdempotent | src/browser/BrowserService.cpp:786-788 | Allowing a host twice equals allowing it once. |
| AccessPolicy.LoadConfig | src/browser/BrowserService.cpp:853-856 | Without stored settings no config is loaded. |
| AccessPolicy.SaveConfig | src/browser/BrowserService.cpp:773 | Saving writes the settings slot and keeps every other custom-data key. |
| AccessPolicy.SaveThenLoad | src/browser/BrowserService.cpp:773-785 | With a codec that reads back what it writes, loading after saving gives the saved config. |
| AccessPolicy.CheckAccess | src/browser/BrowserService.cpp:850-870 | There are four cases. No loadable config gives Unknown, even for an expired entry. An expired entry gives Allowed or Denied, following allowExpiredCredentials alone. Otherwise the result is Allowed exactly when the host is allowed and the submit host is empty or allowed. Denied holds exactly when the hosts are not allowed and either the host or the submit host is denied, or a non-empty realm differs from the stored one. |
| AccessPolicy.AllowedHostOutranksRealm | src/browser/BrowserService.cpp:860-868 | Allowed hosts are checked before denials and before the realm. |
| AccessPolicy.RememberAllowed | src/browser/BrowserService.cpp:784-793 | "Remember" allows the host and the submit host, leaves neither denied, and sets the realm only when it is non-empty. Every other host keeps its allowed and denied status. |
| AccessPolicy.RememberDenied | src/browser/BrowserService.cpp:762-774 | Disabling denies the host, and the submit host when it is non-empty. The realm is set only when it is non-empty. Every other host keeps its allowed and denied status. |
| AccessPolicy.RememberedApprovalIsAllowed | src/browser/BrowserService.cpp:784-793 | Once a remembered approval is saved, the same request on a live entry is Allowed. |
| AccessPolicy.RememberedDenialIsDenied | src/browser/BrowserService.cpp:762-774 | Once a disabling is saved, the same request on a live entry is Denied. |
| AccessPolicy.Remember | src/browser/BrowserService.cpp:762-797 | The dialog's edit of custom data keeps every other key and writes the settings slot. After an allow, the stored config allows the hosts. After a deny, it denies them. The stored realm becomes the requested one when that is non-empty, and otherwise stays the old one (empty when none could be loaded). |
| AccessPolicy.RememberIdempotent | src/browser/BrowserService.cpp:762-797 | With a round-tripping codec, making the same edit twice equals making it once. So an entry listed on two rows ends up as if it were listed on one. |
| AccessPolicy.AllowsHostsIsAllowed | src/browser/BrowserService.cpp:850-870 | A stored approval makes checkAccess answer Allowed for a live entry. |
| AccessPolicy.DeniesHostsIsDenied | src/browser/BrowserService.cpp:850-870 | A stored denial, with the hosts not allowed, makes checkAccess answer Denied for a live entry. |
| Authorization.HavingMembers | src/browser/BrowserService.cpp:364-397 | Each triage list holds exactly the hits with that disposition, in search order. |
| Authorization.PickMembers | src/browser/BrowserService.cpp:364-397 | A picked list holds exactly the elements whose disposition matches. |
| Authorization.PartitionCounts | src/browser/BrowserService.cpp:364-397 | Every hit is counted in exactly one of the three lists (returned, confirmed, dropped), as multisets. |
| Authorization.HiddenNeverOffered | src/browser/BrowserService.cpp:365-368 | An entry whose hide option is "true" is always dropped. |
| Authorization.HttpAuthOnlyNotForForms | src/browser/BrowserService.cpp:370-373 | An HTTP-auth-only entry is dropped for a request that is not HTTP authentication. |
| Authorization.HttpAuthNeedsConfirmation | src/browser/BrowserService.cpp:375-379 | Without the HTTP-auth permission, every visible HTTP-auth hit goes to confirmation, whatever its config says. |
| Authorization.IncludedExactly | src/browser/BrowserService.cpp:364-397 | A hit is returned without asking exactly when all of these hold: it is visible for this kind of request, no forced confirmation applies, and its access is Allowed, or Unknown with alwaysAllowAccess set. |
| Authorization.DeniedNeverReachesUser | src/browser/BrowserService.cpp:381-383 | A Denied hit is dropped unless HTTP authentication forces a confirmation. |
| Authorization.ClassifyEntries | src/browser/BrowserService.cpp:364-397 | The loop builds the returned list and the to-confirm list, each equal to the hits with that disposition, in order. |
| Authorization.ClassifyEntry | src/browser/BrowserService.cpp:365-396 | One iteration appends the hit to at most the one list its disposition names. |
| Search.PrimaryHitNotDeduplicated | src/browser/BrowserService.cpp:567-579 | An entry matched by both an additional URL and its own URL is appended twice. |
| Search.ScanEntriesSound | src/browser/BrowserService.cpp:561-580 | Scanning keeps earlier hits and adds only live scanned entries with a usable URL. |
| Search.ScanEntriesComplete | src/browser/BrowserService.cpp:561-580 | Every live scanned entry with a usable URL is found. |
| Search.ScanGroupsSound | src/browser/BrowserService.cpp:547-584 | Every hit of a database scan is a live entry with a usable URL in a searchable, non-recycled group. |
| Search.ScanGroupsComplete | src/browser/BrowserService.cpp:547-584 | Every such entry is a hit of the database scan. |
| Search.SearchDatabase | src/browser/BrowserService.cpp:547-584 | The nested group and entry loops compute the database scan. |
| Search.SearchGroup | src/browser/BrowserService.cpp:561-581 | The entry loop of one group computes the scan of its entries. |
| Search.VisitEntry | src/browser/BrowserService.cpp:562-580 | The body of the entry loop computes `Visit`. |
| Search.VisitAdditionalUrls | src/browser/BrowserService.cpp:567-573 | The entry is appended once exactly when some `KP2A_URL*` attribute holds a usable URL and the entry is not yet listed. |
| Search.HitAmongAdd | src/browser/BrowserService.cpp:567-573 | Examining one more attribute adds exactly that attribute's hit. |
| Search.DatabaseConnected | src/browser/BrowserService.cpp:589-597 | True exactly when some key pair of the browser matches the non-empty key stored for its id. |
| Search.ConnectedAmong | src/browser/BrowserService.cpp:600-607 | The selected databases are exactly the open, connected ones. |
| Search.SelectConnected | src/browser/BrowserService.cpp:600-607 | The selection loop computes those databases in order. |
| Search.SelectIfConnected | src/browser/BrowserService.cpp:602-606 | One iteration keeps the database exactly when it is open and connected. |
| Search.ScanAllSound | src/browser/BrowserService.cpp:616-620 | Every hit of a pass is a live entry with a usable URL from one of the searched databases. |
| Search.ScanAllStep | src/browser/BrowserService.cpp:617-619 | A pass over one more database appends that database's hits. |
| Search.SearchDatabases | src/browser/BrowserService.cpp:617-619 | The loop over the selected databases computes one pass. |
| Search.RelaxedSearch | src/browser/BrowserService.cpp:614-624 | The do-while ends, because the hostname strictly shortens on each retry. Its result equals a single pass, since the relaxed hostname is never used by the search. |
| Ranking.SortPriority | src/browser/BrowserService.cpp:898-954 | The score is one of 0, 5, …, 100. An entry host with no dot that is not localhost scores 0. Otherwise the score is 100 exactly when the submit URL equals the entry URL. A score of 90 or more means the submit URL starts with the entry URL. |
| Ranking.ExactMatchOutranks | src/browser/BrowserService.cpp:925-929 | An exact submit-URL match outranks every entry that is not one. |
| Ranking.Priority | src/browser/BrowserService.cpp:898-924 | The priority of an entry, from its normalized URL, is a rung between 0 and 100. |
| Ranking.TopPriority | src/browser/BrowserService.cpp:719-739 | The highest priority present, or 0 for no entries. |
| Ranking.Insert | src/browser/BrowserService.cpp:723-731 | Insertion into a key-sorted list keeps it sorted and adds exactly the element. |
| Ranking.SortBucket | src/browser/BrowserService.cpp:723-731 | A bucket is sorted by the chosen field, then by user name, as a permutation. |
| Ranking.AppendBucket | src/browser/BrowserService.cpp:732-733 | Appending a sorted bucket of lower priority keeps the output ranked. |
| Ranking.AtLeastSplit | src/browser/BrowserService.cpp:719-739 | Entries at or above p are those at or above p + 5 plus bucket p, since no score lies between. |
| Ranking.RankEntries | src/browser/BrowserService.cpp:712-715 | The priority map holds each entry once, with its priority, in input order. |
| Ranking.SortRanked | src/browser/BrowserService.cpp:717-741 | The 100→0 bucket loop outputs a list whose priorities never increase and whose equal priorities are in key order. Without bestMatchOnly the list is a permutation of the input. With it, the list is exactly the highest non-empty bucket. |
| Ranking.BucketRound | src/browser/BrowserService.cpp:720-738 | One round appends bucket p and stops there under bestMatchOnly when the output becomes non-empty, keeping the loop invariant. |
| Ranking.NextBucket | src/browser/BrowserService.cpp:720-733 | The sorted bucket p extends the output to the entries at or above p and keeps it ranked. |
| Ranking.Finished | src/browser/BrowserService.cpp:719-741 | When the loop stops, the output has the promised order and contents. |
| Ranking.SortEntries | src/browser/BrowserService.cpp:700-742 | The result is ranked by priority, then by the chosen field, then by user name. Without bestMatchOnly it is a permutation of the input. With it, it holds exactly the entries of the best non-empty priority. |
| Migration.MoveSettingsToCustomData | src/browser/BrowserService.cpp:1103-1116 | Returns true exactly when the attribute exists. The attribute is removed, and a non-empty value is stored as the browser settings. Nothing else changes. |
| Migration.SettingsMovedFacts | src/browser/BrowserService.cpp:1103-1116 | After the move the attribute is gone. Every other attribute and custom-data key is kept, a non-empty value lands in the settings slot, and moving again changes nothing. |
| Migration.LegacyKeyRoundTrip | src/browser/BrowserService.cpp:1121-1123 | A legacy attribute `Public Key: <k>` migrates to the database key `KPXC_BROWSER_<k>`. |
| Migration.MigrationIdempotent | src/browser/BrowserService.cpp:1118-1136 | After a migration, migrating the same attributes again adds no key. |
| Migration.MigrateAttributes | src/browser/BrowserService.cpp:1120-1133 | The attribute loop. Without a database it counts 0. Otherwise it leaves the database in the state `Migrating` describes for all attributes, with the count of keys stored. |
| Migration.MigrateNext | src/browser/BrowserService.cpp:1121-1131 | One iteration keeps the loop state. The attribute is added to those visited, and the count goes up exactly when a key was stored. |
| Migration.MigrateKey | src/browser/BrowserService.cpp:1121-1131 | One iteration stores the attribute under its database key exactly when it is a legacy key and that database key is not yet stored. It then reports that it added one. |
| Migration.MoveKeysToCustomData | src/browser/BrowserService.cpp:1118-1136 | Without a database the count is 0. Otherwise: every old database key keeps its value; the new keys are exactly the database keys of legacy attributes that were not stored before; each new key holds the value of a legacy attribute that names it; and the count is the number of new keys. |
| Service.DecidingRound | src/browser/BrowserService.cpp:297-329 | The association dialog ends at the first round that aborts, gives a new id, or agrees to overwrite. Whether a round aborts depends on the lock state at its start, which includes a lock during an earlier cancelled overwrite question (`LockedBefore`). |
| Service.Chosen | src/browser/BrowserService.cpp:779-797 | The chosen entries are taken from the dialog's list. |
| Service.ChosenMembers | src/browser/BrowserService.cpp:779-797 | An entry is chosen exactly when it sits on a selected row. |
| Service.Granted | src/browser/BrowserService.cpp:751-811 | confirmEntries returns a sub-list of its input. It returns nothing when the list is empty, when another dialog is open, or when the dialog is rejected or the database is locked. |
| Service.DialogEdit | src/browser/BrowserService.cpp:762-797 | The custom data of one listed entry after the dialog. Every key other than the settings is kept, and an untouched entry is unchanged. A remembered entry's config allows the hosts. A disabled-only entry's config denies them. For an edited entry the realm becomes the requested one when that is non-empty, and otherwise stays the old one. |
| Service.EditRow | src/browser/BrowserService.cpp:762-797 | One row of the disable or remember loop keeps the loop state `RowsDone`. |
| Service.DenyRows | src/browser/BrowserService.cpp:762-774 | Every entry on a disabled row keeps its other custom-data keys. With a round-tripping codec its custom data is exactly the deny edit of the old one, once, and its stored config denies the hosts. Every other listed entry keeps its custom data. Attributes and flags are untouched. |
| Service.AllowRows | src/browser/BrowserService.cpp:779-797 | Returns the selected rows in order. With "remember", each of them keeps its other custom-data keys. With a round-tripping codec, its custom data is exactly the allow edit of the old one, and its config allows the hosts. The custom data of every other listed entry is unchanged. |
| Service.BrowserService.constructor | src/browser/BrowserService.cpp:63-73 | A new service has no dialog open and no clients. |
| Service.BrowserService.DatabaseOpened | src/browser/BrowserService.cpp:94-100 | There is a current database and it is not locked. |
| Service.BrowserService.GetKey | src/browser/BrowserService.cpp:338-346 | The key stored for the id, or empty when there is none or no current database. |
| Service.BrowserService.StoreKey | src/browser/BrowserService.cpp:286-336 | There are three outcomes. With no current database, nothing is stored. At the deciding round, a rejection, an empty id, or a database locked when the id dialog closes stores nothing and returns an empty id; the lock is recorded. A lock in an earlier round, while an overwrite question the user cancelled was open, makes the next round abort. Otherwise the key is stored under `KPXC_BROWSER_<id>` together with its creation time, and GetKey(id) then returns the key. This holds even when the database was locked while the overwrite question was open and the user chose Overwrite; that lock is recorded. Nothing else changes. |
| Service.BrowserService.DatabasesToSearch | src/browser/BrowserService.cpp:600-613 | The searched databases are all reachable. |
| Service.BrowserService.SearchedWithin | src/browser/BrowserService.cpp:600-613 | The searched databases hold only reachable entries. |
| Service.BrowserService.SearchEntries | src/browser/BrowserService.cpp:586-625 | The result is one pass over the connected databases: all open ones when searching all databases, else the current one. |
| Service.BrowserService.ConfirmEntries | src/browser/BrowserService.cpp:744-812 | An empty list or an open dialog gives an empty result and changes nothing. Otherwise the dialog flag is restored afterwards. An accepted dialog returns the selected rows. Every listed entry keeps its other custom-data keys. An entry that is neither disabled nor selected with "remember" is unchanged. With a round-tripping codec each entry's custom data is `DialogEdit` of its old one: disabled rows get the hosts denied, selected rows with "remember" get them allowed, and the realm is recorded when non-empty. These three facts form the predicate `DialogEffect`. A lock during the dialog is recorded. |
| Service.BrowserService.Authorize | src/browser/BrowserService.cpp:361-403 | The hits returned without asking, followed by those the user grants in the dialog. The database counts as locked afterwards exactly when it was before, or when the dialog was shown and the database was locked during it. Only the entries put to the user can have their custom data changed, and they change as `DialogEffect` states. |
| Service.BrowserService.OfferedDispositions | src/browser/BrowserService.cpp:361-403 | An entry offered before ranking is a hit that the triage returns directly or puts to the user. Every hit it returns directly is offered. |
| Service.BrowserService.HiddenNotOffered | src/browser/BrowserService.cpp:365-368 | An entry whose hide option is set is never offered, so it is never among the entries findMatchingEntries returns. |
| Service.BrowserService.FindMatchingEntries | src/browser/BrowserService.cpp:348-424 | Nothing is returned once the database is locked. The result is ranked, and drawn from the entries returned directly plus those the user granted. While the database stays open, the result is exactly those entries, as a multiset, without bestMatchOnly. With bestMatchOnly it is exactly the bucket of the highest priority among them. The lock state afterwards, the custom-data frame and the dialog's edit are as for `Authorize`, over the hits put to the user. Entry attributes and flags are unchanged. |
| Service.BrowserService.RankOffered | src/browser/BrowserService.cpp:361-421 | The part after the search: it states the same result and the same effects, in terms of the given hits. |
| Service.BrowserService.ProcessClientMessage | src/browser/BrowserService.cpp:1265-1280 | A message without a client id is dropped. The first message of a client creates its handler, and later messages reuse it. No other state changes. |

## Left out

- Service.BrowserService.SearchEntries: requires a current database when not searching all databases. The source dereferences a null current database there.
- Service.BrowserService.FindMatchingEntries: carries the same requirement, for the same reason.
- Search.RelaxedSearch: the relaxed hostname is computed but never passed to the search, so every retry repeats the first pass. The model keeps the loop, and its contract states that the result is one pass.
- Dialogs (QInputDialog, the overwrite message box, BrowserAccessControlDialog) are oracle inputs. `KeyPrompt.locked` and `AccessAnswer.locked` model the database being locked while the id dialog or the access dialog is open, which rejects it. `KeyPrompt.lockedAtOverwrite` models a lock while the overwrite question is open, which does not close it.
- A switch of the active database while the access dialog is open is not modelled. It rejects the dialog, which the model represents only as a dialog that was not accepted. The lock test at line 410 then looks at the new current database. The model has no such switch and tests the database that was current when the request arrived.
- Re-entrant requests are not modelled. `dialogActive` is false after the constructor, and `ConfirmEntries` restores it before returning, so it is false at every call. The "another dialog is open" branch at line 751 is therefore never taken through the model. In the source that branch is reached by a request handled inside the dialog's nested event loop.
- Service.DenyRows, Service.AllowRows, Service.ConfirmEntries: the exact custom data of an edited entry is stated only for a round-tripping codec. An entry listed on several rows gets the edit several times, which equals one edit only when the stored config reads back. Without that, only the kept keys and the unchanged entries are stated.
- DomainMatch.SchemeFound: this QUrl query has no property beyond its definition, and nothing in BrowserService.cpp calls it; the ranking tests the scheme directly.
- DomainMatch.BaseDomain: a host that contains its public suffix but does not end with it gets the result the source computes (chop, last label, suffix), but no contract describes it. QUrl's suffix is always a tail of the host, so the case does not arise there; the URL parser here is a parameter and is not constrained that way.
- Service.BrowserService.StoreKey: requires that the user eventually ends the association dialog. In the source the loop runs for as long as the user keeps refusing to overwrite.
- Window handling (raiseWindow, hideWindow, the macOS helpers), the progress dialog and `Tools::wait` are not modelled.
- The browser host transport and its signals are not modelled: sending responses, and the databaseLocked, databaseUnlocked and activeDatabaseChanged notifications.
- BrowserAction's own message handling is not modelled. The handler is an opaque object.
- QUrl parsing, rendering, `fromUserInput`, `topLevelDomain` (the public-suffix list) and QHostAddress are functions of the `UrlParser` parameter and are not interpreted.
- `QString::localeAwareCompare` is modelled as an integer collation key. This makes the comparator a total preorder, which the locale's collation is assumed to be.
- Ranking.SortBucket: std::sort does not fix the order of entries with equal keys. The model picks one order, and its contract only promises key order and a permutation.
- BrowserEntryConfig's allow and deny are modelled as moving the host into one host set and out of the other. src/browser/BrowserEntryConfig.cpp is not part of this model.
- The JSON codec of BrowserEntryConfig is a parameter. Lemmas that read back a saved config assume it round-trips (`AccessPolicy.RoundTrips`).
- The current time stored with a new key is a parameter, `now`.
- Migration.MoveKeysToCustomData: the source visits attributes in name order (QMap). The model visits them in an unspecified order, so when two legacy attributes map to the same database key, it does not say which value is stored.
- `prepareEntry` (placeholders, TOTP, JSON building) is not modelled. findMatchingEntries returns the ranked entries rather than their JSON.
- `getDatabaseHash` (SHA-256), `addEntry`, `updateEntry`, the group-creation helpers, `convertAttributesToCustomData` and `checkLegacySettings` are not modelled. They are object-graph construction and dialogs around the modelled core.
- The values of `CustomData::BrowserKeyPrefix`, `BrowserLegacyKeyPrefix` and `Created` come from src/core/CustomData.cpp, which is not part of this model. They are written out in `Store` as KeePassXC defines them.
- Entries and groups keep only the fields the core reads. Group nesting is flattened to the list of groups in search order (root first, then descendants).
