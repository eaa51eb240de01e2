/**
 * The scan of one database for entries usable on a page, and the test that a database is
 * associated with the requesting browser.
 */
module Search {
  import opened Text
  import opened Env
  import opened Store
  import opened DomainMatch

  /** What a search compares entries against: the page, the form's submit URL, and the
      services and settings that handleURL consults. */
  datatype Query = Query(q: UrlParser, s: BrowserSettings, url: string, submitUrl: string)

  /** Some attribute whose name starts with KP2A_URL holds a URL usable on the page. */
  predicate AdditionalHit(query: Query, e: Entry)
    reads e
  {
    exists k :: k in e.attributes && StartsWith(k, AdditionalUrl)
                && HandleUrl(query.q, query.s, e.attributes[k], query.url, query.submitUrl)
  }

  /** The entry's own URL is usable on the page. */
  predicate PrimaryHit(query: Query, e: Entry)
    reads e
  {
    HandleUrl(query.q, query.s, Value(e.attributes, UrlKey), query.url, query.submitUrl)
  }

  /** A live entry with some URL usable on the page: what the search lists. */
  predicate Hit(query: Query, e: Entry)
    reads e
  {
    !e.recycled && (AdditionalHit(query, e) || PrimaryHit(query, e))
  }

  /**
   * What visiting one entry appends to the hits found so far: nothing for a recycled entry;
   * the entry once for an additional URL unless it is already listed; and the entry (again) for
   * its own URL.
   */
  function Visit(query: Query, acc: seq<Entry>, e: Entry): seq<Entry>
    reads e
  {
    if e.recycled then acc
    else
      var withAdditional := if AdditionalHit(query, e) && e !in acc then acc + [e] else acc;
      if PrimaryHit(query, e) then withAdditional + [e] else withAdditional
  }

  /** The hits after visiting the entries `es` of one group in order, starting from `acc`. */
  function ScanEntries(query: Query, acc: seq<Entry>, es: seq<Entry>): seq<Entry>
    reads es
    decreases |es|
  {
    if es == [] then acc
    else Visit(query, ScanEntries(query, acc, es[..|es| - 1]), es[|es| - 1])
  }

  /** A group whose entries the search visits: not in the recycle bin and searchable. */
  predicate Searched(g: Group) {
    !g.recycled && g.searchingEnabled
  }

  /** The hits after visiting the groups `gs` in order. */
  function ScanGroups(query: Query, gs: seq<Group>): seq<Entry>
    reads GroupEntries(gs)
    decreases |gs|
  {
    if gs == [] then []
    else
      var acc := ScanGroups(query, gs[..|gs| - 1]);
      var g := gs[|gs| - 1];
      assert forall e :: e in g.entries ==> e in GroupEntries(gs);
      if Searched(g) then ScanEntries(query, acc, g.entries) else acc
  }

  /** Visiting never drops a hit already found. */
  lemma VisitExtends(query: Query, acc: seq<Entry>, e: Entry)
    ensures acc <= Visit(query, acc, e)
  {
  }

  /** Scanning entries keeps what was found and adds only hits among the scanned entries. */
  lemma {:induction false} ScanEntriesSound(query: Query, acc: seq<Entry>, es: seq<Entry>)
    ensures acc <= ScanEntries(query, acc, es)
    ensures forall x :: x in ScanEntries(query, acc, es) && x !in acc ==>
              x in es && Hit(query, x)
    decreases |es|
  {
    if es != [] {
      ScanEntriesSound(query, acc, es[..|es| - 1]);
    }
  }

  /** Every live entry of the scanned list that has a hit is found. */
  lemma {:induction false} ScanEntriesComplete(query: Query, acc: seq<Entry>, es: seq<Entry>)
    ensures forall x :: x in es && Hit(query, x)
              ==> x in ScanEntries(query, acc, es)
    decreases |es|
  {
    if es != [] {
      var init := es[..|es| - 1];
      ScanEntriesComplete(query, acc, init);
      VisitExtends(query, ScanEntries(query, acc, init), es[|es| - 1]);
      forall x | x in es && Hit(query, x)
        ensures x in ScanEntries(query, acc, es)
      {
        if x != es[|es| - 1] {
          assert x in init;
        }
      }
    }
  }

  /** Every hit of a database scan is a live entry with a usable URL in a searched group. */
  lemma {:induction false} ScanGroupsSound(query: Query, gs: seq<Group>)
    ensures forall x :: x in ScanGroups(query, gs) ==>
              (exists g :: g in gs && Searched(g) && x in g.entries)
              && Hit(query, x)
    decreases |gs|
  {
    if gs != [] {
      var init, g := gs[..|gs| - 1], gs[|gs| - 1];
      ScanGroupsSound(query, init);
      if Searched(g) {
        ScanEntriesSound(query, ScanGroups(query, init), g.entries);
      }
      forall x | x in ScanGroups(query, gs)
        ensures exists g' :: g' in gs && Searched(g') && x in g'.entries
      {
        if x in ScanGroups(query, init) {
          var g' :| g' in init && Searched(g') && x in g'.entries;
          assert g' in gs;
        } else {
          assert g in gs;
        }
      }
    }
  }

  /** Every live entry with a usable URL in a searched group is a hit of the database scan. */
  lemma {:induction false} ScanGroupsComplete(query: Query, gs: seq<Group>)
    ensures forall g, x ::
              g in gs && Searched(g) && x in g.entries && Hit(query, x)
              ==> x in ScanGroups(query, gs)
    decreases |gs|
  {
    if gs != [] {
      var init, last := gs[..|gs| - 1], gs[|gs| - 1];
      ScanGroupsComplete(query, init);
      if Searched(last) {
        ScanEntriesSound(query, ScanGroups(query, init), last.entries);
        ScanEntriesComplete(query, ScanGroups(query, init), last.entries);
      }
      forall g, x | g in gs && Searched(g) && x in g.entries && Hit(query, x)
        ensures x in ScanGroups(query, gs)
      {
        if g != last {
          assert g in init;
          assert x in ScanGroups(query, init);
        }
      }
    }
  }

  /** An entry matched by both an additional URL and its own URL is listed twice: the primary URL
      is appended without the de-duplication check that guards additional URLs. */
  lemma PrimaryHitNotDeduplicated(query: Query, acc: seq<Entry>, e: Entry)
    requires !e.recycled && e !in acc
    requires AdditionalHit(query, e) && PrimaryHit(query, e)
    ensures Visit(query, acc, e) == acc + [e, e]
  {
  }

  /**
   * searchEntries(db, url, submitUrl): every group of the database (root first, then the
   * descendants), skipping recycled and unsearchable groups and recycled entries, listing each
   * entry whose additional URL or own URL is usable on the page.
   */
  method SearchDatabase(query: Query, db: Database) returns (entries: seq<Entry>)
    ensures entries == ScanGroups(query, db.groups)
  {
    entries := [];
    for j := 0 to |db.groups|
      invariant entries == ScanGroups(query, db.groups[..j])
    {
      var g := db.groups[j];
      ghost var before := db.groups[..j];
      assert db.groups[..j + 1][..j] == before && db.groups[..j + 1][j] == g;
      if !g.recycled && g.searchingEnabled {
        entries := SearchGroup(query, entries, g.entries);
        // The scan so far reads only entries that existed before the call, which changed nothing.
        assert forall e :: e in GroupEntries(before) ==> allocated(e);
      }
    }
    assert db.groups[..|db.groups|] == db.groups;
  }

  /** The loop over the entries of one group. */
  method SearchGroup(query: Query, acc: seq<Entry>, es: seq<Entry>) returns (entries: seq<Entry>)
    ensures entries == ScanEntries(query, acc, es)
  {
    entries := acc;
    for i := 0 to |es|
      invariant entries == ScanEntries(query, acc, es[..i])
    {
      assert es[..i + 1][..i] == es[..i];
      entries := VisitEntry(query, entries, es[i]);
    }
    assert es[..|es|] == es;
  }

  /** The body of the entry loop: skip a recycled entry, try the additional URLs, then the
      entry's own URL. */
  method VisitEntry(query: Query, acc: seq<Entry>, e: Entry) returns (entries: seq<Entry>)
    ensures entries == Visit(query, acc, e)
  {
    entries := acc;
    if e.recycled {
      return;
    }
    entries := VisitAdditionalUrls(query, entries, e);
    if HandleUrl(query.q, query.s, Value(e.attributes, UrlKey), query.url, query.submitUrl) {
      entries := entries + [e];
    }
  }

  /** The loop over an entry's attribute names: the entry is appended once when some name starting
      with KP2A_URL holds a usable URL and the entry is not listed yet. */
  method VisitAdditionalUrls(query: Query, acc: seq<Entry>, e: Entry) returns (entries: seq<Entry>)
    ensures entries == if AdditionalHit(query, e) && e !in acc then acc + [e] else acc
  {
    entries := acc;
    var keys := e.attributes.Keys;
    ghost var seen: set<string> := {};
    while keys != {}
      invariant Scanned(query, e, acc, keys, seen, entries)
      decreases |keys|
    {
      var key :| key in keys;
      var hit := StartsWith(key, AdditionalUrl) && HandleUrl(query.q, query.s, e.attributes[key], query.url, query.submitUrl);
      ScannedStep(query, e, acc, keys, seen, entries, key);
      if hit && e !in entries {
        entries := entries + [e];
      }
      keys, seen := keys - {key}, seen + {key};
    }
    assert seen == e.attributes.Keys;
  }

  /** The attribute names split into those still to examine and those examined, and the entry
      appended once the examined ones give a hit. */
  predicate Scanned(query: Query, e: Entry, acc: seq<Entry>, keys: set<string>, seen: set<string>, entries: seq<Entry>)
    reads e
  {
    && keys + seen == e.attributes.Keys && keys !! seen
    && entries == if HitAmong(query, e, seen) && e !in acc then acc + [e] else acc
  }

  /** Examining one more attribute name appends the entry when that name gives the first hit. */
  lemma ScannedStep(query: Query, e: Entry, acc: seq<Entry>, keys: set<string>, seen: set<string>, entries: seq<Entry>, key: string)
    requires Scanned(query, e, acc, keys, seen, entries) && key in keys
    ensures
      var hit := StartsWith(key, AdditionalUrl) && HandleUrl(query.q, query.s, e.attributes[key], query.url, query.submitUrl);
      Scanned(query, e, acc, keys - {key}, seen + {key}, if hit && e !in entries then entries + [e] else entries)
  {
    HitAmongAdd(query, e, seen, key);
  }

  /** Some name in `names` starts with KP2A_URL and holds a usable URL. */
  predicate HitAmong(query: Query, e: Entry, names: set<string>)
    reads e
  {
    exists k :: k in names && k in e.attributes && StartsWith(k, AdditionalUrl)
                && HandleUrl(query.q, query.s, e.attributes[k], query.url, query.submitUrl)
  }

  /** Adding one attribute name to those examined adds that name's own hit. */
  lemma HitAmongAdd(query: Query, e: Entry, names: set<string>, key: string)
    requires key in e.attributes
    ensures HitAmong(query, e, names + {key}) <==>
              HitAmong(query, e, names)
              || (StartsWith(key, AdditionalUrl) && HandleUrl(query.q, query.s, e.attributes[key], query.url, query.submitUrl))
  {
  }

  /** One key pair of the browser matches the key stored for its id. */
  predicate Associates(customData: map<string, string>, pair: (string, string)) {
    var key := Value(customData, BrowserKeyPrefix + pair.0);
    key != [] && pair.1 == key
  }

  /** The database stores a key matching one of the browser's key pairs. */
  predicate Connected(db: Database, keyList: seq<(string, string)>)
    reads db
  {
    exists i :: 0 <= i < |keyList| && Associates(db.customData, keyList[i])
  }

  /** databaseConnected: some key pair of the browser matches a non-empty stored key. */
  method DatabaseConnected(db: Database, keyList: seq<(string, string)>) returns (connected: bool)
    ensures connected <==> Connected(db, keyList)
  {
    for i := 0 to |keyList|
      invariant forall j :: 0 <= j < i ==> !Associates(db.customData, keyList[j])
    {
      var key := Value(db.customData, BrowserKeyPrefix + keyList[i].0);
      if key != [] && keyList[i].1 == key {
        return true;
      }
    }
    return false;
  }

  /** The open databases that exist and are connected, in order. */
  function ConnectedAmong(dbs: seq<Database?>, keyList: seq<(string, string)>): (r: seq<Database>)
    reads dbs
    ensures forall i :: 0 <= i < |r| ==> r[i] in dbs && Connected(r[i], keyList)
    ensures forall i :: 0 <= i < |dbs| && dbs[i] != null && Connected(dbs[i], keyList) ==> dbs[i] in r
  {
    if dbs == [] then []
    else
      var n := |dbs| - 1;
      var db := dbs[n];
      ConnectedAmong(dbs[..n], keyList) + (if db != null && Connected(db, keyList) then [db] else [])
  }

  /** The loop that collects the databases to search when searching all open databases. */
  method SelectConnected(dbs: seq<Database?>, keyList: seq<(string, string)>) returns (selected: seq<Database>)
    ensures selected == ConnectedAmong(dbs, keyList)
  {
    selected := [];
    for j := 0 to |dbs|
      invariant selected == ConnectedAmong(dbs[..j], keyList)
    {
      assert dbs[..j + 1][..j] == dbs[..j];
      selected := SelectIfConnected(dbs[j], keyList, selected);
    }
    assert dbs[..|dbs|] == dbs;
  }

  /** The body of that loop: keep one database when it is open and connected. */
  method SelectIfConnected(db: Database?, keyList: seq<(string, string)>, selected: seq<Database>) returns (next: seq<Database>)
    ensures next == selected + (if db != null && Connected(db, keyList) then [db] else [])
  {
    next := selected;
    if db != null {
      var connected := DatabaseConnected(db, keyList);
      if connected {
        next := next + [db];
      }
    }
  }

  /** Every entry of the given databases. */
  function DbEntries(dbs: seq<Database>): set<Entry>
    reads dbs
  {
    set db, g, e | db in dbs && g in db.groups && e in g.entries :: e
  }

  /** One pass over the databases: their hits, database after database. */
  function ScanAll(query: Query, dbs: seq<Database>): seq<Entry>
    reads dbs
    reads DbEntries(dbs)
    decreases |dbs|
  {
    if dbs == [] then []
    else
      var n := |dbs| - 1;
      assert GroupEntries(dbs[n].groups) <= DbEntries(dbs);
      assert DbEntries(dbs[..n]) <= DbEntries(dbs);
      ScanAll(query, dbs[..n]) + ScanGroups(query, dbs[n].groups)
  }

  /** Every hit of a pass is a live entry with a usable URL, in a searched group of one of the
      databases. */
  lemma {:induction false} ScanAllSound(query: Query, dbs: seq<Database>)
    ensures forall x :: x in ScanAll(query, dbs) ==>
              x in DbEntries(dbs) && Hit(query, x)
    decreases |dbs|
  {
    if dbs != [] {
      var n := |dbs| - 1;
      ScanAllSound(query, dbs[..n]);
      ScanGroupsSound(query, dbs[n].groups);
      assert DbEntries(dbs[..n]) <= DbEntries(dbs);
      forall x | x in ScanGroups(query, dbs[n].groups)
        ensures x in DbEntries(dbs)
      {
        var g :| g in dbs[n].groups && Searched(g) && x in g.entries;
        assert dbs[n] in dbs;
      }
    }
  }

  /** A pass over one more database appends that database's hits. */
  lemma ScanAllStep(query: Query, dbs: seq<Database>, j: int)
    requires 0 <= j < |dbs|
    ensures ScanAll(query, dbs[..j + 1]) == ScanAll(query, dbs[..j]) + ScanGroups(query, dbs[j].groups)
  {
    assert dbs[..j + 1][..j] == dbs[..j];
  }

  /** The loop over the selected databases. */
  method SearchDatabases(query: Query, dbs: seq<Database>) returns (entries: seq<Entry>)
    ensures entries == ScanAll(query, dbs)
  {
    entries := [];
    for j := 0 to |dbs|
      invariant entries == ScanAll(query, dbs[..j])
    {
      ScanAllStep(query, dbs, j);
      // The pass reads only objects that existed before the call, which changes nothing.
      ghost var upto := dbs[..j + 1];
      ghost var hits, next := ScanGroups(query, dbs[j].groups), ScanAll(query, upto);
      assert forall e :: e in DbEntries(upto) ==> allocated(e);
      assert forall e :: e in GroupEntries(dbs[j].groups) ==> allocated(e);
      var found := SearchDatabase(query, dbs[j]);
      assert found == hits && ScanAll(query, upto) == next;
      entries := entries + found;
    }
    assert dbs[..|dbs|] == dbs;
  }

  /**
   * The search loop of searchEntries(url, submitUrl, keyList): one pass over the databases,
   * repeated while it finds nothing and removeFirstDomain can still shorten the page's host name.
   * The shortened name is not used by the pass, so a repetition finds what the first pass found.
   */
  method RelaxedSearch(query: Query, dbs: seq<Database>) returns (entries: seq<Entry>)
    ensures entries == ScanAll(query, dbs)
  {
    var hostname := query.q.parse(query.url).host;
    entries := [];
    var searching := true;
    while searching
      invariant searching ==> entries == []
      invariant !searching ==> entries == ScanAll(query, dbs)
      decreases |hostname|, searching
    {
      var found := SearchDatabases(query, dbs);
      entries := entries + found;
      searching := false;
      if entries == [] {
        var (removed, relaxed) := RemoveFirstDomain(hostname);
        if removed {
          hostname := relaxed;
          searching := true;
        }
      }
    }
  }
}
