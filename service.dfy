/**
 * The browser service itself: the state it keeps between requests (the current database, the
 * open databases, the access-dialog flag and the per-client message handlers) and the requests
 * that read and change it.
 */
module Service {
  import opened Env
  import opened Store
  import opened DomainMatch
  import opened AccessPolicy
  import opened Ranking
  import opened Search
  import opened Authorization

  /** The handler of one browser client's messages; what it does with them is not part of this model. */
  class BrowserAction {
    constructor () {}
  }

  /**
   * One round of the association dialog: whether it was accepted and with which id, whether the
   * database was locked while it was open (which rejects it), the answer to the overwrite question
   * if it is asked, and whether the database was locked while that question was open (which does
   * not close it).
   */
  datatype KeyPrompt = KeyPrompt(accepted: bool, id: string, locked: bool, overwrite: bool, lockedAtOverwrite: bool)

  /** The overwrite question is asked in a round that got past the lock test: the id is taken. */
  predicate AsksOverwrite(p: KeyPrompt, customData: map<string, string>) {
    BrowserKeyPrefix + p.id in customData
  }

  /** A round ends the association loop: it aborts, or its id is new, or the user overwrites.
      `locked` is the lock state when the round starts. */
  predicate Decisive(p: KeyPrompt, customData: map<string, string>, locked: bool) {
    !p.accepted || p.id == [] || locked || p.locked || !AsksOverwrite(p, customData) || p.overwrite
  }

  /** A round that ends the loop by storing the key rather than by aborting. */
  predicate Stores(p: KeyPrompt, locked: bool) {
    p.accepted && p.id != [] && !locked && !p.locked
  }

  /** The lock state when round `i` starts: a lock during an overwrite question that the user
      cancelled stays in force for the rounds after it. */
  function LockedBefore(prompts: seq<KeyPrompt>, customData: map<string, string>, i: nat, locked: bool): bool
    requires i <= |prompts|
  {
    if i == 0 then locked
    else
      var p := prompts[i - 1];
      LockedBefore(prompts, customData, i - 1, locked) || (AsksOverwrite(p, customData) && p.lockedAtOverwrite)
  }

  /** Round `i` ends the association dialog. */
  predicate DecidesAt(prompts: seq<KeyPrompt>, customData: map<string, string>, i: nat, locked: bool)
    requires i < |prompts|
  {
    Decisive(prompts[i], customData, LockedBefore(prompts, customData, i, locked))
  }

  /** The user eventually ends the association dialog. */
  predicate SomeRoundDecides(prompts: seq<KeyPrompt>, customData: map<string, string>, locked: bool) {
    exists i: nat :: i < |prompts| && DecidesAt(prompts, customData, i, locked)
  }

  /** The round that ends the association dialog: the first decisive one. */
  function DecidingRound(prompts: seq<KeyPrompt>, customData: map<string, string>, locked: bool): (k: nat)
    requires SomeRoundDecides(prompts, customData, locked)
    ensures k < |prompts| && DecidesAt(prompts, customData, k, locked)
    ensures forall j: nat :: j < k ==> !DecidesAt(prompts, customData, j, locked)
  {
    DecidingRoundFrom(prompts, customData, locked, 0)
  }

  /** The first decisive round from round `j` on, when none before `j` is. */
  function DecidingRoundFrom(prompts: seq<KeyPrompt>, customData: map<string, string>, locked: bool, j: nat): (k: nat)
    requires j <= |prompts|
    requires exists i: nat :: j <= i < |prompts| && DecidesAt(prompts, customData, i, locked)
    ensures j <= k < |prompts| && DecidesAt(prompts, customData, k, locked)
    ensures forall i: nat :: j <= i < k ==> !DecidesAt(prompts, customData, i, locked)
    decreases |prompts| - j
  {
    if DecidesAt(prompts, customData, j, locked) then j
    else DecidingRoundFrom(prompts, customData, locked, j + 1)
  }

  /**
   * What the user did in the access dialog: whether it was accepted, whether the database was
   * locked while it was open (which rejects it), the "remember" box, the rows selected, and the
   * rows whose access was disabled.
   */
  datatype AccessAnswer = AccessAnswer(accepted: bool, locked: bool, remember: bool,
                                       selected: nat -> bool, disabled: nat -> bool)

  /** The entries on the chosen rows, in row order. */
  function Chosen(list: seq<Entry>, rows: nat -> bool): (r: seq<Entry>)
    ensures forall k :: 0 <= k < |r| ==> r[k] in list
  {
    if list == [] then []
    else
      var n := |list| - 1;
      Chosen(list[..n], rows) + (if rows(n) then [list[n]] else [])
  }

  /** An entry is chosen exactly when it sits on a chosen row. */
  lemma {:induction false} ChosenMembers(list: seq<Entry>, rows: nat -> bool)
    ensures forall x :: x in Chosen(list, rows) ==> exists i :: 0 <= i < |list| && rows(i) && list[i] == x
    ensures forall i :: 0 <= i < |list| && rows(i) ==> list[i] in Chosen(list, rows)
  {
    if list != [] {
      var n := |list| - 1;
      ChosenMembers(list[..n], rows);
      forall x | x in Chosen(list, rows)
        ensures exists i :: 0 <= i < |list| && rows(i) && list[i] == x
      {
        if x in Chosen(list[..n], rows) {
          var i :| 0 <= i < n && rows(i) && list[..n][i] == x;
          assert list[i] == x;
        } else {
          assert rows(n) && list[n] == x;
        }
      }
      forall i | 0 <= i < |list| && rows(i)
        ensures list[i] in Chosen(list, rows)
      {
        if i < n {
          assert list[..n][i] == list[i];
        }
      }
    }
  }

  /** The access dialog is shown for a non-empty list when no other dialog is open. */
  predicate DialogShown(list: seq<Entry>, busy: bool) {
    list != [] && !busy
  }

  /** The entries confirmEntries hands back: those on the selected rows of an accepted dialog. */
  function Granted(list: seq<Entry>, answer: AccessAnswer, busy: bool): (r: seq<Entry>)
    ensures forall k :: 0 <= k < |r| ==> r[k] in list
    ensures !DialogShown(list, busy) || !answer.accepted || answer.locked ==> r == []
  {
    if DialogShown(list, busy) && answer.accepted && !answer.locked then Chosen(list, answer.selected) else []
  }

  /**
   * The custom data of one listed entry after the access dialog: the disable edit when one of its
   * rows was disabled, then the remember edit when one of its rows was selected with "remember".
   */
  function DialogEdit(codec: ConfigCodec, customData: map<string, string>, denied: bool, allowed: bool,
                      host: string, submitHost: string, realm: string): (r: map<string, string>)
    ensures KeepsOthers(customData, r)
    ensures !denied && !allowed ==> r == customData
    ensures RoundTrips(codec) && allowed ==> AllowsHosts(codec, r, host, submitHost)
    ensures RoundTrips(codec) && denied && !allowed ==> DeniesHosts(codec, r, host, submitHost)
    ensures RoundTrips(codec) && (denied || allowed) ==>
              LoadConfig(codec, r).Some? &&
              LoadConfig(codec, r).value.realm == if realm != [] then realm else ConfigOrDefault(codec, customData).realm
  {
    var mid := if denied then Remember(codec, customData, false, host, submitHost, realm) else customData;
    if allowed then Remember(codec, mid, true, host, submitHost, realm) else mid
  }

  /** The entries on the first i + 1 rows that are chosen: those on the first i, and row i's. */
  lemma ChosenStep(list: seq<Entry>, rows: nat -> bool, i: int)
    requires 0 <= i < |list|
    ensures Chosen(list[..i + 1], rows) == Chosen(list[..i], rows) + (if rows(i) then [list[i]] else [])
  {
    assert list[..i + 1][..i] == list[..i];
  }

  /**
   * The state of the rows loop once the first i rows are done: every listed entry keeps the
   * custom-data keys it had (`before`) other than the browser settings, an entry on none of the
   * handled rows keeps its custom data, and (with a round-tripping codec) one on a handled row
   * holds the edit of its old custom data.
   */
  ghost predicate RowsDone(codec: ConfigCodec, list: seq<Entry>, rows: nat -> bool, i: int, allow: bool,
                           before: map<Entry, map<string, string>>, host: string, submitHost: string, realm: string)
    requires 0 <= i <= |list|
    reads list
  {
    && KeptAll(list, before)
    && Untouched(list, Chosen(list[..i], rows), before)
    && Edited(codec, Chosen(list[..i], rows), allow, before, host, submitHost, realm)
  }

  /** Every listed entry keeps its other custom-data keys. */
  predicate KeptAll(list: seq<Entry>, before: map<Entry, map<string, string>>)
    reads list
  {
    forall e :: e in list ==> e in before && KeepsOthers(before[e], e.customData)
  }

  /** A listed entry outside `done` keeps its custom data. */
  predicate Untouched(list: seq<Entry>, done: seq<Entry>, before: map<Entry, map<string, string>>)
    reads list
  {
    forall e :: e in list && e !in done && e in before ==> e.customData == before[e]
  }

  /** With a round-tripping codec, an entry in `done` holds the edit of its old custom data. */
  ghost predicate Edited(codec: ConfigCodec, done: seq<Entry>, allow: bool, before: map<Entry, map<string, string>>,
                         host: string, submitHost: string, realm: string)
    reads done
  {
    RoundTrips(codec) ==>
      forall e :: e in done && e in before ==> e.customData == Remember(codec, before[e], allow, host, submitHost, realm)
  }

  /**
   * What the access dialog did to the custom data of the listed entries: each keeps its other
   * keys; an entry neither disabled nor selected with "remember" in a shown dialog is unchanged;
   * with a round-tripping codec each holds the dialog's edit of its old custom data.
   */
  twostate predicate DialogEffect(codec: ConfigCodec, toConfirm: seq<Entry>, answer: AccessAnswer, busy: bool,
                                  host: string, submitHost: string, realm: string)
    reads toConfirm
  {
    var shown := DialogShown(toConfirm, busy);
    var granted := Granted(toConfirm, answer, busy);
    && (forall e :: e in toConfirm ==> KeepsOthers(old(e.customData), e.customData))
    && (forall e :: e in toConfirm &&
          !(shown && (e in Chosen(toConfirm, answer.disabled) || (answer.remember && e in granted)))
          ==> e.customData == old(e.customData))
    && (RoundTrips(codec) && shown ==>
          forall e :: e in toConfirm ==>
            e.customData == DialogEdit(codec, old(e.customData), e in Chosen(toConfirm, answer.disabled),
                                       answer.remember && e in granted, host, submitHost, realm))
  }

  /** One row of the loop: the entry on a handled row gets the edit. */
  method EditRow(codec: ConfigCodec, list: seq<Entry>, rows: nat -> bool, i: int, allow: bool,
                 ghost before: map<Entry, map<string, string>>, host: string, submitHost: string, realm: string)
    requires 0 <= i < |list| && RowsDone(codec, list, rows, i, allow, before, host, submitHost, realm)
    modifies list[i]
    ensures RowsDone(codec, list, rows, i + 1, allow, before, host, submitHost, realm)
    ensures list[i].attributes == old(list[i].attributes)
    ensures list[i].expired == old(list[i].expired) && list[i].recycled == old(list[i].recycled)
  {
    ChosenStep(list, rows, i);
    ghost var done, next := Chosen(list[..i], rows), Chosen(list[..i + 1], rows);
    if rows(i) {
      var e := list[i];
      assert e in before;
      var edit := Remember(codec, e.customData, allow, host, submitHost, realm);
      if RoundTrips(codec) && e in done {
        RememberIdempotent(codec, before[e], allow, host, submitHost, realm);
      }
      assert RoundTrips(codec) ==> edit == Remember(codec, before[e], allow, host, submitHost, realm);
      e.customData := edit;
      forall x | x in list
        ensures x in before && KeepsOthers(before[x], x.customData)
      {
      }
      forall x | x in list && x !in next && x in before
        ensures x.customData == before[x]
      {
        assert x != e && x !in done;
      }
      forall x | RoundTrips(codec) && x in next && x in before
        ensures x.customData == Remember(codec, before[x], allow, host, submitHost, realm)
      {
        if x != e {
          assert x in done;
        }
      }
    } else {
      assert next == done;
    }
  }

  /**
   * The disableAccess handler of the access dialog, for every disabled row: deny the hosts. An
   * entry on a disabled row gets the deny edit (once, however many of its rows are disabled, when
   * the codec round-trips); every other listed entry keeps its custom data.
   */
  method DenyRows(codec: ConfigCodec, toConfirm: seq<Entry>, host: string, submitHost: string, realm: string,
                  disabled: nat -> bool)
    modifies toConfirm
    ensures forall e: Entry :: old(allocated(e)) ==>
              e.attributes == old(e.attributes) && e.expired == old(e.expired) && e.recycled == old(e.recycled)
    ensures forall e :: e in toConfirm ==> KeepsOthers(old(e.customData), e.customData)
    ensures forall e :: e in toConfirm && e !in Chosen(toConfirm, disabled) ==> e.customData == old(e.customData)
    ensures RoundTrips(codec) ==>
              forall e :: e in Chosen(toConfirm, disabled) ==>
                e.customData == Remember(codec, old(e.customData), false, host, submitHost, realm)
    ensures RoundTrips(codec) ==>
              forall j :: 0 <= j < |toConfirm| && disabled(j) ==> DeniesHosts(codec, toConfirm[j].customData, host, submitHost)
  {
    ghost var before := map e | e in toConfirm :: e.customData;
    for i := 0 to |toConfirm|
      invariant RowsDone(codec, toConfirm, disabled, i, false, before, host, submitHost, realm)
      invariant forall e: Entry :: old(allocated(e)) ==>
                  e.attributes == old(e.attributes) && e.expired == old(e.expired) && e.recycled == old(e.recycled)
    {
      EditRow(codec, toConfirm, disabled, i, false, before, host, submitHost, realm);
    }
    assert toConfirm[..|toConfirm|] == toConfirm;
    ChosenMembers(toConfirm, disabled);
  }

  /**
   * The loop over the selected rows of an accepted dialog: collect the entries and, with
   * "remember", allow the hosts. A collected entry gets the allow edit (once, when the codec
   * round-trips); every other listed entry keeps its custom data.
   */
  method AllowRows(codec: ConfigCodec, toConfirm: seq<Entry>, host: string, submitHost: string, realm: string,
                   selected: nat -> bool, remember: bool) returns (allowed: seq<Entry>)
    modifies toConfirm
    ensures allowed == Chosen(toConfirm, selected)
    ensures forall e: Entry :: old(allocated(e)) ==>
              e.attributes == old(e.attributes) && e.expired == old(e.expired) && e.recycled == old(e.recycled)
    ensures forall e :: e in toConfirm ==> KeepsOthers(old(e.customData), e.customData)
    ensures forall e :: e in toConfirm && !(remember && e in allowed) ==> e.customData == old(e.customData)
    ensures RoundTrips(codec) && remember ==>
              forall e :: e in allowed ==> e.customData == Remember(codec, old(e.customData), true, host, submitHost, realm)
    ensures RoundTrips(codec) && remember ==> forall e :: e in allowed ==> AllowsHosts(codec, e.customData, host, submitHost)
  {
    ghost var before := map e | e in toConfirm :: e.customData;
    allowed := [];
    for i := 0 to |toConfirm|
      invariant allowed == Chosen(toConfirm[..i], selected)
      invariant remember ==> RowsDone(codec, toConfirm, selected, i, true, before, host, submitHost, realm)
      invariant !remember ==> forall e :: e in toConfirm ==> e.customData == before[e]
      invariant forall e: Entry :: old(allocated(e)) ==>
                  e.attributes == old(e.attributes) && e.expired == old(e.expired) && e.recycled == old(e.recycled)
    {
      ChosenStep(toConfirm, selected, i);
      if remember {
        EditRow(codec, toConfirm, selected, i, true, before, host, submitHost, realm);
      }
      if selected(i) {
        allowed := allowed + [toConfirm[i]];
      }
    }
    assert toConfirm[..|toConfirm|] == toConfirm;
  }

  class BrowserService {
    /** An access dialog is open. */
    var dialogActive: bool
    /** One message handler per client id. */
    var clients: map<string, BrowserAction>
    /** The database of the current database widget, if there is one. */
    var current: Database?
    /** The current database widget is locked. */
    var currentLocked: bool
    /** The databases of the main window's open database widgets. */
    var openDatabases: seq<Database?>

    constructor (current: Database?, currentLocked: bool, openDatabases: seq<Database?>)
      ensures !dialogActive && clients == map[]
      ensures this.current == current && this.currentLocked == currentLocked && this.openDatabases == openDatabases
    {
      dialogActive := false;
      clients := map[];
      this.current := current;
      this.currentLocked := currentLocked;
      this.openDatabases := openDatabases;
    }

    /** isDatabaseOpened: there is a current database and its widget is unlocked. */
    predicate DatabaseOpened()
      reads this
    {
      current != null && !currentLocked
    }

    /** Every database the service can reach. */
    function Databases(): set<Database>
      reads this
    {
      (set d | d in openDatabases && d != null) + (if current != null then {current} else {})
    }

    /** Every entry of those databases. */
    function Entries(): set<Entry>
      reads this, Databases()
    {
      set d, g, e | d in Databases() && g in d.groups && e in g.entries :: e
    }

    /** The databases that searchEntries looks in: the connected open databases when searching all
        of them, otherwise the current database if it is connected. */
    function DatabasesToSearch(s: BrowserSettings, keyList: seq<(string, string)>): (dbs: seq<Database>)
      reads this, Databases()
      ensures forall k :: 0 <= k < |dbs| ==> dbs[k] in Databases()
    {
      if s.searchInAllDatabases then
        ConnectedAmong(openDatabases, keyList)
      else if current != null && Connected(current, keyList) then [current]
      else []
    }

    /** The searched databases hold only reachable entries. */
    lemma SearchedWithin(s: BrowserSettings, keyList: seq<(string, string)>)
      ensures DbEntries(DatabasesToSearch(s, keyList)) <= Entries()
    {
      var dbs := DatabasesToSearch(s, keyList);
      forall e | e in DbEntries(dbs)
        ensures e in Entries()
      {
        var d, g :| d in dbs && g in d.groups && e in g.entries;
      }
    }

    /** The hits of one pass over the searched databases, as the state stands. */
    ghost function Found(query: Query, keyList: seq<(string, string)>): (r: seq<Entry>)
      reads this, Databases(), Entries()
      ensures forall x :: x in r ==> x in Entries()
    {
      var dbs := DatabasesToSearch(query.s, keyList);
      SearchedWithin(query.s, keyList);
      ScanAllSound(query, dbs);
      ScanAll(query, dbs)
    }

    /** The entries findMatchingEntries offers before ranking: the hits returned without asking,
        then those the user granted in the dialog. */
    ghost function Offered(query: Query, keyList: seq<(string, string)>, req: AccessRequest, answer: AccessAnswer): seq<Entry>
      reads this, Databases(), Entries()
    {
      Having(req, Found(query, keyList), Include) + Granted(PutToUser(query, keyList, req), answer, dialogActive)
    }

    /** An offered entry is a hit that the triage returns directly or puts to the user, and every
        hit it returns directly is offered. */
    lemma OfferedDispositions(query: Query, keyList: seq<(string, string)>, req: AccessRequest, answer: AccessAnswer, e: Entry)
      ensures e in Offered(query, keyList, req, answer) ==>
                e in Found(query, keyList) && DispositionOf(req, e) in {Include, Confirm}
      ensures e in Found(query, keyList) && DispositionOf(req, e) == Include ==> e in Offered(query, keyList, req, answer)
    {
      var found := Found(query, keyList);
      HavingMembers(req, found, Include);
      HavingMembers(req, found, Confirm);
    }

    /** An entry whose hide option is set is never offered, so findMatchingEntries never returns it. */
    lemma HiddenNotOffered(query: Query, keyList: seq<(string, string)>, req: AccessRequest, answer: AccessAnswer, e: Entry)
      requires OptionSet(e, OptionHideEntry)
      ensures e !in Offered(query, keyList, req, answer)
    {
      OfferedDispositions(query, keyList, req, answer, e);
      HiddenNeverOffered(req, e);
    }

    /** The hits findMatchingEntries puts to the user in the access dialog. */
    ghost function PutToUser(query: Query, keyList: seq<(string, string)>, req: AccessRequest): seq<Entry>
      reads this, Databases(), Entries()
    {
      Having(req, Found(query, keyList), Confirm)
    }

    /** getKey: the key stored for an association id; empty when there is none or no database. */
    function GetKey(id: string): (key: string)
      reads this, current
      ensures current == null ==> key == []
      ensures current != null && BrowserKeyPrefix + id !in current.customData ==> key == []
      ensures current != null && BrowserKeyPrefix + id in current.customData ==> key == current.customData[BrowserKeyPrefix + id]
    {
      if current == null then [] else Value(current.customData, BrowserKeyPrefix + id)
    }

    /**
     * storeKey: asks for an association id until the user gives a new one or agrees to overwrite
     * an existing one, then stores the key and its creation time. The dialog is aborted by a
     * rejection, an empty id, or a database locked when the id dialog closes, and nothing is
     * stored then. A lock while the overwrite question is open does not abort: an Overwrite still
     * stores the key, and a Cancel leads to a round that aborts.
     */
    method StoreKey(key: string, now: string, prompts: seq<KeyPrompt>) returns (id: string)
      requires current != null ==> SomeRoundDecides(prompts, current.customData, currentLocked)
      modifies this, current
      ensures current == old(current) && openDatabases == old(openDatabases)
      ensures clients == old(clients) && dialogActive == old(dialogActive)
      ensures current != null ==> current.groups == old(current.groups)
      ensures old(current) == null ==> id == [] && currentLocked == old(currentLocked)
      ensures old(current) != null ==>
                var k := DecidingRound(prompts, old(current.customData), old(currentLocked));
                var p, lockedAtStart := prompts[k], LockedBefore(prompts, old(current.customData), k, old(currentLocked));
                && (Stores(p, lockedAtStart) ==>
                      && id == p.id
                      && current.customData == old(current.customData)[BrowserKeyPrefix + id := key][Created + "_" + id := now]
                      && currentLocked == (old(currentLocked) || (AsksOverwrite(p, old(current.customData)) && p.lockedAtOverwrite)))
                && (!Stores(p, lockedAtStart) ==>
                      && id == []
                      && current.customData == old(current.customData)
                      && currentLocked == (lockedAtStart || p.locked))
      ensures id != [] ==> GetKey(id) == key
    {
      var db := current;
      if db == null {
        return [];
      }
      ghost var k := DecidingRound(prompts, db.customData, currentLocked);
      var i := 0;
      while true
        invariant 0 <= i <= k
        invariant current == db && openDatabases == old(openDatabases)
        invariant clients == old(clients) && dialogActive == old(dialogActive)
        invariant db.customData == old(db.customData) && db.groups == old(db.groups)
        invariant currentLocked == LockedBefore(prompts, db.customData, i, old(currentLocked))
        decreases k - i
      {
        var p := prompts[i];
        if p.locked {
          currentLocked := true;
        }
        if !p.accepted || p.id == [] || !DatabaseOpened() {
          assert DecidesAt(prompts, db.customData, i, old(currentLocked));
          return [];
        }
        id := p.id;
        var contains := BrowserKeyPrefix + id in db.customData;
        if contains && p.lockedAtOverwrite {
          currentLocked := true;
        }
        if !contains || p.overwrite {
          break;
        }
        assert !DecidesAt(prompts, db.customData, i, old(currentLocked));
        i := i + 1;
      }
      assert DecidesAt(prompts, db.customData, i, old(currentLocked));
      db.customData := db.customData[BrowserKeyPrefix + id := key];
      assert (Created + "_" + id)[0] != (BrowserKeyPrefix + id)[0];
      db.customData := db.customData[Created + "_" + id := now];
    }

    /**
     * searchEntries(url, submitUrl, keyList): picks the databases to search, then searches them
     * as RelaxedSearch describes.
     */
    method SearchEntries(query: Query, keyList: seq<(string, string)>) returns (entries: seq<Entry>)
      requires query.s.searchInAllDatabases || current != null
      ensures entries == old(Found(query, keyList))
    {
      ghost var searched := DatabasesToSearch(query.s, keyList);
      assert forall e :: e in DbEntries(searched) ==> allocated(e);
      var dbs: seq<Database>;
      if query.s.searchInAllDatabases {
        dbs := SelectConnected(openDatabases, keyList);
      } else {
        var connected := DatabaseConnected(current, keyList);
        dbs := if connected then [current] else [];
      }
      entries := RelaxedSearch(query, dbs);
    }

    /**
     * confirmEntries: unless the list is empty or another dialog is open, asks the user about the
     * listed entries. Disabled rows get the hosts denied in their stored config. When the dialog
     * is accepted, the selected rows are returned and, with "remember", get the hosts allowed.
     */
    method ConfirmEntries(codec: ConfigCodec, toConfirm: seq<Entry>, host: string, submitHost: string,
                          realm: string, answer: AccessAnswer) returns (allowed: seq<Entry>)
      modifies this, toConfirm
      ensures current == old(current) && openDatabases == old(openDatabases)
      ensures clients == old(clients) && dialogActive == old(dialogActive)
      ensures currentLocked == (old(currentLocked) || (old(DialogShown(toConfirm, dialogActive)) && answer.locked))
      ensures allowed == Granted(toConfirm, answer, old(dialogActive))
      ensures forall e: Entry :: old(allocated(e)) ==>
                e.attributes == old(e.attributes) && e.expired == old(e.expired) && e.recycled == old(e.recycled)
      ensures DialogEffect(codec, toConfirm, answer, old(dialogActive), host, submitHost, realm)
      ensures RoundTrips(codec) && answer.remember ==>
                forall e :: e in allowed ==> AllowsHosts(codec, e.customData, host, submitHost)
      ensures RoundTrips(codec) && old(DialogShown(toConfirm, dialogActive)) ==>
                forall i :: 0 <= i < |toConfirm| && answer.disabled(i) && !(answer.remember && toConfirm[i] in allowed) ==>
                  DeniesHosts(codec, toConfirm[i].customData, host, submitHost)
    {
      if toConfirm == [] || dialogActive {
        return [];
      }
      dialogActive := true;
      DenyRows(codec, toConfirm, host, submitHost, realm, answer.disabled);
      allowed := [];
      if answer.accepted && !answer.locked {
        allowed := AllowRows(codec, toConfirm, host, submitHost, realm, answer.selected, answer.remember);
      }
      if answer.locked {
        currentLocked := true;
      }
      dialogActive := false;
    }

    /**
     * The authorization part of findMatchingEntries: the hits returned without asking, followed
     * by those the user grants in the access dialog.
     */
    method Authorize(codec: ConfigCodec, req: AccessRequest, found: seq<Entry>, answer: AccessAnswer)
      returns (pwEntries: seq<Entry>)
      modifies this, set e | e in found
      ensures current == old(current) && openDatabases == old(openDatabases)
      ensures clients == old(clients) && dialogActive == old(dialogActive)
      ensures pwEntries == old(Having(req, found, Include)) + Granted(old(Having(req, found, Confirm)), answer, old(dialogActive))
      ensures forall e: Entry :: old(allocated(e)) ==>
                e.attributes == old(e.attributes) && e.expired == old(e.expired) && e.recycled == old(e.recycled)
      ensures var toConfirm := old(Having(req, found, Confirm));
              currentLocked == (old(currentLocked) || (DialogShown(toConfirm, old(dialogActive)) && answer.locked))
      ensures var toConfirm := old(Having(req, found, Confirm));
              forall e: Entry :: old(allocated(e)) && e !in toConfirm ==> e.customData == old(e.customData)
      ensures DialogEffect(codec, old(Having(req, found, Confirm)), answer, old(dialogActive), req.host, req.submitHost, req.realm)
    {
      var toConfirm;
      pwEntries, toConfirm := ClassifyEntries(req, found);
      HavingMembers(req, found, Confirm);
      assert forall x :: x in toConfirm ==> x in found;
      var selected := ConfirmEntries(codec, toConfirm, req.host, req.submitHost, req.realm, answer);
      pwEntries := pwEntries + selected;
    }

    /**
     * findMatchingEntries: searches, sorts the hits into those returned directly and those put to
     * the user, confirms the latter, and ranks what is left. Nothing is returned when the database
     * is locked by the end, e.g. while the dialog was open.
     */
    method FindMatchingEntries(q: UrlParser, collate: string -> int, s: BrowserSettings, codec: ConfigCodec,
                               url: string, submitUrl: string, realm: string, keyList: seq<(string, string)>,
                               httpAuth: bool, answer: AccessAnswer) returns (results: seq<Entry>)
      requires s.searchInAllDatabases || current != null
      modifies this, Entries()
      ensures current == old(current) && openDatabases == old(openDatabases)
      ensures clients == old(clients) && dialogActive == old(dialogActive)
      ensures forall e: Entry :: old(allocated(e)) ==>
                e.attributes == old(e.attributes) && e.expired == old(e.expired) && e.recycled == old(e.recycled)
      ensures !DatabaseOpened() ==> results == []
      ensures RankOrdered(RankAll(ContextFor(q, collate, s, q.parse(url).host, submitUrl), results))
      ensures var req := AccessRequest(codec, s, httpAuth, q.parse(url).host, q.parse(submitUrl).host, realm);
              && (forall k :: 0 <= k < |results| ==> results[k] in old(Offered(Query(q, s, url, submitUrl), keyList, req, answer)))
              && (DatabaseOpened() && !s.bestMatchOnly ==>
                    multiset(results) == multiset(old(Offered(Query(q, s, url, submitUrl), keyList, req, answer))))
              && (DatabaseOpened() && s.bestMatchOnly ==>
                    var ranked := RankAll(ContextFor(q, collate, s, q.parse(url).host, submitUrl),
                                          old(Offered(Query(q, s, url, submitUrl), keyList, req, answer)));
                    multiset(results) == multiset(EntriesOf(Bucket(ranked, TopPriority(ranked)))))
      ensures var req := AccessRequest(codec, s, httpAuth, q.parse(url).host, q.parse(submitUrl).host, realm);
              var toConfirm := old(PutToUser(Query(q, s, url, submitUrl), keyList, req));
              && currentLocked == (old(currentLocked) || (DialogShown(toConfirm, old(dialogActive)) && answer.locked))
              && (forall e: Entry :: old(allocated(e)) && e !in toConfirm ==> e.customData == old(e.customData))
              && DialogEffect(codec, toConfirm, answer, old(dialogActive), req.host, req.submitHost, realm)
    {
      var host := q.parse(url).host;
      var submitHost := q.parse(submitUrl).host;
      var query := Query(q, s, url, submitUrl);
      var req := AccessRequest(codec, s, httpAuth, host, submitHost, realm);
      ghost var found0 := Found(query, keyList);
      ghost var direct := Having(req, found0, Include);
      ghost var toConfirm := Having(req, found0, Confirm);
      assert Offered(query, keyList, req, answer) == direct + Granted(toConfirm, answer, dialogActive);
      assert PutToUser(query, keyList, req) == toConfirm;
      var found := SearchEntries(query, keyList);
      assert found == found0;
      assert Having(req, found, Include) == direct && Having(req, found, Confirm) == toConfirm;
      results := RankOffered(q, collate, s, codec, req, found, answer, submitUrl);
    }

    /**
     * The part of findMatchingEntries after the search: authorizes the hits, then ranks what is
     * offered unless nothing is or the database is locked by then.
     */
    method RankOffered(q: UrlParser, collate: string -> int, s: BrowserSettings, codec: ConfigCodec,
                       req: AccessRequest, found: seq<Entry>, answer: AccessAnswer, submitUrl: string)
      returns (results: seq<Entry>)
      modifies this, set e | e in found
      ensures current == old(current) && openDatabases == old(openDatabases)
      ensures clients == old(clients) && dialogActive == old(dialogActive)
      ensures forall e: Entry :: old(allocated(e)) ==>
                e.attributes == old(e.attributes) && e.expired == old(e.expired) && e.recycled == old(e.recycled)
      ensures !DatabaseOpened() ==> results == []
      ensures RankOrdered(RankAll(ContextFor(q, collate, s, req.host, submitUrl), results))
      ensures var offered := old(Having(req, found, Include)) + Granted(old(Having(req, found, Confirm)), answer, old(dialogActive));
              && (forall k :: 0 <= k < |results| ==> results[k] in offered)
              && (DatabaseOpened() && !s.bestMatchOnly ==> multiset(results) == multiset(offered))
              && (DatabaseOpened() && s.bestMatchOnly ==>
                    var ranked := RankAll(ContextFor(q, collate, s, req.host, submitUrl), offered);
                    multiset(results) == multiset(EntriesOf(Bucket(ranked, TopPriority(ranked)))))
      ensures var toConfirm := old(Having(req, found, Confirm));
              && currentLocked == (old(currentLocked) || (DialogShown(toConfirm, old(dialogActive)) && answer.locked))
              && (forall e: Entry :: old(allocated(e)) && e !in toConfirm ==> e.customData == old(e.customData))
              && DialogEffect(codec, toConfirm, answer, old(dialogActive), req.host, req.submitHost, req.realm)
    {
      ghost var offered := Having(req, found, Include) + Granted(Having(req, found, Confirm), answer, dialogActive);
      var pwEntries := Authorize(codec, req, found, answer);
      assert pwEntries == offered;
      results := [];
      if pwEntries != [] && DatabaseOpened() {
        results := SortEntries(q, collate, s, pwEntries, req.host, submitUrl);
      }
    }

    /**
     * processClientMessage: a message without a client id is dropped; otherwise it goes to that
     * client's handler, which is created on the client's first message and kept from then on.
     */
    method ProcessClientMessage(clientId: string) returns (action: BrowserAction?)
      modifies this
      ensures current == old(current) && currentLocked == old(currentLocked)
      ensures openDatabases == old(openDatabases) && dialogActive == old(dialogActive)
      ensures clientId == [] ==> action == null && clients == old(clients)
      ensures clientId != [] && clientId in old(clients) ==> action == old(clients)[clientId] && clients == old(clients)
      ensures clientId != [] && clientId !in old(clients) ==> fresh(action) && clients == old(clients)[clientId := action]
      ensures clientId != [] ==> clientId in clients && action == clients[clientId]
    {
      if clientId == [] {
        return null;
      }
      if clientId !in clients {
        var created := new BrowserAction();
        clients := clients[clientId := created];
      }
      action := clients[clientId];
    }
  }
}
