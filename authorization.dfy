/**
 * The triage of search hits in findMatchingEntries: each hit is dropped, sent to the user for
 * confirmation, or returned straight away.
 */
module Authorization {
  import opened Env
  import opened Store
  import opened AccessPolicy

  /** Everything the triage of one request depends on. */
  datatype AccessRequest = AccessRequest(codec: ConfigCodec, s: BrowserSettings, httpAuth: bool,
                                         host: string, submitHost: string, realm: string)

  datatype Disposition = Skip | Confirm | Include

  /** The entry carries the option `name` set to "true". A missing option reads as the empty
      string, so this is QMap::contains(name) && value(name) == "true". */
  predicate OptionSet(e: Entry, name: string)
    reads e
  {
    Value(e.customData, name) == TrueStr
  }

  /** The verdict of checkAccess for this request. */
  function AccessOf(req: AccessRequest, e: Entry): Access
    reads e
  {
    CheckAccess(req.codec, req.s.allowExpiredCredentials, e, req.host, req.submitHost, req.realm)
  }

  /** What findMatchingEntries does with one search hit. */
  function DispositionOf(req: AccessRequest, e: Entry): Disposition
    reads e
  {
    if OptionSet(e, OptionHideEntry) then Skip
    else if !req.httpAuth && OptionSet(e, OptionOnlyHttpAuth) then Skip
    else if !req.s.httpAuthPermission && req.httpAuth then Confirm
    else match AccessOf(req, e)
      case Denied => Skip
      case Unknown => if req.s.alwaysAllowAccess then Include else Confirm
      case Allowed => Include
  }

  /** The disposition of each hit. */
  function Dispositions(req: AccessRequest, es: seq<Entry>): (r: seq<Disposition>)
    reads es
    ensures |r| == |es| && forall k :: 0 <= k < |es| ==> r[k] == DispositionOf(req, es[k])
  {
    if es == [] then [] else [DispositionOf(req, es[0])] + Dispositions(req, es[1..])
  }

  /** The hits whose disposition in `ds` is `d`, in order. */
  function Pick(es: seq<Entry>, ds: seq<Disposition>, d: Disposition): (r: seq<Entry>)
    requires |ds| == |es|
    ensures |r| <= |es|
    ensures forall x :: x in r ==> x in es
  {
    if es == [] then []
    else
      var n := |es| - 1;
      Pick(es[..n], ds[..n], d) + (if ds[n] == d then [es[n]] else [])
  }

  /** The hits with disposition `d`, in search order. */
  function Having(req: AccessRequest, es: seq<Entry>, d: Disposition): (r: seq<Entry>)
    reads es
    ensures forall x :: x in r ==> x in es
  {
    Pick(es, Dispositions(req, es), d)
  }

  /** The hits picked for `d` are exactly those whose disposition is `d`. */
  lemma {:induction false} PickMembers(es: seq<Entry>, ds: seq<Disposition>, d: Disposition)
    requires |ds| == |es|
    ensures forall x :: x in Pick(es, ds, d) ==> exists k :: 0 <= k < |es| && es[k] == x && ds[k] == d
    ensures forall k :: 0 <= k < |es| && ds[k] == d ==> es[k] in Pick(es, ds, d)
  {
    if es != [] {
      var n := |es| - 1;
      var init, dinit := es[..n], ds[..n];
      PickMembers(init, dinit, d);
      assert Pick(es, ds, d) == Pick(init, dinit, d) + (if ds[n] == d then [es[n]] else []);
      forall x | x in Pick(es, ds, d)
        ensures exists k :: 0 <= k < |es| && es[k] == x && ds[k] == d
      {
        if x in Pick(init, dinit, d) {
          var k :| 0 <= k < |init| && init[k] == x && dinit[k] == d;
          assert es[k] == x && ds[k] == d;
        } else {
          assert es[n] == x && ds[n] == d;
        }
      }
      forall k | 0 <= k < |es| && ds[k] == d
        ensures es[k] in Pick(es, ds, d)
      {
        if k < n {
          assert init[k] == es[k] && dinit[k] == d;
        }
      }
    }
  }

  /** The list for `d` holds exactly the hits with disposition `d`. */
  lemma HavingMembers(req: AccessRequest, es: seq<Entry>, d: Disposition)
    ensures forall x :: x in Having(req, es, d) <==> x in es && DispositionOf(req, x) == d
  {
    var ds := Dispositions(req, es);
    PickMembers(es, ds, d);
    forall x | x in es && DispositionOf(req, x) == d
      ensures x in Having(req, es, d)
    {
      var k :| 0 <= k < |es| && es[k] == x;
    }
  }

  /** Extending the prefix by one hit extends each picked list by at most that hit. */
  lemma PickStep(es: seq<Entry>, ds: seq<Disposition>, i: int)
    requires |ds| == |es| && 0 <= i < |es|
    ensures forall d :: Pick(es[..i + 1], ds[..i + 1], d) == Pick(es[..i], ds[..i], d) + (if ds[i] == d then [es[i]] else [])
  {
    assert es[..i + 1][..i] == es[..i] && ds[..i + 1][..i] == ds[..i];
  }

  /** Every picked list together covers each hit once. */
  lemma {:induction false} PickPartition(es: seq<Entry>, ds: seq<Disposition>)
    requires |ds| == |es|
    ensures multiset(Pick(es, ds, Include)) + multiset(Pick(es, ds, Confirm)) + multiset(Pick(es, ds, Skip))
            == multiset(es)
  {
    if es != [] {
      var n := |es| - 1;
      var init, dinit, x := es[..n], ds[..n], es[n];
      PickPartition(init, dinit);
      assert multiset(es) == multiset(init) + multiset{x} by {
        assert es[n..] == [x];
        assert es == init + es[n..];
      }
      PickLast(es, ds, Include);
      PickLast(es, ds, Confirm);
      PickLast(es, ds, Skip);
      var inc, con, skip := multiset(Pick(init, dinit, Include)), multiset(Pick(init, dinit, Confirm)), multiset(Pick(init, dinit, Skip));
      UnionShift(inc, con, skip, multiset{x});
    }
  }

  /** Adding one element to any of three parts adds it to their union. */
  lemma UnionShift(a: multiset<Entry>, b: multiset<Entry>, c: multiset<Entry>, one: multiset<Entry>)
    ensures (a + one) + b + c == (a + b + c) + one
    ensures a + (b + one) + c == (a + b + c) + one
    ensures a + b + (c + one) == (a + b + c) + one
  {
  }

  /** The last hit adds itself to the multiset of the list of its own disposition only. */
  lemma PickLast(es: seq<Entry>, ds: seq<Disposition>, d: Disposition)
    requires |ds| == |es| > 0
    ensures var n := |es| - 1;
            multiset(Pick(es, ds, d)) == multiset(Pick(es[..n], ds[..n], d)) + (if ds[n] == d then multiset{es[n]} else multiset{})
  {
  }

  /** Every hit ends up in exactly one of the three lists. */
  lemma PartitionCounts(req: AccessRequest, es: seq<Entry>)
    ensures multiset(Having(req, es, Include)) + multiset(Having(req, es, Confirm)) + multiset(Having(req, es, Skip))
            == multiset(es)
  {
    PickPartition(es, Dispositions(req, es));
  }

  /** A hidden entry is never offered, whatever its access configuration. */
  lemma HiddenNeverOffered(req: AccessRequest, e: Entry)
    requires OptionSet(e, OptionHideEntry)
    ensures DispositionOf(req, e) == Skip
  {
  }

  /** An entry restricted to HTTP authentication is never offered for a form login. */
  lemma HttpAuthOnlyNotForForms(req: AccessRequest, e: Entry)
    requires !req.httpAuth && OptionSet(e, OptionOnlyHttpAuth)
    ensures DispositionOf(req, e) == Skip
  {
  }

  /** Without the HTTP-authentication permission, a visible HTTP-authentication hit always goes to
      the user, even when its configuration allows or denies the host. */
  lemma HttpAuthNeedsConfirmation(req: AccessRequest, e: Entry)
    requires req.httpAuth && !req.s.httpAuthPermission && !OptionSet(e, OptionHideEntry)
    ensures DispositionOf(req, e) == Confirm
  {
  }

  /** A hit is returned without asking exactly when it is visible for this kind of request, no
      forced confirmation applies, and its access is Allowed, or Unknown under alwaysAllowAccess. */
  lemma IncludedExactly(req: AccessRequest, e: Entry)
    ensures DispositionOf(req, e) == Include <==>
              && !OptionSet(e, OptionHideEntry)
              && (req.httpAuth || !OptionSet(e, OptionOnlyHttpAuth))
              && (req.s.httpAuthPermission || !req.httpAuth)
              && (AccessOf(req, e) == Allowed || (AccessOf(req, e) == Unknown && req.s.alwaysAllowAccess))
  {
  }

  /** A hit whose configuration denies the host is never shown to the user, unless HTTP
      authentication forces a confirmation first. */
  lemma DeniedNeverReachesUser(req: AccessRequest, e: Entry)
    requires AccessOf(req, e) == Denied
    requires req.s.httpAuthPermission || !req.httpAuth
    ensures DispositionOf(req, e) == Skip
  {
  }

  /**
   * The authorization loop of findMatchingEntries: hits to return directly, and hits to put
   * to the user, each in search order.
   */
  method ClassifyEntries(req: AccessRequest, found: seq<Entry>) returns (pwEntries: seq<Entry>, toConfirm: seq<Entry>)
    ensures pwEntries == Having(req, found, Include)
    ensures toConfirm == Having(req, found, Confirm)
  {
    pwEntries, toConfirm := [], [];
    ghost var ds := Dispositions(req, found);
    for i := 0 to |found|
      invariant pwEntries == Pick(found[..i], ds[..i], Include)
      invariant toConfirm == Pick(found[..i], ds[..i], Confirm)
    {
      PickStep(found, ds, i);
      pwEntries, toConfirm := ClassifyEntry(req, found[i], pwEntries, toConfirm);
    }
    assert found[..|found|] == found && ds[..|found|] == ds;
  }

  /** The body of the authorization loop: one hit is skipped, or appended to one of the lists. */
  method ClassifyEntry(req: AccessRequest, e: Entry, pw: seq<Entry>, tc: seq<Entry>)
    returns (pwEntries: seq<Entry>, toConfirm: seq<Entry>)
    ensures pwEntries == pw + (if DispositionOf(req, e) == Include then [e] else [])
    ensures toConfirm == tc + (if DispositionOf(req, e) == Confirm then [e] else [])
  {
    pwEntries, toConfirm := pw, tc;
    if OptionHideEntry in e.customData && e.customData[OptionHideEntry] == TrueStr {
      return;
    }
    if !req.httpAuth && OptionOnlyHttpAuth in e.customData && e.customData[OptionOnlyHttpAuth] == TrueStr {
      return;
    }
    // HTTP Basic Auth always needs a confirmation
    if !req.s.httpAuthPermission && req.httpAuth {
      toConfirm := toConfirm + [e];
      return;
    }
    match AccessOf(req, e)
    case Denied =>
    case Unknown =>
      if req.s.alwaysAllowAccess {
        pwEntries := pwEntries + [e];
      } else {
        toConfirm := toConfirm + [e];
      }
    case Allowed =>
      pwEntries := pwEntries + [e];
  }
}
