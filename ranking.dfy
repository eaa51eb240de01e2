/**
 * Ranking of the entries returned to the browser: the sortPriority score ladder and the
 * bucketed sort of sortEntries.
 */
module Ranking {
  import opened Text
  import opened Env
  import opened Store

  /** `n` is one of 0, 5, 10, ...: a rung of sortPriority's ladder. */
  predicate MultipleOfFive(n: int)
    decreases if n < 0 then 0 else n
  {
    n == 0 || (n >= 5 && MultipleOfFive(n - 5))
  }

  /** Two distinct rungs are at least 5 apart. */
  lemma {:induction false} RungGap(a: int, b: int)
    requires MultipleOfFive(a) && MultipleOfFive(b) && a < b
    ensures a + 5 <= b
    decreases if a < 0 then 0 else a
  {
    if a != 0 {
      RungGap(a - 5, b - 5);
    }
  }

  /** Every multiple 5 * k is a rung. */
  lemma {:induction false} RungOf(k: nat)
    ensures MultipleOfFive(5 * k)
  {
    if k > 0 {
      RungOf(k - 1);
    }
  }

  /**
   * sortPriority's ladder over the normalized strings, tried top to bottom, first hit wins:
   * 100 for the exact submit URL, 90 and 80 for submit URLs under the entry URL, 70 for the bare
   * host, and so on down to 5; a host that is neither dotted nor localhost scores 0.
   */
  function SortPriority(entryHost: string, entryURL: string, baseEntryURL: string,
                        host: string, submitUrl: string, baseSubmitUrl: string): (r: int)
    ensures 0 <= r <= 100 && MultipleOfFive(r)
    ensures '.' !in entryHost && entryHost != "localhost" ==> r == 0
    ensures ('.' in entryHost || entryHost == "localhost") ==> (r == 100 <==> submitUrl == entryURL)
    ensures r >= 90 ==> StartsWith(submitUrl, entryURL)
  {
    RungOf(20); RungOf(18); RungOf(16); RungOf(14); RungOf(12); RungOf(10);
    RungOf(8); RungOf(6); RungOf(4); RungOf(2); RungOf(1);
    if '.' !in entryHost && entryHost != "localhost" then 0
    else if submitUrl == entryURL then 100
    else if StartsWith(submitUrl, entryURL) && entryURL != host && baseSubmitUrl != entryURL then 90
    else if StartsWith(submitUrl, baseEntryURL) && entryURL != host && baseSubmitUrl != baseEntryURL then 80
    else if entryURL == host then 70
    else if entryURL == baseSubmitUrl then 60
    else if StartsWith(entryURL, submitUrl) then 50
    else if StartsWith(entryURL, baseSubmitUrl) && baseSubmitUrl != host then 40
    else if StartsWith(submitUrl, entryURL) then 30
    else if StartsWith(submitUrl, baseEntryURL) then 20
    else if StartsWith(entryURL, host) then 10
    else if StartsWith(host, entryURL) then 5
    else 0
  }

  /** An exact submit-URL match outranks every entry that is not one. */
  lemma ExactMatchOutranks(a: string, b: string, baseA: string, baseB: string, hostA: string, hostB: string,
                           host: string, submitUrl: string, baseSubmitUrl: string)
    requires '.' in hostA || hostA == "localhost"
    requires submitUrl == a && submitUrl != b
    ensures SortPriority(hostA, a, baseA, host, submitUrl, baseSubmitUrl) > SortPriority(hostB, b, baseB, host, submitUrl, baseSubmitUrl)
  {
  }

  /** The entry URL as sortPriority prepares it: https by default and "/" for an empty path. */
  function NormalizedEntryUrl(q: UrlParser, entryUrl: string): Url {
    var u := WithDefaultScheme(q.parse(entryUrl));
    if u.path == [] && !u.hasFragment && !u.hasQuery then u.(path := "/") else u
  }

  /** Everything the ranking of one request depends on. `collate` is the locale's collation key:
      QString::localeAwareCompare(a, b) has the sign of collate(a) - collate(b). */
  datatype RankContext = RankContext(q: UrlParser, collate: string -> int, field: string,
                                     host: string, submitUrl: string, baseSubmitUrl: string)

  /** sortPriority(entry, host, submitUrl, baseSubmitUrl). */
  function Priority(ctx: RankContext, e: Entry): (r: int)
    reads e
    ensures 0 <= r <= 100 && MultipleOfFive(r)
  {
    var u := NormalizedEntryUrl(ctx.q, Value(e.attributes, UrlKey));
    SortPriority(u.host, ctx.q.render(u), ctx.q.renderBase(u), ctx.host, ctx.submitUrl, ctx.baseSubmitUrl)
  }

  /** An entry with its priority and its two collation keys, computed once per request. */
  datatype Ranked = Ranked(entry: Entry, priority: int, key: int, userKey: int)

  /** The ranking data of one entry. */
  function RankOf(ctx: RankContext, e: Entry): (r: Ranked)
    reads e
    ensures r.entry == e && 0 <= r.priority <= 100 && MultipleOfFive(r.priority)
  {
    Ranked(e, Priority(ctx, e), ctx.collate(Value(e.attributes, ctx.field)), ctx.collate(Value(e.attributes, UserNameKey)))
  }

  /** The ranking data of a list of entries. */
  function RankAll(ctx: RankContext, es: seq<Entry>): (r: seq<Ranked>)
    reads es
    ensures |r| == |es| && forall k :: 0 <= k < |es| ==> r[k] == RankOf(ctx, es[k])
  {
    if es == [] then [] else [RankOf(ctx, es[0])] + RankAll(ctx, es[1..])
  }

  /** The entries of a ranked list. */
  function EntriesOf(s: seq<Ranked>): (r: seq<Entry>)
    ensures |r| == |s| && forall k :: 0 <= k < |s| ==> r[k] == s[k].entry
  {
    seq(|s|, k requires 0 <= k < |s| => s[k].entry)
  }

  /** `a` may precede `b` within a bucket: by the chosen field, then by user name. This is
      std::sort's comparator negated with its arguments swapped. */
  predicate KeyLe(a: Ranked, b: Ranked) {
    a.key < b.key || (a.key == b.key && a.userKey <= b.userKey)
  }

  predicate SortedByKey(s: seq<Ranked>) {
    forall i, j :: 0 <= i < j < |s| ==> KeyLe(s[i], s[j])
  }

  /** Priorities never increase along `s`, and equal priorities are in key order. */
  predicate RankOrdered(s: seq<Ranked>) {
    forall i, j :: 0 <= i < j < |s| ==>
      s[i].priority > s[j].priority || (s[i].priority == s[j].priority && KeyLe(s[i], s[j]))
  }

  /** The entries of priority exactly `p`, in input order. QMultiMap::values(p) lists them newest
      first; the key sort that follows fixes their order up to ties, which std::sort leaves open. */
  function Bucket(s: seq<Ranked>, p: int): seq<Ranked>
  {
    if s == [] then []
    else (if s[0].priority == p then [s[0]] else []) + Bucket(s[1..], p)
  }

  /** The bucket holds exactly the entries of priority p. */
  lemma {:induction false} BucketMembers(s: seq<Ranked>, p: int)
    ensures forall x :: x in Bucket(s, p) <==> x in s && x.priority == p
  {
    if s != [] {
      BucketMembers(s[1..], p);
      assert s == [s[0]] + s[1..];
    }
  }

  /** The entries of priority at least `p`, in input order. */
  function AtLeast(s: seq<Ranked>, p: int): seq<Ranked>
  {
    if s == [] then []
    else (if s[0].priority >= p then [s[0]] else []) + AtLeast(s[1..], p)
  }

  /** The filtered list holds exactly the entries of priority at least p. */
  lemma {:induction false} AtLeastMembers(s: seq<Ranked>, p: int)
    ensures forall x :: x in AtLeast(s, p) <==> x in s && x.priority >= p
  {
    if s != [] {
      AtLeastMembers(s[1..], p);
      assert s == [s[0]] + s[1..];
    }
  }

  /** No entry has a priority strictly between p and p + 5. */
  predicate NoneBetween(s: seq<Ranked>, p: int) {
    forall x :: x in s ==> x.priority <= p || x.priority >= p + 5
  }

  /** With every priority a multiple of 5, none lies strictly between two consecutive buckets. */
  lemma Gaps(s: seq<Ranked>, p: int)
    requires forall x :: x in s ==> MultipleOfFive(x.priority)
    requires MultipleOfFive(p)
    ensures NoneBetween(s, p)
  {
    forall x | x in s && x.priority > p
      ensures x.priority >= p + 5
    {
      RungGap(p, x.priority);
    }
  }

  /** The highest priority in `s`, 0 for an empty list. */
  function TopPriority(s: seq<Ranked>): (r: int)
    ensures forall x :: x in s ==> x.priority <= r
    ensures s != [] ==> exists x :: x in s && x.priority == r
    ensures s == [] ==> r == 0
  {
    if s == [] then 0
    else
      var rest := TopPriority(s[1..]);
      assert forall x :: x in s ==> x == s[0] || x in s[1..];
      if s[1..] == [] || s[0].priority >= rest then s[0].priority else rest
  }

  /** Entries of priority at least p are those of priority at least p + 5 plus those of priority p,
      when every priority is a multiple of 5. */
  lemma {:induction false} AtLeastSplit(s: seq<Ranked>, p: int)
    requires NoneBetween(s, p)
    ensures multiset(AtLeast(s, p)) == multiset(AtLeast(s, p + 5)) + multiset(Bucket(s, p))
  {
    if s != [] {
      AtLeastSplit(s[1..], p);
      assert s[0] in s;
    }
  }

  /** With no priority below 0, nothing is filtered out at priority 0. */
  lemma {:induction false} AtLeastZero(s: seq<Ranked>)
    requires forall x :: x in s ==> x.priority >= 0
    ensures AtLeast(s, 0) == s
  {
    if s != [] {
      AtLeastZero(s[1..]);
      assert s[0] in s;
      assert s == [s[0]] + s[1..];
    }
  }

  /** When no entry lies above priority p, the entries of priority at least p are its bucket. */
  lemma {:induction false} AtLeastIsBucket(s: seq<Ranked>, p: int)
    requires forall x :: x in s && x.priority >= p ==> x.priority == p
    ensures AtLeast(s, p) == Bucket(s, p)
  {
    if s != [] {
      AtLeastIsBucket(s[1..], p);
      assert s[0] in s;
    }
  }

  /** `a` followed by a sorted list it may precede is sorted. */
  lemma PrependSorted(a: Ranked, s: seq<Ranked>)
    requires SortedByKey(s) && forall y :: y in s ==> KeyLe(a, y)
    ensures SortedByKey([a] + s)
  {
    var c := [a] + s;
    forall i, j | 0 <= i < j < |c|
      ensures KeyLe(c[i], c[j])
    {
      assert c[j] == s[j - 1];
      if i > 0 { assert c[i] == s[i - 1]; }
    }
  }

  /** Put `x` into a key-sorted list. */
  function Insert(x: Ranked, s: seq<Ranked>): (r: seq<Ranked>)
    requires SortedByKey(s)
    ensures multiset(r) == multiset(s) + multiset{x}
    ensures SortedByKey(r)
  {
    if s == [] then [x]
    else if KeyLe(x, s[0]) then
      assert forall y :: y in s ==> KeyLe(x, y) by {
        forall y | y in s ensures KeyLe(x, y) {
          var k :| 0 <= k < |s| && s[k] == y;
          if k > 0 { assert KeyLe(s[0], s[k]); }
        }
      }
      PrependSorted(x, s);
      [x] + s
    else
      var rest := Insert(x, s[1..]);
      assert s == [s[0]] + s[1..];
      assert forall y :: y in rest ==> KeyLe(s[0], y) by {
        forall y | y in rest ensures KeyLe(s[0], y) {
          assert y in multiset(rest);
          if y != x {
            var k :| 0 <= k < |s[1..]| && s[1..][k] == y;
            assert s[k + 1] == y;
          }
        }
      }
      PrependSorted(s[0], rest);
      [s[0]] + rest
  }

  /** Sort one bucket by the chosen field, then by user name (std::sort with that comparator). */
  function SortBucket(s: seq<Ranked>): (r: seq<Ranked>)
    ensures multiset(r) == multiset(s)
    ensures SortedByKey(r)
  {
    if s == [] then []
    else
      assert s == [s[0]] + s[1..];
      Insert(s[0], SortBucket(s[1..]))
  }

  /** A ranked list followed by a key-sorted bucket of lower priority is still ranked. */
  lemma AppendBucket(a: seq<Ranked>, b: seq<Ranked>, p: int)
    requires RankOrdered(a) && SortedByKey(b)
    requires forall x :: x in a ==> x.priority > p
    requires forall x :: x in b ==> x.priority == p
    ensures RankOrdered(a + b)
  {
    var c := a + b;
    forall i, j | 0 <= i < j < |c|
      ensures c[i].priority > c[j].priority || (c[i].priority == c[j].priority && KeyLe(c[i], c[j]))
    {
      if j < |a| {
      } else if i >= |a| {
        assert c[i] == b[i - |a|] && c[j] == b[j - |a|];
      } else {
        assert c[i] == a[i] && c[j] in b;
      }
    }
  }

  /** The entries of a concatenation are the concatenation of the entries. */
  lemma EntriesOfAppend(u: seq<Ranked>, v: seq<Ranked>)
    ensures EntriesOf(u + v) == EntriesOf(u) + EntriesOf(v)
  {
  }

  /** Taking out the element at k removes one copy of it from the entries. */
  lemma EntriesOfRemove(b: seq<Ranked>, k: int)
    requires 0 <= k < |b|
    ensures multiset(EntriesOf(b)) == multiset{b[k].entry} + multiset(EntriesOf(b[..k] + b[k + 1..]))
  {
    var eb := EntriesOf(b);
    assert eb == eb[..k] + [eb[k]] + eb[k + 1..];
    assert eb[..k] == EntriesOf(b[..k]) && eb[k + 1..] == EntriesOf(b[k + 1..]);
    EntriesOfAppend(b[..k], b[k + 1..]);
  }

  /** Equal multisets stay equal once a common element is taken out of each. */
  lemma RemoveCommon(a: seq<Ranked>, b: seq<Ranked>, k: int)
    requires multiset(a) == multiset(b) && a != [] && 0 <= k < |b| && b[k] == a[0]
    ensures multiset(a[1..]) == multiset(b[..k] + b[k + 1..])
  {
    var u, v := b[..k], b[k + 1..];
    assert a == [a[0]] + a[1..];
    assert b == u + ([b[k]] + v);
    assert multiset(a[1..]) == multiset(a) - multiset{a[0]};
    assert multiset(u + v) == multiset(b) - multiset{b[k]};
  }

  /** Two lists with the same elements have entry lists with the same elements. */
  lemma {:induction false} EntriesOfPermutation(a: seq<Ranked>, b: seq<Ranked>)
    requires multiset(a) == multiset(b)
    ensures multiset(EntriesOf(a)) == multiset(EntriesOf(b))
    decreases |a|
  {
    if a == [] {
      assert |b| == |multiset(b)| == 0;
    } else {
      assert a[0] in multiset(b);
      var k :| 0 <= k < |b| && b[k] == a[0];
      RemoveCommon(a, b, k);
      EntriesOfPermutation(a[1..], b[..k] + b[k + 1..]);
      EntriesOfRemove(b, k);
      var ea := EntriesOf(a);
      assert ea == [ea[0]] + ea[1..];
      assert ea[1..] == EntriesOf(a[1..]);
    }
  }

  /** The submit URL as sortEntries prepares it, with https as the default scheme. */
  function SubmitUrlOf(q: UrlParser, entryUrl: string): string {
    q.render(WithDefaultScheme(q.parse(entryUrl)))
  }

  /** The scheme-and-host part of that submit URL. */
  function BaseSubmitUrlOf(q: UrlParser, entryUrl: string): string {
    q.renderBase(WithDefaultScheme(q.parse(entryUrl)))
  }

  /** The ranking context of sortEntries(pwEntries, host, entryUrl). */
  function ContextFor(q: UrlParser, collate: string -> int, s: BrowserSettings, host: string, entryUrl: string): RankContext {
    RankContext(q, collate, if s.sortByTitle then TitleKey else UserNameKey, host, SubmitUrlOf(q, entryUrl), BaseSubmitUrlOf(q, entryUrl))
  }

  /**
   * sortEntries: the entries bucketed by priority from 100 down to 0 in steps of 5, each bucket
   * sorted by title or user name and then user name. Without bestMatchOnly the output is a
   * permutation of the input; with it, the output is exactly the top-priority bucket.
   */
  method SortEntries(q: UrlParser, collate: string -> int, s: BrowserSettings, pwEntries: seq<Entry>,
                     host: string, entryUrl: string) returns (results: seq<Entry>)
    ensures RankOrdered(RankAll(ContextFor(q, collate, s, host, entryUrl), results))
    ensures !s.bestMatchOnly ==> multiset(results) == multiset(pwEntries)
    ensures s.bestMatchOnly ==>
              var ranked := RankAll(ContextFor(q, collate, s, host, entryUrl), pwEntries);
              multiset(results) == multiset(EntriesOf(Bucket(ranked, TopPriority(ranked))))
    ensures forall k :: 0 <= k < |results| ==> results[k] in pwEntries
  {
    var url := WithDefaultScheme(q.parse(entryUrl));
    var submitUrl := q.render(url);
    var baseSubmitUrl := q.renderBase(url);
    var field := if s.sortByTitle then TitleKey else UserNameKey;
    var ctx := RankContext(q, collate, field, host, submitUrl, baseSubmitUrl);
    assert ctx == ContextFor(q, collate, s, host, entryUrl);

    var ranked := RankEntries(ctx, pwEntries);
    var out := SortRanked(ranked, s.bestMatchOnly);
    results := EntriesOf(out);
    SortedResults(ctx, pwEntries, ranked, out, s.bestMatchOnly);
  }

  /** The entries of the sorted ranking keep its order and its elements. */
  lemma SortedResults(ctx: RankContext, pwEntries: seq<Entry>, ranked: seq<Ranked>, out: seq<Ranked>, bestMatchOnly: bool)
    requires ranked == RankAll(ctx, pwEntries) && EntriesOf(ranked) == pwEntries
    requires RankOrdered(out) && forall x :: x in out ==> x in ranked
    requires !bestMatchOnly ==> multiset(out) == multiset(ranked)
    requires bestMatchOnly ==> multiset(out) == multiset(Bucket(ranked, TopPriority(ranked)))
    ensures RankOrdered(RankAll(ctx, EntriesOf(out)))
    ensures !bestMatchOnly ==> multiset(EntriesOf(out)) == multiset(pwEntries)
    ensures bestMatchOnly ==> multiset(EntriesOf(out)) == multiset(EntriesOf(Bucket(ranked, TopPriority(ranked))))
    ensures forall k :: 0 <= k < |out| ==> EntriesOf(out)[k] in pwEntries
  {
    if bestMatchOnly {
      EntriesOfPermutation(out, Bucket(ranked, TopPriority(ranked)));
    } else {
      EntriesOfPermutation(out, ranked);
    }
    ConsistentRanking(ctx, out);
    EntriesWithin(ranked, out);
  }

  /** Selecting ranked records selects among their entries. */
  lemma EntriesWithin(ranked: seq<Ranked>, out: seq<Ranked>)
    requires forall x :: x in out ==> x in ranked
    ensures forall k :: 0 <= k < |out| ==> EntriesOf(out)[k] in EntriesOf(ranked)
  {
    forall k | 0 <= k < |out|
      ensures EntriesOf(out)[k] in EntriesOf(ranked)
    {
      assert out[k] in ranked;
      var i :| 0 <= i < |ranked| && ranked[i] == out[k];
      assert EntriesOf(ranked)[i] == out[k].entry;
    }
  }

  /** The map of prioritized entries that sortEntries builds, one entry at a time. */
  method RankEntries(ctx: RankContext, pwEntries: seq<Entry>) returns (ranked: seq<Ranked>)
    ensures ranked == RankAll(ctx, pwEntries)
    ensures EntriesOf(ranked) == pwEntries
    ensures forall x :: x in ranked ==> 0 <= x.priority <= 100 && MultipleOfFive(x.priority)
  {
    ranked := [];
    for k := 0 to |pwEntries|
      invariant |ranked| == k && forall j :: 0 <= j < k ==> ranked[j] == RankOf(ctx, pwEntries[j])
    {
      ranked := ranked + [RankOf(ctx, pwEntries[k])];
    }
  }

  /**
   * The bucket loop of sortEntries on ranked entries: priorities from 100 down to 0 in steps of
   * 5, each bucket key-sorted and appended; with bestMatchOnly the loop stops after the first
   * non-empty bucket.
   */
  method SortRanked(ranked: seq<Ranked>, bestMatchOnly: bool) returns (out: seq<Ranked>)
    requires forall x :: x in ranked ==> 0 <= x.priority <= 100 && MultipleOfFive(x.priority)
    ensures RankOrdered(out)
    ensures forall x :: x in out ==> x in ranked
    ensures !bestMatchOnly ==> multiset(out) == multiset(ranked)
    ensures bestMatchOnly ==> multiset(out) == multiset(Bucket(ranked, TopPriority(ranked)))
  {
    out := [];
    var done := false;
    var i := 100;  // the priority of the current bucket
    ProgressStart(ranked, bestMatchOnly);
    while i >= 0 && !done
      invariant BucketsDone(ranked, out, i, done, bestMatchOnly)
      decreases i
    {
      Gaps(ranked, i);
      out, done := BucketRound(ranked, out, i, bestMatchOnly);
      i := i - 5;
    }
    Finished(ranked, out, i, done, bestMatchOnly);
  }

  /** The state of the bucket loop before the round of priority i: every bucket above i is done. */
  predicate BucketsDone(ranked: seq<Ranked>, out: seq<Ranked>, i: int, done: bool, bestMatchOnly: bool) {
    && (i == -5 || (i <= 100 && MultipleOfFive(i)))
    && Progress(ranked, out, i + 5, done, bestMatchOnly)
  }

  /** What the bucket loop has built once every bucket above `floor` is done: the ranked entries
      of priority at least `floor`, or under bestMatchOnly nothing until the top bucket, which
      ends the loop. */
  predicate Progress(ranked: seq<Ranked>, out: seq<Ranked>, floor: int, done: bool, bestMatchOnly: bool) {
    && RankOrdered(out)
    && (!done ==> multiset(out) == multiset(AtLeast(ranked, floor)))
    && (!done && bestMatchOnly ==> out == [])
    && (done ==> bestMatchOnly && multiset(out) == multiset(Bucket(ranked, TopPriority(ranked))))
  }

  /** Before the first round nothing is output, and no entry lies above the first bucket. */
  lemma ProgressStart(ranked: seq<Ranked>, bestMatchOnly: bool)
    requires forall x :: x in ranked ==> x.priority <= 100
    ensures BucketsDone(ranked, [], 100, false, bestMatchOnly)
  {
    RungOf(20);
    NothingAbove(ranked, 105);
  }

  /** When the loop ends, by running past priority 0 or at the first non-empty bucket under
      bestMatchOnly, the output is what sortEntries promises. */
  lemma Finished(ranked: seq<Ranked>, out: seq<Ranked>, i: int, done: bool, bestMatchOnly: bool)
    requires forall x :: x in ranked ==> 0 <= x.priority
    requires BucketsDone(ranked, out, i, done, bestMatchOnly) && (done || i < 0)
    ensures RankOrdered(out)
    ensures forall x :: x in out ==> x in ranked
    ensures !bestMatchOnly ==> multiset(out) == multiset(ranked)
    ensures bestMatchOnly ==> multiset(out) == multiset(Bucket(ranked, TopPriority(ranked)))
  {
    if !done {
      AtLeastZero(ranked);
      if bestMatchOnly {
        assert |ranked| == |multiset(out)| == 0;
      }
      Above(ranked, out, 0);
    } else {
      var top := TopPriority(ranked);
      BucketMembers(ranked, top);
      forall x | x in out
        ensures x in ranked
      {
        assert x in multiset(Bucket(ranked, top));
      }
    }
  }

  /** A list with the elements of AtLeast(ranked, p) holds entries of ranked of priority at
      least p. */
  lemma Above(ranked: seq<Ranked>, out: seq<Ranked>, p: int)
    requires multiset(out) == multiset(AtLeast(ranked, p))
    ensures forall x :: x in out ==> x in ranked && x.priority >= p
  {
    AtLeastMembers(ranked, p);
    forall x | x in out
      ensures x in ranked && x.priority >= p
    {
      assert x in multiset(AtLeast(ranked, p));
    }
  }

  /** One round of the bucket loop: append bucket p, and stop there under bestMatchOnly when it
      is non-empty. */
  method BucketRound(ranked: seq<Ranked>, out: seq<Ranked>, p: int, bestMatchOnly: bool)
    returns (next: seq<Ranked>, done: bool)
    requires NoneBetween(ranked, p)
    requires BucketsDone(ranked, out, p, false, bestMatchOnly) && p >= 0
    ensures BucketsDone(ranked, next, p - 5, done, bestMatchOnly)
  {
    Above(ranked, out, p + 5);
    var entries := NextBucket(ranked, out, p);
    next, done := out, false;
    if entries != [] {
      next := out + entries;
      if bestMatchOnly {
        DoneAtTop(ranked, next, p);
        done := true;
      }
    }
  }

  /** The bucket of priority p, key-sorted, as the next piece of the output. */
  method NextBucket(ranked: seq<Ranked>, out: seq<Ranked>, p: int) returns (entries: seq<Ranked>)
    requires NoneBetween(ranked, p)
    requires multiset(out) == multiset(AtLeast(ranked, p + 5)) && RankOrdered(out)
    requires forall x :: x in out ==> x.priority >= p + 5
    ensures multiset(out + entries) == multiset(AtLeast(ranked, p))
    ensures RankOrdered(out + entries)
    ensures forall x :: x in entries ==> x.priority == p && x in ranked
    ensures entries == [] ==> multiset(out) == multiset(AtLeast(ranked, p))
  {
    entries := SortBucket(Bucket(ranked, p));
    BucketStep(ranked, out, entries, p);
  }

  /** One round of the bucket loop: appending the sorted bucket of priority p keeps the output
      ranked and makes it hold exactly the entries of priority at least p. */
  lemma BucketStep(ranked: seq<Ranked>, out: seq<Ranked>, entries: seq<Ranked>, p: int)
    requires NoneBetween(ranked, p)
    requires multiset(out) == multiset(AtLeast(ranked, p + 5)) && RankOrdered(out)
    requires forall x :: x in out ==> x.priority >= p + 5
    requires entries == SortBucket(Bucket(ranked, p))
    ensures multiset(out + entries) == multiset(AtLeast(ranked, p))
    ensures RankOrdered(out + entries)
    ensures forall x :: x in entries ==> x.priority == p && x in ranked
    ensures entries == [] ==> multiset(out) == multiset(AtLeast(ranked, p))
  {
    AtLeastSplit(ranked, p);
    BucketMembers(ranked, p);
    assert forall x :: x in entries ==> x in multiset(Bucket(ranked, p));
    AppendBucket(out, entries, p);
    if entries == [] {
      assert multiset(Bucket(ranked, p)) == multiset{};
    }
  }

  /** No entry has a priority of p or more when every priority is below p. */
  lemma {:induction false} NothingAbove(ranked: seq<Ranked>, p: int)
    requires forall x :: x in ranked ==> x.priority < p
    ensures AtLeast(ranked, p) == []
  {
    if ranked != [] {
      assert ranked[0] in ranked;
      NothingAbove(ranked[1..], p);
    }
  }

  /** When the loop stops at the first non-empty bucket p, that bucket is the top priority's. */
  lemma DoneAtTop(ranked: seq<Ranked>, out: seq<Ranked>, p: int)
    requires multiset(out) == multiset(AtLeast(ranked, p)) && out != []
    requires forall x :: x in out ==> x.priority == p
    ensures multiset(out) == multiset(Bucket(ranked, TopPriority(ranked)))
  {
    AtLeastMembers(ranked, p);
    forall x | x in ranked && x.priority >= p
      ensures x.priority == p
    {
      assert x in AtLeast(ranked, p);
      assert x in multiset(out);
    }
    AtLeastIsBucket(ranked, p);
    var y := out[0];
    assert y in multiset(AtLeast(ranked, p));
    assert y in ranked && y.priority == p;
    var top :| top in ranked && top.priority == TopPriority(ranked);
    assert y.priority <= TopPriority(ranked);
  }

  /** Ranking data computed in the current heap can be recomputed from its entries. */
  lemma {:induction false} ConsistentRanking(ctx: RankContext, s: seq<Ranked>)
    requires forall x :: x in s ==> x == RankOf(ctx, x.entry)
    ensures RankAll(ctx, EntriesOf(s)) == s
  {
    if s != [] {
      ConsistentRanking(ctx, s[1..]);
      assert EntriesOf(s)[1..] == EntriesOf(s[1..]);
    }
  }
}
