/** The usage statistics: running totals, hour buckets for the last day, and the table of
    rate-limited addresses. Each locked method is one atomic step at a clock reading. */
module Stats {
  import opened EventLog

  datatype RateLimitedIP = RateLimitedIP(ip: string, requestCount: int)

  datatype StatsData = StatsData(
    downloadCount: int, uploadCount: int, httpErrorCount: int,
    last24hDownloadCount: int, last24hUploadCount: int, last24hHttpErrorCount: int,
    rateLimitHitCount: int, rateLimitedIPs: seq<RateLimitedIP>)

  const EMPTY := StatsData(0, 0, 0, 0, 0, 0, 0, [])

  function Total(sd: StatsData, kind: Kind): int {
    match kind
    case Download => sd.downloadCount
    case Upload => sd.uploadCount
    case HttpError => sd.httpErrorCount
  }

  function LastDay(sd: StatsData, kind: Kind): int {
    match kind
    case Download => sd.last24hDownloadCount
    case Upload => sd.last24hUploadCount
    case HttpError => sd.last24hHttpErrorCount
  }

  function Increment(sd: StatsData, kind: Kind): StatsData {
    match kind
    case Download => sd.(downloadCount := sd.downloadCount + 1)
    case Upload => sd.(uploadCount := sd.uploadCount + 1)
    case HttpError => sd.(httpErrorCount := sd.httpErrorCount + 1)
  }

  predicate OtherFieldsKept(before: StatsData, after: StatsData) {
    after == before.(last24hDownloadCount := after.last24hDownloadCount, last24hUploadCount := after.last24hUploadCount,
                     last24hHttpErrorCount := after.last24hHttpErrorCount)
  }

  function Hits(hits: seq<string>, ip: string): nat {
    if hits == [] then 0
    else Hits(hits[..|hits|-1], ip) + if hits[|hits|-1] == ip then 1 else 0
  }

  function SumOfCounts(table: seq<RateLimitedIP>): int {
    if table == [] then 0 else SumOfCounts(table[..|table|-1]) + table[|table|-1].requestCount
  }

  /** The first hit of the i-th listed address comes before that of the j-th. */
  ghost predicate FirstHitBefore(hits: seq<string>, a: string, b: string) {
    exists i :: 0 <= i < |hits| && hits[i] == a && b !in hits[..i+1]
  }

  ghost predicate InFirstHitOrder(table: seq<RateLimitedIP>, hits: seq<string>) {
    forall i, j | 0 <= i < j < |table| :: table[i].ip != table[j].ip && FirstHitBefore(hits, table[i].ip, table[j].ip)
  }

  ghost predicate CountsHits(table: seq<RateLimitedIP>, hits: seq<string>) {
    forall i | 0 <= i < |table| :: 1 <= table[i].requestCount == Hits(hits, table[i].ip)
  }

  /** The table lists exactly the addresses hit, each once, in first-hit order, with the number of
      its hits; the counts add up to all hits. */
  ghost predicate Tabulates(table: seq<RateLimitedIP>, hits: seq<string>) {
    && InFirstHitOrder(table, hits)
    && CountsHits(table, hits)
    && (forall ip | ip in hits :: Listed(table, ip))
    && SumOfCounts(table) == |hits|
  }

  ghost predicate Listed(table: seq<RateLimitedIP>, ip: string) {
    exists i :: 0 <= i < |table| && table[i].ip == ip
  }

  lemma HitsSnoc(hits: seq<string>, ip: string, other: string)
    ensures Hits(hits + [ip], other) == Hits(hits, other) + if other == ip then 1 else 0
  {
    assert (hits + [ip])[..|hits|] == hits;
  }

  lemma {:induction false} NoHits(hits: seq<string>, ip: string)
    requires ip !in hits
    ensures Hits(hits, ip) == 0
    decreases |hits|
  {
    if hits != [] {
      NoHits(hits[..|hits|-1], ip);
    }
  }

  lemma {:induction false} SumUpdated(table: seq<RateLimitedIP>, i: nat, n: int)
    requires i < |table|
    ensures SumOfCounts(table[i := RateLimitedIP(table[i].ip, n)]) == SumOfCounts(table) - table[i].requestCount + n
    decreases |table|
  {
    var updated := table[i := RateLimitedIP(table[i].ip, n)];
    if i < |table| - 1 {
      SumUpdated(table[..|table|-1], i, n);
      assert updated[..|table|-1] == table[..|table|-1][i := table[i].(requestCount := n)];
    } else {
      assert updated[..|table|-1] == table[..|table|-1];
    }
  }

  lemma FirstHitKept(hits: seq<string>, ip: string, a: string, b: string)
    requires FirstHitBefore(hits, a, b)
    ensures FirstHitBefore(hits + [ip], a, b)
  {
    var i :| 0 <= i < |hits| && hits[i] == a && b !in hits[..i+1];
    assert (hits + [ip])[..i+1] == hits[..i+1] && (hits + [ip])[i] == a;
  }

  function BumpAt(table: seq<RateLimitedIP>, i: nat): seq<RateLimitedIP>
    requires i < |table|
  {
    table[i := RateLimitedIP(table[i].ip, table[i].requestCount + 1)]
  }

  lemma BumpedCounts(table: seq<RateLimitedIP>, hits: seq<string>, i: nat)
    requires CountsHits(table, hits) && InFirstHitOrder(table, hits) && i < |table|
    ensures CountsHits(BumpAt(table, i), hits + [table[i].ip])
  {
    forall j | 0 <= j < |table|
      ensures BumpAt(table, i)[j].requestCount == Hits(hits + [table[i].ip], BumpAt(table, i)[j].ip)
    {
      HitsSnoc(hits, table[i].ip, table[j].ip);
    }
  }

  lemma BumpedOrder(table: seq<RateLimitedIP>, hits: seq<string>, i: nat)
    requires InFirstHitOrder(table, hits) && i < |table|
    ensures InFirstHitOrder(BumpAt(table, i), hits + [table[i].ip])
  {
    forall j, k | 0 <= j < k < |table|
      ensures BumpAt(table, i)[j].ip != BumpAt(table, i)[k].ip
      ensures FirstHitBefore(hits + [table[i].ip], BumpAt(table, i)[j].ip, BumpAt(table, i)[k].ip)
    {
      FirstHitKept(hits, table[i].ip, table[j].ip, table[k].ip);
    }
  }

  lemma BumpedTabulates(table: seq<RateLimitedIP>, hits: seq<string>, i: nat)
    requires Tabulates(table, hits) && i < |table|
    ensures Tabulates(BumpAt(table, i), hits + [table[i].ip])
  {
    BumpedCounts(table, hits, i);
    BumpedOrder(table, hits, i);
    forall x | x in hits + [table[i].ip] ensures Listed(BumpAt(table, i), x) {
      assert Listed(table, x);
      var j :| 0 <= j < |table| && table[j].ip == x;
      assert BumpAt(table, i)[j].ip == x;
    }
    SumUpdated(table, i, table[i].requestCount + 1);
  }

  lemma AppendedTabulates(table: seq<RateLimitedIP>, hits: seq<string>, ip: string)
    requires Tabulates(table, hits) && !Listed(table, ip)
    ensures Tabulates(table + [RateLimitedIP(ip, 1)], hits + [ip])
  {
    var longer, more := table + [RateLimitedIP(ip, 1)], hits + [ip];
    assert ip !in hits;
    NoHits(hits, ip);
    forall j | 0 <= j < |longer| ensures 1 <= longer[j].requestCount == Hits(more, longer[j].ip) {
      HitsSnoc(hits, ip, longer[j].ip);
    }
    forall j, k | 0 <= j < k < |longer|
      ensures longer[j].ip != longer[k].ip && FirstHitBefore(more, longer[j].ip, longer[k].ip)
    {
      if k < |table| {
        FirstHitKept(hits, ip, table[j].ip, table[k].ip);
      } else {
        if table[j].ip !in hits {
          NoHits(hits, table[j].ip);
        }
        var i :| 0 <= i < |hits| && hits[i] == table[j].ip;
        assert more[i] == table[j].ip && more[..i+1] == hits[..i+1];
      }
    }
    forall x | x in more ensures Listed(longer, x) {
      if x in hits {
        assert Listed(table, x);
        var j :| 0 <= j < |table| && table[j].ip == x;
        assert longer[j].ip == x;
      } else {
        assert longer[|table|].ip == x;
      }
    }
    assert longer[..|table|] == table;
  }

  lemma FirstHitAsymmetric(hits: seq<string>, a: string, b: string)
    requires FirstHitBefore(hits, a, b)
    ensures !FirstHitBefore(hits, b, a)
  {
    var i :| 0 <= i < |hits| && hits[i] == a && b !in hits[..i+1];
    forall j | 0 <= j <= i ensures hits[j] != b {
      assert hits[j] in hits[..i+1];
    }
    forall j | 0 <= j < |hits| && hits[j] == b ensures a in hits[..j+1] {
      assert hits[..j+1][i] == a;
    }
  }

  /** Tables that agree up to n list the n-th address of one at n or later in the other. */
  lemma ListedFrom(t1: seq<RateLimitedIP>, t2: seq<RateLimitedIP>, hits: seq<string>, n: nat) returns (j: nat)
    requires Tabulates(t1, hits) && Tabulates(t2, hits) && n < |t1| && n <= |t2|
    requires forall i | 0 <= i < n :: t1[i] == t2[i]
    ensures n <= j < |t2| && t2[j].ip == t1[n].ip
  {
    if t1[n].ip !in hits {
      NoHits(hits, t1[n].ip);
    }
    assert Listed(t2, t1[n].ip);
    j :| 0 <= j < |t2| && t2[j].ip == t1[n].ip;
    forall i | 0 <= i < n ensures t2[i].ip != t1[n].ip {
      assert t1[i].ip != t1[n].ip;
    }
  }

  /** Two tables of the same hits start alike. */
  lemma {:induction false} SameStart(t1: seq<RateLimitedIP>, t2: seq<RateLimitedIP>, hits: seq<string>, n: nat)
    requires Tabulates(t1, hits) && Tabulates(t2, hits) && n <= |t1|
    ensures n <= |t2| && forall i | 0 <= i < n :: t1[i] == t2[i]
    decreases n
  {
    if n > 0 {
      SameStart(t1, t2, hits, n - 1);
      var j := ListedFrom(t1, t2, hits, n - 1);
      var k := ListedFrom(t2, t1, hits, n - 1);
      NotBothLater(t1, t2, hits, n - 1, j, k);
    }
  }

  lemma NotBothLater(t1: seq<RateLimitedIP>, t2: seq<RateLimitedIP>, hits: seq<string>, n: nat, j: nat, k: nat)
    requires Tabulates(t1, hits) && Tabulates(t2, hits)
    requires n <= j < |t2| && n <= k < |t1| && t2[j].ip == t1[n].ip && t1[k].ip == t2[n].ip
    ensures t1[n] == t2[n]
  {
    if n < j && n < k {
      FirstHitAsymmetric(hits, t1[n].ip, t2[n].ip);
    }
  }

  /** The hits determine the table. */
  lemma TableUnique(t1: seq<RateLimitedIP>, t2: seq<RateLimitedIP>, hits: seq<string>)
    requires Tabulates(t1, hits) && Tabulates(t2, hits)
    ensures t1 == t2
  {
    SameStart(t1, t2, hits, |t1|);
    SameStart(t2, t1, hits, |t2|);
  }

  /** The buckets agree with the log: each has the counts of its hour, and the events of an hour
      without a bucket are older than the last cutoff. */
  ghost predicate BucketsAgree(buckets: map<int, StatsData>, log: seq<Event>, pruned: int) {
    && (forall h, kind | h in buckets :: Total(buckets[h], kind) == Count(log, InHour(kind, h)))
    && (forall e | e in log :: HourOf(e.time) in buckets || HourOf(e.time) < pruned)
  }

  class Stats {
    var data: StatsData
    var last24h: map<int, StatsData>
    /** Every event and every hit so far, the last clock reading, and the last cutoff. */
    ghost var log: seq<Event>
    ghost var hits: seq<string>
    ghost var clock: int
    ghost var pruned: int

    ghost predicate Valid()
      reads this
    {
      && 0 <= clock && pruned <= clock - DAY
      && (forall e | e in log :: 0 <= e.time <= clock)
      && (forall kind :: Total(data, kind) == Count(log, OfKind(kind)))
      && BucketsAgree(last24h, log, pruned)
      && (forall h | h in last24h :: h % HOUR == 0 && h <= clock)
      && Tabulates(data.rateLimitedIPs, hits) && data.rateLimitHitCount == |hits|
    }

    constructor (now: int)
      requires 0 <= now
      ensures Valid() && log == [] && hits == [] && clock == now
      ensures forall kind :: LastDay(data, kind) == 0
    {
      data, last24h := EMPTY, map[];
      log, hits, clock, pruned := [], [], now, now - DAY;
    }

    /** IncrementDownloads, IncrementUploads and IncrementHTTPErrors. */
    method IncrementKind(kind: Kind, now: int)
      requires Valid() && clock <= now
      modifies this
      ensures Valid() && log == old(log) + [Event(kind, now)] && hits == old(hits) && clock == now
      ensures forall k :: LastDay(data, k) == LastDay(old(data), k)
    {
      data := Increment(data, kind);
      AddToLast24h(kind, now);
      log, clock := log + [Event(kind, now)], now;
      forall k ensures Total(data, k) == Count(log, OfKind(k)) {
        CountSnoc(old(log), Event(kind, now), OfKind(k));
      }
    }

    method AddToLast24h(kind: Kind, now: int)
      requires BucketsAgree(last24h, log, pruned) && 0 <= now && pruned <= now - DAY
      requires forall h | h in last24h :: h % HOUR == 0
      modifies this`last24h
      ensures BucketsAgree(last24h, log + [Event(kind, now)], pruned)
      ensures last24h.Keys == old(last24h.Keys) + {HourOf(now)} && HourOf(now) % HOUR == 0
    {
      var hour := HourOf(now);
      if hour !in last24h {
        last24h := last24h[hour := EMPTY];
        NoEventsYet(old(last24h), log, pruned, hour);
      }
      last24h := last24h[hour := Increment(last24h[hour], kind)];
      forall h, k | h in last24h ensures Total(last24h[h], k) == Count(log + [Event(kind, now)], InHour(k, h)) {
        CountSnoc(log, Event(kind, now), InHour(k, h));
      }
    }

    /** Sums the buckets that are not before the cutoff and removes the others, in whatever order
        they come. */
    method SumAndPrune(cutoff: int) returns (ghost kept: set<int>)
      requires forall h, kind | h in last24h :: Total(last24h[h], kind) == Count(log, InHour(kind, h))
      modifies this`data, this`last24h
      ensures kept == last24h.Keys
      ensures forall h :: h in last24h <==> h in old(last24h) && cutoff <= h
      ensures forall h | h in last24h :: last24h[h] == old(last24h)[h]
      ensures forall kind :: LastDay(data, kind) == Count(log, InHours(kind, kept))
      ensures OtherFieldsKept(old(data), data)
    {
      data := data.(last24hDownloadCount := 0, last24hUploadCount := 0, last24hHttpErrorCount := 0);
      var remaining := last24h.Keys;
      kept := {};
      forall kind ensures Count(log, InHours(kind, {})) == 0 {
        NoneCounted(log, InHours(kind, {}));
      }
      while remaining != {}
        invariant last24h.Keys == remaining + kept && remaining !! kept
        invariant forall h | h in last24h :: h in old(last24h) && last24h[h] == old(last24h)[h]
        invariant forall h | h in old(last24h) && h !in last24h :: h < cutoff
        invariant forall h | h in kept :: cutoff <= h
        invariant forall kind :: LastDay(data, kind) == Count(log, InHours(kind, kept))
        invariant OtherFieldsKept(old(data), data)
      {
        var t: int :| t in remaining by { var x := SomeMember(remaining); }
        remaining := remaining - {t};
        if t < cutoff {
          last24h := last24h - {t};
        } else {
          var sd := last24h[t];
          data := data.(last24hDownloadCount := data.last24hDownloadCount + sd.downloadCount,
                        last24hUploadCount := data.last24hUploadCount + sd.uploadCount,
                        last24hHttpErrorCount := data.last24hHttpErrorCount + sd.httpErrorCount);
          forall kind
            ensures Count(log, InHours(kind, kept + {t})) == Count(log, InHours(kind, kept)) + Total(sd, kind)
          {
            AddHour(log, kind, kept, t);
          }
          kept := kept + {t};
        }
      }
    }

    /** The counters of the last day, and the removal of buckets older than that. */
    method UpdateLast24hStats(now: int)
      requires Valid() && clock <= now
      modifies this
      ensures Valid() && log == old(log) && hits == old(hits) && clock == now
      ensures forall kind :: LastDay(data, kind) == Count(log, HourSince(kind, now - DAY))
      ensures OtherFieldsKept(old(data), data)
      ensures |last24h| <= 25
    {
      var cutoff := now - DAY;
      ghost var kept := SumAndPrune(cutoff);
      forall kind ensures Count(log, InHours(kind, kept)) == Count(log, HourSince(kind, cutoff)) {
        CountSame(log, InHours(kind, kept), HourSince(kind, cutoff));
      }
      HoursInInterval(last24h.Keys, cutoff, 25);
      clock, pruned := now, cutoff;
    }

    /** A snapshot: each counter of the last day equals the number of logged events whose hour is
        not before a day ago, in nanoseconds, so it lies between the exact counts over 23 and 24 hours; the totals
        count all events; and at most 25 buckets remain. */
    method GetCurrentStats(now: int) returns (snapshot: StatsData)
      requires Valid() && clock <= now
      modifies this
      ensures Valid() && log == old(log) && hits == old(hits) && clock == now
      ensures forall kind :: Total(snapshot, kind) == Count(log, OfKind(kind))
      ensures forall kind :: LastDay(snapshot, kind) == Count(log, HourSince(kind, now - 86_400_000_000_000))
      ensures forall kind ::
        && Count(log, Since(kind, now - 82_800_000_000_000)) <= LastDay(snapshot, kind)
        && LastDay(snapshot, kind) <= Count(log, Since(kind, now - 86_400_000_000_000))
      ensures Tabulates(snapshot.rateLimitedIPs, hits) && snapshot.rateLimitHitCount == |hits|
      ensures |last24h| <= 25
    {
      UpdateLast24hStats(now);
      snapshot := data;
      BetweenExactCounts(log, Download, now);
      BetweenExactCounts(log, Upload, now);
      BetweenExactCounts(log, HttpError, now);
    }

    /** Bumps the count of a listed address, or lists a new one at the end. */
    method RecordRateLimitHit(ip: string)
      requires Valid()
      modifies this`data, this`hits
      ensures Valid() && hits == old(hits) + [ip] && log == old(log)
      ensures forall kind ::
        Total(data, kind) == Total(old(data), kind) && LastDay(data, kind) == LastDay(old(data), kind)
    {
      data := data.(rateLimitHitCount := data.rateLimitHitCount + 1);
      var table := data.rateLimitedIPs;
      var found := false;
      for i := 0 to |table|
        invariant !found && forall j | 0 <= j < i :: table[j].ip != ip
        invariant data == old(data).(rateLimitHitCount := old(data).rateLimitHitCount + 1)
      {
        if table[i].ip == ip {
          data := data.(rateLimitedIPs := BumpAt(table, i));
          BumpedTabulates(table, hits, i);
          found := true;
          break;
        }
      }
      if !found {
        data := data.(rateLimitedIPs := table + [RateLimitedIP(ip, 1)]);
        AppendedTabulates(table, hits, ip);
      }
      hits := hits + [ip];
    }
  }

  lemma SomeMember<T>(s: set<T>) returns (x: T)
    requires s != {}
    ensures x in s
  {
    x :| x in s;
  }

  lemma NoEventsYet(buckets: map<int, StatsData>, log: seq<Event>, pruned: int, hour: int)
    requires BucketsAgree(buckets, log, pruned) && hour !in buckets && pruned <= hour
    ensures forall kind :: Count(log, InHour(kind, hour)) == 0
  {
    forall kind ensures Count(log, InHour(kind, hour)) == 0 {
      CountSame(log, InHour(kind, hour), InHours(kind, {}));
      NoneCounted(log, InHours(kind, {}));
    }
  }

  lemma {:induction false} NoneCounted(log: seq<Event>, p: Event -> bool)
    requires forall e | e in log :: !p(e)
    ensures Count(log, p) == 0
    decreases |log|
  {
    if log != [] {
      NoneCounted(log[..|log|-1], p);
    }
  }
}
