/** What the certificate cache answers over a whole run of puts and gets, and the keys
    under which certificates are issued once. */
module TlsCacheRuns {
  import opened Common
  import opened TlsCache
  import Decimal

  datatype Op = PutOp(key: Key, cert: Option<Certificate>, now: Time) | GetOp(key: Key, now: Time)

  function After(entries: seq<Entry>, op: Op, ttl: Time, capacity: nat): seq<Entry> {
    match op
    case PutOp(key, cert, now) => Put(entries, key, cert, now, ttl, capacity)
    case GetOp(key, now) => Get(entries, key, now).0
  }

  /** The cache's entries after the operations, in order of use. */
  function Run(ops: seq<Op>, ttl: Time, capacity: nat): seq<Entry> {
    if ops == [] then [] else After(Run(ops[..|ops| - 1], ttl, capacity), ops[|ops| - 1], ttl, capacity)
  }

  predicate Stores(op: Op, key: Key) {
    op.PutOp? && op.cert.Some? && op.key == key
  }

  /** The operation uses its key: it puts a certificate, or finds one among the entries. */
  predicate Touches(entries: seq<Entry>, op: Op) {
    if op.PutOp? then op.cert.Some? else Get(entries, op.key, op.now).1.Some?
  }

  predicate Uses(entries: seq<Entry>, op: Op, key: Key) {
    op.key == key && Touches(entries, op)
  }

  /** The other keys used since the last use of this one. */
  function UsedSince(ops: seq<Op>, key: Key, ttl: Time, capacity: nat): set<Key> {
    if ops == [] then {}
    else
      var front, last := ops[..|ops| - 1], ops[|ops| - 1];
      var entries := Run(front, ttl, capacity);
      if Uses(entries, last, key) then {}
      else UsedSince(front, key, ttl, capacity) + if Touches(entries, last) then {last.key} else {}
  }

  ghost predicate IsLastPut(ops: seq<Op>, k: nat, key: Key) {
    k < |ops| && Stores(ops[k], key) && forall j :: k < j < |ops| ==> !Stores(ops[j], key)
  }

  ghost predicate EntryOk(ops: seq<Op>, e: Entry, ttl: Time) {
    exists k: nat :: IsLastPut(ops, k, e.key) && e.cert == ops[k].cert.value
        && e.expiresAt == Expiry(e.cert, ops[k].now, ttl)
  }

  /** Keys are distinct, entries are what was put last, and those in front were used
      since those behind. */
  ghost predicate InOrder(ops: seq<Op>, entries: seq<Entry>, ttl: Time, capacity: nat) {
    && DistinctKeys(entries)
    && (forall i :: 0 <= i < |entries| ==> EntryOk(ops, entries[i], ttl))
    && (forall i, j :: 0 <= i < j < |entries| ==> entries[i].key in UsedSince(ops, entries[j].key, ttl, capacity))
  }

  ghost predicate Inv(ops: seq<Op>, entries: seq<Entry>, ttl: Time, capacity: nat) {
    entries == Run(ops, ttl, capacity) && |entries| <= capacity && InOrder(ops, entries, ttl, capacity)
  }

  lemma EntryStaysOk(ops: seq<Op>, op: Op, e: Entry, ttl: Time)
    requires EntryOk(ops, e, ttl) && !Stores(op, e.key)
    ensures EntryOk(ops + [op], e, ttl)
  {
    var k: nat :| IsLastPut(ops, k, e.key) && e.cert == ops[k].cert.value
        && e.expiresAt == Expiry(e.cert, ops[k].now, ttl);
    assert IsLastPut(ops + [op], k, e.key) && (ops + [op])[k] == ops[k];
  }

  lemma UsedSinceGrows(ops: seq<Op>, op: Op, key: Key, ttl: Time, capacity: nat)
    ensures var entries := Run(ops, ttl, capacity);
            UsedSince(ops + [op], key, ttl, capacity)
            == if Uses(entries, op, key) then {}
               else UsedSince(ops, key, ttl, capacity) + if Touches(entries, op) then {op.key} else {}
  {
    assert (ops + [op])[..|ops|] == ops;
  }

  /** Entries that are left as they were stay in order. */
  lemma PartStaysOk(ops: seq<Op>, op: Op, entries: seq<Entry>, part: seq<Entry>, from: seq<nat>, ttl: Time,
                    capacity: nat)
    requires Inv(ops, entries, ttl, capacity)
    requires |from| == |part| && forall i :: 0 <= i < |part| ==> from[i] < |entries| && part[i] == entries[from[i]]
    requires forall i, j :: 0 <= i < j < |part| ==> from[i] < from[j]
    requires forall i :: 0 <= i < |part| ==> part[i].key != op.key
    ensures InOrder(ops + [op], part, ttl, capacity)
    ensures Touches(entries, op) ==> forall j :: 0 <= j < |part| ==>
            op.key in UsedSince(ops + [op], part[j].key, ttl, capacity)
  {
    forall i | 0 <= i < |part| ensures EntryOk(ops + [op], part[i], ttl) {
      EntryStaysOk(ops, op, part[i], ttl);
    }
    forall j | 0 <= j < |part|
      ensures UsedSince(ops + [op], part[j].key, ttl, capacity)
              == UsedSince(ops, part[j].key, ttl, capacity) + if Touches(entries, op) then {op.key} else {}
    {
      UsedSinceGrows(ops, op, part[j].key, ttl, capacity);
    }
  }

  function Others(entries: seq<Entry>, key: Key): seq<Entry> {
    var i := IndexOf(entries, key);
    if i.None? then entries else Without(entries, i.value)
  }

  lemma OthersStayOk(ops: seq<Op>, op: Op, entries: seq<Entry>, ttl: Time, capacity: nat)
    requires Inv(ops, entries, ttl, capacity)
    ensures var part := Others(entries, op.key);
            && InOrder(ops + [op], part, ttl, capacity) && |part| <= |entries|
            && (forall i :: 0 <= i < |part| ==> part[i].key != op.key)
            && (Touches(entries, op) ==> forall j :: 0 <= j < |part| ==>
                op.key in UsedSince(ops + [op], part[j].key, ttl, capacity))
  {
    var from := OthersPositions(entries, op.key);
    PartStaysOk(ops, op, entries, Others(entries, op.key), from, ttl, capacity);
  }

  lemma OthersPositions(entries: seq<Entry>, key: Key) returns (from: seq<nat>)
    requires DistinctKeys(entries)
    ensures var part := Others(entries, key);
            && |part| <= |entries| && |from| == |part|
            && (forall i :: 0 <= i < |part| ==>
                from[i] < |entries| && part[i] == entries[from[i]] && part[i].key != key)
            && (forall i, j :: 0 <= i < j < |part| ==> from[i] < from[j])
  {
    var part := Others(entries, key);
    var i := IndexOf(entries, key);
    from := seq(|part|, j requires 0 <= j => if i.Some? && j >= i.value then j + 1 else j);
    OthersDiffer(entries, key);
  }

  lemma OthersDiffer(entries: seq<Entry>, key: Key)
    requires DistinctKeys(entries)
    ensures forall j :: 0 <= j < |Others(entries, key)| ==> Others(entries, key)[j].key != key
  {
  }

  lemma WithHead(ops: seq<Op>, op: Op, entries: seq<Entry>, head: Entry, ttl: Time, capacity: nat, n: nat)
    requires Inv(ops, entries, ttl, capacity) && Touches(entries, op) && head.key == op.key
    requires EntryOk(ops + [op], head, ttl) && n <= capacity && n <= |Others(entries, op.key)| + 1
    ensures InOrder(ops + [op], ([head] + Others(entries, op.key))[..n], ttl, capacity)
  {
    OthersStayOk(ops, op, entries, ttl, capacity);
  }

  /** A put of no certificate changes nothing. */
  lemma NoPutKeeps(ops: seq<Op>, op: Op, entries: seq<Entry>, ttl: Time, capacity: nat)
    requires Inv(ops, entries, ttl, capacity) && op.PutOp? && op.cert.None?
    ensures InOrder(ops + [op], entries, ttl, capacity)
  {
    forall i | 0 <= i < |entries| ensures EntryOk(ops + [op], entries[i], ttl) {
      EntryStaysOk(ops, op, entries[i], ttl);
      UsedSinceGrows(ops, op, entries[i].key, ttl, capacity);
    }
    forall i, j | 0 <= i < j < |entries|
      ensures entries[i].key in UsedSince(ops + [op], entries[j].key, ttl, capacity)
    {
      UsedSinceGrows(ops, op, entries[j].key, ttl, capacity);
    }
  }

  lemma StepKeepsInv(ops: seq<Op>, op: Op, entries: seq<Entry>, ttl: Time, capacity: nat)
    requires Inv(ops, entries, ttl, capacity)
    ensures Inv(ops + [op], After(entries, op, ttl, capacity), ttl, capacity)
  {
    assert (ops + [op])[..|ops|] == ops;
    var i := IndexOf(entries, op.key);
    if op.PutOp? && op.cert.None? {
      NoPutKeeps(ops, op, entries, ttl, capacity);
    } else if op.PutOp? {
      var head := Entry(op.key, op.cert.value, Expiry(op.cert.value, op.now, ttl));
      assert IsLastPut(ops + [op], |ops|, op.key);
      var all := [head] + Others(entries, op.key);
      WithHead(ops, op, entries, head, ttl, capacity, if |all| > capacity then capacity else |all|);
      assert all[..|all|] == all;
    } else if i.None? || op.now >= entries[i.value].expiresAt {
      OthersStayOk(ops, op, entries, ttl, capacity);
    } else {
      var head := entries[i.value];
      EntryStaysOk(ops, op, head, ttl);
      var all := [head] + Others(entries, op.key);
      WithHead(ops, op, entries, head, ttl, capacity, |all|);
      assert all[..|all|] == all;
    }
  }

  /** In every run the cache holds at most its capacity, under distinct keys, and what
      it holds was put last, with those used more recently in front. */
  lemma {:induction false} RunKeepsInv(ops: seq<Op>, ttl: Time, capacity: nat)
    ensures Inv(ops, Run(ops, ttl, capacity), ttl, capacity)
  {
    if ops != [] {
      var front, last := ops[..|ops| - 1], ops[|ops| - 1];
      RunKeepsInv(front, ttl, capacity);
      StepKeepsInv(front, last, Run(front, ttl, capacity), ttl, capacity);
      assert ops == front + [last];
    }
  }

  /** A hit is the certificate that was put last for exactly that key, less than the TTL
      ago and before its leaf expires. */
  lemma HitIsLastPut(ops: seq<Op>, key: Key, now: Time, ttl: Time, capacity: nat) returns (k: nat)
    requires Get(Run(ops, ttl, capacity), key, now).1.Some?
    ensures IsLastPut(ops, k, key) && Get(Run(ops, ttl, capacity), key, now).1 == ops[k].cert
    ensures now < ops[k].now + ttl
    ensures ops[k].cert.value.notAfter.Some? ==> now < ops[k].cert.value.notAfter.value
  {
    RunKeepsInv(ops, ttl, capacity);
    var entries := Run(ops, ttl, capacity);
    var e := entries[IndexOf(entries, key).value];
    assert EntryOk(ops, e, ttl);
    k :| IsLastPut(ops, k, e.key) && e.cert == ops[k].cert.value && e.expiresAt == Expiry(e.cert, ops[k].now, ttl);
  }

  /** What is not in a prefix any more lies behind it. */
  lemma CutOff<T>(all: seq<T>, prefix: seq<T>, n: nat)
    requires prefix <= all && n < |all| && all[n] !in prefix
    ensures |prefix| <= n
  {
    assert forall i :: 0 <= i < |prefix| ==> prefix[i] == all[i];
  }

  lemma CutKeepsOthers(entries: seq<Entry>, i: nat, e: Entry)
    requires i < |entries| && e in entries && e != entries[i]
    ensures e in Without(entries, i)
  {
    var j :| 0 <= j < |entries| && entries[j] == e;
    assert Without(entries, i)[if j < i then j else j - 1] == e;
  }

  /** A put of a key that is cached already, or of no certificate, evicts nothing. */
  lemma KnownPutKeeps(entries: seq<Entry>, op: Op, e: Entry, ttl: Time, capacity: nat)
    requires op.PutOp? && |entries| <= capacity && e in entries && e.key != op.key
    requires op.cert.None? || IndexOf(entries, op.key).Some?
    ensures e in After(entries, op, ttl, capacity)
  {
    if op.cert.Some? {
      var i := IndexOf(entries, op.key).value;
      CutKeepsOthers(entries, i, e);
      var head := Entry(op.key, op.cert.value, Expiry(op.cert.value, op.now, ttl));
      assert Push(entries, head) == [head] + Without(entries, i);
      assert |Push(entries, head)| <= capacity;
      assert After(entries, op, ttl, capacity) == [head] + Without(entries, i);
    }
  }

  lemma AheadWasUsed(ops: seq<Op>, op: Op, entries: seq<Entry>, i: nat, j: nat, ttl: Time, capacity: nat)
    requires Inv(ops, entries, ttl, capacity) && i < j < |entries| && entries[j].key != op.key
    ensures entries[i].key in UsedSince(ops + [op], entries[j].key, ttl, capacity)
  {
    UsedSinceGrows(ops, op, entries[j].key, ttl, capacity);
  }

  lemma EvictedWasLast(ops: seq<Op>, op: Op, entries: seq<Entry>, evicted: Entry, ttl: Time, capacity: nat)
    requires Inv(ops, entries, ttl, capacity) && op.PutOp? && evicted.key != op.key
    requires evicted in entries && evicted !in After(entries, op, ttl, capacity)
    ensures var result := After(entries, op, ttl, capacity);
            |result| == capacity && forall i :: 0 <= i < |result| ==>
                result[i].key in UsedSince(ops + [op], evicted.key, ttl, capacity)
  {
    if op.cert.None? || IndexOf(entries, op.key).Some? {
      KnownPutKeeps(entries, op, evicted, ttl, capacity);
    }
    var j :| 0 <= j < |entries| && entries[j] == evicted;
    var n := LeftInFront(entries, op, j, ttl, capacity);
    FrontWasUsed(ops, op, entries, j, n, ttl, capacity);
  }

  /** A put of a new key that evicts an entry leaves itself and some of those ahead. */
  lemma LeftInFront(entries: seq<Entry>, op: Op, j: nat, ttl: Time, capacity: nat) returns (n: nat)
    requires op.PutOp? && op.cert.Some? && IndexOf(entries, op.key).None? && j < |entries|
    requires entries[j] !in After(entries, op, ttl, capacity)
    ensures n <= j + 1 && n == capacity == |After(entries, op, ttl, capacity)|
    ensures After(entries, op, ttl, capacity)
            == ([Entry(op.key, op.cert.value, Expiry(op.cert.value, op.now, ttl))] + entries)[..n]
  {
    var all := [Entry(op.key, op.cert.value, Expiry(op.cert.value, op.now, ttl))] + entries;
    assert After(entries, op, ttl, capacity) == Truncated(all, capacity);
    assert all[j + 1] == entries[j];
    CutOff(all, Truncated(all, capacity), j + 1);
    n := capacity;
  }

  lemma FrontWasUsed(ops: seq<Op>, op: Op, entries: seq<Entry>, j: nat, n: nat, ttl: Time, capacity: nat)
    requires Inv(ops, entries, ttl, capacity) && op.PutOp? && op.cert.Some? && j < |entries|
             && entries[j].key != op.key && n <= j + 1
    ensures var all := [Entry(op.key, op.cert.value, Expiry(op.cert.value, op.now, ttl))] + entries;
            forall i :: 0 <= i < n ==> all[i].key in UsedSince(ops + [op], entries[j].key, ttl, capacity)
  {
    UsedSinceGrows(ops, op, entries[j].key, ttl, capacity);
    forall i | 0 <= i < j ensures entries[i].key in UsedSince(ops + [op], entries[j].key, ttl, capacity) {
      AheadWasUsed(ops, op, entries, i, j, ttl, capacity);
    }
  }

  /** What a put evicts was used before everything that stays. */
  lemma EvictsLeastRecentlyUsed(ops: seq<Op>, op: Op, evicted: Entry, ttl: Time, capacity: nat)
    requires op.PutOp? && evicted.key != op.key
    requires evicted in Run(ops, ttl, capacity) && evicted !in Run(ops + [op], ttl, capacity)
    ensures |Run(ops + [op], ttl, capacity)| == capacity
    ensures forall e :: e in Run(ops + [op], ttl, capacity) ==>
            e.key in UsedSince(ops + [op], evicted.key, ttl, capacity)
  {
    assert (ops + [op])[..|ops|] == ops;
    RunKeepsInv(ops, ttl, capacity);
    EvictedWasLast(ops, op, Run(ops, ttl, capacity), evicted, ttl, capacity);
  }

  // ------------------------------------------------------------ nothing valid is lost early

  function PutEntry(ops: seq<Op>, k: nat, key: Key, ttl: Time): Entry
    requires k < |ops| && Stores(ops[k], key)
  {
    Entry(key, ops[k].cert.value, Expiry(ops[k].cert.value, ops[k].now, ttl))
  }

  /** The certificate was put less than the TTL ago and its leaf has not expired. */
  predicate StillValid(put: Op, now: Time, ttl: Time)
    requires put.PutOp? && put.cert.Some?
  {
    && now < put.now + ttl
    && (put.cert.value.notAfter.Some? ==> now < put.cert.value.notAfter.value)
  }

  /** Since its last put the key was not looked up after it expired, and never were as
      many other keys used between two uses of it as the cache can hold. */
  ghost predicate KeptInUse(ops: seq<Op>, k: nat, key: Key, ttl: Time, capacity: nat)
    requires k < |ops| && Stores(ops[k], key)
  {
    && (forall j :: k < j < |ops| && ops[j].GetOp? && ops[j].key == key ==>
          StillValid(ops[k], ops[j].now, ttl))
    && (forall n :: k < n <= |ops| ==> |UsedSince(ops[..n], key, ttl, capacity)| < capacity)
  }

  lemma KeysBound(entries: seq<Entry>, keys: set<Key>)
    requires DistinctKeys(entries) && forall e :: e in entries ==> e.key in keys
    ensures |entries| <= |keys|
  {
    var all := seq(|entries|, i requires 0 <= i < |entries| => entries[i].key);
    NoDupCardinality(all);
    forall x | x in ToSet(all) ensures x in keys {
      var i :| 0 <= i < |all| && all[i] == x;
      assert entries[i] in entries;
    }
    SubsetSize(ToSet(all), keys);
  }

  lemma GetKeepsOthers(entries: seq<Entry>, key: Key, now: Time, e: Entry)
    requires DistinctKeys(entries) && e in entries && (e.key == key ==> now < e.expiresAt)
    ensures e in Get(entries, key, now).0
  {
    var i := IndexOf(entries, key);
    var j :| 0 <= j < |entries| && entries[j] == e;
    if i.Some? && j != i.value {
      assert Without(entries, i.value)[if j < i.value then j else j - 1] == e;
    }
  }

  lemma StepStaysCached(front: seq<Op>, op: Op, e: Entry, ttl: Time, capacity: nat)
    requires e in Run(front, ttl, capacity) && !Stores(op, e.key)
    requires op.GetOp? && op.key == e.key ==> op.now < e.expiresAt
    requires |UsedSince(front + [op], e.key, ttl, capacity)| < capacity
    ensures e in Run(front + [op], ttl, capacity)
  {
    assert (front + [op])[..|front|] == front;
    RunKeepsInv(front, ttl, capacity);
    if op.GetOp? {
      GetKeepsOthers(Run(front, ttl, capacity), op.key, op.now, e);
    } else if op.cert.Some? && e !in Run(front + [op], ttl, capacity) {
      EvictsLeastRecentlyUsed(front, op, e, ttl, capacity);
      RunKeepsInv(front + [op], ttl, capacity);
      KeysBound(Run(front + [op], ttl, capacity), UsedSince(front + [op], e.key, ttl, capacity));
      assert false;
    }
  }

  lemma {:induction false} StaysCached(ops: seq<Op>, k: nat, key: Key, ttl: Time, capacity: nat, n: nat)
    requires IsLastPut(ops, k, key) && KeptInUse(ops, k, key, ttl, capacity) && k < n <= |ops|
    ensures PutEntry(ops, k, key, ttl) in Run(ops[..n], ttl, capacity)
    decreases n
  {
    var e := PutEntry(ops, k, key, ttl);
    assert ops[..n] == ops[..n - 1] + [ops[n - 1]];
    assert |UsedSince(ops[..n], key, ttl, capacity)| < capacity;
    if n == k + 1 {
      assert ops[..n][..n - 1] == ops[..n - 1];
      assert Run(ops[..n], ttl, capacity)[0] == e;
    } else {
      StaysCached(ops, k, key, ttl, capacity, n - 1);
      StepStaysCached(ops[..n - 1], ops[n - 1], e, ttl, capacity);
    }
  }

  /** A certificate stays available until it expires, as long as fewer other keys than
      the cache can hold are used between two uses of its own. */
  lemma ValidIsHit(ops: seq<Op>, k: nat, key: Key, now: Time, ttl: Time, capacity: nat)
    requires IsLastPut(ops, k, key) && KeptInUse(ops, k, key, ttl, capacity)
    requires StillValid(ops[k], now, ttl)
    ensures Get(Run(ops, ttl, capacity), key, now).1 == ops[k].cert
  {
    StaysCached(ops, k, key, ttl, capacity, |ops|);
    assert ops[..|ops|] == ops;
    RunKeepsInv(ops, ttl, capacity);
    var entries := Run(ops, ttl, capacity);
    OnlyEntry(entries, PutEntry(ops, k, key, ttl));
  }

  /** A lookup finds just what is cached and still valid; what it does not find is not
      cached any more afterwards. */
  lemma LookupExactly(ops: seq<Op>, key: Key, now: Time, ttl: Time, capacity: nat)
    ensures var (after, cert) := Get(Run(ops, ttl, capacity), key, now);
            && (cert.Some? <==> exists k: nat :: IsLastPut(ops, k, key) && StillValid(ops[k], now, ttl)
                                                 && PutEntry(ops, k, key, ttl) in Run(ops, ttl, capacity))
            && (cert.None? ==> forall i :: 0 <= i < |after| ==> after[i].key != key)
  {
    RunKeepsInv(ops, ttl, capacity);
    var entries := Run(ops, ttl, capacity);
    var found := IndexOf(entries, key);
    if found.Some? {
      assert EntryOk(ops, entries[found.value], ttl);
      var k: nat :| IsLastPut(ops, k, key) && entries[found.value].cert == ops[k].cert.value
                    && entries[found.value].expiresAt == Expiry(entries[found.value].cert, ops[k].now, ttl);
      assert PutEntry(ops, k, key, ttl) == entries[found.value];
    }
    forall k: nat | IsLastPut(ops, k, key) && PutEntry(ops, k, key, ttl) in entries
      ensures found.Some? && entries[found.value] == PutEntry(ops, k, key, ttl)
    {
      OnlyEntry(entries, PutEntry(ops, k, key, ttl));
    }
  }

  lemma OnlyEntry(entries: seq<Entry>, e: Entry)
    requires DistinctKeys(entries) && e in entries
    ensures IndexOf(entries, e.key).Some? && entries[IndexOf(entries, e.key).value] == e
  {
    var j :| 0 <= j < |entries| && entries[j] == e;
    var i := IndexOf(entries, e.key);
    assert i.Some?;
  }

  // ------------------------------------------------------------ singleflightKey

  function KindNumber(kind: Kind): nat {
    if kind == Diagnostic then 1 else 2
  }

  function SingleflightKey(key: Key): string {
    Decimal.Format(KindNumber(key.kind)) + ['\0'] + (key.host.chars + ['\0'] + (key.routeId.chars + ['\0']
      + Decimal.Format(key.generation) + ['\0'] + key.fingerprint.chars))
  }

  lemma {:induction false} SameFirst(a: string, x: string, b: string, y: string)
    requires '\0' !in a && '\0' !in b && a + ['\0'] + x == b + ['\0'] + y
    ensures a == b && x == y
  {
    var s, t := a + ['\0'] + x, b + ['\0'] + y;
    assert s[|a|] == '\0' && t[|b|] == '\0';
    assert forall k :: 0 <= k < |a| ==> s[k] == a[k] != '\0';
    assert forall k :: 0 <= k < |b| ==> t[k] == b[k] != '\0';
    assert |a| == |b|;
    assert a == s[..|a|] && b == t[..|b|] && x == s[|a| + 1..] && y == t[|b| + 1..];
  }

  lemma SameLast(x: string, a: string, y: string, b: string)
    requires '\0' !in a && '\0' !in b && x + ['\0'] + a == y + ['\0'] + b
    ensures a == b && x == y
  {
    LastIndexOf(x, '\0', a);
    LastIndexOf(y, '\0', b);
    var s, t := x + ['\0'] + a, y + ['\0'] + b;
    assert x == s[..|x|] && y == t[..|y|] && a == s[|x| + 1..] && b == t[|y| + 1..];
  }

  /** The host has been normalized and the fingerprint is hexadecimal: neither holds the
      separator. Nothing is asked of the route ID. */
  ghost predicate Separable(key: Key) {
    '\0' !in key.host.chars && '\0' !in key.fingerprint.chars
  }

  lemma NumberHasNoSeparator(n: nat)
    ensures '\0' !in Decimal.Format(n)
  {
  }

  /** Different keys are never issued a certificate together. */
  lemma SingleflightKeyIsInjective(a: Key, b: Key)
    requires Separable(a) && Separable(b) && SingleflightKey(a) == SingleflightKey(b)
    ensures a == b
  {
    var ka, kb := Decimal.Format(KindNumber(a.kind)), Decimal.Format(KindNumber(b.kind));
    var ga, gb := Decimal.Format(a.generation), Decimal.Format(b.generation);
    NumberHasNoSeparator(KindNumber(a.kind));
    NumberHasNoSeparator(KindNumber(b.kind));
    NumberHasNoSeparator(a.generation);
    NumberHasNoSeparator(b.generation);
    var ida, idb := a.routeId.chars + ['\0'] + ga, b.routeId.chars + ['\0'] + gb;
    var ra, rb := ida + ['\0'] + a.fingerprint.chars, idb + ['\0'] + b.fingerprint.chars;
    SameFirst(ka, a.host.chars + ['\0'] + ra, kb, b.host.chars + ['\0'] + rb);
    SameFirst(a.host.chars, ra, b.host.chars, rb);
    SameLast(ida, a.fingerprint.chars, idb, b.fingerprint.chars);
    SameLast(a.routeId.chars, ga, b.routeId.chars, gb);
    Decimal.FormatInjective(KindNumber(a.kind), KindNumber(b.kind));
    Decimal.FormatInjective(a.generation, b.generation);
  }

}
