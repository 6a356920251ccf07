/** The certificate cache of the HTTPS listener (internal/router/local_tls.go): a map
    onto the elements of a list kept in order of use, refined to that list alone. */
module TlsCache {
  import opened Common

  // ------------------------------------------------------------ the list of entries

  datatype Kind = Diagnostic | ForRoute

  datatype Key = Key(kind: Kind, host: Text, routeId: Text, generation: nat, fingerprint: Text)

  /** A certificate; notAfter: the end of its leaf's validity, if the leaf is known. */
  datatype Certificate = Certificate(serial: nat, notAfter: Option<Time>)

  datatype Entry = Entry(key: Key, cert: Certificate, expiresAt: Time)

  function Expiry(cert: Certificate, now: Time, ttl: Time): Time {
    if cert.notAfter.Some? && cert.notAfter.value < now + ttl then cert.notAfter.value else now + ttl
  }

  function IndexOf(entries: seq<Entry>, key: Key): (r: Option<nat>)
    ensures r.Some? ==> r.value < |entries| && entries[r.value].key == key
    ensures r.None? ==> forall i :: 0 <= i < |entries| ==> entries[i].key != key
  {
    if entries == [] then None
    else if entries[0].key == key then Some(0)
    else
      var rest := IndexOf(entries[1..], key);
      if rest.None? then None else Some(rest.value + 1)
  }

  function Front<T>(s: seq<T>, i: nat): seq<T>
    requires i < |s|
  {
    [s[i]] + Without(s, i)
  }

  function Get(entries: seq<Entry>, key: Key, now: Time): (seq<Entry>, Option<Certificate>) {
    var i := IndexOf(entries, key);
    if i.None? then (entries, None)
    else if now >= entries[i.value].expiresAt then (Without(entries, i.value), None)
    else (Front(entries, i.value), Some(entries[i.value].cert))
  }

  /** The entry in front, without an older one of the same key. */
  function Push(entries: seq<Entry>, e: Entry): seq<Entry> {
    var i := IndexOf(entries, e.key);
    [e] + if i.None? then entries else Without(entries, i.value)
  }

  function Put(entries: seq<Entry>, key: Key, cert: Option<Certificate>, now: Time, ttl: Time, capacity: nat)
    : seq<Entry>
  {
    if cert.None? then entries
    else Truncated(Push(entries, Entry(key, cert.value, Expiry(cert.value, now, ttl))), capacity)
  }

  function Truncated<T>(s: seq<T>, n: nat): seq<T> {
    if |s| > n then s[..n] else s
  }

  ghost predicate DistinctKeys(entries: seq<Entry>) {
    forall i, j :: 0 <= i < j < |entries| ==> entries[i].key != entries[j].key
  }

  // ------------------------------------------------------------ the cache

  class Node {
    var key: Key
    var cert: Certificate
    var expiresAt: Time

    constructor (key: Key, cert: Certificate, expiresAt: Time)
      ensures this.key == key && this.cert == cert && this.expiresAt == expiresAt
    {
      this.key, this.cert, this.expiresAt := key, cert, expiresAt;
    }
  }

  ghost function EntriesOf(nodes: seq<Node>): (s: seq<Entry>)
    reads nodes
    ensures |s| == |nodes|
  {
    seq(|nodes|, i requires 0 <= i < |nodes| reads nodes => Entry(nodes[i].key, nodes[i].cert, nodes[i].expiresAt))
  }

  /** The map and the list of elements are in bijection. */
  ghost predicate Linked(entries: map<Key, Node>, lru: seq<Node>)
    reads lru
  {
    && (forall i, j :: 0 <= i < j < |lru| ==> lru[i] != lru[j])
    && (forall i :: 0 <= i < |lru| ==> lru[i].key in entries && entries[lru[i].key] == lru[i])
    && (forall k :: k in entries ==> entries[k] in lru && entries[k].key == k)
  }

  lemma LinkedPosition(entries: map<Key, Node>, lru: seq<Node>, i: nat)
    requires Linked(entries, lru) && i < |lru|
    ensures IndexOf(EntriesOf(lru), lru[i].key) == Some(i)
  {
    assert EntriesOf(lru)[i].key == lru[i].key;
  }

  lemma LinkedMissing(entries: map<Key, Node>, lru: seq<Node>, key: Key)
    requires Linked(entries, lru) && key !in entries
    ensures IndexOf(EntriesOf(lru), key) == None
  {
    forall i | 0 <= i < |lru| ensures EntriesOf(lru)[i].key != key {
      assert lru[i].key in entries;
    }
  }

  ghost predicate AllDistinct(lru: seq<Node>) {
    forall i, j :: 0 <= i < j < |lru| ==> lru[i] != lru[j]
  }

  lemma CutElements(lru: seq<Node>, i: nat, n: Node)
    requires AllDistinct(lru) && i < |lru|
    ensures n in Without(lru, i) <==> n in lru && n != lru[i]
    ensures AllDistinct(Without(lru, i)) && AllDistinct(Front(lru, i))
  {
    var rest := Without(lru, i);
    assert forall j :: 0 <= j < |rest| ==> rest[j] == lru[if j < i then j else j + 1];
    if n in lru && n != lru[i] {
      var j :| 0 <= j < |lru| && lru[j] == n;
      assert rest[if j < i then j else j - 1] == n;
    }
  }

  lemma CutEntries(lru: seq<Node>, i: nat)
    requires i < |lru|
    ensures EntriesOf(Without(lru, i)) == Without(EntriesOf(lru), i)
    ensures EntriesOf(Front(lru, i)) == Front(EntriesOf(lru), i)
  {
  }

  lemma CutLinked(entries: map<Key, Node>, lru: seq<Node>, i: nat)
    requires Linked(entries, lru) && i < |lru|
    ensures Linked(entries - {lru[i].key}, Without(lru, i))
  {
    var rest := Without(lru, i);
    forall n | n in lru ensures n in rest <==> n != lru[i] {
      CutElements(lru, i, n);
    }
    forall j | 0 <= j < |rest| ensures rest[j] in lru && rest[j] != lru[i] {
      CutElements(lru, i, rest[j]);
    }
    CutElements(lru, i, lru[i]);
  }

  lemma FrontLinked(entries: map<Key, Node>, lru: seq<Node>, i: nat)
    requires Linked(entries, lru) && i < |lru|
    ensures Linked(entries, Front(lru, i))
  {
    var moved := Front(lru, i);
    forall n | n in lru ensures n in moved {
      CutElements(lru, i, n);
      assert moved[0] == lru[i];
      if n != lru[i] {
        var j :| 0 <= j < |Without(lru, i)| && Without(lru, i)[j] == n;
        assert moved[j + 1] == n;
      }
    }
    forall j | 0 <= j < |moved| ensures moved[j] in lru {
      if j > 0 {
        assert moved[j] == Without(lru, i)[j - 1];
        CutElements(lru, i, moved[j]);
      }
    }
    CutElements(lru, i, lru[i]);
  }

  lemma PushLinked(entries: map<Key, Node>, lru: seq<Node>, node: Node)
    requires Linked(entries, lru) && node.key !in entries
    ensures Linked(entries[node.key := node], [node] + lru)
            && EntriesOf([node] + lru) == EntriesOf([node]) + EntriesOf(lru)
  {
    var pushed := [node] + lru;
    forall j | 0 < j < |pushed| ensures pushed[j].key in entries && pushed[j] != node {
      assert pushed[j] == lru[j - 1];
    }
    forall k | k in entries ensures entries[k] in pushed {
      var j :| 0 <= j < |lru| && lru[j] == entries[k];
      assert pushed[j + 1] == lru[j];
    }
    assert pushed[0] == node;
  }

  class LocalTlsCache {
    var entries: map<Key, Node>
    var lru: seq<Node>
    const capacity: nat
    const ttl: Time

    ghost predicate Valid()
      reads this, lru
    {
      |lru| <= capacity && Linked(entries, lru)
    }

    /** The list of entries that the cache stands for. */
    ghost function Contents(): seq<Entry>
      reads this, lru
    {
      EntriesOf(lru)
    }

    constructor (capacity: nat, ttl: Time)
      ensures Valid() && Contents() == [] && this.capacity == capacity && this.ttl == ttl
    {
      entries, lru := map[], [];
      this.capacity, this.ttl := capacity, ttl;
    }

    method Find(node: Node) returns (i: nat)
      requires node in lru
      ensures i < |lru| && lru[i] == node
    {
      i := 0;
      while lru[i] != node
        invariant i < |lru| && node !in lru[..i]
        decreases |lru| - i
      {
        i := i + 1;
      }
    }

    method MoveToFront(node: Node) returns (i: nat)
      requires Linked(entries, lru) && node in lru
      modifies this`lru
      ensures i < |old(lru)| && old(lru)[i] == node && lru == Front(old(lru), i)
    {
      i := Find(node);
      lru := [node] + (lru[..i] + lru[i + 1..]);
    }

    method Remove(node: Node) returns (i: nat)
      requires Linked(entries, lru) && node in lru
      modifies this`lru, this`entries
      ensures i < |old(lru)| && old(lru)[i] == node && lru == Without(old(lru), i)
      ensures Linked(entries, lru) && EntriesOf(lru) == Without(EntriesOf(old(lru)), i)
    {
      i := Find(node);
      CutLinked(entries, lru, i);
      CutEntries(lru, i);
      entries := entries - {node.key};
      lru := lru[..i] + lru[i + 1..];
    }

    method Lookup(key: Key, now: Time) returns (cert: Option<Certificate>)
      requires Valid()
      modifies this`lru, this`entries
      ensures Valid() && (Contents(), cert) == Get(old(Contents()), key, now)
    {
      if key !in entries {
        LinkedMissing(entries, lru, key);
        return None;
      }
      var element := entries[key];
      if !(now < element.expiresAt) {
        var i := Remove(element);
        LinkedPosition(old(entries), old(lru), i);
        return None;
      }
      var i := MoveToFront(element);
      LinkedPosition(entries, old(lru), i);
      FrontLinked(entries, old(lru), i);
      CutEntries(old(lru), i);
      return Some(element.cert);
    }

    /** Update the element in front. */
    method Rewrite(element: Node, cert: Certificate, expiresAt: Time)
      requires Linked(entries, lru) && lru != [] && lru[0] == element
      modifies element`cert, element`expiresAt
      ensures Linked(entries, lru)
      ensures EntriesOf(lru) == [Entry(element.key, cert, expiresAt)] + old(EntriesOf(lru))[1..]
    {
      element.cert := cert;
      element.expiresAt := expiresAt;
    }

    /** A known key's element is updated in place. */
    method Refresh(key: Key, cert: Certificate, expiresAt: Time)
      requires Valid() && key in entries
      modifies this`lru, lru
      ensures Valid() && |lru| == |old(lru)| && Contents() == Push(old(Contents()), Entry(key, cert, expiresAt))
    {
      var element := entries[key];
      var i := MoveToFront(element);
      LinkedPosition(entries, old(lru), i);
      FrontLinked(entries, old(lru), i);
      CutEntries(old(lru), i);
      Rewrite(element, cert, expiresAt);
    }

    /** The elements at the back go while there are too many. */
    method Evict()
      requires Linked(entries, lru)
      modifies this`lru, this`entries
      ensures Valid() && Contents() == Truncated(old(Contents()), capacity)
    {
      ghost var all := Contents();
      while |lru| > capacity
        invariant |lru| <= |all| && (|lru| >= capacity || |lru| == |all|)
        invariant Linked(entries, lru) && Contents() == all[..|lru|]
        decreases |lru|
      {
        RemoveBack();
      }
    }

    method RemoveBack()
      requires Linked(entries, lru) && lru != []
      modifies this`lru, this`entries
      ensures Linked(entries, lru) && |lru| == |old(lru)| - 1 && Contents() == old(Contents())[..|lru|]
    {
      var back := lru[|lru| - 1];
      var i := Remove(back);
      assert i == |old(lru)| - 1;
    }

    method Store(key: Key, certificate: Option<Certificate>, now: Time)
      requires Valid()
      modifies this`lru, this`entries, lru
      ensures Valid() && Contents() == Put(old(Contents()), key, certificate, now, ttl, capacity)
    {
      if certificate.None? {
        return;
      }
      var expiresAt := now + ttl;
      if certificate.value.notAfter.Some? && certificate.value.notAfter.value < expiresAt {
        expiresAt := certificate.value.notAfter.value;
      }
      StoreEntry(Entry(key, certificate.value, expiresAt));
    }

    method StoreEntry(e: Entry)
      requires Valid()
      modifies this`lru, this`entries, lru
      ensures Valid() && Contents() == Truncated(Push(old(Contents()), e), capacity)
    {
      Place(e.key, e.cert, e.expiresAt);
      Evict();
    }

    method Place(key: Key, cert: Certificate, expiresAt: Time)
      requires Valid()
      modifies this`lru, this`entries, lru
      ensures Linked(entries, lru) && Contents() == Push(old(Contents()), Entry(key, cert, expiresAt))
    {
      if key in entries {
        Refresh(key, cert, expiresAt);
      } else {
        Insert(key, cert, expiresAt);
      }
    }

    method Insert(key: Key, cert: Certificate, expiresAt: Time)
      requires Linked(entries, lru) && key !in entries
      modifies this`lru, this`entries
      ensures Linked(entries, lru) && Contents() == Push(old(Contents()), Entry(key, cert, expiresAt))
    {
      LinkedMissing(entries, lru, key);
      var element := new Node(key, cert, expiresAt);
      PushLinked(entries, lru, element);
      lru := [element] + lru;
      entries := entries[key := element];
    }
  }
}
