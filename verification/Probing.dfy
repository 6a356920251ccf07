/**
 Names, packets and timing rules of mDNS probing (internal/lanmdns/probing.go,
 with canonicalHostname of codec.go and conflictingAResponse of responding.go).
 */
module Probing {
  import opened Common
  import Decimal

  // ---------------------------------------------------------------- messages

  type Byte = n: nat | n < 256

  /** An IPv4 address, most significant byte first. */
  type Address = a: seq<Byte> | |a| == 4 witness [0, 0, 0, 0]

  /** addr is None for an A record whose payload is not four bytes long. */
  datatype Data = A(addr: Option<Address>) | Nsec | Other

  datatype Record = Record(name: string, data: Data)

  datatype Question = Question(name: string, any: bool)

  datatype Message = Message(
    response: bool, questions: seq<Question>,
    answer: seq<Record>, authority: seq<Record>, extra: seq<Record>)
  {
    function Records(): seq<Record> {
      answer + authority + extra
    }
  }

  /** Some record other than an NSEC record is announced for the name. */
  ghost predicate ClaimsName(msg: Message, name: string) {
    msg.response &&
    exists i :: 0 <= i < |msg.Records()| &&
                EqualFold(msg.Records()[i].name, name) && !msg.Records()[i].data.Nsec?
  }

  method ResponseClaimsName(msg: Message, name: string) returns (claimed: bool)
    ensures claimed <==> ClaimsName(msg, name)
  {
    if !msg.response {
      return false;
    }
    var sections := [msg.answer, msg.authority, msg.extra];
    ghost var seen := 0;
    for s := 0 to 3
      invariant seen == if s == 0 then 0 else if s == 1 then |msg.answer|
                        else if s == 2 then |msg.answer| + |msg.authority| else |msg.Records()|
      invariant forall i :: 0 <= i < seen ==>
                  !EqualFold(msg.Records()[i].name, name) || msg.Records()[i].data.Nsec?
    {
      for k := 0 to |sections[s]|
        invariant forall i :: 0 <= i < seen + k ==>
                    !EqualFold(msg.Records()[i].name, name) || msg.Records()[i].data.Nsec?
      {
        var record := sections[s][k];
        assert record == msg.Records()[seen + k];
        if EqualFold(record.name, name) && !record.data.Nsec? {
          return true;
        }
      }
      seen := seen + |sections[s]|;
    }
    return false;
  }

  /** The message answers for the name with an address other than ours. */
  ghost predicate ConflictsWith(msg: Message, name: string, ours: Address) {
    msg.response &&
    exists i :: 0 <= i < |msg.Records()| && Contradicts(msg.Records()[i], name, ours)
  }

  predicate Contradicts(record: Record, name: string, ours: Address) {
    EqualFold(record.name, name) && record.data.A? && record.data.addr.Some? && record.data.addr.value != ours
  }

  method ConflictingAResponse(msg: Message, name: string, ours: Address) returns (conflict: bool)
    ensures conflict <==> ConflictsWith(msg, name, ours)
  {
    if !msg.response {
      return false;
    }
    var sections := [msg.answer, msg.authority, msg.extra];
    ghost var seen := 0;
    for s := 0 to 3
      invariant seen == if s == 0 then 0 else if s == 1 then |msg.answer|
                        else if s == 2 then |msg.answer| + |msg.authority| else |msg.Records()|
      invariant forall i :: 0 <= i < seen ==> !Contradicts(msg.Records()[i], name, ours)
    {
      for k := 0 to |sections[s]|
        invariant forall i :: 0 <= i < seen + k ==> !Contradicts(msg.Records()[i], name, ours)
      {
        assert sections[s][k] == msg.Records()[seen + k];
        if Contradicts(sections[s][k], name, ours) {
          return true;
        }
      }
      seen := seen + |sections[s]|;
    }
    return false;
  }

  lemma ConflictClaims(msg: Message, name: string, ours: Address)
    requires ConflictsWith(msg, name, ours)
    ensures ClaimsName(msg, name)
  {
    var i :| 0 <= i < |msg.Records()| && Contradicts(msg.Records()[i], name, ours);
    assert EqualFold(msg.Records()[i].name, name) && !msg.Records()[i].data.Nsec?;
  }

  ghost predicate Asks(msg: Message, name: string) {
    exists i :: 0 <= i < |msg.questions| && EqualFold(msg.questions[i].name, name) && msg.questions[i].any
  }

  /** The address in the first A record of that name, if it has one. */
  ghost function FirstAddress(records: seq<Record>, name: string): Option<Address> {
    if records == [] then None
    else if records[0].data.A? && EqualFold(records[0].name, name) then records[0].data.addr
    else FirstAddress(records[1..], name)
  }

  /** The address a rival probe for the name proposes. */
  ghost function Opponent(msg: Message, name: string): Option<Address> {
    if msg.response || !Asks(msg, name) then None else FirstAddress(msg.authority, name)
  }

  method ProbeOpponentIPv4(msg: Message, name: string) returns (r: Option<Address>)
    ensures r == Opponent(msg, name)
  {
    if msg.response {
      return None;
    }
    var asked := false;
    for i := 0 to |msg.questions|
      invariant asked <==> exists k :: 0 <= k < i && EqualFold(msg.questions[k].name, name) && msg.questions[k].any
    {
      if EqualFold(msg.questions[i].name, name) && msg.questions[i].any {
        asked := true;
        break;
      }
    }
    if !asked {
      return None;
    }
    for i := 0 to |msg.authority|
      invariant FirstAddress(msg.authority[i..], name) == FirstAddress(msg.authority, name)
    {
      var record := msg.authority[i];
      if record.data.A? && EqualFold(record.name, name) {
        return record.data.addr;
      }
    }
    return None;
  }

  /** bytes.Compare on two addresses. */
  function CompareFrom(ours: Address, theirs: Address, i: nat): (c: int)
    requires i <= 4
    ensures -1 <= c <= 1
    ensures c == 0 <==> ours[i..] == theirs[i..]
    decreases 4 - i
  {
    if i == 4 then 0
    else if ours[i] < theirs[i] then -1
    else if ours[i] > theirs[i] then 1
    else CompareFrom(ours, theirs, i + 1)
  }

  function CompareProbeIPv4(ours: Address, theirs: Address): int {
    CompareFrom(ours, theirs, 0)
  }

  function Number(a: Address): int {
    0x100_0000 * (a[0] as int) + 0x1_0000 * (a[1] as int) + 0x100 * (a[2] as int) + (a[3] as int)
  }

  /** The comparison orders addresses as 32-bit numbers. */
  lemma CompareIsNumeric(a: Address, b: Address)
    ensures CompareProbeIPv4(a, b) < 0 <==> Number(a) < Number(b)
    ensures CompareProbeIPv4(a, b) == 0 <==> a == b
  {
    assert a == [a[0], a[1], a[2], a[3]] && b == [b[0], b[1], b[2], b[3]];
    assert a[0..] == a && b[0..] == b;
    assert CompareFrom(a, b, 4) == 0;
    assert CompareFrom(a, b, 3) < 0 <==> a[3] < b[3];
    assert CompareFrom(a, b, 2) < 0 <==> a[2] < b[2] || (a[2] == b[2] && a[3] < b[3]);
  }

  /** Whoever is probing for the name with address ours must give it up. */
  ghost predicate Loses(ours: Address, msg: Message, name: string) {
    || ClaimsName(msg, name)
    || (Opponent(msg, name).Some? && Number(ours) < Number(Opponent(msg, name).value))
  }

  /** The probe of codec.go for a name and an address. */
  function ProbeFor(name: string, addr: Address): Message {
    Message(false, [Question(name, true)], [], [Record(name, A(Some(addr)))], [])
  }

  /** Simultaneous probes: of two hosts with different addresses exactly one
      yields (section 8.2 of RFC 6762); with equal addresses neither does. */
  lemma TieBreakHasOneLoser(a: Address, b: Address, name: string)
    ensures a != b ==> (Loses(a, ProbeFor(name, b), name) <==> !Loses(b, ProbeFor(name, a), name))
    ensures a == b ==> !Loses(a, ProbeFor(name, b), name)
  {
    forall x: Address ensures Opponent(ProbeFor(name, x), name) == Some(x) {
      assert ProbeFor(name, x).questions[0].any;
    }
    CompareIsNumeric(a, b);
    CompareIsNumeric(b, a);
  }

  /** Section 8.2 of RFC 6762: against a rival probe it is the lexicographically smaller
      address that yields, byte by byte. Only a packet that is no rival probe takes a name
      by answering for it. */
  lemma SmallerAddressYields(ours: Address, msg: Message, name: string)
    ensures Opponent(msg, name).Some? ==>
              var theirs := Opponent(msg, name).value;
              Loses(ours, msg, name) <==>
                exists k :: 0 <= k < 4 && ours[k] < theirs[k] && forall j :: 0 <= j < k ==> ours[j] == theirs[j]
    ensures Opponent(msg, name).None? ==> (Loses(ours, msg, name) <==> ClaimsName(msg, name))
  {
    if Opponent(msg, name).Some? {
      var theirs := Opponent(msg, name).value;
      if ours[0] == theirs[0] && ours[1] == theirs[1] && ours[2] == theirs[2] {
        assert Number(ours) < Number(theirs) <==> ours[3] < theirs[3];
      } else if ours[0] == theirs[0] && ours[1] == theirs[1] {
        assert Number(ours) < Number(theirs) <==> ours[2] < theirs[2];
      } else if ours[0] == theirs[0] {
        assert Number(ours) < Number(theirs) <==> ours[1] < theirs[1];
      } else {
        assert Number(ours) < Number(theirs) <==> ours[0] < theirs[0];
      }
    }
  }

  // ------------------------------------------------------------------- names

  datatype NameError = NotLocal | BadLabel | CannotSuffix

  const LOCAL := ".local."
  const MAX_LABEL := 63

  function Fqdn(s: string): string {
    if HasSuffix(s, ".") then s else s + "."
  }

  function CanonicalHostname(raw: string): Result<string, NameError> {
    var host := Lower(Fqdn(TrimSpace(raw)));
    if !HasSuffix(host, LOCAL) then Err(NotLocal)
    else
      var stem := TrimSuffix(host, LOCAL);
      if stem == "" || '.' in stem || |stem| > MAX_LABEL then Err(BadLabel) else Ok(host)
  }

  /** One label of 1 to 63 bytes, in lower case, without dots or a leading blank. */
  predicate IsLabel(l: string) {
    0 < |l| <= MAX_LABEL && '.' !in l && Lower(l) == l && !IsSpace(l[0])
  }

  predicate IsHostname(host: string) {
    HasSuffix(host, LOCAL) && IsLabel(TrimSuffix(host, LOCAL))
  }

  lemma TrimFirst(s: string)
    ensures TrimSpace(s) != "" ==> !IsSpace(TrimSpace(s)[0])
  {
    TrimRightPrefix(TrimLeft(s));
    TrimLeftFirst(s);
  }

  lemma {:induction false} TrimLeftFirst(s: string)
    ensures TrimLeft(s) != "" ==> !IsSpace(TrimLeft(s)[0])
  {
    if s != [] && IsSpace(s[0]) {
      TrimLeftFirst(s[1..]);
    }
  }

  lemma {:induction false} TrimRightPrefix(s: string)
    ensures TrimRight(s) <= s
  {
    if s != [] && IsSpace(s[|s| - 1]) {
      TrimRightPrefix(s[..|s| - 1]);
    }
  }

  /** What canonicalHostname accepts it turns into a canonical name. */
  lemma CanonicalIsHostname(raw: string)
    requires CanonicalHostname(raw).Ok?
    ensures IsHostname(CanonicalHostname(raw).value)
  {
    TrimFirst(raw);
    var t := TrimSpace(raw);
    var host := Lower(Fqdn(t));
    var stem := TrimSuffix(host, LOCAL);
    assert host == stem + LOCAL && host[0] == stem[0];
    assert |t| + 1 >= |host| >= |LOCAL|;
    assert host[0] == LowerChar(t[0]);
    LowerPrefix(Fqdn(t), |stem|);
  }

  lemma LowerPrefix(s: string, n: nat)
    requires n <= |s|
    ensures Lower(Lower(s)[..n]) == Lower(s)[..n]
  {
  }

  /** Canonical names are exactly the fixed points of canonicalHostname. */
  lemma CanonicalFixedPoints(host: string)
    ensures IsHostname(host) <==> CanonicalHostname(host) == Ok(host)
  {
    if CanonicalHostname(host) == Ok(host) {
      CanonicalIsHostname(host);
    }
    if IsHostname(host) {
      var stem := TrimSuffix(host, LOCAL);
      assert host == stem + LOCAL && host[0] == stem[0];
      EndsInDot(stem, host);
      assert TrimSpace(host) == host;
      assert Fqdn(host) == host;
      LowerConcat(stem, LOCAL);
      LowerLocal();
    }
  }

  lemma LowerLocal()
    ensures Lower(LOCAL) == LOCAL
  {
  }

  lemma EndsInDot(stem: string, host: string)
    requires host == stem + LOCAL
    ensures HasSuffix(host, ".") && host[|host| - 1] == '.'
  {
  }

  /** Go's int wraps around. */
  function WrapInt(n: int): int {
    if n > Decimal.MAX_INT then n - 2 * (Decimal.MAX_INT + 1) else n
  }

  /** The number of 2 or more that a label ends in after its last hyphen. */
  function TrailingNumber(stem: string): Option<int> {
    var dash := LastIndex(stem, '-');
    if dash.Some? && 0 < dash.value < |stem| - 1 then
      var parsed := Decimal.Parse(stem[dash.value + 1..]);
      if parsed.Some? && parsed.value >= 2 then parsed else None
    else None
  }

  function NextLabel(stem: string): Result<string, NameError> {
    var suffix := "-" + Decimal.Format(NextNumber(TrailingNumber(stem)));
    var cut := Shortened(Base(stem), suffix);
    if cut == "" then Err(CannotSuffix) else Ok(cut + suffix)
  }

  function NextConflictHostname(hostname: string): Result<string, NameError> {
    match CanonicalHostname(hostname)
    case Err(e) => Err(e)
    case Ok(host) =>
      match NextLabel(TrimSuffix(host, LOCAL))
      case Err(e) => Err(e)
      case Ok(stem) => Ok(stem + LOCAL)
  }

  /** How often the name has been suffixed: its trailing number, 1 without one. */
  function Rank(host: string): int {
    var n := TrailingNumber(TrimSuffix(host, LOCAL));
    if n.Some? then n.value else 1
  }

  lemma NumberedLabel(base: string, number: int)
    requires base != ""
    requires 2 <= number <= Decimal.MAX_INT || number == Decimal.MIN_INT
    ensures TrailingNumber(base + "-" + Decimal.Format(number))
         == if number == Decimal.MIN_INT then None else Some(number)
  {
    if number == Decimal.MIN_INT {
      var digits := Decimal.FormatNat(-number);
      var head := base + "-";
      assert base + "-" + Decimal.Format(number) == head + ['-'] + digits;
      LastIndexOf(head, '-', digits);
      Decimal.ValueFormat(-number);
      assert (head + ['-'] + digits)[|head| + 1..] == digits;
    } else {
      var digits := Decimal.Format(number);
      assert base + "-" + digits == base + ['-'] + digits;
      LastIndexOf(base, '-', digits);
      Decimal.ParseFormat(number);
      assert (base + ['-'] + digits)[|base| + 1..] == digits;
    }
  }

  function Base(stem: string): string {
    if TrailingNumber(stem).Some? then stem[..LastIndex(stem, '-').value] else stem
  }

  function NextNumber(trailing: Option<int>): int {
    if trailing.Some? then WrapInt(trailing.value + 1) else 2
  }

  /** As much of the base as leaves room for the suffix. */
  function Shortened(base: string, suffix: string): string {
    if |base| + |suffix| > MAX_LABEL && |suffix| <= MAX_LABEL then base[..MAX_LABEL - |suffix|] else base
  }

  lemma SuffixText(number: int)
    requires 2 <= number <= Decimal.MAX_INT || number == Decimal.MIN_INT
    ensures 2 <= |"-" + Decimal.Format(number)| <= 21
    ensures '.' !in "-" + Decimal.Format(number)
    ensures Lower("-" + Decimal.Format(number)) == "-" + Decimal.Format(number)
  {
    Decimal.FormatBound(if number < 0 then -number else number);
  }

  lemma PrefixOfLabel(stem: string, n: nat)
    requires IsLabel(stem) && 0 < n <= |stem|
    ensures IsLabel(stem[..n])
  {
    assert forall i :: 0 <= i < n ==> Lower(stem[..n])[i] == Lower(stem)[i];
  }

  lemma LabelConcat(head: string, tail: string)
    requires IsLabel(head) && |head| + |tail| <= MAX_LABEL && '.' !in tail && Lower(tail) == tail
    ensures IsLabel(head + tail)
  {
    LowerConcat(head, tail);
  }

  /** What is kept of a label leaves room for the suffix. */
  lemma CutOk(stem: string, suffix: string)
    requires IsLabel(stem) && 2 <= |suffix| <= 21
    ensures var cut := Shortened(Base(stem), suffix);
            IsLabel(cut) && |cut| + |suffix| <= MAX_LABEL
  {
    var cut := Shortened(Base(stem), suffix);
    assert cut == stem[..|cut|];
    PrefixOfLabel(stem, |cut|);
  }

  lemma NextLabelOk(stem: string)
    requires IsLabel(stem)
    ensures NextLabel(stem).Ok? && IsLabel(NextLabel(stem).value)
    ensures var n := TrailingNumber(stem);
            TrailingNumber(NextLabel(stem).value) ==
              if n.None? then Some(2) else if n.value < Decimal.MAX_INT then Some(n.value + 1) else None
  {
    var number := NextNumber(TrailingNumber(stem));
    NextNumberIs(TrailingNumber(stem));
    SuffixText(number);
    var suffix := "-" + Decimal.Format(number);
    var cut := Shortened(Base(stem), suffix);
    CutOk(stem, suffix);
    SuffixedLabel(cut, number);
    assert NextLabel(stem) == Ok(cut + suffix);
  }

  lemma NextNumberIs(n: Option<int>)
    requires n.Some? ==> 2 <= n.value <= Decimal.MAX_INT
    ensures 2 <= NextNumber(n) <= Decimal.MAX_INT || NextNumber(n) == Decimal.MIN_INT
    ensures (if NextNumber(n) == Decimal.MIN_INT then None else Some(NextNumber(n)))
            == if n.None? then Some(2) else if n.value < Decimal.MAX_INT then Some(n.value + 1) else None
  {
  }

  lemma SuffixedLabel(cut: string, number: int)
    requires IsLabel(cut) && |cut + ("-" + Decimal.Format(number))| <= MAX_LABEL
    requires 2 <= number <= Decimal.MAX_INT || number == Decimal.MIN_INT
    ensures var next := cut + ("-" + Decimal.Format(number));
            IsLabel(next) && TrailingNumber(next) == if number == Decimal.MIN_INT then None else Some(number)
  {
    var suffix := "-" + Decimal.Format(number);
    SuffixText(number);
    LabelConcat(cut, suffix);
    assert cut + "-" + Decimal.Format(number) == cut + suffix;
    NumberedLabel(cut, number);
  }

  /** What the number of a label stands behind: all of it if there is none. */
  predicate IsBaseOf(base: string, stem: string) {
    var n := TrailingNumber(stem);
    if n.None? then base == stem
    else
      && 0 < |base| < |stem| && stem[..|base|] == base && stem[|base|] == '-'
      && '-' !in stem[|base| + 1..] && Decimal.Parse(stem[|base| + 1..]) == n
  }

  lemma BaseIsBase(stem: string)
    ensures IsBaseOf(Base(stem), stem)
  {
  }

  lemma ShortenedFits(base: string, suffix: string)
    requires |suffix| <= MAX_LABEL
    ensures var head := Shortened(base, suffix);
            && |head| <= |base| && base[..|head|] == head
            && (|base| + |suffix| <= 63 ==> head == base) && (|base| + |suffix| > 63 ==> |head + suffix| == 63)
  {
  }

  /** The number that follows, with the wrap-around of a 64-bit int. */
  function NumberAfter(n: Option<int>): int {
    if n.None? then 2 else if n.value < Decimal.MAX_INT then n.value + 1 else Decimal.MIN_INT
  }

  /** The next label is the longest prefix of the base that leaves room, a hyphen and the
      next number. */
  lemma NextLabelExactly(stem: string) returns (base: string, head: string)
    requires IsLabel(stem)
    ensures IsBaseOf(base, stem) && |head| <= |base| && base[..|head|] == head
    ensures var suffix := "-" + Decimal.Format(NumberAfter(TrailingNumber(stem)));
            && NextLabel(stem) == Ok(head + suffix)
            && |head + suffix| <= 63 && (head == base || |head + suffix| == 63)
  {
    var n := TrailingNumber(stem);
    NextNumberIs(n);
    var number := NextNumber(n);
    SuffixText(number);
    var suffix := "-" + Decimal.Format(number);
    base, head := Base(stem), Shortened(Base(stem), suffix);
    BaseIsBase(stem);
    ShortenedFits(base, suffix);
    CutOk(stem, suffix);
  }

  /** Every canonical name has a next name: it is canonical (one label of at
      most 63 bytes), so the "cannot be suffixed" error is unreachable. Its
      trailing number is one more, unless that would overflow a 64-bit int. */
  lemma NextConflictHostnameAdvances(host: string)
    requires IsHostname(host)
    ensures NextConflictHostname(host).Ok?
    ensures var next := NextConflictHostname(host).value;
            IsHostname(next) && Rank(next) == if Rank(host) < Decimal.MAX_INT then Rank(host) + 1 else 1
  {
    CanonicalFixedPoints(host);
    var stem := TrimSuffix(host, LOCAL);
    NextLabelOk(stem);
    SuffixOfConcat(NextLabel(stem).value, LOCAL);
  }

  /** The name after k conflicts in a row. */
  function AfterConflicts(host: string, k: nat): (r: string)
    requires IsHostname(host)
    ensures IsHostname(r)
  {
    if k == 0 then host
    else
      var before := AfterConflicts(host, k - 1);
      NextConflictHostnameAdvances(before);
      NextConflictHostname(before).value
  }

  lemma {:induction false} RankAfterConflicts(host: string, k: nat)
    requires IsHostname(host) && Rank(host) + k <= Decimal.MAX_INT
    ensures Rank(AfterConflicts(host, k)) == Rank(host) + k
  {
    if k > 0 {
      RankAfterConflicts(host, k - 1);
      NextConflictHostnameAdvances(AfterConflicts(host, k - 1));
    }
  }

  /** A name is never tried twice, the starting one included. */
  lemma ConflictNamesNeverRepeat(host: string, i: nat, j: nat)
    requires IsHostname(host) && i < j && Rank(host) + j <= Decimal.MAX_INT
    ensures AfterConflicts(host, i) != AfterConflicts(host, j)
  {
    RankAfterConflicts(host, i);
    RankAfterConflicts(host, j);
  }

  lemma Regrouped(a: string, b: string, c: string)
    ensures a + b + c == a + (b + c)
  {
  }

  /** The overflow can be asked for: any short label can carry the last suffix. */
  lemma LastSuffixExists(base: string)
    requires IsLabel(base) && |base| <= 40
    ensures var host := (base + "-" + Decimal.Format(Decimal.MAX_INT)) + LOCAL;
            IsHostname(host) && Rank(host) == Decimal.MAX_INT
  {
    var suffix := "-" + Decimal.Format(Decimal.MAX_INT);
    SuffixText(Decimal.MAX_INT);
    Decimal.FormatBound(Decimal.MAX_INT);
    NumberedLabel(base, Decimal.MAX_INT);
    LabelConcat(base, suffix);
    Regrouped(base, "-", Decimal.Format(Decimal.MAX_INT));
    SuffixOfConcat(base + suffix, LOCAL);
  }

  // ------------------------------------------------------------------- pacing

  const CONFLICT_WINDOW := 10 * SECOND
  const FLOOD_BACKOFF := 5 * SECOND
  const PROBING_LIMIT := MINUTE
  const FLOOD_COUNT := 15

  /** How many of the instants lie in the closed interval. */
  ghost function CountWithin(times: seq<Time>, lo: Time, hi: Time): nat {
    if times == [] then 0
    else
      CountWithin(times[..|times| - 1], lo, hi) + (if lo <= times[|times| - 1] <= hi then 1 else 0)
  }

  /** The positions of the instants in the closed interval. */
  ghost function Within(times: seq<Time>, lo: Time, hi: Time): set<nat> {
    set i: nat | i < |times| && lo <= times[i] <= hi
  }

  lemma {:induction false} CountIsSize(times: seq<Time>, lo: Time, hi: Time)
    ensures CountWithin(times, lo, hi) == |Within(times, lo, hi)|
  {
    if times == [] {
      assert Within(times, lo, hi) == {};
    } else {
      var front, n := times[..|times| - 1], |times| - 1;
      CountIsSize(front, lo, hi);
      assert Within(times, lo, hi) == Within(front, lo, hi) + if lo <= times[n] <= hi then {n} else {};
    }
  }

  /** Section 8.1 of RFC 6762: fifteen conflicts within any ten seconds make a host wait at
      least five seconds before each further attempt. */
  method ConflictBackoff(now: Time, conflicts: seq<Time>) returns (backoff: Time)
    ensures backoff == Backoff(now, conflicts)
    ensures backoff == if |Within(conflicts, now - 10 * SECOND, now)| >= 15 then 5 * SECOND else 0
  {
    CountIsSize(conflicts, now - 10 * SECOND, now);
    var cutoff := now - CONFLICT_WINDOW;
    var count := 0;
    for i := 0 to |conflicts|
      invariant count == CountWithin(conflicts[..i], cutoff, now)
    {
      assert conflicts[..i + 1][..i] == conflicts[..i];
      if cutoff <= conflicts[i] <= now {
        count := count + 1;
      }
    }
    assert conflicts[..|conflicts|] == conflicts;
    return if count >= FLOOD_COUNT then FLOOD_BACKOFF else 0;
  }

  ghost function Backoff(now: Time, conflicts: seq<Time>): Time {
    if CountWithin(conflicts, now - CONFLICT_WINDOW, now) >= FLOOD_COUNT then FLOOD_BACKOFF else 0
  }

  ghost predicate Sorted(times: seq<Time>) {
    forall i, j :: 0 <= i < j < |times| ==> times[i] <= times[j]
  }

  /** No conflict comes sooner after the previous one than that one's backoff. */
  ghost predicate Paced(times: seq<Time>) {
    forall i :: 0 < i < |times| ==> times[i] >= times[i - 1] + Backoff(times[i - 1], times[..i])
  }

  lemma {:induction false} PacedIsSorted(times: seq<Time>, i: nat, j: nat)
    requires Paced(times) && i <= j < |times|
    ensures times[i] <= times[j]
    decreases j
  {
    if i < j {
      PacedIsSorted(times, i, j - 1);
    }
  }

  lemma {:induction false} CountLastOnes(times: seq<Time>, lo: Time, hi: Time, n: nat)
    requires n <= |times| && forall i :: |times| - n <= i < |times| ==> lo <= times[i] <= hi
    ensures CountWithin(times, lo, hi) >= n
  {
    if n > 0 {
      CountLastOnes(times[..|times| - 1], lo, hi, n - 1);
    }
  }

  /** In a sorted list, n instants within an interval include n neighbours. */
  lemma {:induction false} CountedAreNeighbours(times: seq<Time>, lo: Time, hi: Time, n: nat) returns (b: nat)
    requires Sorted(times) && 0 < n <= CountWithin(times, lo, hi)
    ensures n <= b <= |times| && forall i :: b - n <= i < b ==> lo <= times[i] <= hi
  {
    var front := times[..|times| - 1];
    if !(lo <= times[|times| - 1] <= hi) {
      b := CountedAreNeighbours(front, lo, hi, n);
      assert forall i :: b - n <= i < b ==> times[i] == front[i];
    } else {
      b := |times|;
      if n > 1 {
        var c := CountedAreNeighbours(front, lo, hi, n - 1);
        assert times[c - (n - 1)] == front[c - (n - 1)];
      }
    }
  }

  lemma BacksOffAfterFlood(times: seq<Time>, t: Time, k: nat)
    requires Paced(times) && Sorted(times) && FLOOD_COUNT - 1 <= k < |times| - 1
    requires t <= times[k - (FLOOD_COUNT - 1)] && times[k] <= t + CONFLICT_WINDOW
    ensures times[k + 1] >= times[k] + FLOOD_BACKOFF
  {
    CountLastOnes(times[..k + 1], times[k] - CONFLICT_WINDOW, times[k], FLOOD_COUNT);
  }

  /** Conflict flooding is bounded (section 8.1 of RFC 6762): paced conflicts
      never put more than seventeen into a closed ten-second window. */
  lemma FloodBound(times: seq<Time>, t: Time)
    requires Paced(times)
    ensures CountWithin(times, t, t + 10 * SECOND) <= 17
  {
    forall i, j | 0 <= i < j < |times| ensures times[i] <= times[j] {
      PacedIsSorted(times, i, j);
    }
    if CountWithin(times, t, t + CONFLICT_WINDOW) >= 18 {
      var b := CountedAreNeighbours(times, t, t + CONFLICT_WINDOW, 18);
      BacksOffAfterFlood(times, t, b - 4);
      BacksOffAfterFlood(times, t, b - 3);
      BacksOffAfterFlood(times, t, b - 2);
      assert false;
    }
  }

  /** Seventeen is reached: fifteen conflicts at one instant, then one every five seconds. */
  function Burst(n: nat): seq<Time> {
    seq(n, i => if i < FLOOD_COUNT then 0 else (i - FLOOD_COUNT + 1) * FLOOD_BACKOFF)
  }

  lemma FloodBoundIsTight()
    ensures Paced(Burst(17)) && CountWithin(Burst(17), 0, 10 * SECOND) == 17
  {
    var times := Burst(17);
    forall i | 0 < i < 17 ensures times[i] >= times[i - 1] + Backoff(times[i - 1], times[..i]) {
      if i < FLOOD_COUNT {
        CountAtMost(times[..i], -CONFLICT_WINDOW, 0);
      }
    }
    CountLastOnes(times, 0, CONFLICT_WINDOW, 17);
    CountAtMost(times, 0, CONFLICT_WINDOW);
  }

  lemma {:induction false} CountAtMost(times: seq<Time>, lo: Time, hi: Time)
    ensures CountWithin(times, lo, hi) <= |times|
  {
    if times != [] {
      CountAtMost(times[..|times| - 1], lo, hi);
    }
  }
}
