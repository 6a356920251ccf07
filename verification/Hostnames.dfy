/** Hostname labels and their allocation (internal/project/project.go). */
module Hostnames {
  import opened Common
  import Decimal

  const MAX_LABEL := 63
  const LOCALHOST := ".localhost"
  const MAX_ATTEMPTS := 100

  // ------------------------------------------------------------ normalization

  predicate IsSeparator(c: char) {
    c == ' ' || c == '_' || c == '.' || c == '-'
  }

  /** What is written so far, and the next character of the name. */
  function Emit(out: string, c: char): string {
    if IsSeparator(c) then if out != "" && out[|out| - 1] == '-' then out else out + "-"
    else if IsLdh(c) then out + [c]
    else out
  }

  function Squeeze(name: string): string {
    if name == "" then "" else Emit(Squeeze(name[..|name| - 1]), name[|name| - 1])
  }

  function TrimHyphensLeft(s: string): string {
    if s != "" && s[0] == '-' then TrimHyphensLeft(s[1..]) else s
  }

  function TrimHyphensRight(s: string): string {
    if s != "" && s[|s| - 1] == '-' then TrimHyphensRight(s[..|s| - 1]) else s
  }

  function Shorten(s: string, limit: nat): string {
    if |s| > limit then TrimHyphensRight(s[..limit]) else s
  }

  function Normalized(name: string): string {
    Shorten(TrimHyphensRight(TrimHyphensLeft(Squeeze(Lower(name)))), MAX_LABEL)
  }

  /** NormalizeHostnameName. */
  function NormalizeHostnameName(name: string): string {
    if Normalized(name) == "" then "app" else Normalized(name)
  }

  /** normalizeHostnameName, writing one character at a time. */
  method Normalize(name: string) returns (r: string)
    ensures r == Normalized(name)
  {
    var lower := Lower(name);
    var out := "";
    var lastHyphen := false;
    for i := 0 to |lower|
      invariant out == Squeeze(lower[..i])
      invariant lastHyphen <==> out != "" && out[|out| - 1] == '-'
    {
      var c := lower[i];
      assert lower[..i + 1][..i] == lower[..i];
      if c == ' ' || c == '_' || c == '.' {
        if !lastHyphen {
          out := out + "-";
          lastHyphen := true;
        }
      } else if IsLdh(c) {
        if c == '-' {
          if lastHyphen {
            continue;
          }
          lastHyphen := true;
        } else {
          lastHyphen := false;
        }
        out := out + [c];
      }
    }
    assert lower[..|lower|] == lower;
    r := TrimHyphensRight(TrimHyphensLeft(out));
    if |r| > MAX_LABEL {
      r := TrimHyphensRight(r[..MAX_LABEL]);
    }
  }

  /** Letters, digits and single hyphens. */
  ghost predicate IsTidy(s: string) {
    && (forall i :: 0 <= i < |s| ==> IsLdh(s[i]))
    && (forall i :: 0 < i < |s| ==> s[i - 1] != '-' || s[i] != '-')
  }

  /** One label as section 2.3.4 of RFC 1035 and the LDH rule allow it. */
  ghost predicate IsLdhLabel(s: string) {
    0 < |s| <= MAX_LABEL && (forall i :: 0 <= i < |s| ==> IsLdh(s[i])) && s[0] != '-' && s[|s| - 1] != '-'
  }

  lemma {:induction false} SqueezeIsTidy(name: string)
    ensures IsTidy(Squeeze(name))
  {
    if name != "" {
      SqueezeIsTidy(name[..|name| - 1]);
    }
  }

  lemma {:induction false} TidyIsSqueezed(s: string)
    requires IsTidy(s)
    ensures Squeeze(s) == s
  {
    if s != "" {
      var front := s[..|s| - 1];
      TidyIsSqueezed(front);
      assert s == front + [s[|s| - 1]];
      assert front != "" ==> front[|front| - 1] == s[|s| - 2];
    }
  }

  lemma {:induction false} TrimLeftKeeps(s: string)
    requires IsTidy(s)
    ensures var t := TrimHyphensLeft(s);
            IsTidy(t) && |t| <= |s| && (t != "" ==> t[0] != '-' && t[|t| - 1] == s[|s| - 1])
  {
    if s != "" && s[0] == '-' {
      TrimLeftKeeps(s[1..]);
    }
  }

  lemma {:induction false} TrimRightKeeps(s: string)
    ensures var t := TrimHyphensRight(s);
            t <= s && (t != "" ==> t[|t| - 1] != '-')
    ensures s != "" && s[0] != '-' ==> TrimHyphensRight(s) != ""
  {
    if s != "" && s[|s| - 1] == '-' {
      TrimRightKeeps(s[..|s| - 1]);
    }
  }

  lemma TidyPrefix(t: string, s: string)
    requires t <= s && IsTidy(s)
    ensures IsTidy(t)
  {
  }

  lemma NormalizedIsTidy(name: string)
    ensures var r := Normalized(name);
            IsTidy(r) && (r == "" || IsLdhLabel(r))
  {
    var squeezed := Squeeze(Lower(name));
    SqueezeIsTidy(Lower(name));
    TrimLeftKeeps(squeezed);
    var left := TrimHyphensLeft(squeezed);
    TrimRightKeeps(left);
    var both := TrimHyphensRight(left);
    TidyPrefix(both, left);
    if |both| > MAX_LABEL {
      TrimRightKeeps(both[..MAX_LABEL]);
      TidyPrefix(Normalized(name), both);
    }
  }

  /** Whatever the name, the result is one LDH label of at most 63 bytes. */
  lemma NormalizeGivesLabel(name: string)
    ensures IsLdhLabel(NormalizeHostnameName(name)) && IsTidy(NormalizeHostnameName(name))
  {
    NormalizedIsTidy(name);
  }

  lemma TidyLabelIsFixed(s: string)
    requires IsTidy(s) && IsLdhLabel(s)
    ensures NormalizeHostnameName(s) == s
  {
    assert forall i :: 0 <= i < |s| ==> IsLdh(s[i]);
    assert Lower(s) == s;
    TidyIsSqueezed(s);
  }

  /** Normalizing twice is normalizing once. */
  lemma NormalizeIsIdempotent(name: string)
    ensures NormalizeHostnameName(NormalizeHostnameName(name)) == NormalizeHostnameName(name)
  {
    NormalizeGivesLabel(name);
    TidyLabelIsFixed(NormalizeHostnameName(name));
  }

  // ------------------------------------------------------------ what normalization keeps

  predicate IsLetter(c: char) {
    'a' <= c <= 'z' || '0' <= c <= '9'
  }

  /** The letters and digits of a name. */
  function Letters(s: string): string {
    if s == "" then ""
    else Letters(s[..|s| - 1]) + if IsLetter(s[|s| - 1]) then [s[|s| - 1]] else ""
  }

  /** A space, underscore, dot or hyphen comes after the last letter or digit. */
  ghost predicate EndsSeparated(s: string) {
    exists i :: 0 <= i < |s| && (s[i] == ' ' || s[i] == '_' || s[i] == '.' || s[i] == '-')
                && forall j :: i < j < |s| ==> !IsLetter(s[j])
  }

  lemma LettersOfOneMore(s: string, c: char)
    ensures Letters(s + [c]) == Letters(s) + if IsLetter(c) then [c] else ""
  {
    assert (s + [c])[..|s|] == s;
  }

  lemma SeparatedByOneMore(s: string, c: char)
    ensures EndsSeparated(s + [c]) <==>
              c == ' ' || c == '_' || c == '.' || c == '-' || (!IsLetter(c) && EndsSeparated(s))
  {
    var more := s + [c];
    assert forall i :: 0 <= i < |s| ==> more[i] == s[i];
    if c == ' ' || c == '_' || c == '.' || c == '-' {
      assert more[|s|] == c;
    }
    if !IsLetter(c) && EndsSeparated(s) {
      var i :| 0 <= i < |s| && (s[i] == ' ' || s[i] == '_' || s[i] == '.' || s[i] == '-')
               && forall j :: i < j < |s| ==> !IsLetter(s[j]);
      assert more[i] == s[i];
    }
  }

  lemma EmitKeepsLetters(out: string, c: char)
    ensures Letters(Emit(out, c)) == Letters(out) + if IsLetter(c) then [c] else ""
  {
    LettersOfOneMore(out, c);
    LettersOfOneMore(out, '-');
  }

  lemma EmitSeparates(out: string, c: char)
    ensures Emit(out, c) != "" && Emit(out, c)[|Emit(out, c)| - 1] == '-' <==>
              || c == ' ' || c == '_' || c == '.' || c == '-'
              || (!IsLetter(c) && out != "" && out[|out| - 1] == '-')
  {
  }

  /** Writing a name keeps its letters and digits in order, puts one hyphen between two of
      them just when a separator stood there, and drops everything else. */
  lemma {:induction false} SqueezeExactly(s: string)
    ensures Letters(Squeeze(s)) == Letters(s)
    ensures Squeeze(s) != "" && Squeeze(s)[|Squeeze(s)| - 1] == '-' <==> EndsSeparated(s)
    ensures s != "" && IsLetter(s[|s| - 1]) ==> Squeeze(s) == Squeeze(s[..|s| - 1]) + [s[|s| - 1]]
  {
    if s != "" {
      var front, c := s[..|s| - 1], s[|s| - 1];
      SqueezeExactly(front);
      assert s == front + [c];
      SeparatedByOneMore(front, c);
      LettersOfOneMore(front, c);
      EmitKeepsLetters(Squeeze(front), c);
      EmitSeparates(Squeeze(front), c);
    }
  }

  lemma {:induction false} TrimLeftExactly(s: string) returns (i: nat)
    ensures i <= |s| && TrimHyphensLeft(s) == s[i..] && forall k :: 0 <= k < i ==> s[k] == '-'
    ensures i < |s| ==> s[i] != '-'
  {
    if s != "" && s[0] == '-' {
      i := TrimLeftExactly(s[1..]);
      i := i + 1;
    } else {
      i := 0;
    }
  }

  lemma {:induction false} TrimRightExactly(s: string) returns (j: nat)
    ensures j <= |s| && TrimHyphensRight(s) == s[..j] && forall k :: j <= k < |s| ==> s[k] == '-'
    ensures j > 0 ==> s[j - 1] != '-'
  {
    if s != "" && s[|s| - 1] == '-' {
      j := TrimRightExactly(s[..|s| - 1]);
    } else {
      j := |s|;
    }
  }

  /** The normalized name is what is written, without the hyphens at its ends, and without
      what exceeds 63 bytes and the hyphens before that. */
  lemma NormalizedExactly(name: string) returns (i: nat, j: nat, m: nat)
    ensures var s := Squeeze(Lower(name));
            && i <= m <= j <= |s| && Normalized(name) == s[i..m]
            && (forall k :: 0 <= k < i || j <= k < |s| ==> s[k] == '-') && (i < j ==> s[i] != '-' && s[j - 1] != '-')
            && (if j - i <= 63 then m == j
                else m <= i + 63 && (m > i ==> s[m - 1] != '-') && forall k :: m <= k < i + 63 ==> s[k] == '-')
  {
    var s := Squeeze(Lower(name));
    i := TrimLeftExactly(s);
    var n := TrimRightExactly(s[i..]);
    j := i + n;
    SliceOfSlice(s, i, n);
    m := j;
    if n > MAX_LABEL {
      var l := TrimRightExactly(s[i..j][..MAX_LABEL]);
      m := i + l;
      SliceOfSlice(s, i, MAX_LABEL);
      SliceOfSlice(s, i, l);
      assert s[i..j][..MAX_LABEL] == s[i..][..MAX_LABEL];
      assert s[i..][..MAX_LABEL][..l] == s[i..][..l];
    }
  }

  lemma SliceOfSlice(s: string, i: nat, n: nat)
    requires i + n <= |s|
    ensures s[i..][..n] == s[i..i + n]
  {
  }

  // ------------------------------------------------------------ candidates

  /** The file system and hashing as far as allocation depends on them: whether two
      paths are the same directory, the name of a directory's parent, and the eight
      hex digits of a hash. */
  datatype Paths = Paths(samePath: (string, string) -> bool, parentName: string -> string, shortHash: string -> string)

  predicate IsHash(s: string) {
    |s| == 8 && forall i :: 0 <= i < 8 ==> '0' <= s[i] <= '9' || 'a' <= s[i] <= 'f'
  }

  ghost predicate HashesWell(paths: Paths) {
    forall s :: IsHash(paths.shortHash(s))
  }

  function WithSuffix(name: string, suffix: string): string {
    var short := if |name| + |suffix| > MAX_LABEL && |suffix| <= MAX_LABEL
                 then TrimHyphensRight(name[..MAX_LABEL - |suffix|]) else name;
    (if short == "" then "app" else short) + suffix
  }

  function ConflictHost(parent: string, base: string, suffix: nat): string {
    var name := NormalizeHostnameName(parent + "-" + base);
    if suffix > 0 then WithSuffix(name, "-" + Decimal.Format(suffix)) + LOCALHOST
    else name + LOCALHOST
  }

  function FallbackConflictHost(paths: Paths, parent: string, base: string, cwd: string, attempt: nat): string {
    var text := parent + "|" + base + "|" + cwd + "|" + Decimal.Format(attempt);
    WithSuffix(NormalizeHostnameName(parent + "-" + base), "-" + paths.shortHash(text)) + LOCALHOST
  }

  function ParentLabel(paths: Paths, cwd: string): string {
    NormalizeHostnameName(paths.parentName(cwd))
  }

  const LAST_GUARDED := 2 * MAX_ATTEMPTS + 1

  /** The n-th host that is considered: the desired one, the parent-qualified one,
      that one numbered from 2 to 100, and then the hashed ones. */
  function Candidate(paths: Paths, desired: string, cwd: string, n: nat): string {
    var base := TrimSuffix(desired, LOCALHOST);
    var parent := ParentLabel(paths, cwd);
    if n == 0 then desired
    else if n == 1 then ConflictHost(parent, base, 0)
    else if n <= MAX_ATTEMPTS then ConflictHost(parent, base, n)
    else FallbackConflictHost(paths, parent, base, cwd, n - MAX_ATTEMPTS - 1)
  }

  function Candidates(paths: Paths, desired: string, cwd: string): (c: seq<string>)
    ensures |c| == LAST_GUARDED + 2
  {
    seq(LAST_GUARDED + 2, n requires 0 <= n => Candidate(paths, desired, cwd, n))
  }

  /** The first host from the n-th on whose name is not busy; the last one regardless. */
  function FirstFree(hosts: seq<string>, busy: set<string>, n: nat): string
    requires n < |hosts|
    decreases |hosts| - n
  {
    if n + 1 == |hosts| || Lower(hosts[n]) !in busy then hosts[n] else FirstFree(hosts, busy, n + 1)
  }

  function Resolve(paths: Paths, busy: set<string>, desired: string, cwd: string): string {
    FirstFree(Candidates(paths, desired, cwd), busy, 0)
  }

  // ------------------------------------------------------------ which hosts are tried

  lemma TidyJoin(a: string, b: string)
    requires IsTidy(a) && IsLdhLabel(a) && IsTidy(b) && IsLdhLabel(b) && |a| + 1 + |b| <= 63
    ensures NormalizeHostnameName(a + "-" + b) == a + "-" + b
  {
    var s := a + "-" + b;
    forall k | 0 <= k < |s| ensures IsLdh(s[k]) && (k > 0 ==> s[k - 1] != '-' || s[k] != '-') {
      if k < |a| {
        assert s[k] == a[k] && (k > 0 ==> s[k - 1] == a[k - 1]);
      } else if k == |a| {
        assert s[k] == '-' && s[k - 1] == a[|a| - 1];
      } else {
        assert s[k] == b[k - |a| - 1] && (k > |a| + 1 ==> s[k - 1] == b[k - |a| - 2]);
      }
    }
    TidyLabelIsFixed(s);
  }

  /** First the desired host is tried, then the same under the name of the parent
      directory, and then that numbered from 2 to 100. */
  lemma TriedInOrder(paths: Paths, name: string, cwd: string, n: nat)
    requires IsTidy(name) && IsLdhLabel(name) && n <= 100
    requires |ParentLabel(paths, cwd)| + 1 + |name| + (if n > 1 then 1 + |Decimal.Format(n)| else 0) <= 63
    ensures var tried := Candidates(paths, name + ".localhost", cwd);
            var parent := NormalizeHostnameName(paths.parentName(cwd));
            tried[n] == if n == 0 then name + ".localhost"
                        else if n == 1 then parent + "-" + name + ".localhost"
                        else parent + "-" + name + ("-" + Decimal.Format(n)) + ".localhost"
  {
    var parent := ParentLabel(paths, cwd);
    NormalizeGivesLabel(paths.parentName(cwd));
    TidyJoin(parent, name);
    assert TrimSuffix(name + LOCALHOST, LOCALHOST) == name by {
      SuffixOfConcat(name, LOCALHOST);
    }
  }

  /** A name too long for its number is cut to the longest prefix that leaves room, without
      hyphens at its end. */
  lemma WithSuffixExactly(name: string, suffix: string) returns (j: nat)
    requires IsLdhLabel(name) && 0 < |suffix| < 63
    ensures 0 < j <= |name| && WithSuffix(name, suffix) == name[..j] + suffix
    ensures if |name| + |suffix| <= 63 then j == |name|
            else j <= 63 - |suffix| && name[j - 1] != '-' && forall k :: j <= k < 63 - |suffix| ==> name[k] == '-'
  {
    if |name| + |suffix| > MAX_LABEL {
      var short := name[..MAX_LABEL - |suffix|];
      assert short[0] == name[0];
      j := TrimRightExactly(short);
      assert short[..j] == name[..j];
    } else {
      j := |name|;
      assert name[..j] == name;
    }
  }

  // ------------------------------------------------------------ invented hosts are labels

  lemma SuffixedIsLabel(name: string, suffix: string)
    requires IsLdhLabel(name) && 1 < |suffix| <= 21
    requires forall i :: 0 <= i < |suffix| ==> IsLdh(suffix[i])
    requires suffix[|suffix| - 1] != '-'
    ensures IsLdhLabel(WithSuffix(name, suffix))
    ensures exists short :: short != "" && WithSuffix(name, suffix) == short + suffix
  {
    if |name| + |suffix| > MAX_LABEL {
      TrimRightKeeps(name[..MAX_LABEL - |suffix|]);
    }
    var short := if |name| + |suffix| > MAX_LABEL then TrimHyphensRight(name[..MAX_LABEL - |suffix|]) else name;
    assert short != "" && short <= name;
    assert WithSuffix(name, suffix) == short + suffix;
    var r := short + suffix;
    assert r[|r| - 1] == suffix[|suffix| - 1];
    assert forall i :: 0 <= i < |r| ==> IsLdh(r[i]);
  }

  lemma NumberIsLdh(n: nat)
    requires n <= Decimal.MAX_INT
    ensures var s := "-" + Decimal.Format(n);
            2 <= |s| <= 20 && (forall i :: 0 <= i < |s| ==> IsLdh(s[i])) && s[|s| - 1] != '-'
  {
    Decimal.FormatBound(n);
  }

  ghost predicate IsLabelHost(host: string) {
    exists name :: host == name + LOCALHOST && IsLdhLabel(name)
  }

  /** Every host that allocation invents is one LDH label before ".localhost". */
  lemma InventedHostsAreLabels(paths: Paths, desired: string, cwd: string, n: nat)
    requires HashesWell(paths) && 0 < n <= LAST_GUARDED + 1
    ensures IsLabelHost(Candidate(paths, desired, cwd, n))
  {
    var base := TrimSuffix(desired, LOCALHOST);
    var parent := ParentLabel(paths, cwd);
    var name := NormalizeHostnameName(parent + "-" + base);
    NormalizeGivesLabel(parent + "-" + base);
    if n == 1 {
      assert Candidate(paths, desired, cwd, n) == name + LOCALHOST;
    } else if n <= MAX_ATTEMPTS {
      NumberIsLdh(n);
      var suffix := "-" + Decimal.Format(n);
      SuffixedIsLabel(name, suffix);
      assert Candidate(paths, desired, cwd, n) == WithSuffix(name, suffix) + LOCALHOST;
    } else {
      var text := parent + "|" + base + "|" + cwd + "|" + Decimal.Format(n - MAX_ATTEMPTS - 1);
      assert IsHash(paths.shortHash(text));
      var suffix := "-" + paths.shortHash(text);
      SuffixedIsLabel(name, suffix);
      assert Candidate(paths, desired, cwd, n) == WithSuffix(name, suffix) + LOCALHOST;
    }
  }

  lemma {:induction false} FirstFreeIsHost(hosts: seq<string>, busy: set<string>, n: nat) returns (k: nat)
    requires n < |hosts|
    ensures n <= k < |hosts| && FirstFree(hosts, busy, n) == hosts[k]
    ensures k + 1 < |hosts| ==> Lower(hosts[k]) !in busy
    ensures forall i :: n <= i < k ==> Lower(hosts[i]) in busy
    decreases |hosts| - n
  {
    if n + 1 == |hosts| || Lower(hosts[n]) !in busy {
      k := n;
    } else {
      k := FirstFreeIsHost(hosts, busy, n + 1);
    }
  }

  /** The result is the desired host, or one LDH label before ".localhost". */
  lemma ResolvedIsDesiredOrLabel(paths: Paths, busy: set<string>, desired: string, cwd: string)
    requires HashesWell(paths)
    ensures var r := Resolve(paths, busy, desired, cwd);
            r == desired || IsLabelHost(r)
    ensures Lower(desired) !in busy ==> Resolve(paths, busy, desired, cwd) == desired
  {
    var k := FirstFreeIsHost(Candidates(paths, desired, cwd), busy, 0);
    if k > 0 {
      InventedHostsAreLabels(paths, desired, cwd, k);
    }
  }

  lemma FreeIsDesired(paths: Paths, busy: set<string>, desired: string, cwd: string)
    requires Lower(desired) !in busy
    ensures Resolve(paths, busy, desired, cwd) == desired
  {
    var k := FirstFreeIsHost(Candidates(paths, desired, cwd), busy, 0);
  }

  // ------------------------------------------------------------ pigeonhole

  lemma LabelIsLower(name: string)
    requires IsLdhLabel(name)
    ensures Lower(name + LOCALHOST) == name + LOCALHOST
  {
    assert forall i :: 0 <= i < |name| ==> IsLdh(name[i]);
    assert Lower(name) == name;
    LowerConcat(name, LOCALHOST);
    LowerLocalhost();
  }

  lemma LowerLocalhost()
    ensures Lower(LOCALHOST) == LOCALHOST
  {
  }

  /** The numbered candidates differ from one another. */
  lemma NumberedDiffer(parent: string, base: string, i: nat, j: nat)
    requires 0 < i < j <= MAX_ATTEMPTS
    ensures Lower(ConflictHost(parent, base, i)) != Lower(ConflictHost(parent, base, j))
  {
    var name := NormalizeHostnameName(parent + "-" + base);
    NormalizeGivesLabel(parent + "-" + base);
    NumberIsLdh(i);
    NumberIsLdh(j);
    var si, sj := "-" + Decimal.Format(i), "-" + Decimal.Format(j);
    SuffixedIsLabel(name, si);
    SuffixedIsLabel(name, sj);
    LabelIsLower(WithSuffix(name, si));
    LabelIsLower(WithSuffix(name, sj));
    if WithSuffix(name, si) + LOCALHOST == WithSuffix(name, sj) + LOCALHOST {
      SuffixOfConcat(WithSuffix(name, si), LOCALHOST);
      SuffixOfConcat(WithSuffix(name, sj), LOCALHOST);
      assert WithSuffix(name, si) == WithSuffix(name, sj);
      var a :| a != "" && WithSuffix(name, si) == a + si;
      var b :| b != "" && WithSuffix(name, sj) == b + sj;
      SameTrailingNumber(a, i, b, j);
      assert false;
    }
  }

  lemma SameTrailingNumber(a: string, i: nat, b: string, j: nat)
    requires a + ("-" + Decimal.Format(i)) == b + ("-" + Decimal.Format(j))
    ensures i == j
  {
    var di, dj := Decimal.Format(i), Decimal.Format(j);
    assert a + ("-" + di) == a + ['-'] + di && b + ("-" + dj) == b + ['-'] + dj;
    LastIndexOf(a, '-', di);
    LastIndexOf(b, '-', dj);
    assert |a| == |b|;
    assert di == (a + ['-'] + di)[|a| + 1..] && dj == (b + ['-'] + dj)[|b| + 1..];
    Decimal.FormatInjective(i, j);
  }

  /** The names of the numbered candidates 2 to n. */
  ghost function NumberedNames(parent: string, base: string, n: nat): set<string> {
    set k: nat | 2 <= k <= n :: Lower(ConflictHost(parent, base, k))
  }

  lemma {:induction false} NumberedNamesCount(parent: string, base: string, n: nat)
    requires 1 <= n <= MAX_ATTEMPTS
    ensures |NumberedNames(parent, base, n)| == n - 1
  {
    if n == 1 {
      assert NumberedNames(parent, base, n) == {};
    } else {
      NumberedNamesCount(parent, base, n - 1);
      var last := Lower(ConflictHost(parent, base, n));
      assert NumberedNames(parent, base, n) == NumberedNames(parent, base, n - 1) + {last};
      if last in NumberedNames(parent, base, n - 1) {
        var k: nat :| 2 <= k <= n - 1 && Lower(ConflictHost(parent, base, k)) == last;
        NumberedDiffer(parent, base, k, n);
        assert false;
      }
    }
  }

  /** Fewer than 99 busy names cannot exhaust the guarded candidates: the 99
      numbered ones are different and cannot all be taken. */
  lemma NotExhausted(paths: Paths, busy: set<string>, desired: string, cwd: string)
    requires |busy| < MAX_ATTEMPTS - 1
    ensures exists i :: 0 <= i <= LAST_GUARDED && Lower(Candidates(paths, desired, cwd)[i]) !in busy
  {
    var hosts := Candidates(paths, desired, cwd);
    if forall i :: 0 <= i <= LAST_GUARDED ==> Lower(hosts[i]) in busy {
      var base, parent := TrimSuffix(desired, LOCALHOST), ParentLabel(paths, cwd);
      NumberedNamesCount(parent, base, MAX_ATTEMPTS);
      forall name | name in NumberedNames(parent, base, MAX_ATTEMPTS) ensures name in busy {
        var i: nat :| 2 <= i <= MAX_ATTEMPTS && Lower(ConflictHost(parent, base, i)) == name;
        assert hosts[i] == ConflictHost(parent, base, i);
      }
      SubsetSize(NumberedNames(parent, base, MAX_ATTEMPTS), busy);
      assert false;
    }
  }

  /** With fewer than 99 busy names allocation finds one that is not busy. */
  lemma FewerThan99IsFree(paths: Paths, busy: set<string>, desired: string, cwd: string)
    requires |busy| < MAX_ATTEMPTS - 1
    ensures Lower(Resolve(paths, busy, desired, cwd)) !in busy
  {
    var k := FirstFreeIsHost(Candidates(paths, desired, cwd), busy, 0);
    NotExhausted(paths, busy, desired, cwd);
  }

  // ------------------------------------------------------------ ResolveHostnameConflict

  /** Names that differ only in case belong to the same directory, or neither does. */
  ghost predicate Unambiguous(paths: Paths, active: map<string, string>, cwd: string) {
    forall k, l :: k in active && l in active && EqualFold(k, l) ==>
      (paths.samePath(active[k], cwd) <==> paths.samePath(active[l], cwd))
  }

  ghost function Busy(paths: Paths, active: map<string, string>, cwd: string): set<string> {
    set k | k in active && !paths.samePath(active[k], cwd) :: Lower(k)
  }

  /** The host is free, or already held from the same directory. */
  ghost predicate FreeOrOwn(paths: Paths, active: map<string, string>, host: string, cwd: string) {
    || (forall k :: k in active ==> !EqualFold(k, host))
    || (exists k :: k in active && EqualFold(k, host) && paths.samePath(active[k], cwd))
  }

  method ActiveHostCWD(active: map<string, string>, host: string) returns (r: Option<string>)
    ensures r.None? ==> forall k :: k in active ==> !EqualFold(k, host)
    ensures r.Some? ==> exists k :: k in active && EqualFold(k, host) && active[k] == r.value
  {
    var left := active.Keys;
    while left != {}
      invariant left <= active.Keys
      invariant forall k :: k in active.Keys - left ==> !EqualFold(k, host)
      decreases |left|
    {
      var k :| k in left;
      left := left - {k};
      if EqualFold(k, host) {
        return Some(active[k]);
      }
    }
    return None;
  }

  method IsFreeOrOwn(paths: Paths, active: map<string, string>, host: string, cwd: string) returns (ok: bool)
    ensures ok ==> FreeOrOwn(paths, active, host, cwd)
    ensures !ok ==> Lower(host) in Busy(paths, active, cwd)
    ensures Unambiguous(paths, active, cwd) ==> (ok <==> Lower(host) !in Busy(paths, active, cwd))
  {
    var existing := ActiveHostCWD(active, host);
    ok := existing.None? || paths.samePath(existing.value, cwd);
    if !ok {
      var k :| k in active && EqualFold(k, host) && active[k] == existing.value;
      assert Lower(k) in Busy(paths, active, cwd);
    }
  }

  lemma BusySize(paths: Paths, active: map<string, string>, cwd: string)
    ensures |Busy(paths, active, cwd)| <= |active|
  {
    var open := set k | k in active && !paths.samePath(active[k], cwd);
    LowerShrinks(open);
    assert Busy(paths, active, cwd) == set k | k in open :: Lower(k);
    SubsetSize(open, active.Keys);
  }

  lemma {:induction false} LowerShrinks(names: set<string>)
    ensures |set k | k in names :: Lower(k)| <= |names|
    decreases |names|
  {
    if names != {} {
      var n :| n in names;
      var rest := names - {n};
      LowerShrinks(rest);
      assert (set k | k in names :: Lower(k)) == (set k | k in rest :: Lower(k)) + {Lower(n)};
    } else {
      assert (set k | k in names :: Lower(k)) == {};
    }
  }

  /** Hosts 0 to n have been looked up: those before the n-th are busy, and so is that
      one unless ok. exact: looking a host up tells for sure whether it is busy. */
  ghost predicate Tried(hosts: seq<string>, busy: set<string>, n: nat, ok: bool, exact: bool)
    requires n < |hosts|
  {
    && (forall i :: 0 <= i < n ==> Lower(hosts[i]) in busy)
    && (!ok ==> Lower(hosts[n]) in busy)
    && (ok && exact ==> Lower(hosts[n]) !in busy)
  }

  lemma TriedIsFirstFree(hosts: seq<string>, busy: set<string>, n: nat, ok: bool, exact: bool)
    requires |hosts| >= 2 && n < |hosts|
    requires if ok then n + 1 < |hosts| && Tried(hosts, busy, n, true, exact)
             else n + 1 == |hosts| && Tried(hosts, busy, n - 1, false, exact)
    ensures exact ==> hosts[n] == FirstFree(hosts, busy, 0)
  {
    var k := FirstFreeIsHost(hosts, busy, 0);
  }

  /** Look up the n-th host, the ones before it being busy. */
  method Try(paths: Paths, active: map<string, string>, cwd: string, host: string,
             ghost hosts: seq<string>, ghost busy: set<string>, ghost n: nat, ghost exact: bool)
    returns (ok: bool)
    requires n < |hosts| && host == hosts[n] && (n > 0 ==> Tried(hosts, busy, n - 1, false, exact))
    requires busy == Busy(paths, active, cwd) && exact == Unambiguous(paths, active, cwd)
    ensures Tried(hosts, busy, n, ok, exact) && (ok ==> FreeOrOwn(paths, active, host, cwd))
  {
    ok := IsFreeOrOwn(paths, active, host, cwd);
  }

  method ResolveHostnameConflict(paths: Paths, desired: string, cwd: string, active: map<string, string>)
    returns (r: string)
    ensures |active| < MAX_ATTEMPTS - 1 ==> FreeOrOwn(paths, active, r, cwd)
    ensures Unambiguous(paths, active, cwd) ==> r == Resolve(paths, Busy(paths, active, cwd), desired, cwd)
    ensures r in Candidates(paths, desired, cwd)
  {
    ghost var hosts, busy := Candidates(paths, desired, cwd), Busy(paths, active, cwd);
    ghost var exact := Unambiguous(paths, active, cwd);
    var base := TrimSuffix(desired, LOCALHOST);
    var parent := ParentLabel(paths, cwd);
    HostsInOrder(paths, desired, cwd);
    var ok := Try(paths, active, cwd, desired, hosts, busy, 0, exact);
    ghost var n := 0;
    r := desired;
    if !ok {
      n, r, ok := Numbered(paths, active, cwd, parent, base, hosts, busy, exact);
    }
    if !ok {
      n, r, ok := Hashed(paths, active, cwd, parent, base, r, hosts, busy, exact);
    }
    TriedIsFirstFree(hosts, busy, n, ok, exact);
    if !ok {
      ManyAreBusy(paths, active, desired, cwd);
    }
  }

  /** If every guarded host is busy, at least 99 hosts are active. */
  lemma ManyAreBusy(paths: Paths, active: map<string, string>, desired: string, cwd: string)
    requires forall i :: 0 <= i <= LAST_GUARDED ==>
             Lower(Candidates(paths, desired, cwd)[i]) in Busy(paths, active, cwd)
    ensures |active| >= MAX_ATTEMPTS - 1
  {
    BusySize(paths, active, cwd);
    if |Busy(paths, active, cwd)| < MAX_ATTEMPTS - 1 {
      NotExhausted(paths, Busy(paths, active, cwd), desired, cwd);
    }
  }

  lemma HostsInOrder(paths: Paths, desired: string, cwd: string)
    ensures var hosts := Candidates(paths, desired, cwd);
            var base, parent := TrimSuffix(desired, LOCALHOST), ParentLabel(paths, cwd);
            && hosts[0] == desired && hosts[1] == ConflictHost(parent, base, 0)
            && (forall k :: 2 <= k <= MAX_ATTEMPTS ==> hosts[k] == ConflictHost(parent, base, k))
            && (forall k :: 0 <= k <= MAX_ATTEMPTS + 1 ==>
                  hosts[MAX_ATTEMPTS + 1 + k] == FallbackConflictHost(paths, parent, base, cwd, k))
  {
    var hosts := Candidates(paths, desired, cwd);
    forall k | 0 <= k < |hosts| ensures hosts[k] == Candidate(paths, desired, cwd, k) {
    }
  }

  /** The parent-qualified host, plain and numbered. */
  method Numbered(paths: Paths, active: map<string, string>, cwd: string, parent: string, base: string,
                  ghost hosts: seq<string>, ghost busy: set<string>, ghost exact: bool)
    returns (ghost n: nat, r: string, ok: bool)
    requires busy == Busy(paths, active, cwd) && exact == Unambiguous(paths, active, cwd)
    requires |hosts| == LAST_GUARDED + 2 && Tried(hosts, busy, 0, false, exact)
    requires hosts[1] == ConflictHost(parent, base, 0)
    requires forall k :: 2 <= k <= MAX_ATTEMPTS ==> hosts[k] == ConflictHost(parent, base, k)
    ensures n <= MAX_ATTEMPTS && r == hosts[n] && Tried(hosts, busy, n, ok, exact) && (!ok ==> n == MAX_ATTEMPTS)
    ensures ok ==> FreeOrOwn(paths, active, r, cwd)
  {
    r := ConflictHost(parent, base, 0);
    n := 1;
    ok := Try(paths, active, cwd, r, hosts, busy, n, exact);
    var suffix := 2;
    while !ok && suffix <= MAX_ATTEMPTS
      invariant 2 <= suffix <= MAX_ATTEMPTS + 1 && n == suffix - 1 && r == hosts[n]
      invariant Tried(hosts, busy, n, ok, exact) && (ok ==> FreeOrOwn(paths, active, r, cwd))
      decreases MAX_ATTEMPTS - suffix, !ok
    {
      r := ConflictHost(parent, base, suffix);
      n := suffix;
      ok := Try(paths, active, cwd, r, hosts, busy, n, exact);
      suffix := suffix + 1;
    }
  }

  /** The hashed hosts, after all numbered ones were found busy. */
  method Hashed(paths: Paths, active: map<string, string>, cwd: string, parent: string, base: string, last: string,
                ghost hosts: seq<string>, ghost busy: set<string>, ghost exact: bool)
    returns (ghost n: nat, r: string, ok: bool)
    requires busy == Busy(paths, active, cwd) && exact == Unambiguous(paths, active, cwd)
    requires |hosts| == LAST_GUARDED + 2 && Tried(hosts, busy, MAX_ATTEMPTS, false, exact)
    requires last == hosts[MAX_ATTEMPTS]
    requires forall k :: 0 <= k <= MAX_ATTEMPTS + 1 ==>
      hosts[MAX_ATTEMPTS + 1 + k] == FallbackConflictHost(paths, parent, base, cwd, k)
    ensures n <= LAST_GUARDED + 1 && r == hosts[n]
    ensures if ok then n <= LAST_GUARDED && Tried(hosts, busy, n, true, exact) && FreeOrOwn(paths, active, r, cwd)
            else n == LAST_GUARDED + 1 && Tried(hosts, busy, LAST_GUARDED, false, exact)
  {
    n, r, ok := MAX_ATTEMPTS, last, false;
    var attempt := 0;
    while !ok && attempt <= MAX_ATTEMPTS
      invariant 0 <= attempt <= MAX_ATTEMPTS + 1 && n == MAX_ATTEMPTS + attempt && r == hosts[n]
      invariant Tried(hosts, busy, n, ok, exact) && (ok ==> FreeOrOwn(paths, active, r, cwd))
      decreases MAX_ATTEMPTS - attempt, !ok
    {
      r := FallbackConflictHost(paths, parent, base, cwd, attempt);
      n := n + 1;
      assert hosts[MAX_ATTEMPTS + 1 + attempt] == r;
      ok := Try(paths, active, cwd, r, hosts, busy, n, exact);
      attempt := attempt + 1;
    }
    if !ok {
      r := FallbackConflictHost(paths, parent, base, cwd, MAX_ATTEMPTS + 1);
      n := n + 1;
      assert hosts[MAX_ATTEMPTS + 1 + attempt] == r;
    }
  }
}
