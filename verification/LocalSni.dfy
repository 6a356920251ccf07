/** Server names that the HTTPS listener accepts (normalizeLocalSNI of
    internal/router/local_tls.go). */
module LocalSni {
  import opened Common

  /** strings.Split at dots. */
  function Labels(s: string): (r: seq<string>)
    ensures |r| > 0
  {
    if s == "" then [""]
    else
      var rest := Labels(s[1..]);
      if s[0] == '.' then [""] + rest else [[s[0]] + rest[0]] + rest[1..]
  }

  predicate IsLabel(s: string) {
    0 < |s| <= 63 && s[0] != '-' && s[|s| - 1] != '-' && forall i :: 0 <= i < |s| ==> IsLdh(s[i])
  }

  const LOCALHOST := "localhost"

  /** The checks on a name in lower case without surrounding space or final dot. */
  predicate IsLocalName(host: string, isIp: string -> bool) {
    && host != "" && ':' !in host && !isIp(host)
    && (host == LOCALHOST || HasSuffix(host, "." + LOCALHOST))
    && |host| <= 253
    && forall i :: 0 <= i < |Labels(host)| ==> IsLabel(Labels(host)[i])
  }

  function NormalizeLocalSni(raw: string, isIp: string -> bool): Option<string> {
    var host := TrimSuffix(Lower(TrimSpace(raw)), ".");
    if IsLocalName(host, isIp) then Some(host) else None
  }

  // ------------------------------------------------------------ which names are accepted

  function Joined(labels: seq<string>): string
    requires labels != []
  {
    if |labels| == 1 then labels[0] else labels[0] + "." + Joined(labels[1..])
  }

  lemma {:induction false} JoinedLabels(s: string)
    ensures Joined(Labels(s)) == s
  {
    if s != "" {
      JoinedLabels(s[1..]);
      var rest := Labels(s[1..]);
      if s[0] == '.' {
        assert ([""] + rest)[1..] == rest;
      } else {
        assert Labels(s)[1..] == rest[1..];
      }
      assert s == [s[0]] + s[1..];
    }
  }

  lemma {:induction false} LabelsOfLabel(s: string)
    requires '.' !in s
    ensures Labels(s) == [s]
  {
    if s != "" {
      LabelsOfLabel(s[1..]);
      assert s == [s[0]] + s[1..];
    }
  }

  /** The labels of a name with a character in front of it. */
  function InFront(c: char, rest: seq<string>): seq<string>
    requires rest != []
  {
    if c == '.' then [""] + rest else [[c] + rest[0]] + rest[1..]
  }

  lemma InFrontOfBoth(c: char, a: seq<string>, b: seq<string>)
    requires a != []
    ensures InFront(c, a + b) == InFront(c, a) + b
  {
    assert (a + b)[0] == a[0] && (a + b)[1..] == a[1..] + b;
  }

  lemma {:induction false} LabelsAtDot(s: string, t: string)
    ensures Labels(s + "." + t) == Labels(s) + Labels(t)
  {
    var whole := s + "." + t;
    if s == "" {
      assert whole[1..] == t;
    } else {
      LabelsAtDot(s[1..], t);
      assert whole[0] == s[0] && whole[1..] == s[1..] + "." + t;
      assert Labels(whole) == InFront(s[0], Labels(whole[1..])) && Labels(s) == InFront(s[0], Labels(s[1..]));
      InFrontOfBoth(s[0], Labels(s[1..]), Labels(t));
    }
  }

  lemma {:induction false} LabelsOfJoined(labels: seq<string>)
    requires labels != [] && forall i :: 0 <= i < |labels| ==> '.' !in labels[i]
    ensures Labels(Joined(labels)) == labels
  {
    LabelsOfLabel(labels[0]);
    if |labels| > 1 {
      LabelsOfJoined(labels[1..]);
      LabelsAtDot(labels[0], Joined(labels[1..]));
    }
  }

  lemma {:induction false} JoinedEndsIn(labels: seq<string>)
    requires |labels| > 1
    ensures HasSuffix(Joined(labels), "." + labels[|labels| - 1])
  {
    if |labels| > 2 {
      JoinedEndsIn(labels[1..]);
    }
  }

  lemma LastOfSuffix(s: string)
    requires HasSuffix(s, "." + LOCALHOST)
    ensures Labels(s)[|Labels(s)| - 1] == LOCALHOST
  {
    var head := s[..|s| - |"." + LOCALHOST|];
    assert s == head + ("." + LOCALHOST) == head + "." + LOCALHOST;
    LabelsOfLabel(LOCALHOST);
    LabelsAtDot(head, LOCALHOST);
  }

  lemma SuffixOfLast(s: string)
    requires Labels(s)[|Labels(s)| - 1] == LOCALHOST
    ensures s == LOCALHOST || HasSuffix(s, "." + LOCALHOST)
  {
    JoinedLabels(s);
    if |Labels(s)| > 1 {
      JoinedEndsIn(Labels(s));
    }
  }

  /** The last label is "localhost" just when the name is that or ends in a dot and that. */
  lemma LastIsLocalhost(s: string)
    ensures Labels(s)[|Labels(s)| - 1] == LOCALHOST <==> s == LOCALHOST || HasSuffix(s, "." + LOCALHOST)
  {
    if HasSuffix(s, "." + LOCALHOST) {
      LastOfSuffix(s);
    } else if s == LOCALHOST {
      LabelsOfLabel(s);
    } else if Labels(s)[|Labels(s)| - 1] == LOCALHOST {
      SuffixOfLast(s);
    }
  }

  /** The labels of a name under localhost, joined by dots. */
  predicate NamesLocal(host: string, labels: seq<string>) {
    && labels != [] && host == Joined(labels) && labels[|labels| - 1] == "localhost"
    && forall i :: 0 <= i < |labels| ==>
         && 0 < |labels[i]| <= 63 && labels[i][0] != '-' && labels[i][|labels[i]| - 1] != '-'
         && forall k :: 0 <= k < |labels[i]| ==>
              'a' <= labels[i][k] <= 'z' || '0' <= labels[i][k] <= '9' || labels[i][k] == '-'
  }

  lemma LocalNameIsJoined(host: string, isIp: string -> bool)
    requires IsLocalName(host, isIp)
    ensures NamesLocal(host, Labels(host))
  {
    LastIsLocalhost(host);
    JoinedLabels(host);
    forall i | 0 <= i < |Labels(host)| ensures IsLabel(Labels(host)[i]) {
    }
  }

  lemma JoinedHasNoColon(host: string, labels: seq<string>)
    requires NamesLocal(host, labels)
    ensures Labels(host) == labels && ':' !in host
  {
    forall i | 0 <= i < |labels| ensures '.' !in labels[i] && ':' !in labels[i] {
    }
    LabelsOfJoined(labels);
    if ':' in host {
      var i :| 0 <= i < |host| && host[i] == ':';
      LabelsCover(host, i);
    }
  }

  lemma JoinedIsLocalName(host: string, labels: seq<string>, isIp: string -> bool)
    requires NamesLocal(host, labels) && |host| <= 253 && !isIp(host)
    ensures IsLocalName(host, isIp)
  {
    JoinedHasNoColon(host, labels);
    LastIsLocalhost(host);
    forall i | 0 <= i < |labels| ensures IsLabel(labels[i]) {
    }
  }

  lemma LocalNamesExactly(host: string, isIp: string -> bool)
    ensures IsLocalName(host, isIp) <==> (exists labels :: NamesLocal(host, labels)) && |host| <= 253 && !isIp(host)
  {
    if IsLocalName(host, isIp) {
      LocalNameIsJoined(host, isIp);
    }
    if (exists labels :: NamesLocal(host, labels)) && |host| <= 253 && !isIp(host) {
      var labels :| NamesLocal(host, labels);
      JoinedIsLocalName(host, labels, isIp);
    }
  }

  /** A name is accepted just when in lower case, without space around it and one dot at
      its end, it has at most 253 bytes, is no IP address, and is a list of labels of 1 to
      63 lower-case letters, digits and hyphens, with none at an edge, the last of which is
      "localhost"; then the result is that. */
  lemma AcceptsExactly(raw: string, isIp: string -> bool)
    ensures var host := TrimSuffix(Lower(TrimSpace(raw)), ".");
            && (NormalizeLocalSni(raw, isIp).Some? <==>
                  (exists labels :: NamesLocal(host, labels)) && |host| <= 253 && !isIp(host))
            && (NormalizeLocalSni(raw, isIp).Some? ==> NormalizeLocalSni(raw, isIp).value == host)
  {
    LocalNamesExactly(TrimSuffix(Lower(TrimSpace(raw)), "."), isIp);
  }

  // ------------------------------------------------------------ accepted names stay so

  lemma {:induction false} LabelsCover(s: string, i: nat)
    requires i < |s|
    ensures s[i] == '.' || exists k :: 0 <= k < |Labels(s)| && s[i] in Labels(s)[k]
  {
    var rest := Labels(s[1..]);
    if i == 0 {
      assert s[0] != '.' ==> s[0] in Labels(s)[0];
    } else {
      LabelsCover(s[1..], i - 1);
      if s[i] != '.' {
        var k :| 0 <= k < |rest| && s[i] in rest[k];
        var at := if s[0] == '.' then k + 1 else k;
        assert s[1..][i - 1] == s[i];
        assert Labels(s)[at] == if s[0] != '.' && k == 0 then [s[0]] + rest[0] else rest[k];
        assert s[i] in Labels(s)[at];
      }
    }
  }

  lemma {:induction false} NoDotAtTheEnds(s: string)
    requires s != "" && forall i :: 0 <= i < |Labels(s)| ==> Labels(s)[i] != ""
    ensures s[0] != '.' && s[|s| - 1] != '.'
  {
    if s[0] == '.' {
      assert Labels(s)[0] == "";
    } else if s[|s| - 1] == '.' {
      LastLabel(s);
    }
  }

  lemma {:induction false} LastLabel(s: string)
    requires s != "" && s[|s| - 1] == '.'
    ensures |Labels(s)| > 1 && Labels(s)[|Labels(s)| - 1] == ""
  {
    if |s| > 1 {
      LastLabel(s[1..]);
    }
  }

  /** What is accepted consists of lower-case letters, digits, hyphens and dots. */
  lemma AcceptedIsPlain(host: string, isIp: string -> bool, i: nat)
    requires IsLocalName(host, isIp) && i < |host|
    ensures IsLdh(host[i]) || host[i] == '.'
  {
    LabelsCover(host, i);
    if host[i] != '.' {
      var k :| 0 <= k < |Labels(host)| && host[i] in Labels(host)[k];
      assert IsLabel(Labels(host)[k]);
    }
  }

  lemma AcceptedHasPlainEnds(host: string, isIp: string -> bool)
    requires IsLocalName(host, isIp)
    ensures TrimSpace(host) == host && TrimSuffix(host, ".") == host
  {
    forall i | 0 <= i < |Labels(host)| ensures Labels(host)[i] != "" {
      assert IsLabel(Labels(host)[i]);
    }
    NoDotAtTheEnds(host);
    AcceptedIsPlain(host, isIp, 0);
    AcceptedIsPlain(host, isIp, |host| - 1);
  }

  lemma PlainIsLower(host: string)
    requires forall i :: 0 <= i < |host| ==> IsLdh(host[i]) || host[i] == '.'
    ensures Lower(host) == host && '\0' !in host
  {
  }

  /** A normalized name is accepted as it is, and holds no NUL. */
  lemma NormalizeIsIdempotent(raw: string, isIp: string -> bool)
    requires NormalizeLocalSni(raw, isIp).Some?
    ensures var host := NormalizeLocalSni(raw, isIp).value;
            NormalizeLocalSni(host, isIp) == Some(host) && '\0' !in host
  {
    var host := NormalizeLocalSni(raw, isIp).value;
    AcceptedHasPlainEnds(host, isIp);
    forall i | 0 <= i < |host| ensures IsLdh(host[i]) || host[i] == '.' {
      AcceptedIsPlain(host, isIp, i);
    }
    PlainIsLower(host);
  }
}
