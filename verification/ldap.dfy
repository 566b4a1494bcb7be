/**
 * LDAP URLs and the upgrade of settings saved before them (packages/contracts/src/auth.ts):
 * printing, parsing, and that one undoes the other.
 */
module Ldap {
  import opened Options

  datatype Protocol = Ldaps | StartTls | PlainLdap

  datatype Target = Target(host: string, port: int, protocol: Protocol)

  // ---- characters and small parsers ----

  predicate Digit(c: char) { '0' <= c <= '9' }

  predicate Alnum(c: char) { Digit(c) || 'a' <= c <= 'z' || 'A' <= c <= 'Z' }

  predicate HexColonDot(c: char) { Digit(c) || 'a' <= c <= 'f' || 'A' <= c <= 'F' || c == ':' || c == '.' }

  predicate Space(c: char) {
    c in {' ', '\t', '\n', '\U{0b}', '\U{0c}', '\r', '\U{a0}', '\U{1680}', '\U{2028}', '\U{2029}', '\U{202f}',
        '\U{205f}', '\U{3000}', '\U{feff}'}
    || '\U{2000}' <= c <= '\U{200a}'
  }

  function Lower(c: char): char {
    if 'A' <= c <= 'Z' then ((c as int) + 32) as char else c
  }

  /** Does `s` start with the lower-case word `w`, letter case aside? */
  predicate StartsWith(s: string, w: string) {
    |w| <= |s| && forall i | 0 <= i < |w| :: Lower(s[i]) == w[i]
  }

  predicate All(s: string, p: char -> bool) {
    forall i | 0 <= i < |s| :: p(s[i])
  }

  function TrimStart(s: string): string {
    if s != "" && Space(s[0]) then TrimStart(s[1..]) else s
  }

  function TrimEnd(s: string): string {
    if s != "" && Space(s[|s| - 1]) then TrimEnd(s[..|s| - 1]) else s
  }

  function Split(s: string, at: char): (parts: seq<string>)
    ensures |parts| >= 1
  {
    if s == "" then [""]
    else if s[0] == at then [""] + Split(s[1..], at)
    else var rest := Split(s[1..], at); [[s[0]] + rest[0]] + rest[1..]
  }

  function Decimal(n: nat): string {
    if n < 10 then [('0' as int + n) as char] else Decimal(n / 10) + [('0' as int + n % 10) as char]
  }

  function ValueOf(digits: string): nat
    requires All(digits, Digit)
  {
    if digits == "" then 0
    else ValueOf(digits[..|digits| - 1]) * 10 + (digits[|digits| - 1] as int - '0' as int)
  }

  // ---- hosts ----

  /** One label of a host name: letters, digits and hyphens, no hyphen at either end. */
  predicate Label(s: string) {
    s != "" && Alnum(s[0]) && Alnum(s[|s| - 1]) && All(s, (c: char) => Alnum(c) || c == '-')
  }

  /** The parts between dots, without the empty one behind a dot at the end. */
  function LabelsIn(parts: seq<string>): seq<string> {
    if |parts| >= 2 && parts[|parts| - 1] == "" then parts[..|parts| - 1] else parts
  }

  predicate AllLabels(labels: seq<string>) {
    forall i | 0 <= i < |labels| :: Label(labels[i])
  }

  /** Labels between dots, and possibly a dot at the end. */
  predicate HostName(s: string) {
    AllLabels(LabelsIn(Split(s, '.')))
  }

  /** A scheme in front: a letter, then letters, digits, `+`, `.` or `-`, then `://`. */
  predicate HasScheme(s: string) {
    exists k | 1 <= k <= |s| ::
      k + 3 <= |s| && s[k..k + 3] == "://" && Alnum(s[0]) && !Digit(s[0])
      && All(s[1..k], (c: char) => Alnum(c) || c in {'+', '.', '-'})
  }

  datatype HostProblem = Empty | SchemeGiven | Bracketed | StrayPart | PortGiven | NotAName

  function HostProblemOf(host: string): Option<HostProblem> {
    if host == "" then Some(Empty)
    else if HasScheme(host) then Some(SchemeGiven)
    else if host[0] == '[' then Some(Bracketed)
    else if !All(host, (c: char) => !Space(c) && c !in {'/', '\\', '@', '?', '#'}) then Some(StrayPart)
    else if ':' in host then
      if All(host, HexColonDot) && |Split(host, ':')| >= 3 then None else Some(PortGiven)
    else if HostName(host) then None
    else Some(NotAName)
  }

  predicate HostOk(host: string) { HostProblemOf(host) == None }

  // ---- printing and parsing ----

  function DefaultPort(p: Protocol): int {
    if p == Ldaps then 636 else 389
  }

  function SchemeText(p: Protocol): string {
    if p == Ldaps then "ldaps://" else "ldap://"
  }

  /** An address with colons is bracketed. */
  function AuthorityOf(host: string, digits: string): string {
    (if ':' in host then "[" + host + "]" else host) + ":" + digits
  }

  function UrlOf(t: Target): string
    requires t.port >= 0
  {
    SchemeText(t.protocol) + AuthorityOf(t.host, Decimal(t.port))
  }

  /** What follows the scheme, and which scheme it was. */
  function Scheme(url: string): Option<(Protocol, string)> {
    if StartsWith(url, "ldaps://") then Some((Ldaps, url[8..]))
    else if StartsWith(url, "ldap://") then Some((PlainLdap, url[7..]))
    else None
  }

  /** Host and port text of an authority; a bracketed one must be an address with at most a numeric port. */
  function HostAndPort(authority: string): Option<(string, Option<string>)> {
    var close := Split(authority, ']');
    if authority != "" && authority[0] == '[' && |close| == 2 && close[0][1..] != "" && All(close[0][1..], HexColonDot)
       && (close[1] == "" || (|close[1]| >= 2 && close[1][0] == ':' && All(close[1][1..], Digit)))
    then Some((close[0][1..], if close[1] == "" then None else Some(close[1][1..])))
    else
      var parts := Split(authority, ':');
      if |parts| > 2 then None
      else Some((parts[0], if |parts| == 2 then Some(parts[1]) else None))
  }

  /** `number` reads a port that is not all digits, as JavaScript's Number does. */
  function PortOf(text: Option<string>, protocol: Protocol, number: string -> Option<int>): Option<int> {
    var port :=
      if text == None || text == Some("") then Some(DefaultPort(protocol))
      else if All(text.value, Digit) then Some(ValueOf(text.value))
      else number(text.value);
    if port.Some? && 1 <= port.value <= 65535 then port else None
  }

  function ParseAuthority(protocol: Protocol, authority: string, number: string -> Option<int>): Option<Target> {
    if !All(authority, (c: char) => c !in {'/', '?', '#'}) || authority == "" || '@' in authority then None
    else
      match HostAndPort(authority)
      case None => None
      case Some((host, text)) =>
        match PortOf(text, protocol, number)
        case None => None
        case Some(port) => if HostOk(host) then Some(Target(host, port, protocol)) else None
  }

  function WithoutSlash(rest: string): string {
    if rest != "" && rest[|rest| - 1] == '/' then rest[..|rest| - 1] else rest
  }

  function Parse(url: string, number: string -> Option<int>): Option<Target> {
    match Scheme(TrimEnd(TrimStart(url)))
    case None => None
    case Some((protocol, rest)) => ParseAuthority(protocol, WithoutSlash(rest), number)
  }

  // ---- the round trip ----

  lemma {:induction false} DecimalDigits(n: nat)
    ensures Decimal(n) != "" && All(Decimal(n), Digit) && ValueOf(Decimal(n)) == n
  {
    if n >= 10 {
      DecimalDigits(n / 10);
      var d := Decimal(n);
      assert d[..|d| - 1] == Decimal(n / 10);
    } else {
      assert Decimal(n)[..0] == "";
    }
  }

  lemma {:induction false} SplitNowhere(s: string, at: char)
    requires at !in s
    ensures Split(s, at) == [s]
  {
    if s != "" {
      assert s[0] in s && forall c | c in s[1..] :: c in s;
      SplitNowhere(s[1..], at);
      assert [s[0]] + s[1..] == s;
    }
  }

  lemma {:induction false} SplitOnce(a: string, b: string, at: char)
    requires at !in a && at !in b
    ensures Split(a + [at] + b, at) == [a, b]
  {
    var s := a + [at] + b;
    if a == "" {
      assert s[1..] == b;
      SplitNowhere(b, at);
    } else {
      assert s[0] == a[0] && s[1..] == a[1..] + [at] + b;
      assert a[0] in a && forall c | c in a[1..] :: c in a;
      SplitOnce(a[1..], b, at);
      assert [a[0]] + a[1..] == a;
    }
  }

  /** Every character is in one of the parts or is the separator. */
  lemma {:induction false} SplitCovers(s: string, at: char, i: nat)
    requires i < |s| && s[i] != at
    ensures exists k :: 0 <= k < |Split(s, at)| && s[i] in Split(s, at)[k]
  {
    var parts := Split(s, at);
    var rest := Split(s[1..], at);
    if i == 0 {
      assert s[0] in parts[0];
    } else {
      SplitCovers(s[1..], at, i - 1);
      var k :| 0 <= k < |rest| && s[i] in rest[k];
      if s[0] == at {
        assert parts[k + 1] == rest[k];
      } else if k == 0 {
        assert parts[0] == [s[0]] + rest[0];
      } else {
        assert parts[k] == rest[k];
      }
    }
  }

  /** A host a bare authority can hold: no colon, bracket, or anything a URL gives a meaning. */
  predicate PlainHost(c: char) { Alnum(c) || c == '-' || c == '.' }

  lemma HostNamePlain(s: string)
    requires HostName(s)
    ensures All(s, PlainHost)
  {
    var parts := Split(s, '.');
    forall i | 0 <= i < |s| ensures PlainHost(s[i]) {
      if s[i] != '.' {
        SplitCovers(s, '.', i);
        var k :| 0 <= k < |parts| && s[i] in parts[k];
        assert k < |LabelsIn(parts)| && LabelsIn(parts)[k] == parts[k];
        assert Label(LabelsIn(parts)[k]);
      }
    }
  }

  lemma HostChars(host: string)
    requires HostOk(host)
    ensures host != "" && (':' in host ==> All(host, HexColonDot)) && (':' !in host ==> All(host, PlainHost))
  {
    if ':' !in host { HostNamePlain(host); }
  }

  lemma HostAndPortOfPrinted(host: string, digits: string)
    requires HostOk(host) && digits != "" && All(digits, Digit)
    ensures HostAndPort(AuthorityOf(host, digits)) == Some((host, Some(digits)))
  {
    HostChars(host);
    if ':' in host {
      var authority := "[" + host + "]" + ":" + digits;
      assert authority == ("[" + host) + [']'] + (":" + digits);
      assert ']' !in "[" + host && ']' !in ":" + digits;
      SplitOnce("[" + host, ":" + digits, ']');
      assert ("[" + host)[1..] == host && (":" + digits)[1..] == digits;
    } else {
      var authority := host + ":" + digits;
      assert authority[0] == host[0];
      SplitOnce(host, digits, ':');
    }
  }

  lemma TrimKeeps(s: string)
    requires s != "" && !Space(s[0]) && !Space(s[|s| - 1])
    ensures TrimEnd(TrimStart(s)) == s
  {
  }

  lemma SchemeOfPrinted(p: Protocol, authority: string)
    ensures Scheme(SchemeText(p) + authority) == Some((if p == Ldaps then Ldaps else PlainLdap, authority))
  {
    var url := SchemeText(p) + authority;
    assert url[|SchemeText(p)|..] == authority;
    assert p != Ldaps ==> url[4] == ':';
  }

  lemma TrimPrinted(p: Protocol, authority: string)
    requires authority != "" && Digit(authority[|authority| - 1])
    ensures TrimEnd(TrimStart(SchemeText(p) + authority)) == SchemeText(p) + authority
  {
    var url := SchemeText(p) + authority;
    assert url[0] == SchemeText(p)[0] == 'l';
    assert url[|url| - 1] == authority[|authority| - 1];
    TrimKeeps(url);
  }

  lemma AuthorityChars(host: string, digits: string)
    requires HostOk(host) && digits != "" && All(digits, Digit)
    ensures var a := AuthorityOf(host, digits);
            a != "" && Digit(a[|a| - 1]) && All(a, (c: char) => c !in {'/', '?', '#'}) && '@' !in a
  {
    HostChars(host);
    var a := AuthorityOf(host, digits);
    forall i | 0 <= i < |a| ensures a[i] !in {'/', '?', '#', '@'} {
      assert a[i] in host || a[i] in digits || a[i] in {'[', ']', ':'};
    }
  }

  lemma AuthorityOfPrinted(t: Target, protocol: Protocol, number: string -> Option<int>)
    requires HostOk(t.host) && 1 <= t.port <= 65535
    ensures ParseAuthority(protocol, AuthorityOf(t.host, Decimal(t.port)), number) == Some(t.(protocol := protocol))
  {
    DecimalDigits(t.port);
    AuthorityChars(t.host, Decimal(t.port));
    HostAndPortOfPrinted(t.host, Decimal(t.port));
    PortOfPrinted(t.port, protocol, number);
  }

  lemma ParseSteps(p: Protocol, authority: string, number: string -> Option<int>)
    requires authority != "" && Digit(authority[|authority| - 1])
    ensures Parse(SchemeText(p) + authority, number)
            == ParseAuthority(if p == Ldaps then Ldaps else PlainLdap, authority, number)
  {
    TrimPrinted(p, authority);
    SchemeOfPrinted(p, authority);
  }

  /** Printing a valid target and parsing the URL gives the target back; STARTTLS reads back as plain `ldap`. */
  lemma PrintedUrlParsesBack(t: Target, number: string -> Option<int>)
    requires HostOk(t.host) && 1 <= t.port <= 65535
    ensures Parse(UrlOf(t), number) == Some(t.(protocol := if t.protocol == Ldaps then Ldaps else PlainLdap))
  {
    var digits := Decimal(t.port);
    DecimalDigits(t.port);
    AuthorityChars(t.host, digits);
    ParseSteps(t.protocol, AuthorityOf(t.host, digits), number);
    AuthorityOfPrinted(t, if t.protocol == Ldaps then Ldaps else PlainLdap, number);
  }

  lemma PortOfPrinted(port: int, protocol: Protocol, number: string -> Option<int>)
    requires 1 <= port <= 65535
    ensures PortOf(Some(Decimal(port)), protocol, number) == Some(port)
  {
    DecimalDigits(port);
  }

  /** What was parsed prints to a normal form: parsing it again changes nothing. */
  lemma ParsedUrlIsNormal(url: string, number: string -> Option<int>)
    requires Parse(url, number).Some?
    ensures var t := Parse(url, number).value; Parse(UrlOf(t), number) == Some(t)
  {
    PrintedUrlParsesBack(Parse(url, number).value, number);
  }

  /** Two valid targets that print alike are alike, STARTTLS and plain `ldap` aside. */
  lemma UrlsIdentifyTargets(a: Target, b: Target)
    requires HostOk(a.host) && 1 <= a.port <= 65535 && HostOk(b.host) && 1 <= b.port <= 65535
    requires UrlOf(a) == UrlOf(b)
    ensures a.host == b.host && a.port == b.port && (a.protocol == Ldaps <==> b.protocol == Ldaps)
  {
    var number := (s: string) => None;
    PrintedUrlParsesBack(a, number);
    PrintedUrlParsesBack(b, number);
  }

  // ---- what else parses ----

  lemma {:induction false} TrimStartSpaces(pre: string, s: string)
    requires All(pre, Space) && s != "" && !Space(s[0])
    ensures TrimStart(pre + s) == s
    decreases |pre|
  {
    if pre == "" {
      assert pre + s == s;
    } else {
      assert (pre + s)[0] == pre[0] && (pre + s)[1..] == pre[1..] + s;
      TrimStartSpaces(pre[1..], s);
    }
  }

  lemma {:induction false} TrimEndSpaces(s: string, post: string)
    requires All(post, Space) && s != "" && !Space(s[|s| - 1])
    ensures TrimEnd(s + post) == s
    decreases |post|
  {
    if post == "" {
      assert s + post == s;
    } else {
      var front := post[..|post| - 1];
      assert (s + post)[|s + post| - 1] == post[|post| - 1] && (s + post)[..|s + post| - 1] == s + front;
      TrimEndSpaces(s, front);
    }
  }

  /** White space around a URL is ignored. */
  lemma SpacesIgnored(pre: string, url: string, post: string, number: string -> Option<int>)
    requires All(pre, Space) && All(post, Space) && url != "" && !Space(url[0]) && !Space(url[|url| - 1])
    ensures Parse(pre + url + post, number) == Parse(url, number)
  {
    assert pre + url + post == pre + (url + post) && (url + post)[0] == url[0];
    TrimStartSpaces(pre, url + post);
    TrimEndSpaces(url, post);
    TrimKeeps(url);
  }

  /** So is a slash at its end. */
  lemma SlashIgnored(t: Target, number: string -> Option<int>)
    requires HostOk(t.host) && 1 <= t.port <= 65535
    ensures Parse(UrlOf(t) + "/", number) == Some(t.(protocol := if t.protocol == Ldaps then Ldaps else PlainLdap))
  {
    var authority := AuthorityOf(t.host, Decimal(t.port));
    SlashAfter(t.protocol, authority);
    SchemeOfPrinted(t.protocol, authority + "/");
    AuthorityOfPrinted(t, if t.protocol == Ldaps then Ldaps else PlainLdap, number);
  }

  lemma SlashAfter(p: Protocol, authority: string)
    ensures var url := SchemeText(p) + authority + "/";
            TrimEnd(TrimStart(url)) == url && url == SchemeText(p) + (authority + "/")
    ensures WithoutSlash(authority + "/") == authority
  {
    var url := SchemeText(p) + authority + "/";
    assert url[0] == SchemeText(p)[0] && url[|url| - 1] == '/';
    TrimKeeps(url);
  }

  /** Without a port the protocol's own is meant: 636 for `ldaps`, 389 for `ldap`. */
  lemma PortByProtocol(host: string, number: string -> Option<int>)
    requires HostOk(host) && ':' !in host
    ensures Parse("ldaps://" + host, number) == Some(Target(host, 636, Ldaps))
    ensures Parse("ldap://" + host, number) == Some(Target(host, 389, PlainLdap))
  {
    BareHost(host, Ldaps, number);
    BareHost(host, PlainLdap, number);
    TrimKeeps("ldaps://" + host);
    TrimKeeps("ldap://" + host);
    SchemeOfPrinted(Ldaps, host);
    SchemeOfPrinted(PlainLdap, host);
  }

  lemma BareHost(host: string, protocol: Protocol, number: string -> Option<int>)
    requires HostOk(host) && ':' !in host
    ensures host != "" && !Space(host[|host| - 1]) && WithoutSlash(host) == host
    ensures ParseAuthority(protocol, host, number)
            == Some(Target(host, if protocol == Ldaps then 636 else 389, protocol))
  {
    HostChars(host);
    assert PlainHost(host[|host| - 1]);
    forall i | 0 <= i < |host| ensures host[i] !in {'/', '?', '#', '@', ']', '['} { assert PlainHost(host[i]); }
    SplitNowhere(host, ':');
  }

  /** Whatever is parsed is a valid target. */
  lemma ParsedIsValid(url: string, number: string -> Option<int>)
    requires Parse(url, number).Some?
    ensures var t := Parse(url, number).value; HostOk(t.host) && 1 <= t.port <= 65535 && t.protocol != StartTls
  {
  }

  // ---- which hosts are accepted ----

  lemma {:induction false} SplitCons(a: string, b: string, at: char)
    requires at !in a
    ensures Split(a + [at] + b, at) == [a] + Split(b, at)
    decreases |a|
  {
    var s := a + [at] + b;
    if a == "" {
      assert s[0] == at && s[1..] == b;
    } else {
      assert s[0] == a[0] && s[1..] == a[1..] + [at] + b;
      assert a[0] in a && forall c | c in a[1..] :: c in a;
      SplitCons(a[1..], b, at);
      assert [a[0]] + a[1..] == a;
    }
  }

  lemma SchemeHasColon(s: string)
    requires HasScheme(s)
    ensures ':' in s
  {
    var k :| 1 <= k <= |s| && k + 3 <= |s| && s[k..k + 3] == "://";
    assert s[k] == s[k..k + 3][0];
  }

  /** A name without colons is a host exactly when it is labels joined by dots, with a dot at the end or not. */
  lemma PlainHostsExactly(host: string)
    requires ':' !in host
    ensures HostOk(host) <==> HostName(host)
  {
    assert Split("", '.') == [""] && LabelsIn([""])[0] == "";
    if HostName(host) {
      HostNamePlain(host);
      forall i | 0 <= i < |host|
        ensures !Space(host[i]) && host[i] !in {'/', '\\', '@', '?', '#', '['}
      {
        assert PlainHost(host[i]);
      }
      if HasScheme(host) { SchemeHasColon(host); }
      assert host != "" ==> host[0] in host;
    }
  }

  /** One label: letters, digits and hyphens, with no hyphen first or last. */
  lemma SingleLabels(s: string)
    requires '.' !in s
    ensures HostName(s) <==>
              && s != "" && s[0] != '-' && s[|s| - 1] != '-'
              && forall i | 0 <= i < |s| ::
                   'a' <= s[i] <= 'z' || 'A' <= s[i] <= 'Z' || '0' <= s[i] <= '9' || s[i] == '-'
  {
    OneLabel(s);
    if Label(s) {
      forall i | 0 <= i < |s| ensures Alnum(s[i]) || s[i] == '-' {
      }
    }
  }

  lemma OneLabel(s: string)
    requires '.' !in s
    ensures HostName(s) <==> Label(s)
  {
    SplitNowhere(s, '.');
    assert LabelsIn([s]) == [s] && [s][0] == s;
  }

  /** And a label in front of a dot, with nothing or a host name after it. */
  lemma JoinedLabels(a: string, b: string)
    requires '.' !in a
    ensures HostName(a + "." + b) <==> HostName(a) && (b == "" || HostName(b))
  {
    OneLabel(a);
    SplitCons(a, b, '.');
    LabelsBehind(a, b);
    assert a + "." + b == a + ['.'] + b;
    LabelsCons(a, LabelsIn(Split(b, '.')));
    LabelsCons(a, []);
    assert [a] + [] == [a];
  }

  lemma LabelsCons(a: string, rest: seq<string>)
    ensures AllLabels([a] + rest) <==> Label(a) && AllLabels(rest)
  {
    var all := [a] + rest;
    assert all[0] == a;
    assert forall i | 0 <= i < |rest| :: all[i + 1] == rest[i];
    assert forall i | 1 <= i < |all| :: all[i] == rest[i - 1];
  }

  /** The labels of a name behind a dot are the label and those of the rest. */
  lemma LabelsBehind(a: string, b: string)
    ensures LabelsIn([a] + Split(b, '.')) == if b == "" then [a] else [a] + LabelsIn(Split(b, '.'))
  {
    var rest := Split(b, '.');
    if b != "" && |rest| == 1 { SplitAlone(b, '.'); }
    WithoutLast(a, rest);
  }

  lemma WithoutLast(a: string, rest: seq<string>)
    requires rest != []
    ensures ([a] + rest)[..|rest|] == [a] + rest[..|rest| - 1] && ([a] + rest)[|rest|] == rest[|rest| - 1]
  {
  }

  lemma {:induction false} SplitAlone(s: string, at: char)
    requires |Split(s, at)| == 1
    ensures Split(s, at)[0] == s
  {
    if s != "" {
      SplitAlone(s[1..], at);
      assert [s[0]] + s[1..] == s;
    }
  }

  predicate TwoOf(s: string, c: char) {
    exists i, j | 0 <= i < j < |s| :: s[i] == c && s[j] == c
  }

  lemma {:induction false} SplitInTwo(s: string, at: char)
    ensures |Split(s, at)| >= 2 <==> at in s
  {
    if s != "" {
      SplitInTwo(s[1..], at);
      assert at in s <==> s[0] == at || at in s[1..];
    }
  }

  lemma {:induction false} SplitInThree(s: string, at: char)
    ensures |Split(s, at)| >= 3 <==> TwoOf(s, at)
  {
    if s != "" {
      SplitInTwo(s[1..], at);
      SplitInThree(s[1..], at);
      TwoOfRest(s, at);
    }
  }

  lemma TwoOfRest(s: string, c: char)
    requires s != ""
    ensures TwoOf(s, c) <==> TwoOf(s[1..], c) || (s[0] == c && c in s[1..])
  {
    if TwoOf(s[1..], c) {
      var i, j :| 0 <= i < j < |s[1..]| && s[1..][i] == c && s[1..][j] == c;
      assert s[i + 1] == c && s[j + 1] == c;
    }
    if s[0] == c && c in s[1..] {
      var j :| 0 <= j < |s[1..]| && s[1..][j] == c;
      assert s[0] == c && s[j + 1] == c;
    }
    if TwoOf(s, c) {
      var i, j :| 0 <= i < j < |s| && s[i] == c && s[j] == c;
      assert s[1..][j - 1] == c && (i > 0 ==> s[1..][i - 1] == c);
    }
  }

  /** A name with colons is a host exactly when it could be an address: two of them, and hexadecimal digits and dots. */
  lemma AddressesExactly(host: string)
    requires ':' in host
    ensures HostOk(host) <==>
              && TwoOf(host, ':')
              && forall i | 0 <= i < |host| ::
                   '0' <= host[i] <= '9' || 'a' <= host[i] <= 'f' || 'A' <= host[i] <= 'F' || host[i] in {':', '.'}
  {
    SplitInThree(host, ':');
    if All(host, HexColonDot) {
      forall i | 0 <= i < |host| ensures !Space(host[i]) && host[i] !in {'/', '\\', '@', '?', '#', '['} {
        assert HexColonDot(host[i]);
      }
      if HasScheme(host) { SchemeHasSlash(host); }
    }
  }

  lemma SchemeHasSlash(s: string)
    requires HasScheme(s)
    ensures '/' in s
  {
    var k :| 1 <= k <= |s| && k + 3 <= |s| && s[k..k + 3] == "://";
    assert s[k + 1] == s[k..k + 3][1];
  }

  // ---- upgrading a stored row ----

  /** A JSON value as far as the upgrade looks at it. */
  datatype Field = Null | Text(text: string) | Number(value: int) | Other

  type Settings = map<string, Field>

  function ProtocolText(p: Protocol): string {
    match p
    case Ldaps => "ldaps"
    case StartTls => "starttls"
    case PlainLdap => "ldap"
  }

  /** `??=`: a null counts as missing. */
  function Coalesce(s: Settings, key: string, value: Field): Settings {
    if key in s && s[key] != Null then s else s[key := value]
  }

  predicate FilledText(s: Settings, key: string) {
    key in s && s[key].Text? && s[key].text != ""
  }

  function KnownPort(protocol: string): Option<int> {
    if protocol == "ldaps" then Some(636) else if protocol in {"starttls", "ldap"} then Some(389) else None
  }

  function UrlUpgraded(s: Settings, number: string -> Option<int>): Settings {
    (if "host" !in s && "url" in s && s["url"].Text? then
       match Parse(s["url"].text, number)
       case None => s
       case Some(t) =>
         Coalesce(Coalesce(s["host" := Text(t.host)], "port", Number(t.port)), "protocol",
             Text(ProtocolText(t.protocol)))
     else s) - {"url"}
  }

  function DialectUpgraded(s: Settings): Settings {
    if "detectedDialect" !in s && "dialect" in s && s["dialect"].Text? then s["detectedDialect" := s["dialect"]] else s
  }

  function BindUpgraded(s: Settings, passwordHeld: Option<bool>): Settings {
    if "bindType" in s then s
    else
      var hasPassword := if passwordHeld.Some? then passwordHeld.value else FilledText(s, "bindPassword");
      s["bindType" := Text(if FilledText(s, "bindDn") && hasPassword then "regular" else "anonymous")]
  }

  function PortUpgraded(s: Settings): Settings {
    if "port" !in s && "protocol" in s && s["protocol"].Text? && KnownPort(s["protocol"].text).Some?
    then s["port" := Number(KnownPort(s["protocol"].text).value)] else s
  }

  function Upgrade(s: Settings, passwordHeld: Option<bool>, number: string -> Option<int>): Settings {
    PortUpgraded(BindUpgraded(DialectUpgraded(UrlUpgraded(s, number)), passwordHeld))
  }

  /** Upgrading twice, whatever is said about the password the second time, is upgrading once. */
  lemma UpgradeTwice(s: Settings, held: Option<bool>, heldLater: Option<bool>, number: string -> Option<int>)
    ensures Upgrade(Upgrade(s, held, number), heldLater, number) == Upgrade(s, held, number)
  {
    var once := Upgrade(s, held, number);
    assert "url" !in once && "bindType" in once;
    assert once - {"url"} == once;
  }

  predicate TextIn(s: Settings, key: string) {
    key in s && s[key].Text?
  }

  /** Reading the URL decides nothing but the address. */
  lemma UrlLeaves(s: Settings, number: string -> Option<int>, key: string)
    requires key !in {"url", "host", "port", "protocol"}
    ensures var u := UrlUpgraded(s, number);
            "url" !in u && (key in u <==> key in s) && (key in s ==> u[key] == s[key])
  {
  }

  /** No step after it touches a field that is none of its business. */
  lemma StepsLeave(s: Settings, held: Option<bool>, key: string)
    requires key !in {"bindType", "detectedDialect", "port"}
    ensures var u := PortUpgraded(BindUpgraded(DialectUpgraded(s), held));
            (key in u <==> key in s) && (key in s ==> u[key] == s[key])
  {
  }

  /** What is not part of the address, the bind or the dialect is as it was, and the URL is gone. */
  lemma UpgradeLeaves(s: Settings, held: Option<bool>, number: string -> Option<int>, key: string)
    ensures "url" !in Upgrade(s, held, number)
    ensures key !in {"url", "bindType", "detectedDialect", "host", "port", "protocol"} ==>
              var u := Upgrade(s, held, number); (key in u <==> key in s) && (key in s ==> u[key] == s[key])
  {
    StepsLeave(UrlUpgraded(s, number), held, "url");
    if key !in {"url", "bindType", "detectedDialect", "host", "port", "protocol"} {
      UrlLeaves(s, number, key);
      StepsLeave(UrlUpgraded(s, number), held, key);
    }
  }

  /** A bind type is kept; a missing one is `regular` exactly with a DN and a password, held or in the row. */
  lemma UpgradedBind(s: Settings, held: Option<bool>, number: string -> Option<int>)
    ensures var u := Upgrade(s, held, number);
            && "bindType" in u
            && ("bindType" in s ==> u["bindType"] == s["bindType"])
            && ("bindType" !in s ==>
                  u["bindType"] == Text(
                    if TextIn(s, "bindDn") && s["bindDn"] != Text("")
                       && (held == Some(true)
                           || (held == None && TextIn(s, "bindPassword") && s["bindPassword"] != Text("")))
                    then "regular" else "anonymous"))
  {
    UrlLeaves(s, number, "bindType");
    UrlLeaves(s, number, "bindDn");
    UrlLeaves(s, number, "bindPassword");
  }

  /** A dialect given as text becomes the detected one, unless one was detected already. */
  lemma UpgradedDialect(s: Settings, held: Option<bool>, number: string -> Option<int>)
    ensures var u := Upgrade(s, held, number);
            && ("detectedDialect" in u <==> "detectedDialect" in s || TextIn(s, "dialect"))
            && ("detectedDialect" in u ==>
                  u["detectedDialect"] == if "detectedDialect" in s then s["detectedDialect"] else s["dialect"])
  {
    UrlLeaves(s, number, "detectedDialect");
    UrlLeaves(s, number, "dialect");
  }

  /** The address of a row with a host, or whose URL says nothing, is kept. */
  lemma UpgradedAddress(s: Settings, held: Option<bool>, number: string -> Option<int>, key: string)
    requires "host" in s || !TextIn(s, "url") || Parse(s["url"].text, number) == None
    requires key in {"host", "protocol"} || (key == "port" && "port" in s)
    ensures var u := Upgrade(s, held, number); (key in u <==> key in s) && (key in s ==> u[key] == s[key])
  {
    assert UrlUpgraded(s, number) == s - {"url"};
    if key != "port" { StepsLeave(UrlUpgraded(s, number), held, key); }
  }

  /** But for a missing port, which its protocol decides. */
  lemma UpgradedPort(s: Settings, held: Option<bool>, number: string -> Option<int>)
    requires "host" in s || !TextIn(s, "url") || Parse(s["url"].text, number) == None
    requires "port" !in s
    ensures var u := Upgrade(s, held, number);
            && ("port" in u <==>
                  "protocol" in s && s["protocol"] in {Text("ldaps"), Text("starttls"), Text("ldap")})
            && ("port" in u ==> u["port"] == Number(if s["protocol"] == Text("ldaps") then 636 else 389))
  {
    assert UrlUpgraded(s, number) == s - {"url"};
  }

  /** A row without a host takes it from its URL, and port and protocol unless it has its own that are not null. */
  lemma UpgradedFromUrl(s: Settings, t: Target, held: Option<bool>, number: string -> Option<int>)
    requires "host" !in s && TextIn(s, "url") && Parse(s["url"].text, number) == Some(t)
    ensures var u := Upgrade(s, held, number);
            && "host" in u && u["host"] == Text(t.host)
            && "port" in u && u["port"] == (if "port" in s && s["port"] != Null then s["port"] else Number(t.port))
            && "protocol" in u
            && u["protocol"] == (if "protocol" in s && s["protocol"] != Null then s["protocol"]
                                 else Text(if t.protocol == Ldaps then "ldaps" else "ldap"))
  {
    ParsedIsValid(s["url"].text, number);
    var u := UrlUpgraded(s, number);
    assert "port" in u;
    StepsLeave(u, held, "host");
    StepsLeave(u, held, "protocol");
  }

  /** The upgrade takes host, port and protocol from a URL that parses, when the row has none of its own. */
  lemma UpgradeReadsUrl(s: Settings, t: Target, held: Option<bool>, number: string -> Option<int>)
    requires "url" in s && s["url"].Text? && Parse(s["url"].text, number) == Some(t)
    requires "host" !in s && "port" !in s && "protocol" !in s
    ensures var u := Upgrade(s, held, number);
            && "host" in u && u["host"] == Text(t.host)
            && "port" in u && u["port"] == Number(t.port)
            && "protocol" in u && u["protocol"] == Text(ProtocolText(t.protocol))
            && "url" !in u
  {
    UrlFields(s, t, number);
    var u := UrlUpgraded(s, number);
    KeepsFields(u, held);
  }

  lemma UrlFields(s: Settings, t: Target, number: string -> Option<int>)
    requires "url" in s && s["url"].Text? && Parse(s["url"].text, number) == Some(t)
    requires "host" !in s && "port" !in s && "protocol" !in s
    ensures var u := UrlUpgraded(s, number);
            && "host" in u && u["host"] == Text(t.host)
            && "port" in u && u["port"] == Number(t.port)
            && "protocol" in u && u["protocol"] == Text(ProtocolText(t.protocol))
            && "url" !in u
  {
  }

  /** What comes after reading the URL leaves the address alone. */
  lemma KeepsFields(u: Settings, held: Option<bool>)
    requires "port" in u
    ensures var r := PortUpgraded(BindUpgraded(DialectUpgraded(u), held));
            forall key | key in ["host", "port", "protocol", "url"] ::
              (key in r <==> key in u) && (key in u ==> r[key] == u[key])
  {
  }

  /** A row that carries the printed URL of a target upgrades to that target. */
  lemma UpgradeReadsPrintedUrl(s: Settings, t: Target, held: Option<bool>, number: string -> Option<int>)
    requires HostOk(t.host) && 1 <= t.port <= 65535 && t.protocol != StartTls
    requires "host" !in s && "port" !in s && "protocol" !in s && "url" in s && s["url"] == Text(UrlOf(t))
    ensures var u := Upgrade(s, held, number);
            && "host" in u && u["host"] == Text(t.host)
            && "port" in u && u["port"] == Number(t.port)
            && "protocol" in u && u["protocol"] == Text(if t.protocol == Ldaps then "ldaps" else "ldap")
            && "url" !in u
  {
    PrintedUrlParsesBack(t, number);
    UpgradeReadsUrl(s, t, held, number);
  }

  /** `parseLegacyLdapUrl`, with its local variables. */
  method ParseLegacyUrl(url: string, number: string -> Option<int>) returns (t: Option<Target>)
    ensures t == Parse(url, number)
  {
    var scheme := Scheme(TrimEnd(TrimStart(url)));
    if scheme == None { return None; }
    var (protocol, rest) := scheme.value;
    var authority := WithoutSlash(rest);
    if !All(authority, (c: char) => c !in {'/', '?', '#'}) || authority == "" || '@' in authority { return None; }
    var split := HostAndPort(authority);
    if split == None { return None; }
    var host, portText := split.value.0, split.value.1;
    var port := DefaultPort(protocol);
    if portText != None && portText.value != "" {
      var read := if All(portText.value, Digit) then Some(ValueOf(portText.value)) else number(portText.value);
      if read == None { return None; }
      port := read.value;
    }
    if port < 1 || port > 65535 { return None; }
    if HostProblemOf(host) != None { return None; }
    t := Some(Target(host, port, protocol));
  }

  /** `upgradeLegacyLdapSettings`: a copy of the row, edited field by field. */
  method UpgradeLegacySettings(raw: Settings, passwordHeld: Option<bool>, number: string -> Option<int>)
      returns (input: Settings)
    ensures input == Upgrade(raw, passwordHeld, number)
  {
    input := raw;
    if "host" !in input && "url" in input && input["url"].Text? {
      var parsed := ParseLegacyUrl(input["url"].text, number);
      if parsed.Some? {
        input := input["host" := Text(parsed.value.host)];
        if "port" !in input || input["port"] == Null { input := input["port" := Number(parsed.value.port)]; }
        if "protocol" !in input || input["protocol"] == Null {
          input := input["protocol" := Text(ProtocolText(parsed.value.protocol))];
        }
      }
    }
    input := input - {"url"};
    assert input == UrlUpgraded(raw, number);
    input := FillIn(input, passwordHeld);
  }

  /** The fields that do not come from the URL. */
  method FillIn(given: Settings, passwordHeld: Option<bool>) returns (input: Settings)
    ensures input == PortUpgraded(BindUpgraded(DialectUpgraded(given), passwordHeld))
  {
    input := given;
    if "detectedDialect" !in input && "dialect" in input && input["dialect"].Text? {
      input := input["detectedDialect" := input["dialect"]];
    }
    if "bindType" !in input {
      var hasDn := FilledText(input, "bindDn");
      var hasPassword := if passwordHeld.Some? then passwordHeld.value else FilledText(input, "bindPassword");
      input := input["bindType" := Text(if hasDn && hasPassword then "regular" else "anonymous")];
    }
    if "port" !in input && "protocol" in input && input["protocol"].Text? {
      var port := KnownPort(input["protocol"].text);
      if port.Some? { input := input["port" := Number(port.value)]; }
    }
  }
}
