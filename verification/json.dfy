/**
 * JSON values as the fact projection compares them
 * (apps/api/src/puppetdb/node-projection.service.ts, `stableStringify`).
 *
 * An object keeps its members in the order they arrived, because that order is what the
 * comparison has to be blind to. `Den` is the value with every object read as an unordered map.
 */
module Json {
  import opened Order

  datatype Value =
    | Null
    | Bool(b: bool)
    | Num(text: string)
    | Str(s: string)
    | Arr(items: seq<Value>)
    | Obj(members: seq<Member>)

  datatype Member = Member(key: string, value: Value)

  /** A JSON value with objects as unordered maps. */
  datatype Meaning =
    | MNull
    | MBool(b: bool)
    | MNum(text: string)
    | MStr(s: string)
    | MArr(items: seq<Meaning>)
    | MObj(fields: map<string, Meaning>)

  predicate NumberChar(c: char) {
    '0' <= c <= '9' || c == '-' || c == '+' || c == '.' || c == 'e' || c == 'E'
  }

  /** What JSON.stringify may print for a finite number. */
  predicate NumberText(t: string) {
    t != [] && ('0' <= t[0] <= '9' || t[0] == '-') && forall i | 0 <= i < |t| :: NumberChar(t[i])
  }

  predicate DistinctKeys(ms: seq<Member>) {
    forall i, j | 0 <= i < j < |ms| :: ms[i].key != ms[j].key
  }

  predicate WellFormed(v: Value) {
    match v
    case Num(t) => NumberText(t)
    case Arr(items) => forall i | 0 <= i < |items| :: WellFormed(items[i])
    case Obj(ms) => DistinctKeys(ms) && forall i | 0 <= i < |ms| :: WellFormed(ms[i].value)
    case _ => true
  }

  predicate WellFormedMembers(ms: seq<Member>) {
    DistinctKeys(ms) && forall i | 0 <= i < |ms| :: WellFormed(ms[i].value)
  }

  // ---- meaning ----

  function Den(v: Value): Meaning {
    match v
    case Null => MNull
    case Bool(b) => MBool(b)
    case Num(t) => MNum(t)
    case Str(s) => MStr(s)
    case Arr(items) => MArr(DenItems(items))
    case Obj(ms) => MObj(DenMembers(ms))
  }

  function DenItems(items: seq<Value>): seq<Meaning> {
    if items == [] then [] else [Den(items[0])] + DenItems(items[1..])
  }

  function DenMembers(ms: seq<Member>): map<string, Meaning> {
    if ms == [] then map[] else DenMembers(ms[1..])[ms[0].key := Den(ms[0].value)]
  }

  // ---- sizes, for termination through the sort ----

  function Size(v: Value): nat {
    match v
    case Arr(items) => 1 + SizeItems(items)
    case Obj(ms) => 1 + SizeMembers(ms)
    case _ => 1
  }

  function SizeItems(items: seq<Value>): nat {
    if items == [] then 0 else 1 + Size(items[0]) + SizeItems(items[1..])
  }

  function SizeMembers(ms: seq<Member>): nat {
    if ms == [] then 0 else 1 + Size(ms[0].value) + SizeMembers(ms[1..])
  }

  // ---- the canonical printer ----

  function InsertMember(m: Member, ms: seq<Member>): (r: seq<Member>)
    ensures SizeMembers(r) == 1 + Size(m.value) + SizeMembers(ms)
    ensures |r| == |ms| + 1
    ensures forall x :: x in r <==> x == m || x in ms
  {
    if ms == [] || Less(m.key, ms[0].key) then
      assert ([m] + ms)[1..] == ms;
      [m] + ms
    else
      var rest := InsertMember(m, ms[1..]);
      assert ([ms[0]] + rest)[1..] == rest;
      assert ms == [ms[0]] + ms[1..];
      [ms[0]] + rest
  }

  function SortMembers(ms: seq<Member>): (r: seq<Member>)
    ensures SizeMembers(r) == SizeMembers(ms)
    ensures |r| == |ms|
    ensures forall x :: x in r <==> x in ms
  {
    if ms == [] then [] else
      assert ms == [ms[0]] + ms[1..];
      InsertMember(ms[0], SortMembers(ms[1..]))
  }

  function HexDigit(n: nat): char
    requires n < 16
  {
    if n < 10 then '0' + (n as char) else 'a' + ((n - 10) as char)
  }

  /** One character inside a JSON string (RFC 8259, section 7), as JSON.stringify prints it. */
  function EscapeChar(c: char): string {
    if c == '"' then ['\\', '"']
    else if c == '\\' then ['\\', '\\']
    else if c == 8 as char then ['\\', 'b']
    else if c == 9 as char then ['\\', 't']
    else if c == 10 as char then ['\\', 'n']
    else if c == 12 as char then ['\\', 'f']
    else if c == 13 as char then ['\\', 'r']
    else if c < 32 as char then ['\\', 'u', '0', '0', HexDigit((c as int) / 16), HexDigit((c as int) % 16)]
    else [c]
  }

  function EscapeText(s: string): string {
    if s == [] then [] else EscapeChar(s[0]) + EscapeText(s[1..])
  }

  function Quote(s: string): string {
    ['"'] + EscapeText(s) + ['"']
  }

  function StableStringify(v: Value): string
    decreases Size(v)
  {
    match v
    case Null => "null"
    case Bool(b) => if b then "true" else "false"
    case Num(t) => t
    case Str(s) => Quote(s)
    case Arr(items) => "[" + JoinItems(items) + "]"
    case Obj(ms) => "{" + JoinMembers(SortMembers(ms)) + "}"
  }

  function JoinItems(items: seq<Value>): string
    decreases SizeItems(items)
  {
    if items == [] then ""
    else if |items| == 1 then StableStringify(items[0])
    else StableStringify(items[0]) + "," + JoinItems(items[1..])
  }

  function MemberText(m: Member): string
    decreases 1 + Size(m.value), 0
  {
    Quote(m.key) + ":" + StableStringify(m.value)
  }

  function JoinMembers(ms: seq<Member>): string
    decreases SizeMembers(ms), 1
  {
    if ms == [] then ""
    else if |ms| == 1 then MemberText(ms[0])
    else MemberText(ms[0]) + "," + JoinMembers(ms[1..])
  }

  /** The comparison the projector uses to decide whether facts changed. */
  predicate StableEquals(a: Value, b: Value) {
    StableStringify(a) == StableStringify(b)
  }

  // ---- printed text determines the value ----

  lemma Peel(c: char, x: string, d: char, y: string)
    requires [c] + x == [d] + y
    ensures c == d && x == y
  {
    assert ([c] + x)[0] == c && ([d] + y)[0] == d;
    assert ([c] + x)[1..] == x && ([d] + y)[1..] == y;
  }

  lemma Drop(p: string, x: string, y: string)
    requires p + x == p + y
    ensures x == y
  {
    assert (p + x)[|p|..] == x && (p + y)[|p|..] == y;
  }

  lemma EscapeCharPrefixFree(c: char, d: char, x: string, y: string)
    requires EscapeChar(c) + x == EscapeChar(d) + y
    ensures c == d && x == y
  {
    var p, q := EscapeChar(c), EscapeChar(d);
    assert (p + x)[0] == p[0] && (q + y)[0] == q[0];
    if p[0] == '\\' {
      assert (p + x)[1] == p[1] && (q + y)[1] == q[1];
      if p[1] == 'u' {
        assert (p + x)[4] == p[4] && (q + y)[4] == q[4];
        assert (p + x)[5] == p[5] && (q + y)[5] == q[5];
        assert c as int == d as int;
      }
    }
    assert c == d;
    Drop(p, x, y);
  }

  lemma EscapeUnfold(s: string, k: string)
    requires s != []
    ensures EscapeText(s) + k == EscapeChar(s[0]) + (EscapeText(s[1..]) + k)
  {
  }

  lemma {:induction false} QuoteTailInjective(s: string, t: string, x: string, y: string)
    requires EscapeText(s) + (['"'] + x) == EscapeText(t) + (['"'] + y)
    ensures s == t && x == y
    decreases |s|
  {
    var kx, ky := ['"'] + x, ['"'] + y;
    assert s == [] ==> EscapeText(s) + kx == kx;
    assert t == [] ==> EscapeText(t) + ky == ky;
    if s != [] { EscapeUnfold(s, kx); assert (EscapeText(s) + kx)[0] == EscapeChar(s[0])[0] != '"'; }
    if t != [] { EscapeUnfold(t, ky); assert (EscapeText(t) + ky)[0] == EscapeChar(t[0])[0] != '"'; }
    assert s == [] <==> t == [];
    if s == [] {
      Peel('"', x, '"', y);
    } else {
      EscapeCharPrefixFree(s[0], t[0], EscapeText(s[1..]) + kx, EscapeText(t[1..]) + ky);
      QuoteTailInjective(s[1..], t[1..], x, y);
      assert s == [s[0]] + s[1..] && t == [t[0]] + t[1..];
    }
  }

  lemma QuoteInjective(s: string, t: string, x: string, y: string)
    requires Quote(s) + x == Quote(t) + y
    ensures s == t && x == y
  {
    var l, r := EscapeText(s) + (['"'] + x), EscapeText(t) + (['"'] + y);
    assert Quote(s) + x == ['"'] + l && Quote(t) + y == ['"'] + r;
    Peel('"', l, '"', r);
    QuoteTailInjective(s, t, x, y);
  }

  /** What may come after a printed value inside a larger document. */
  predicate Follows(x: string) {
    x == [] || x[0] == ',' || x[0] == ']' || x[0] == '}'
  }

  lemma {:induction false} NumberInjective(s: string, t: string, x: string, y: string)
    requires forall i | 0 <= i < |s| :: NumberChar(s[i])
    requires forall i | 0 <= i < |t| :: NumberChar(t[i])
    requires Follows(x) && Follows(y)
    requires s + x == t + y
    ensures s == t && x == y
    decreases |s|
  {
    assert s == [] ==> s + x == x;
    assert t == [] ==> t + y == y;
    assert s != [] ==> (s + x)[0] == s[0];
    assert t != [] ==> (t + y)[0] == t[0];
    if s != [] {
      assert (s + x)[1..] == s[1..] + x && (t + y)[1..] == t[1..] + y;
      NumberInjective(s[1..], t[1..], x, y);
      assert s == [s[0]] + s[1..] && t == [t[0]] + t[1..];
    }
  }

  /** The first character of a printed value tells what kind of value it is. */
  function Lead(v: Value): char {
    match v
    case Null => 'n'
    case Bool(b) => if b then 't' else 'f'
    case Num(t) => if t == [] then '0' else t[0]
    case Str(_) => '"'
    case Arr(_) => '['
    case Obj(_) => '{'
  }

  lemma LeadIsFirst(v: Value, x: string)
    requires WellFormed(v)
    ensures StableStringify(v) + x != [] && (StableStringify(v) + x)[0] == Lead(v)
  {
  }

  function ItemsRest(a: seq<Value>, k: string): string
    requires a != []
  {
    if |a| == 1 then k else [','] + (JoinItems(a[1..]) + k)
  }

  function MembersRest(a: seq<Member>, k: string): string
    requires a != []
  {
    if |a| == 1 then k else [','] + (JoinMembers(a[1..]) + k)
  }

  lemma ItemsUnfold(a: seq<Value>, k: string)
    requires a != []
    ensures JoinItems(a) + k == StableStringify(a[0]) + ItemsRest(a, k)
  {
  }

  lemma MembersUnfold(a: seq<Member>, k: string)
    requires a != []
    ensures JoinMembers(a) + k == Quote(a[0].key) + ([':'] + (StableStringify(a[0].value) + MembersRest(a, k)))
  {
    var q, v := Quote(a[0].key), StableStringify(a[0].value);
    assert (q + [':'] + v) + MembersRest(a, k) == q + ([':'] + (v + MembersRest(a, k)));
  }

  lemma Unwrap(a: Value, x: string)
    ensures a.Arr? ==> StableStringify(a) + x == ['['] + (JoinItems(a.items) + ([']'] + x))
    ensures a.Obj? ==> StableStringify(a) + x == ['{'] + (JoinMembers(SortMembers(a.members)) + (['}'] + x))
  {
  }

  /** A printed value, followed by a delimiter, determines the value up to member order. */
  lemma {:induction false} PrintInjective(a: Value, b: Value, x: string, y: string)
    requires WellFormed(a) && WellFormed(b) && Follows(x) && Follows(y)
    requires StableStringify(a) + x == StableStringify(b) + y
    ensures Den(a) == Den(b) && x == y
    decreases Size(a), 1
  {
    LeadIsFirst(a, x);
    LeadIsFirst(b, y);
    assert Lead(a) == Lead(b);
    Unwrap(a, x);
    Unwrap(b, y);
    match a {
      case Null =>
        Drop("null", x, y);
      case Bool(p) =>
        Drop(StableStringify(a), x, y);
      case Num(s) =>
        NumberInjective(s, b.text, x, y);
      case Str(s) =>
        QuoteInjective(s, b.s, x, y);
      case Arr(items) =>
        Peel('[', JoinItems(items) + ([']'] + x), '[', JoinItems(b.items) + ([']'] + y));
        ItemsInjective(items, b.items, x, y);
      case Obj(ms) =>
        var p, q := SortMembers(ms), SortMembers(b.members);
        Peel('{', JoinMembers(p) + (['}'] + x), '{', JoinMembers(q) + (['}'] + y));
        SortKeepsMeaning(ms);
        SortKeepsMeaning(b.members);
        MembersInjective(p, q, x, y);
    }
  }

  lemma {:induction false} ItemsInjective(a: seq<Value>, b: seq<Value>, x: string, y: string)
    requires forall i | 0 <= i < |a| :: WellFormed(a[i])
    requires forall i | 0 <= i < |b| :: WellFormed(b[i])
    requires JoinItems(a) + ([']'] + x) == JoinItems(b) + ([']'] + y)
    ensures DenItems(a) == DenItems(b) && x == y
    decreases SizeItems(a), 0
  {
    var kx, ky := [']'] + x, [']'] + y;
    assert a == [] ==> JoinItems(a) + kx == kx;
    assert b == [] ==> JoinItems(b) + ky == ky;
    if a != [] { ItemsUnfold(a, kx); LeadIsFirst(a[0], ItemsRest(a, kx)); }
    if b != [] { ItemsUnfold(b, ky); LeadIsFirst(b[0], ItemsRest(b, ky)); }
    assert a == [] <==> b == [];
    if a == [] {
      Peel(']', x, ']', y);
    } else {
      PrintInjective(a[0], b[0], ItemsRest(a, kx), ItemsRest(b, ky));
      assert ItemsRest(a, kx)[0] == (if |a| == 1 then ']' else ',');
      assert ItemsRest(b, ky)[0] == (if |b| == 1 then ']' else ',');
      if |a| == 1 {
        Peel(']', x, ']', y);
      } else {
        Peel(',', JoinItems(a[1..]) + kx, ',', JoinItems(b[1..]) + ky);
        ItemsInjective(a[1..], b[1..], x, y);
      }
    }
  }

  lemma {:induction false} MembersInjective(a: seq<Member>, b: seq<Member>, x: string, y: string)
    requires WellFormedMembers(a) && WellFormedMembers(b)
    requires JoinMembers(a) + (['}'] + x) == JoinMembers(b) + (['}'] + y)
    ensures DenMembers(a) == DenMembers(b) && x == y
    decreases SizeMembers(a), 0
  {
    var kx, ky := ['}'] + x, ['}'] + y;
    assert a == [] ==> JoinMembers(a) + kx == kx;
    assert b == [] ==> JoinMembers(b) + ky == ky;
    if a != [] { MembersUnfold(a, kx); assert (JoinMembers(a) + kx)[0] == '"'; }
    if b != [] { MembersUnfold(b, ky); assert (JoinMembers(b) + ky)[0] == '"'; }
    assert a == [] <==> b == [];
    if a == [] {
      Peel('}', x, '}', y);
    } else {
      HeadMemberInjective(a, b, kx, ky);
      assert MembersRest(a, kx)[0] == (if |a| == 1 then '}' else ',');
      assert MembersRest(b, ky)[0] == (if |b| == 1 then '}' else ',');
      if |a| == 1 {
        Peel('}', x, '}', y);
      } else {
        Peel(',', JoinMembers(a[1..]) + kx, ',', JoinMembers(b[1..]) + ky);
        MembersInjective(a[1..], b[1..], x, y);
      }
    }
  }

  lemma {:induction false} HeadMemberInjective(a: seq<Member>, b: seq<Member>, kx: string, ky: string)
    requires a != [] && b != [] && WellFormed(a[0].value) && WellFormed(b[0].value)
    requires kx != [] && kx[0] == '}' && ky != [] && ky[0] == '}'
    requires JoinMembers(a) + kx == JoinMembers(b) + ky
    ensures a[0].key == b[0].key && Den(a[0].value) == Den(b[0].value)
    ensures MembersRest(a, kx) == MembersRest(b, ky)
    decreases SizeMembers(a), 0, 0
  {
    MembersUnfold(a, kx);
    MembersUnfold(b, ky);
    var u := StableStringify(a[0].value) + MembersRest(a, kx);
    var w := StableStringify(b[0].value) + MembersRest(b, ky);
    QuoteInjective(a[0].key, b[0].key, [':'] + u, [':'] + w);
    Peel(':', u, ':', w);
    PrintInjective(a[0].value, b[0].value, MembersRest(a, kx), MembersRest(b, ky));
  }

  // ---- sorting the members changes neither meaning nor well-formedness ----

  predicate KeySorted(ms: seq<Member>) {
    forall i, j | 0 <= i < j < |ms| :: Less(ms[i].key, ms[j].key)
  }

  lemma UpdatesCommute<K, V>(m: map<K, V>, a: K, x: V, b: K, y: V)
    requires a != b
    ensures m[a := x][b := y] == m[b := y][a := x]
  {
  }

  lemma {:induction false} InsertKeepsMeaning(m: Member, ms: seq<Member>)
    requires forall x | x in ms :: x.key != m.key
    ensures DenMembers(InsertMember(m, ms)) == DenMembers(ms)[m.key := Den(m.value)]
    decreases |ms|
  {
    if ms == [] || Less(m.key, ms[0].key) {
      assert InsertMember(m, ms)[1..] == ms;
    } else {
      assert InsertMember(m, ms)[1..] == InsertMember(m, ms[1..]);
      InsertKeepsMeaning(m, ms[1..]);
      assert ms[0] in ms;
      UpdatesCommute(DenMembers(ms[1..]), m.key, Den(m.value), ms[0].key, Den(ms[0].value));
    }
  }

  lemma {:induction false} InsertSorted(m: Member, ms: seq<Member>)
    requires KeySorted(ms)
    requires forall x | x in ms :: x.key != m.key
    ensures KeySorted(InsertMember(m, ms))
    decreases |ms|
  {
    var r := InsertMember(m, ms);
    if ms == [] {
    } else if Less(m.key, ms[0].key) {
      forall i, j | 0 <= i < j < |r| ensures Less(r[i].key, r[j].key) {
        if i == 0 && j > 1 { LessTrans(m.key, ms[0].key, ms[j - 1].key); }
      }
    } else {
      InsertSorted(m, ms[1..]);
      LessTotal(m.key, ms[0].key);
      var rest := InsertMember(m, ms[1..]);
      forall i, j | 0 <= i < j < |r| ensures Less(r[i].key, r[j].key) {
        if i == 0 {
          assert rest[j - 1] in rest;
          if rest[j - 1] != m {
            var k :| 0 <= k < |ms[1..]| && ms[1..][k] == rest[j - 1];
            assert ms[k + 1] == rest[j - 1];
          }
        } else {
          assert r[i] == rest[i - 1] && r[j] == rest[j - 1];
        }
      }
    }
  }

  lemma {:induction false} SortKeepsMeaning(ms: seq<Member>)
    requires WellFormedMembers(ms)
    ensures DenMembers(SortMembers(ms)) == DenMembers(ms)
    ensures KeySorted(SortMembers(ms)) && WellFormedMembers(SortMembers(ms))
    decreases |ms|
  {
    if ms != [] {
      var tail := SortMembers(ms[1..]);
      SortKeepsMeaning(ms[1..]);
      forall x | x in tail ensures x.key != ms[0].key {
        var k :| 0 <= k < |ms[1..]| && ms[1..][k] == x;
        assert ms[k + 1] == x;
      }
      InsertKeepsMeaning(ms[0], tail);
      InsertSorted(ms[0], tail);
    }
    var r := SortMembers(ms);
    forall i, j | 0 <= i < j < |r| ensures r[i].key != r[j].key { LessIrreflexive(r[i].key); }
    forall i | 0 <= i < |r| ensures WellFormed(r[i].value) {
      assert r[i] in r;
      var k :| 0 <= k < |ms| && ms[k] == r[i];
    }
  }

  // ---- values that mean the same print the same ----

  lemma {:induction false} DenDomain(ms: seq<Member>, k: string)
    ensures k in DenMembers(ms) <==> exists i :: 0 <= i < |ms| && ms[i].key == k
    decreases |ms|
  {
    if ms != [] {
      DenDomain(ms[1..], k);
      if k in DenMembers(ms[1..]) {
        var i :| 0 <= i < |ms[1..]| && ms[1..][i].key == k;
        assert ms[i + 1].key == k;
      }
      if i :| 0 <= i < |ms| && ms[i].key == k && i > 0 {
        assert ms[1..][i - 1].key == k;
      }
    }
  }

  lemma {:induction false} SamePrint(a: Value, b: Value)
    requires WellFormed(a) && WellFormed(b) && Den(a) == Den(b)
    ensures StableStringify(a) == StableStringify(b)
    decreases Size(a), 1
  {
    match a {
      case Arr(items) =>
        SamePrintItems(items, b.items);
      case Obj(ms) =>
        SortKeepsMeaning(ms);
        SortKeepsMeaning(b.members);
        SamePrintMembers(SortMembers(ms), SortMembers(b.members));
      case _ =>
    }
  }

  lemma {:induction false} SamePrintItems(a: seq<Value>, b: seq<Value>)
    requires forall i | 0 <= i < |a| :: WellFormed(a[i])
    requires forall i | 0 <= i < |b| :: WellFormed(b[i])
    requires DenItems(a) == DenItems(b)
    ensures JoinItems(a) == JoinItems(b) && |a| == |b|
    decreases SizeItems(a), 0
  {
    if a != [] && b != [] {
      assert DenItems(a)[0] == Den(a[0]) && DenItems(b)[0] == Den(b[0]);
      assert DenItems(a)[1..] == DenItems(a[1..]) && DenItems(b)[1..] == DenItems(b[1..]);
      SamePrint(a[0], b[0]);
      SamePrintItems(a[1..], b[1..]);
    }
  }

  /** Two key-sorted listings of one map start with the same key. */
  lemma SameHead(a: seq<Member>, b: seq<Member>)
    requires KeySorted(a) && KeySorted(b) && a != [] && b != []
    requires DenMembers(a) == DenMembers(b)
    ensures a[0].key == b[0].key
  {
    DenDomain(a, a[0].key);
    DenDomain(b, a[0].key);
    DenDomain(b, b[0].key);
    DenDomain(a, b[0].key);
    var i :| 0 <= i < |b| && b[i].key == a[0].key;
    var j :| 0 <= j < |a| && a[j].key == b[0].key;
    if i > 0 && j > 0 {
      LessTrans(a[0].key, b[0].key, a[0].key);
      LessIrreflexive(a[0].key);
    }
  }

  /** The map of a listing without its first member. */
  lemma TailMeaning(a: seq<Member>)
    requires a != [] && DistinctKeys(a)
    ensures DenMembers(a[1..]) == DenMembers(a) - {a[0].key}
  {
    DenDomain(a[1..], a[0].key);
    assert forall i | 0 <= i < |a[1..]| :: a[1..][i].key == a[i + 1].key != a[0].key;
  }

  lemma {:induction false} SamePrintMembers(a: seq<Member>, b: seq<Member>)
    requires WellFormedMembers(a) && WellFormedMembers(b) && KeySorted(a) && KeySorted(b)
    requires DenMembers(a) == DenMembers(b)
    ensures JoinMembers(a) == JoinMembers(b) && |a| == |b|
    decreases SizeMembers(a), 0
  {
    assert a != [] ==> a[0].key in DenMembers(a);
    assert b != [] ==> b[0].key in DenMembers(b);
    if a != [] {
      SameHead(a, b);
      var k := a[0].key;
      assert DenMembers(a)[k] == Den(a[0].value) && DenMembers(b)[k] == Den(b[0].value);
      SamePrint(a[0].value, b[0].value);
      TailMeaning(a);
      TailMeaning(b);
      SamePrintMembers(a[1..], b[1..]);
    }
  }

  /** The fact comparison is exact: it reports "unchanged" for equal values in any member order, and only then. */
  lemma StableEqualsExact(a: Value, b: Value)
    requires WellFormed(a) && WellFormed(b)
    ensures StableEquals(a, b) <==> Den(a) == Den(b)
  {
    if StableEquals(a, b) {
      assert StableStringify(a) + "" == StableStringify(b) + "";
      PrintInjective(a, b, "", "");
    }
    if Den(a) == Den(b) { SamePrint(a, b); }
  }
}
