/** JSON.stringify on canonical values, and that it loses nothing: the text decides the value. So the
    fingerprint text of two payment bodies is the same exactly when the bodies mean the same. */
module JsonText {
  import opened Basics
  import Money
  import opened Canonical

  function HexDigit(n: nat): char
    requires n < 16
  {
    "0123456789abcdef"[n]
  }

  /** The JSON form of one character: quotes, backslashes and control characters are escaped. */
  function Escape(c: char): (r: string)
    ensures r != "" && r[0] != '"'
    ensures |r| == 1 <==> c != '"' && c != '\\' && c >= ' '
    ensures |r| == 1 ==> r == [c]
    ensures |r| > 1 ==> r[0] == '\\'
  {
    if c == '"' then "\\\""
    else if c == '\\' then "\\\\"
    else if c == '\n' then "\\n"
    else if c == '\r' then "\\r"
    else if c == '\t' then "\\t"
    else if c as int == 8 then "\\b"
    else if c as int == 12 then "\\f"
    else if c < ' ' then "\\u00" + [HexDigit(c as int / 16), HexDigit(c as int % 16)]
    else [c]
  }

  function Escaped(s: string): string {
    if s == "" then "" else Escape(s[0]) + Escaped(s[1..])
  }

  function Quote(s: string): string {
    "\"" + Escaped(s) + "\""
  }

  function Print(v: Value): (r: string)
    requires IsCanonical(v)
    decreases v, PrintWidth(v)
  {
    match v
    case Null => "null"
    case Bool(b) => if b then "true" else "false"
    case Num(n) => IntText(n)
    case Text(s) => Quote(s)
    case Arr(items) => "[" + PrintItems(v, 0) + "]"
    case Obj(ms) => "{" + PrintMembers(v, 0) + "}"
  }

  function PrintWidth(v: Value): nat {
    match v
    case Arr(items) => |items| + 2
    case Obj(ms) => |ms| + 2
    case _ => 0
  }

  function PrintItems(v: Value, i: nat): string
    requires v.Arr? && i <= |v.items| && IsCanonical(v)
    decreases v, |v.items| - i + 1
  {
    if i == |v.items| then ""
    else Print(v.items[i]) + if i + 1 < |v.items| then "," + PrintItems(v, i + 1) else ""
  }

  function PrintMembers(v: Value, i: nat): string
    requires v.Obj? && i <= |v.members| && IsCanonical(v)
    decreases v, |v.members| - i + 1
  {
    if i == |v.members| then ""
    else Quote(v.members[i].key) + ":" + Print(v.members[i].value) + if i + 1 < |v.members| then "," + PrintMembers(v, i + 1) else ""
  }

  // ---------- unique reading ----------

  /** What may follow a value inside a JSON text. */
  predicate Delimited(u: string) {
    u == "" || u[0] in ",]}"
  }

  predicate NumberChar(c: char) {
    Money.IsDigit(c) || c == '-'
  }

  lemma {:induction false} RunsAreEqual(x: string, u: string, y: string, v: string)
    requires x + u == y + v && Delimited(u) && Delimited(v)
    requires forall i :: 0 <= i < |x| ==> NumberChar(x[i])
    requires forall i :: 0 <= i < |y| ==> NumberChar(y[i])
    ensures x == y && u == v
    decreases |x|
  {
    assert x != "" ==> (x + u)[0] == x[0] && (x + u)[1..] == x[1..] + u;
    assert y != "" ==> (y + v)[0] == y[0] && (y + v)[1..] == y[1..] + v;
    assert "" + u == u && "" + v == v;
    if x != "" && y != "" {
      RunsAreEqual(x[1..], u, y[1..], v);
      assert x == [x[0]] + x[1..] && y == [y[0]] + y[1..];
    }
  }

  lemma NumbersAreEqual(n: int, u: string, m: int, v: string)
    requires IntText(n) + u == IntText(m) + v && Delimited(u) && Delimited(v)
    ensures n == m && u == v
  {
    var x, y := Money.Print(Money.Magnitude(n)), Money.Print(Money.Magnitude(m));
    RunsAreEqual(IntText(n), u, IntText(m), v);
    assert n >= 0 ==> IntText(n) == x;
    assert m >= 0 ==> IntText(m) == y;
    assert n < 0 ==> IntText(n)[1..] == x && IntText(n)[0] == '-';
    assert m < 0 ==> IntText(m)[1..] == y && IntText(m)[0] == '-';
    Money.ValueOfPrint(Money.Magnitude(n));
    Money.ValueOfPrint(Money.Magnitude(m));
  }

  lemma EscapesAreEqual(c: char, u: string, d: char, v: string)
    requires Escape(c) + u == Escape(d) + v
    ensures c == d && u == v
  {
    var x, y := Escape(c), Escape(d);
    assert (x + u)[0] == x[0] && (y + v)[0] == y[0];
    if |x| > 1 && |y| > 1 {
      assert (x + u)[1] == x[1] && (y + v)[1] == y[1];
      if |x| == 6 && |y| == 6 {
        assert (x + u)[4] == x[4] && (y + v)[4] == y[4];
        assert (x + u)[5] == x[5] && (y + v)[5] == y[5];
        HexDigitsDiffer(c as int / 16, d as int / 16);
        HexDigitsDiffer(c as int % 16, d as int % 16);
      }
    }
    assert c == d;
    Unprefix(x, u, v);
  }

  lemma HexDigitsDiffer(m: nat, n: nat)
    requires m < 16 && n < 16 && HexDigit(m) == HexDigit(n)
    ensures m == n
  {
  }

  /** The rest of a JSON string after its opening quote, and what follows it. */
  function Closed(s: string, u: string): string {
    Escaped(s) + "\"" + u
  }

  lemma ClosedHead(s: string, u: string)
    ensures s == "" ==> Closed(s, u) == "\"" + u
    ensures s != "" ==> Closed(s, u) == Escape(s[0]) + Closed(s[1..], u)
    ensures Closed(s, u) != "" && (Closed(s, u)[0] == '"' <==> s == "")
  {
  }

  lemma {:induction false} QuotesAreEqual(s: string, u: string, t: string, v: string)
    requires Closed(s, u) == Closed(t, v)
    ensures s == t && u == v
    decreases |s|
  {
    hide Escape, Closed;
    ClosedHead(s, u);
    ClosedHead(t, v);
    if s != "" {
      EscapesAreEqual(s[0], Closed(s[1..], u), t[0], Closed(t[1..], v));
      QuotesAreEqual(s[1..], u, t[1..], v);
      assert s == [s[0]] + s[1..] && t == [t[0]] + t[1..];
    } else {
      assert u == ("\"" + u)[1..] && v == ("\"" + v)[1..];
    }
  }

  lemma QuotedAreEqual(s: string, u: string, t: string, v: string)
    requires Quote(s) + u == Quote(t) + v
    ensures s == t && u == v
  {
    assert (Quote(s) + u)[1..] == Closed(s, u);
    assert (Quote(t) + v)[1..] == Closed(t, v);
    hide Closed, Quote, Escaped;
    QuotesAreEqual(s, u, t, v);
  }

  /** The first character of a text tells what kind of value follows. */
  function Kind(v: Value): nat {
    match v
    case Null => 0
    case Bool(b) => if b then 1 else 2
    case Num(_) => 3
    case Text(_) => 4
    case Arr(_) => 5
    case _ => 6
  }

  function KindOf(c: char): nat {
    if c == 'n' then 0 else if c == 't' then 1 else if c == 'f' then 2 else if NumberChar(c) then 3
    else if c == '"' then 4 else if c == '[' then 5 else 6
  }

  lemma FirstChar(v: Value)
    requires IsCanonical(v)
    ensures Print(v) != "" && KindOf(Print(v)[0]) == Kind(v) && Print(v)[0] !in ",]}"
  {
  }

  // Lists, read from position `i` on, with what follows their closing bracket.

  function ItemsThen(a: Value, i: nat, u: string): string
    requires a.Arr? && i <= |a.items| && IsCanonical(a)
  {
    PrintItems(a, i) + ("]" + u)
  }

  function MembersThen(a: Value, i: nat, u: string): string
    requires a.Obj? && i <= |a.members| && IsCanonical(a)
  {
    PrintMembers(a, i) + ("}" + u)
  }

  function AfterItem(a: Value, i: nat, u: string): string
    requires a.Arr? && i < |a.items| && IsCanonical(a)
  {
    if i + 1 < |a.items| then "," + ItemsThen(a, i + 1, u) else "]" + u
  }

  function AfterMember(a: Value, i: nat, u: string): string
    requires a.Obj? && i < |a.members| && IsCanonical(a)
  {
    if i + 1 < |a.members| then "," + MembersThen(a, i + 1, u) else "}" + u
  }

  lemma ListHeads(a: Value, u: string)
    requires IsCanonical(a)
    ensures a.Arr? ==> Print(a) + u == "[" + ItemsThen(a, 0, u)
    ensures a.Obj? ==> Print(a) + u == "{" + MembersThen(a, 0, u)
  {
  }

  lemma ItemHead(a: Value, i: nat, u: string)
    requires a.Arr? && i <= |a.items| && IsCanonical(a)
    ensures i == |a.items| ==> ItemsThen(a, i, u) == "]" + u
    ensures i < |a.items| ==> ItemsThen(a, i, u) == Print(a.items[i]) + AfterItem(a, i, u)
    ensures ItemsThen(a, i, u) != "" && (ItemsThen(a, i, u)[0] == ']' <==> i == |a.items|)
  {
  }

  lemma MemberHead(a: Value, i: nat, u: string)
    requires a.Obj? && i <= |a.members| && IsCanonical(a)
    ensures i == |a.members| ==> MembersThen(a, i, u) == "}" + u
    ensures i < |a.members| ==>
              MembersThen(a, i, u) == Quote(a.members[i].key) + (":" + (Print(a.members[i].value) + AfterMember(a, i, u)))
    ensures MembersThen(a, i, u) != "" && (MembersThen(a, i, u)[0] == '}' <==> i == |a.members|)
  {
  }

  lemma Unprefix(c: string, x: string, y: string)
    requires c + x == c + y
    ensures x == y
  {
    assert x == (c + x)[|c|..] == y;
  }

  /** A printed value followed by a delimiter can be read in one way only. */
  lemma {:induction false} ReadsOneWay(a: Value, u: string, b: Value, v: string)
    requires IsCanonical(a) && IsCanonical(b) && Print(a) + u == Print(b) + v && Delimited(u) && Delimited(v)
    ensures a == b && u == v
    decreases a, PrintWidth(a)
  {
    SameKind(a, u, b, v);
    hide IsCanonical, ItemsThen, MembersThen, IntText, Quote, Delimited;
    ListHeads(a, u);
    ListHeads(b, v);
    match a {
      case Num(n) => NumbersAreEqual(n, u, b.n, v);
      case Text(s) => QuotedAreEqual(s, u, b.s, v);
      case Arr(items) =>
        Unprefix("[", ItemsThen(a, 0, u), ItemsThen(b, 0, v));
        ItemsReadOneWay(a, 0, u, b, 0, v);
        assert items[0..] == items && b.items[0..] == b.items;
      case Obj(ms) =>
        Unprefix("{", MembersThen(a, 0, u), MembersThen(b, 0, v));
        MembersReadOneWay(a, 0, u, b, 0, v);
        assert ms[0..] == ms && b.members[0..] == b.members;
      case Null => Unprefix("null", u, v);
      case Bool(_) => Unprefix(Print(a), u, v);
      case _ =>
    }
  }

  lemma SameKind(a: Value, u: string, b: Value, v: string)
    requires IsCanonical(a) && IsCanonical(b) && Print(a) + u == Print(b) + v
    ensures Kind(a) == Kind(b)
  {
    FirstChar(a);
    FirstChar(b);
    hide Print, KindOf;
    assert (Print(a) + u)[0] == Print(a)[0] && (Print(b) + v)[0] == Print(b)[0];
  }

  lemma {:induction false} ItemsReadOneWay(a: Value, i: nat, u: string, b: Value, j: nat, v: string)
    requires a.Arr? && b.Arr? && IsCanonical(a) && IsCanonical(b) && i <= |a.items| && j <= |b.items|
    requires ItemsThen(a, i, u) == ItemsThen(b, j, v)
    ensures a.items[i..] == b.items[j..] && u == v
    decreases a, |a.items| - i + 1
  {
    hide ItemsThen, AfterItem, IsCanonical, Print, Delimited;
    ItemHead(a, i, u);
    ItemHead(b, j, v);
    if i == |a.items| {
      Unprefix("]", u, v);
    } else {
      ItemFollowed(a, i, u);
      ItemFollowed(b, j, v);
      ReadsOneWay(a.items[i], AfterItem(a, i, u), b.items[j], AfterItem(b, j, v));
      if i + 1 < |a.items| {
        Unprefix(",", ItemsThen(a, i + 1, u), ItemsThen(b, j + 1, v));
        ItemsReadOneWay(a, i + 1, u, b, j + 1, v);
      } else {
        Unprefix("]", u, v);
      }
      SplitFirst(a.items, i);
      SplitFirst(b.items, j);
    }
  }

  lemma SplitFirst<T>(xs: seq<T>, i: nat)
    requires i < |xs|
    ensures xs[i..] == [xs[i]] + xs[i + 1..]
  {
  }

  lemma ItemFollowed(a: Value, i: nat, u: string)
    requires a.Arr? && i < |a.items| && IsCanonical(a)
    ensures Delimited(AfterItem(a, i, u)) && IsCanonical(a.items[i])
    ensures AfterItem(a, i, u) == if i + 1 < |a.items| then "," + ItemsThen(a, i + 1, u) else "]" + u
    ensures AfterItem(a, i, u)[0] == if i + 1 < |a.items| then ',' else ']'
  {
  }

  lemma MemberFollowed(a: Value, i: nat, u: string)
    requires a.Obj? && i < |a.members| && IsCanonical(a)
    ensures Delimited(AfterMember(a, i, u)) && IsCanonical(a.members[i].value)
    ensures AfterMember(a, i, u) == if i + 1 < |a.members| then "," + MembersThen(a, i + 1, u) else "}" + u
    ensures AfterMember(a, i, u)[0] == if i + 1 < |a.members| then ',' else '}'
  {
  }

  lemma {:induction false} MembersReadOneWay(a: Value, i: nat, u: string, b: Value, j: nat, v: string)
    requires a.Obj? && b.Obj? && IsCanonical(a) && IsCanonical(b) && i <= |a.members| && j <= |b.members|
    requires MembersThen(a, i, u) == MembersThen(b, j, v)
    ensures a.members[i..] == b.members[j..] && u == v
    decreases a, |a.members| - i + 1
  {
    hide MembersThen, AfterMember, IsCanonical, Print, Quote, Delimited;
    MemberHead(a, i, u);
    MemberHead(b, j, v);
    if i == |a.members| {
      Unprefix("}", u, v);
    } else {
      MemberFollowed(a, i, u);
      MemberFollowed(b, j, v);
      var m, n := a.members[i], b.members[j];
      var p, q := AfterMember(a, i, u), AfterMember(b, j, v);
      QuotedAreEqual(m.key, ":" + (Print(m.value) + p), n.key, ":" + (Print(n.value) + q));
      Unprefix(":", Print(m.value) + p, Print(n.value) + q);
      ReadsOneWay(m.value, p, n.value, q);
      if i + 1 < |a.members| {
        Unprefix(",", MembersThen(a, i + 1, u), MembersThen(b, j + 1, v));
        MembersReadOneWay(a, i + 1, u, b, j + 1, v);
      } else {
        Unprefix("}", u, v);
      }
      SplitFirst(a.members, i);
      SplitFirst(b.members, j);
    }
  }

  // ---------- the fingerprint text ----------

  /** The text that is hashed. */
  function FingerprintText(v: Value): string
    requires WellFormed(v)
  {
    CanonIsCanonical(v);
    Print(Canon(v))
  }

  /** Equal logical bodies have one text, different ones two: order and undefined properties aside. */
  lemma FingerprintDecidesMeaning(a: Value, b: Value)
    requires WellFormed(a) && WellFormed(b)
    ensures FingerprintText(a) == FingerprintText(b) <==> Means(a) == Means(b)
  {
    CanonDecidesMeaning(a, b);
    CanonIsCanonical(a);
    CanonIsCanonical(b);
    if FingerprintText(a) == FingerprintText(b) {
      assert Print(Canon(a)) + "" == Print(Canon(b)) + "";
      ReadsOneWay(Canon(a), "", Canon(b), "");
    }
  }

  /** A payment request without its idempotency key and scope, as texts. */
  datatype Dto = Dto(kind: string, reference: string, source: string, dest: string, amount: string, currency: string,
                     correlation: Field, memo: Field)

  /** An optional property: left out (or undefined), sent as null, or given. */
  datatype Field = Absent | NullField | Given(s: string)

  function OptionalText(f: Field): Value {
    match f
    case Absent => Undefined
    case NullField => Null
    case Given(s) => Text(s)
  }

  const BodyKeys: seq<string> :=
    ["type", "reference", "sourceAccountId", "destinationAccountId", "amount", "currency", "correlationId", "memo"]

  predicate IsField(v: Value) {
    v.Text? || v.Null? || v == Undefined
  }

  function BodyValues(d: Dto): (vs: seq<Value>)
    ensures |vs| == 8 && forall i :: 0 <= i < 8 ==> IsField(vs[i]) && WellFormed(vs[i])
  {
    [Text(d.kind), Text(d.reference), Text(d.source), Text(d.dest), Text(d.amount), Text(d.currency),
     OptionalText(d.correlation), OptionalText(d.memo)]
  }

  lemma BodyKeysDiffer()
    ensures forall i, j :: 0 <= i < j < |BodyKeys| ==> BodyKeys[i] != BodyKeys[j]
  {
  }

  function BodyMembers(d: Dto): (ms: seq<Member>)
    ensures |ms| == 8 && DistinctKeys(ms)
    ensures forall i :: 0 <= i < 8 ==> ms[i].key == BodyKeys[i] && ms[i].value == BodyValues(d)[i]
    ensures forall i :: 0 <= i < 8 ==> IsField(ms[i].value) && WellFormed(ms[i].value)
  {
    BodyKeysDiffer();
    var vs := BodyValues(d);
    var ms := seq(8, i requires 0 <= i < 8 => Member(BodyKeys[i], vs[i]));
    assert forall i :: 0 <= i < 8 ==> ms[i].value == vs[i];
    ms
  }

  /** Two requests, sent with their properties in any order and their missing properties left out or
      undefined, share a fingerprint text exactly when every field is the same text. */
  lemma BodiesShareTextExactly(d: Dto, e: Dto, ms: seq<Member>, ns: seq<Member>)
    requires DistinctKeys(ms) && DistinctKeys(ns) && WellFormed(Obj(ms)) && WellFormed(Obj(ns))
    requires forall x: Member :: x.value != Undefined ==> (x in ms <==> x in BodyMembers(d))
    requires forall x: Member :: x.value != Undefined ==> (x in ns <==> x in BodyMembers(e))
    ensures FingerprintText(Obj(ms)) == FingerprintText(Obj(ns)) <==> d == e
  {
    hide FingerprintText, Canon, WellFormed;
    FingerprintDecidesMeaning(Obj(ms), Obj(ns));
    ReorderedObjectsMeanTheSame(ms, BodyMembers(d));
    ReorderedObjectsMeanTheSame(ns, BodyMembers(e));
    if Means(Obj(BodyMembers(d))) == Means(Obj(BodyMembers(e))) {
      BodyFieldsShow(d, e);
    }
  }

  /** A key with a text or undefined value shows that value in the entries. */
  lemma FieldShows(ms: seq<Member>, ns: seq<Member>, m: map<string, Meaning>, i: nat)
    requires Entries(ms, m) && Entries(ns, m) && DistinctKeys(ms) && DistinctKeys(ns)
    requires i < |ms| == |ns| && forall k :: 0 <= k < |ms| ==> ms[k].key == ns[k].key
    requires forall k :: 0 <= k < |ms| ==> IsField(ms[k].value) && IsField(ns[k].value)
    ensures ms[i].value == ns[i].value
  {
  }

  lemma BodyFieldsShow(d: Dto, e: Dto)
    requires Means(Obj(BodyMembers(d))) == Means(Obj(BodyMembers(e)))
    ensures d == e
  {
    hide MeansMembers, Entries, DistinctKeys, BodyValues, WellFormed, BodyMembers;
    var ms, ns := BodyMembers(d), BodyMembers(e);
    var m := MeansMembers(Obj(ms), 0);
    BodyEntries(d);
    BodyEntries(e);
    forall i | 0 <= i < 8
      ensures BodyValues(d)[i] == BodyValues(e)[i]
    {
      FieldShows(ms, ns, m, i);
    }
    ValuesShow(d, e);
  }

  lemma BodyEntries(d: Dto)
    ensures Entries(BodyMembers(d), MeansMembers(Obj(BodyMembers(d)), 0))
  {
    hide Entries, BodyMembers, DistinctKeys;
    var ms := BodyMembers(d);
    MeansIsEntries(Obj(ms), 0);
    assert ms[0..] == ms;
  }

  lemma ValuesShow(d: Dto, e: Dto)
    requires forall i :: 0 <= i < 8 ==> BodyValues(d)[i] == BodyValues(e)[i]
    ensures d == e
  {
    var vs, ws := BodyValues(d), BodyValues(e);
    assert vs[0] == ws[0] && vs[1] == ws[1] && vs[2] == ws[2] && vs[3] == ws[3];
    assert vs[4] == ws[4] && vs[5] == ws[5] && vs[6] == ws[6] && vs[7] == ws[7];
  }

  // ---------- the text itself ----------

  predicate Plain(s: string) {
    forall i :: 0 <= i < |s| ==> s[i] != '"' && s[i] != '\\' && s[i] >= ' '
  }

  lemma {:induction false} PlainIsItself(s: string)
    requires Plain(s)
    ensures Quote(s) == "\"" + s + "\""
  {
    if s != "" {
      PlainIsItself(s[1..]);
      assert Quote(s[1..])[1..|s|] == s[1..];
      assert s == [s[0]] + s[1..];
    }
  }

  /** Quotes, backslashes and control characters as JSON writes them. */
  lemma EscapesAreJson()
    ensures Quote("\"\\") == "\"\\\"\\\\\"" && Quote("\n\r\t") == "\"\\n\\r\\t\""
    ensures Quote([8 as char, 12 as char]) == "\"\\b\\f\""
    ensures Quote([0 as char]) == "\"\\u0000\"" && Quote([31 as char]) == "\"\\u001f\""
  {
    EscapedTwo('"', '\\');
    EscapedTwo(8 as char, 12 as char);
    EscapedTwo('\r', '\t');
    assert "\n\r\t"[1..] == "\r\t";
    assert Escaped("\n\r\t") == "\\n" + Escaped("\r\t");
    assert [0 as char][1..] == "" && [31 as char][1..] == "";
    assert Escape(0 as char) == "\\u0000" && Escape(31 as char) == "\\u001f";
  }

  lemma EscapedTwo(c: char, d: char)
    ensures Escaped([c, d]) == Escape(c) + Escape(d)
  {
    assert [c, d][1..] == [d] && [d][1..] == "";
    assert Escaped([d]) == Escape(d) + "" == Escape(d);
  }

  function OptionalMember(key: string, f: Field): seq<Member> {
    if f.Absent? then [] else [Member(key, OptionalText(f))]
  }

  /** The body's members in the order of their keys. */
  function SortedBody(d: Dto): seq<Member> {
    [Member("amount", Text(d.amount))] + OptionalMember("correlationId", d.correlation) + [Member("currency", Text(d.currency))]
    + [Member("destinationAccountId", Text(d.dest))] + OptionalMember("memo", d.memo)
    + [Member("reference", Text(d.reference)), Member("sourceAccountId", Text(d.source)), Member("type", Text(d.kind))]
  }

  lemma SortedBodyIsCanonical(d: Dto)
    ensures IsCanonical(Obj(SortedBody(d))) && WellFormed(Obj(SortedBody(d))) && DistinctKeys(SortedBody(d))
  {
    var ms := SortedBody(d);
    KeysAscend();
    hide Before;
    AscendingBySteps(ms);
    CanonicalIsWellFormed(Obj(ms));
  }

  lemma KeysAscend()
    ensures Before("amount", "correlationId") && Before("amount", "currency") && Before("currency", "destinationAccountId")
    ensures Before("destinationAccountId", "memo") && Before("destinationAccountId", "reference") && Before("memo", "reference")
    ensures Before("reference", "sourceAccountId") && Before("sourceAccountId", "type") && Before("correlationId", "currency")
  {
    assert "correlationId"[1..][0] == 'o' && "currency"[1..][0] == 'u';
  }

  /** A list whose neighbours ascend ascends. */
  lemma {:induction false} AscendingBySteps(ms: seq<Member>)
    requires forall i :: 0 <= i < |ms| - 1 ==> Before(ms[i].key, ms[i + 1].key)
    ensures Ascending(ms)
  {
    hide Before;
    forall i, j | 0 <= i < j < |ms|
      ensures Before(ms[i].key, ms[j].key)
    {
      StepsReach(ms, i, j);
    }
  }

  lemma {:induction false} StepsReach(ms: seq<Member>, i: nat, j: nat)
    requires i < j < |ms| && forall k :: 0 <= k < |ms| - 1 ==> Before(ms[k].key, ms[k + 1].key)
    ensures Before(ms[i].key, ms[j].key)
    decreases j - i
  {
    hide Before;
    assert Before(ms[j - 1].key, ms[j - 1 + 1].key);
    if i + 1 < j {
      StepsReach(ms, i, j - 1);
      BeforeIsTransitive(ms[i].key, ms[j - 1].key, ms[j].key);
    }
  }

  /** The members that a body has, as a list of alternatives. */
  predicate OfBody(d: Dto, x: Member) {
    || x == Member("type", Text(d.kind)) || x == Member("reference", Text(d.reference))
    || x == Member("sourceAccountId", Text(d.source)) || x == Member("destinationAccountId", Text(d.dest))
    || x == Member("amount", Text(d.amount)) || x == Member("currency", Text(d.currency))
    || x == Member("correlationId", OptionalText(d.correlation)) || x == Member("memo", OptionalText(d.memo))
  }

  lemma BodyIsOfBody(d: Dto, x: Member)
    ensures x in BodyMembers(d) <==> OfBody(d, x)
  {
    hide BodyMembers, WellFormed, DistinctKeys;
    var bs, vs := BodyMembers(d), BodyValues(d);
    assert forall i :: 0 <= i < 8 ==> bs[i] == Member(BodyKeys[i], vs[i]);
    assert bs[0] == Member("type", Text(d.kind)) && bs[1] == Member("reference", Text(d.reference));
    assert bs[2] == Member("sourceAccountId", Text(d.source)) && bs[3] == Member("destinationAccountId", Text(d.dest));
    assert bs[4] == Member("amount", Text(d.amount)) && bs[5] == Member("currency", Text(d.currency));
    assert bs[6] == Member("correlationId", OptionalText(d.correlation)) && bs[7] == Member("memo", OptionalText(d.memo));
  }

  lemma SortedBodyIsTheBody(d: Dto, x: Member)
    requires x.value != Undefined
    ensures x in SortedBody(d) <==> x in BodyMembers(d)
  {
    BodyIsOfBody(d, x);
    hide BodyMembers;
  }

  /** Texts with commas between them. */
  function Join(parts: seq<string>): string {
    if parts == [] then "" else if |parts| == 1 then parts[0] else parts[0] + "," + Join(parts[1..])
  }

  function Parts(ms: seq<Member>): seq<string>
    requires forall i :: 0 <= i < |ms| ==> IsCanonical(ms[i].value)
  {
    seq(|ms|, i requires 0 <= i < |ms| => "\"" + ms[i].key + "\":" + Print(ms[i].value))
  }

  lemma {:induction false} MembersJoined(v: Value, i: nat)
    requires v.Obj? && i <= |v.members| && IsCanonical(v) && forall k :: 0 <= k < |v.members| ==> Plain(v.members[k].key)
    ensures PrintMembers(v, i) == Join(Parts(v.members[i..]))
    decreases |v.members| - i
  {
    hide Print, Quote, Plain;
    if i < |v.members| {
      var ms := v.members[i..];
      MembersJoined(v, i + 1);
      PlainIsItself(ms[0].key);
      assert ms[1..] == v.members[i + 1..] && Parts(ms)[1..] == Parts(ms[1..]);
      assert Parts(ms)[0] == Quote(ms[0].key) + ":" + Print(ms[0].value);
    }
  }

  function Part(key: string, s: string): string {
    "\"" + key + "\":" + Quote(s)
  }

  /** An optional property: nothing when it is missing, null when it was sent as null. */
  function OptionalPart(key: string, f: Field): seq<string> {
    match f
    case Absent => []
    case NullField => ["\"" + key + "\":null"]
    case Given(s) => [Part(key, s)]
  }

  /** The text that is hashed for a payment request, whatever the order of its properties: its keys in
      alphabetical order, missing ones left out, null ones written as null, the rest as JSON strings. */
  lemma BodyTextExactly(d: Dto, ms: seq<Member>)
    requires DistinctKeys(ms) && WellFormed(Obj(ms))
    requires forall x: Member :: x.value != Undefined ==> (x in ms <==> OfBody(d, x))
    ensures FingerprintText(Obj(ms)) ==
            "{" + Join([Part("amount", d.amount)] + OptionalPart("correlationId", d.correlation) + [Part("currency", d.currency)]
                       + [Part("destinationAccountId", d.dest)] + OptionalPart("memo", d.memo)
                       + [Part("reference", d.reference), Part("sourceAccountId", d.source), Part("type", d.kind)]) + "}"
  {
    hide Canon, WellFormed, Means, SortedBody, Part, IsCanonical, Print, Join;
    SortedBodyIsCanonical(d);
    forall x: Member | x.value != Undefined
      ensures x in SortedBody(d) <==> OfBody(d, x)
    {
      SortedBodyIsTheBody(d, x);
      BodyIsOfBody(d, x);
    }
    hide OfBody, OptionalPart;
    ReorderedObjectsMeanTheSame(ms, SortedBody(d));
    CanonDecidesMeaning(Obj(ms), Obj(SortedBody(d)));
    CanonOfCanonical(Obj(SortedBody(d)));
    SortedBodyText(d);
  }

  lemma CanonOfCanonical(v: Value)
    requires IsCanonical(v)
    ensures Canon(v) == v
  {
    CanonicalIsWellFormed(v);
    CanonIsCanonical(v);
    CanonKeepsMeaning(v);
    CanonicalFormsAreUnique(Canon(v), v);
  }

  lemma SortedBodyText(d: Dto)
    requires IsCanonical(Obj(SortedBody(d)))
    ensures Print(Obj(SortedBody(d))) ==
            "{" + Join([Part("amount", d.amount)] + OptionalPart("correlationId", d.correlation) + [Part("currency", d.currency)]
                       + [Part("destinationAccountId", d.dest)] + OptionalPart("memo", d.memo)
                       + [Part("reference", d.reference), Part("sourceAccountId", d.source), Part("type", d.kind)]) + "}"
  {
    hide Part, OptionalPart, Join, Parts, Plain, SortedBody, PrintMembers;
    var v := Obj(SortedBody(d));
    KeysArePlain(d);
    MembersJoined(v, 0);
    assert v.members[0..] == v.members;
    SortedParts(d);
  }

  lemma KeysArePlain(d: Dto)
    ensures forall i :: 0 <= i < |SortedBody(d)| ==> Plain(SortedBody(d)[i].key)
  {
    PlainKeys();
    hide Plain;
  }

  lemma PlainKeys()
    ensures Plain("amount") && Plain("correlationId") && Plain("currency") && Plain("destinationAccountId")
    ensures Plain("memo") && Plain("reference") && Plain("sourceAccountId") && Plain("type")
  {
  }

  lemma PartsAppend(xs: seq<Member>, ys: seq<Member>)
    requires forall i :: 0 <= i < |xs| ==> IsCanonical(xs[i].value)
    requires forall i :: 0 <= i < |ys| ==> IsCanonical(ys[i].value)
    ensures (forall i :: 0 <= i < |xs + ys| ==> IsCanonical((xs + ys)[i].value)) && Parts(xs + ys) == Parts(xs) + Parts(ys)
  {
    hide Print;
  }

  lemma OnePart(key: string, s: string)
    ensures Parts([Member(key, Text(s))]) == [Part(key, s)]
  {
  }

  lemma OptionalParts(key: string, f: Field)
    ensures Parts(OptionalMember(key, f)) == OptionalPart(key, f)
  {
    Regroup("\"" + key, "\":", "null");
    assert "\":" + "null" == "\":null";
  }

  lemma SortedParts(d: Dto)
    ensures (forall i :: 0 <= i < |SortedBody(d)| ==> IsCanonical(SortedBody(d)[i].value))
    ensures Parts(SortedBody(d)) ==
            [Part("amount", d.amount)] + OptionalPart("correlationId", d.correlation) + [Part("currency", d.currency)]
            + [Part("destinationAccountId", d.dest)] + OptionalPart("memo", d.memo)
            + [Part("reference", d.reference), Part("sourceAccountId", d.source), Part("type", d.kind)]
  {
    hide Parts, Part, OptionalPart;
    var amount, currency := [Member("amount", Text(d.amount))], [Member("currency", Text(d.currency))];
    var dest := [Member("destinationAccountId", Text(d.dest))];
    var correlation, memo := OptionalMember("correlationId", d.correlation), OptionalMember("memo", d.memo);
    var tail := [Member("reference", Text(d.reference)), Member("sourceAccountId", Text(d.source)), Member("type", Text(d.kind))];
    OnePart("amount", d.amount);
    OnePart("currency", d.currency);
    OnePart("destinationAccountId", d.dest);
    OptionalParts("correlationId", d.correlation);
    OptionalParts("memo", d.memo);
    TailParts(d);
    PartsAppend(amount, correlation);
    PartsAppend(amount + correlation, currency);
    PartsAppend(amount + correlation + currency, dest);
    PartsAppend(amount + correlation + currency + dest, memo);
    PartsAppend(amount + correlation + currency + dest + memo, tail);
    Regroup(Parts(amount + correlation + currency), [Part("destinationAccountId", d.dest)], OptionalPart("memo", d.memo));
  }

  lemma TailParts(d: Dto)
    ensures Parts([Member("reference", Text(d.reference)), Member("sourceAccountId", Text(d.source)), Member("type", Text(d.kind))]) ==
            [Part("reference", d.reference), Part("sourceAccountId", d.source), Part("type", d.kind)]
  {
  }

  /** Every other kind of value is hashed as JSON has it, or as the text it prints as. */
  lemma ScalarTexts(n: int, b: bool, text: string)
    ensures FingerprintText(Null) == "null" && FingerprintText(Bool(b)) == (if b then "true" else "false")
    ensures FingerprintText(Num(n)) == IntText(n) && FingerprintText(BigInt(n)) == Quote(IntText(n))
    ensures FingerprintText(Text(text)) == FingerprintText(Date(text)) == FingerprintText(Other(text)) == Quote(text)
    ensures FingerprintText(Undefined) == "\"undefined\""
  {
    hide Quote;
    PlainIsItself("undefined");
  }
}
