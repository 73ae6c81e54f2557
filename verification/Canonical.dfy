/**
 * The canonical form behind the request fingerprint: properties sorted and undefined ones dropped at
 * every depth, then printed as JSON. Two bodies get the same text exactly when they mean the same.
 */
module Canonical {
  import opened Basics
  import Money

  /** JavaScript values as the canonicalizer tells them apart; `Other` is String(value) of the rest. */
  datatype Value =
    | Null | Bool(b: bool) | Num(n: int) | Text(s: string)
    | BigInt(n: int) | Date(iso: string) | Undefined | Other(text: string)
    | Arr(items: seq<Value>)
    | Obj(members: seq<Member>)

  datatype Member = Member(key: string, value: Value)

  // ---------- the order of keys ----------

  predicate Before(s: string, t: string) {
    t != "" && (s == "" || s[0] < t[0] || (s[0] == t[0] && Before(s[1..], t[1..])))
  }

  lemma {:induction false} BeforeIsStrict(s: string, t: string)
    ensures !(Before(s, t) && Before(t, s))
    ensures !Before(s, s)
    decreases |s| + |t|
  {
    if s != "" && t != "" {
      BeforeIsStrict(s[1..], t[1..]);
    } else if s != "" {
      BeforeIsStrict(s[1..], "");
    }
  }

  lemma {:induction false} BeforeIsTotal(s: string, t: string)
    ensures s == t || Before(s, t) || Before(t, s)
    decreases |s|
  {
    if s != "" && t != "" && s[0] == t[0] {
      BeforeIsTotal(s[1..], t[1..]);
      assert s == [s[0]] + s[1..] && t == [t[0]] + t[1..];
    }
  }

  lemma {:induction false} BeforeIsTransitive(s: string, t: string, u: string)
    requires Before(s, t) && Before(t, u)
    ensures Before(s, u)
    decreases |s|
  {
    if s != "" && s[0] == t[0] == u[0] {
      BeforeIsTransitive(s[1..], t[1..], u[1..]);
    }
  }

  predicate Ascending(ms: seq<Member>) {
    forall i, j :: 0 <= i < j < |ms| ==> Before(ms[i].key, ms[j].key)
  }

  /** A JavaScript object has each key once. */
  predicate DistinctKeys(ms: seq<Member>) {
    forall i, j :: 0 <= i < j < |ms| ==> ms[i].key != ms[j].key
  }

  predicate WellFormed(v: Value) {
    match v
    case Arr(items) => forall i :: 0 <= i < |items| ==> WellFormed(items[i])
    case Obj(ms) => DistinctKeys(ms) && forall i :: 0 <= i < |ms| ==> WellFormed(ms[i].value)
    case _ => true
  }

  // ---------- canonicalizeForFingerprint ----------

  function Width(v: Value): nat {
    if v.Obj? then |v.members| + 2 else 0
  }

  function IntText(n: int): string {
    (if n < 0 then "-" else "") + Money.Print(Money.Magnitude(n))
  }

  function Insert(m: Member, ms: seq<Member>): seq<Member> {
    if ms == [] || Before(m.key, ms[0].key) then [m] + ms else [ms[0]] + Insert(m, ms[1..])
  }

  function Canon(v: Value): Value
    decreases v, Width(v)
  {
    match v
    case BigInt(n) => Text(IntText(n))
    case Date(iso) => Text(iso)
    case Undefined => Text("undefined")
    case Other(text) => Text(text)
    case Arr(items) => Arr(seq(|items|, i requires 0 <= i < |items| => Canon(items[i])))
    case Obj(ms) => Obj(CanonMembers(v, 0))
    case _ => v
  }

  /** The members of an object from position `i` on: sorted, canonical, undefined ones omitted. */
  function CanonMembers(v: Value, i: nat): seq<Member>
    requires v.Obj? && i <= |v.members|
    decreases v, |v.members| - i + 1
  {
    if i == |v.members| then []
    else
      var m := v.members[i];
      var rest := CanonMembers(v, i + 1);
      if m.value == Undefined then rest else Insert(Member(m.key, Canon(m.value)), rest)
  }

  predicate IsCanonical(v: Value) {
    match v
    case Arr(items) => forall i :: 0 <= i < |items| ==> IsCanonical(items[i])
    case Obj(ms) => Ascending(ms) && forall i :: 0 <= i < |ms| ==> IsCanonical(ms[i].value)
    case _ => v.Null? || v.Bool? || v.Num? || v.Text?
  }

  // ---------- what a body means ----------

  /** A value without order of properties and without the difference between a text and what prints as it. */
  datatype Meaning =
    | MNull | MBool(b: bool) | MNum(n: int) | MText(s: string)
    | MArr(items: seq<Meaning>) | MObj(members: map<string, Meaning>)

  function Means(v: Value): Meaning
    decreases v, Width(v)
  {
    match v
    case Null => MNull
    case Bool(b) => MBool(b)
    case Num(n) => MNum(n)
    case Text(s) => MText(s)
    case BigInt(n) => MText(IntText(n))
    case Date(iso) => MText(iso)
    case Undefined => MText("undefined")
    case Other(text) => MText(text)
    case Arr(items) => MArr(seq(|items|, i requires 0 <= i < |items| => Means(items[i])))
    case Obj(ms) => MObj(MeansMembers(v, 0))
  }

  function MeansMembers(v: Value, i: nat): map<string, Meaning>
    requires v.Obj? && i <= |v.members|
    decreases v, |v.members| - i + 1
  {
    if i == |v.members| then map[]
    else
      var m := v.members[i];
      var rest := MeansMembers(v, i + 1);
      if m.value == Undefined then rest else rest[m.key := Means(m.value)]
  }

  // ---------- canonical forms ----------

  lemma {:induction false} InsertKeepsOrder(m: Member, ms: seq<Member>)
    requires Ascending(ms) && forall i :: 0 <= i < |ms| ==> ms[i].key != m.key
    ensures Ascending(Insert(m, ms))
    ensures forall x :: x in Insert(m, ms) <==> x == m || x in ms
  {
    if ms != [] {
      BeforeIsTotal(m.key, ms[0].key);
      if Before(m.key, ms[0].key) {
        forall i | 0 <= i < |ms|
          ensures Before(m.key, ms[i].key)
        {
          if i > 0 {
            BeforeIsTransitive(m.key, ms[0].key, ms[i].key);
          }
        }
      } else {
        InsertKeepsOrder(m, ms[1..]);
        var rest := Insert(m, ms[1..]);
        assert ms == [ms[0]] + ms[1..];
        forall i | 0 <= i < |rest|
          ensures Before(ms[0].key, rest[i].key)
        {
          assert rest[i] in rest;
        }
      }
    }
  }

  lemma {:induction false} CanonIsCanonical(v: Value)
    requires WellFormed(v)
    ensures IsCanonical(Canon(v))
    decreases v, Width(v)
  {
    match v {
      case Arr(items) =>
        forall i | 0 <= i < |items|
          ensures IsCanonical(Canon(items[i]))
        {
          CanonIsCanonical(items[i]);
        }
      case Obj(ms) =>
        CanonMembersCanonical(v, 0);
        var ns := CanonMembers(v, 0);
        assert forall i :: 0 <= i < |ns| ==> ns[i] in ns;
      case _ =>
    }
  }

  lemma {:induction false} CanonMembersCanonical(v: Value, i: nat)
    requires v.Obj? && i <= |v.members| && WellFormed(v)
    ensures Ascending(CanonMembers(v, i))
    ensures forall x :: x in CanonMembers(v, i) ==>
              IsCanonical(x.value) && exists k :: i <= k < |v.members| && v.members[k].key == x.key
    decreases v, |v.members| - i + 1
  {
    if i < |v.members| {
      var m := v.members[i];
      var rest := CanonMembers(v, i + 1);
      CanonMembersCanonical(v, i + 1);
      assert forall k :: 0 <= k < |rest| ==> rest[k] in rest;
      if m.value != Undefined {
        CanonIsCanonical(m.value);
        InsertKeepsOrder(Member(m.key, Canon(m.value)), rest);
      }
    }
  }

  // ---------- canonical forms keep and show the meaning ----------

  /** The entries a list of members stands for, when no key occurs twice. */
  ghost predicate Entries(ms: seq<Member>, m: map<string, Meaning>) {
    && (forall i :: 0 <= i < |ms| && ms[i].value != Undefined ==> ms[i].key in m && m[ms[i].key] == Means(ms[i].value))
    && (forall k :: k in m ==> exists i :: 0 <= i < |ms| && ms[i].key == k && ms[i].value != Undefined)
  }

  lemma {:induction false} MeansIsEntries(v: Value, i: nat)
    requires v.Obj? && i <= |v.members| && DistinctKeys(v.members)
    ensures Entries(v.members[i..], MeansMembers(v, i))
    decreases |v.members| - i
  {
    if i < |v.members| {
      MeansIsEntries(v, i + 1);
      var x, rest := v.members[i], v.members[i + 1..];
      assert v.members[i..] == [x] + rest;
      assert forall k :: 0 <= k < |rest| ==> rest[k].key != x.key;
      var m := MeansMembers(v, i + 1);
      assert MeansMembers(v, i) == if x.value == Undefined then m else m[x.key := Means(x.value)];
      EntriesCons(x, rest, m);
    }
  }

  lemma EntriesCons(x: Member, rest: seq<Member>, m: map<string, Meaning>)
    requires Entries(rest, m) && forall k :: 0 <= k < |rest| ==> rest[k].key != x.key
    ensures Entries([x] + rest, if x.value == Undefined then m else m[x.key := Means(x.value)])
  {
    hide Means;
    var ms, n := [x] + rest, if x.value == Undefined then m else m[x.key := Means(x.value)];
    forall k | k in n
      ensures exists j :: 0 <= j < |ms| && ms[j].key == k && ms[j].value != Undefined
    {
      if k in m {
        var j :| 0 <= j < |rest| && rest[j].key == k && rest[j].value != Undefined;
        assert ms[j + 1] == rest[j];
      } else {
        assert ms[0] == x;
      }
    }
  }

  lemma EntriesUnique(ms: seq<Member>, m: map<string, Meaning>, n: map<string, Meaning>)
    requires Entries(ms, m) && Entries(ms, n)
    ensures m == n
  {
  }

  lemma EntriesOfSame(ms: seq<Member>, ns: seq<Member>, m: map<string, Meaning>)
    requires Entries(ms, m) && forall x: Member :: x.value != Undefined ==> (x in ms <==> x in ns)
    ensures Entries(ns, m)
  {
  }

  /** The order of properties and undefined properties do not matter: objects with the same defined
      members mean the same. (Meaning is compositional, so this holds at every depth.) */
  lemma ReorderedObjectsMeanTheSame(ms: seq<Member>, ns: seq<Member>)
    requires DistinctKeys(ms) && DistinctKeys(ns)
    requires forall x: Member :: x.value != Undefined ==> (x in ms <==> x in ns)
    ensures Means(Obj(ms)) == Means(Obj(ns))
  {
    MeansIsEntries(Obj(ms), 0);
    MeansIsEntries(Obj(ns), 0);
    assert ms[0..] == ms && ns[0..] == ns;
    EntriesOfSame(ms, ns, MeansMembers(Obj(ms), 0));
    EntriesUnique(ns, MeansMembers(Obj(ms), 0), MeansMembers(Obj(ns), 0));
  }

  lemma AscendingIsDistinct(ms: seq<Member>)
    requires Ascending(ms)
    ensures DistinctKeys(ms)
  {
    forall i, j | 0 <= i < j < |ms|
      ensures ms[i].key != ms[j].key
    {
      BeforeIsStrict(ms[i].key, ms[j].key);
    }
  }

  lemma {:induction false} CanonKeepsMeaning(v: Value)
    requires WellFormed(v)
    ensures Means(Canon(v)) == Means(v)
    decreases v, Width(v)
  {
    match v {
      case Arr(items) =>
        forall i | 0 <= i < |items|
          ensures Means(Canon(items[i])) == Means(items[i])
        {
          CanonKeepsMeaning(items[i]);
        }
        assert Means(Canon(v)).items == Means(v).items;
      case Obj(ms) =>
        CanonMembersMean(v, 0);
        CanonMembersCanonical(v, 0);
        var ns := CanonMembers(v, 0);
        AscendingIsDistinct(ns);
        MeansIsEntries(Obj(ns), 0);
        assert ns[0..] == ns;
        EntriesUnique(ns, MeansMembers(Obj(ns), 0), MeansMembers(v, 0));
      case _ =>
    }
  }

  lemma {:induction false} CanonMembersMean(v: Value, i: nat)
    requires v.Obj? && i <= |v.members| && WellFormed(v)
    ensures Entries(CanonMembers(v, i), MeansMembers(v, i))
    decreases v, |v.members| - i + 1
  {
    if i < |v.members| {
      var m := v.members[i];
      var rest := CanonMembers(v, i + 1);
      CanonMembersMean(v, i + 1);
      CanonMembersCanonical(v, i + 1);
      assert forall k :: 0 <= k < |rest| ==> rest[k] in rest;
      if m.value != Undefined {
        CanonKeepsMeaning(m.value);
        CanonIsCanonical(m.value);
        var c := Member(m.key, Canon(m.value));
        InsertKeepsOrder(c, rest);
        InsertEntries(c, rest, MeansMembers(v, i + 1));
      }
    }
  }

  lemma InsertEntries(c: Member, rest: seq<Member>, m: map<string, Meaning>)
    requires Entries(rest, m) && c.value != Undefined
    requires forall x :: x in Insert(c, rest) <==> x == c || x in rest
    requires forall k :: 0 <= k < |rest| ==> rest[k].key != c.key
    ensures Entries(Insert(c, rest), m[c.key := Means(c.value)])
  {
    var ms, n := Insert(c, rest), m[c.key := Means(c.value)];
    forall i | 0 <= i < |ms| && ms[i].value != Undefined
      ensures ms[i].key in n && n[ms[i].key] == Means(ms[i].value)
    {
      assert ms[i] in ms;
    }
    forall k | k in n
      ensures exists i :: 0 <= i < |ms| && ms[i].key == k && ms[i].value != Undefined
    {
      if k == c.key {
        assert c in ms;
      } else {
        var j :| 0 <= j < |rest| && rest[j].key == k && rest[j].value != Undefined;
        assert rest[j] in ms;
      }
    }
  }

  /** Canonical values that mean the same are the same. */
  lemma {:induction false} CanonicalFormsAreUnique(a: Value, b: Value)
    requires IsCanonical(a) && IsCanonical(b) && Means(a) == Means(b)
    ensures a == b
    decreases a, Width(a)
  {
    match a {
      case Arr(items) =>
        assert b.Arr?;
        assert |Means(a).items| == |items| && |Means(b).items| == |b.items|;
        forall i | 0 <= i < |items|
          ensures items[i] == b.items[i]
        {
          assert Means(a).items[i] == Means(items[i]) && Means(b).items[i] == Means(b.items[i]);
          CanonicalFormsAreUnique(items[i], b.items[i]);
        }
      case Obj(ms) =>
        assert b.Obj?;
        MembersAreUnique(a, 0, b, 0);
        assert ms[0..] == ms && b.members[0..] == b.members;
      case _ =>
    }
  }

  lemma {:induction false} MembersAreUnique(a: Value, i: nat, b: Value, j: nat)
    requires a.Obj? && b.Obj? && i <= |a.members| && j <= |b.members| && IsCanonical(a) && IsCanonical(b)
    requires MeansMembers(a, i) == MeansMembers(b, j)
    ensures a.members[i..] == b.members[j..]
    decreases a, |a.members| - i + 1
  {
    FirstKeyIsLeast(a, i);
    FirstKeyIsLeast(b, j);
    hide Means, MeansMembers, Before;
    assert i < |a.members| ==> a.members[i].key in MeansMembers(a, i);
    assert j < |b.members| ==> b.members[j].key in MeansMembers(b, j);
    if i < |a.members| && j < |b.members| {
      var x, y := a.members[i], b.members[j];
      BeforeIsStrict(x.key, y.key);
      assert x.key == y.key;
      assert MeansMembers(a, i)[x.key] == Means(x.value) && MeansMembers(b, j)[y.key] == Means(y.value);
      CanonicalFormsAreUnique(x.value, y.value);
      assert MeansMembers(a, i + 1) == MeansMembers(a, i) - {x.key};
      assert MeansMembers(b, j + 1) == MeansMembers(b, j) - {y.key};
      MembersAreUnique(a, i + 1, b, j + 1);
      assert a.members[i..] == [x] + a.members[i + 1..] && b.members[j..] == [y] + b.members[j + 1..];
    }
  }

  lemma {:induction false} FirstKeyIsLeast(a: Value, i: nat)
    requires a.Obj? && i <= |a.members| && IsCanonical(a)
    ensures i == |a.members| ==> MeansMembers(a, i) == map[]
    ensures i < |a.members| ==>
              && MeansMembers(a, i) == MeansMembers(a, i + 1)[a.members[i].key := Means(a.members[i].value)]
              && a.members[i].key !in MeansMembers(a, i + 1)
              && forall k :: k in MeansMembers(a, i) ==> k == a.members[i].key || Before(a.members[i].key, k)
    decreases |a.members| - i
  {
    if i < |a.members| {
      FirstKeyIsLeast(a, i + 1);
      BeforeIsStrict(a.members[i].key, a.members[i].key);
      assert a.members[i].value != Undefined;
      if i + 1 < |a.members| {
        forall k | k in MeansMembers(a, i + 1)
          ensures Before(a.members[i].key, k)
        {
          if k != a.members[i + 1].key {
            BeforeIsTransitive(a.members[i].key, a.members[i + 1].key, k);
          }
        }
      }
    }
  }

  /** Canonicalization decides meaning, and doing it twice changes nothing. */
  lemma CanonDecidesMeaning(a: Value, b: Value)
    requires WellFormed(a) && WellFormed(b)
    ensures Canon(a) == Canon(b) <==> Means(a) == Means(b)
    ensures WellFormed(Canon(a)) && Canon(Canon(a)) == Canon(a)
  {
    CanonIsCanonical(a);
    CanonIsCanonical(b);
    CanonKeepsMeaning(a);
    CanonKeepsMeaning(b);
    if Means(a) == Means(b) {
      CanonicalFormsAreUnique(Canon(a), Canon(b));
    }
    CanonicalIsWellFormed(Canon(a));
    CanonIsCanonical(Canon(a));
    CanonKeepsMeaning(Canon(a));
    CanonicalFormsAreUnique(Canon(Canon(a)), Canon(a));
  }

  lemma {:induction false} CanonicalIsWellFormed(v: Value)
    requires IsCanonical(v)
    ensures WellFormed(v)
    decreases v
  {
    match v {
      case Arr(items) =>
        forall i | 0 <= i < |items|
          ensures WellFormed(items[i])
        {
          CanonicalIsWellFormed(items[i]);
        }
      case Obj(ms) =>
        AscendingIsDistinct(ms);
        forall i | 0 <= i < |ms|
          ensures WellFormed(ms[i].value)
        {
          CanonicalIsWellFormed(ms[i].value);
        }
      case _ =>
    }
  }
}
