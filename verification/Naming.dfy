/** The names the operator gives to Services and StatefulSets, and the
    namespace/name keys of its work queue.

    A name is built with `fmt.Sprintf(cluster.Name + "-%d", index)`. For a
    cluster name without a percent sign, and Kubernetes admits no other, that is
    the concatenation below. */
module Naming {
  import opened Values

  /******* Decimal numerals *******/

  function Digit(d: nat): char
    requires d < 10
  {
    "0123456789"[d]
  }

  function DigitValue(c: char): nat {
    if '0' <= c <= '9' then (c - '0') as nat else 0
  }

  function Decimal(n: nat): string {
    if n < 10 then [Digit(n)] else Decimal(n / 10) + [Digit(n % 10)]
  }

  function ParseDecimal(s: string): nat {
    if s == "" then 0 else 10 * ParseDecimal(s[..|s| - 1]) + DigitValue(s[|s| - 1])
  }

  /** The text is the decimal numeral of `n`, without leading zeros. */
  predicate IsNumeral(s: string, n: nat) {
    && s != "" && (forall d | d in s :: '0' <= d <= '9')
    && (|s| > 1 ==> s[0] != '0')
    && ParseDecimal(s) == n
  }

  lemma DigitIsNumeral(d: nat)
    requires d < 10
    ensures '0' <= Digit(d) <= '9' && DigitValue(Digit(d)) == d
    ensures Digit(d) == '0' <==> d == 0
    ensures ParseDecimal([Digit(d)]) == d
  {
    assert [Digit(d)][..0] == "";
  }

  lemma {:induction false} DecimalRoundTrip(n: nat)
    ensures IsNumeral(Decimal(n), n)
    ensures n > 0 ==> Decimal(n)[0] != '0'
    ensures '-' !in Decimal(n)
  {
    hide Digit, DigitValue;
    DigitIsNumeral(n % 10);
    if n < 10 {
    } else {
      DecimalRoundTrip(n / 10);
      var s := Decimal(n);
      assert s[..|s| - 1] == Decimal(n / 10);
      assert s[0] == Decimal(n / 10)[0];
    }
  }

  /******* Object names *******/

  function GroupName(name: string, index: nat): string {
    name + "-" + Decimal(index)
  }

  function ServiceName(name: string, index: nat): string {
    name + "-svc-" + Decimal(index)
  }

  /** Where the last dash of `s` stands; 0 when there is none. */
  function LastDash(s: string): nat {
    if s == "" then 0
    else if s[|s| - 1] == '-' then |s| - 1
    else LastDash(s[..|s| - 1])
  }

  lemma {:induction false} LastDashOfName(stem: string, numeral: string)
    requires '-' !in numeral
    ensures LastDash(stem + "-" + numeral) == |stem|
  {
    var s := stem + "-" + numeral;
    if numeral == "" {
    } else {
      LastDashOfName(stem, numeral[..|numeral| - 1]);
      assert s[..|s| - 1] == stem + "-" + numeral[..|numeral| - 1];
    }
  }

  /** The last dash of a name separates the stem from the numeral. */
  lemma LastDashSplits(a: string, b: string, d: string, e: string)
    requires '-' !in d && '-' !in e
    requires a + "-" + d == b + "-" + e
    ensures a == b && d == e
  {
    LastDashOfName(a, d);
    LastDashOfName(b, e);
    var s := a + "-" + d;
    assert a == s[..|a|] && b == s[..|b|];
    assert d == s[|a| + 1..] && e == s[|b| + 1..];
  }

  lemma GroupNameInjective(n1: string, i1: nat, n2: string, i2: nat)
    requires GroupName(n1, i1) == GroupName(n2, i2)
    ensures n1 == n2 && i1 == i2
  {
    DecimalRoundTrip(i1);
    DecimalRoundTrip(i2);
    LastDashSplits(n1, n2, Decimal(i1), Decimal(i2));
  }

  lemma ServiceNameInjective(n1: string, i1: nat, n2: string, i2: nat)
    requires ServiceName(n1, i1) == ServiceName(n2, i2)
    ensures n1 == n2 && i1 == i2
  {
    DecimalRoundTrip(i1);
    DecimalRoundTrip(i2);
    assert ServiceName(n1, i1) == (n1 + "-svc") + "-" + Decimal(i1);
    assert ServiceName(n2, i2) == (n2 + "-svc") + "-" + Decimal(i2);
    LastDashSplits(n1 + "-svc", n2 + "-svc", Decimal(i1), Decimal(i2));
    assert n1 == (n1 + "-svc")[..|n1|] && n2 == (n2 + "-svc")[..|n2|];
  }

  function ServiceKey(owner: ObjectKey, index: nat): ObjectKey {
    ObjectKey(owner.namespace, ServiceName(owner.name, index))
  }

  function SetKey(owner: ObjectKey, index: nat): ObjectKey {
    ObjectKey(owner.namespace, GroupName(owner.name, index))
  }

  /** For each kind, the object key determines the owning cluster's namespace and
      name and the group index: over all names and all naturals. */
  lemma KeysDisjoint(k1: ObjectKey, i1: nat, k2: ObjectKey, i2: nat)
    ensures ServiceKey(k1, i1) == ServiceKey(k2, i2) <==> k1 == k2 && i1 == i2
    ensures SetKey(k1, i1) == SetKey(k2, i2) <==> k1 == k2 && i1 == i2
  {
    if ServiceKey(k1, i1) == ServiceKey(k2, i2) {
      ServiceNameInjective(k1.name, i1, k2.name, i2);
    }
    if SetKey(k1, i1) == SetKey(k2, i2) {
      GroupNameInjective(k1.name, i1, k2.name, i2);
    }
  }

  /** The text is the stem, a dash, and the numeral of `index`; its last dash is that. */
  predicate Names(n: string, stem: string, index: nat) {
    var d := LastDash(n);
    d < |n| && n[d] == '-' && n[..d] == stem && IsNumeral(n[d + 1..], index)
  }

  lemma StemAndNumeral(stem: string, index: nat)
    ensures Names(stem + "-" + Decimal(index), stem, index)
  {
    hide LastDash, ParseDecimal, Decimal, IsNumeral;
    DecimalRoundTrip(index);
    LastDashOfName(stem, Decimal(index));
    var n := stem + "-" + Decimal(index);
    assert n[..|stem|] == stem && n[|stem| + 1..] == Decimal(index);
  }

  /** A name can be read back: the numeral after its last dash is the group index, and
      before it stands the cluster's name, with a suffix of its own for a Service. */
  lemma NameReadsBack(k: ObjectKey, index: nat)
    ensures Names(SetKey(k, index).name, k.name, index)
    ensures Names(ServiceKey(k, index).name, k.name + "-svc", index)
    ensures SetKey(k, index).namespace == ServiceKey(k, index).namespace == k.namespace
  {
    hide Names, Decimal;
    StemAndNumeral(k.name, index);
    StemAndNumeral(k.name + "-svc", index);
    assert ServiceKey(k, index).name == (k.name + "-svc") + "-" + Decimal(index);
  }

  /******* Work-queue keys *******/

  function MetaNamespaceKey(k: ObjectKey): string {
    if |k.namespace| > 0 then k.namespace + "/" + k.name else k.name
  }

  /** The pieces of `s` between slashes, as `strings.Split` returns them. */
  function SplitOnSlash(s: string): (parts: seq<string>)
    ensures |parts| >= 1
  {
    if s == "" then [""]
    else
      var rest := SplitOnSlash(s[1..]);
      if s[0] == '/' then [""] + rest
      else [[s[0]] + rest[0]] + rest[1..]
  }

  function SplitMetaNamespaceKey(key: string): Option<ObjectKey> {
    var parts := SplitOnSlash(key);
    if |parts| == 1 then Some(ObjectKey("", parts[0]))
    else if |parts| == 2 then Some(ObjectKey(parts[0], parts[1]))
    else None
  }

  lemma {:induction false} SplitWithoutSlash(s: string)
    requires '/' !in s
    ensures SplitOnSlash(s) == [s]
  {
    if s == "" {
    } else {
      SplitWithoutSlash(s[1..]);
      assert [s[0]] + s[1..] == s;
    }
  }

  lemma {:induction false} SplitAtSlash(a: string, b: string)
    requires '/' !in a
    ensures SplitOnSlash(a + "/" + b) == [a] + SplitOnSlash(b)
  {
    var s := a + "/" + b;
    if a == "" {
      assert s[1..] == b;
    } else {
      SplitAtSlash(a[1..], b);
      assert s[1..] == a[1..] + "/" + b;
      assert [a[0]] + a[1..] == a;
    }
  }

  /** No piece of a split holds a slash. */
  lemma {:induction false} PiecesHaveNoSlash(s: string)
    ensures forall p | p in SplitOnSlash(s) :: '/' !in p
  {
    if s == "" {
    } else {
      PiecesHaveNoSlash(s[1..]);
      var rest := SplitOnSlash(s[1..]);
      assert rest[0] in rest;
      assert forall p | p in rest[1..] :: p in rest;
    }
  }

  /** Splitting a queue key gives back the namespace and name it was made from,
      exactly for names without a slash. */
  lemma KeyRoundTrip(k: ObjectKey)
    ensures SplitMetaNamespaceKey(MetaNamespaceKey(k)) == Some(k)
       <==> '/' !in k.namespace && '/' !in k.name
    ensures k.namespace == "" ==> MetaNamespaceKey(k) == k.name
  {
    if '/' !in k.namespace && '/' !in k.name {
      SplitWithoutSlash(k.name);
      SplitAtSlash(k.namespace, k.name);
    } else {
      PiecesHaveNoSlash(MetaNamespaceKey(k));
    }
  }

  lemma {:induction false} SplitCounts(s: string)
    ensures |SplitOnSlash(s)| >= 2 <==> '/' in s
    ensures |SplitOnSlash(s)| >= 3 <==> exists i, j | 0 <= i < j < |s| :: s[i] == '/' && s[j] == '/'
  {
    if s == "" {
    } else {
      var rest := s[1..];
      SplitCounts(rest);
      assert s == [s[0]] + rest;
      if i, j :| 0 <= i < j < |rest| && rest[i] == '/' && rest[j] == '/' {
        assert s[i + 1] == '/' && s[j + 1] == '/';
      }
      if s[0] == '/' && '/' in rest {
        var j :| 0 <= j < |rest| && rest[j] == '/';
        assert s[0] == '/' && s[j + 1] == '/';
      }
      if i, j :| 0 <= i < j < |s| && s[i] == '/' && s[j] == '/' {
        assert rest[j - 1] == '/';
        assert i > 0 ==> rest[i - 1] == '/';
      }
    }
  }

  /** A key is malformed exactly if it holds two slashes. */
  lemma MalformedKeys(key: string)
    ensures SplitMetaNamespaceKey(key).None? <==> exists i, j | 0 <= i < j < |key| :: key[i] == '/' && key[j] == '/'
  {
    SplitCounts(key);
  }
}
