/** Distinct keys for uploaded screens: a base name, or the base name with the
    first free numeric suffix. */
module ScreenKeys {
  import opened Basics

  function Digit(d: nat): char
    requires d < 10
  {
    '0' + d as char
  }

  function Decimal(n: nat): (s: string)
    ensures s != []
  {
    if n < 10 then [Digit(n)] else Decimal(n / 10) + [Digit(n % 10)]
  }

  lemma {:induction false} DecimalInjective(m: nat, n: nat)
    requires Decimal(m) == Decimal(n)
    ensures m == n
  {
    var s, t := Decimal(m), Decimal(n);
    if m < 10 || n < 10 {
      assert |s| == 1 || |t| == 1;
      assert s[|s| - 1] == t[|t| - 1];
    } else {
      assert s[..|s| - 1] == Decimal(m / 10) && t[..|t| - 1] == Decimal(n / 10);
      DecimalInjective(m / 10, n / 10);
      assert s[|s| - 1] == t[|t| - 1];
    }
  }

  // The number a text of digits stands for.
  function Number(s: string): int {
    if s == [] then 0 else 10 * Number(s[..|s| - 1]) + (s[|s| - 1] as int - '0' as int)
  }

  // A decimal text reads back as its number, in digits only and without a leading zero.
  lemma {:induction false} DecimalReads(n: nat)
    ensures Number(Decimal(n)) == n
    ensures forall c :: c in Decimal(n) ==> '0' <= c <= '9'
    ensures n > 0 ==> Decimal(n)[0] != '0'
  {
    var s := Decimal(n);
    if n < 10 {
      assert s[..0] == [] && Number([]) == 0;
    } else {
      DecimalReads(n / 10);
      assert s[..|s| - 1] == Decimal(n / 10);
    }
  }

  function Suffixed(base: string, suffix: nat): string {
    base + "_" + Decimal(suffix)
  }

  // A suffixed key is the base, an underscore and the number.
  lemma SuffixedIs(base: string, n: nat)
    ensures var key, k := Suffixed(base, n), |base|;
            |key| > k + 1 && key[..k] == base && key[k] == '_' && Number(key[k + 1..]) == n
  {
    DecimalReads(n);
    assert Suffixed(base, n)[|base| + 1..] == Decimal(n);
  }

  lemma SuffixedInjective(base: string, m: nat, n: nat)
    requires Suffixed(base, m) == Suffixed(base, n)
    ensures m == n
  {
    var k := |base| + 1;
    assert Suffixed(base, m)[k..] == Decimal(m) && Suffixed(base, n)[k..] == Decimal(n);
    DecimalInjective(m, n);
  }

  // The suffixed keys from 2 up to n.
  ghost function Tried(base: string, n: nat): set<string> {
    if n <= 2 then {} else Tried(base, n - 1) + {Suffixed(base, n - 1)}
  }

  lemma {:induction false} TriedOnly(base: string, n: nat, key: string)
    requires key in Tried(base, n)
    ensures exists m :: 2 <= m < n && key == Suffixed(base, m)
  {
    if key in Tried(base, n - 1) {
      TriedOnly(base, n - 1, key);
    } else {
      assert key == Suffixed(base, n - 1);
    }
  }

  // Different suffixes give different keys, so n - 2 keys have been tried.
  lemma {:induction false} TriedCount(base: string, n: nat)
    requires n >= 2
    ensures |Tried(base, n)| == n - 2
  {
    if n > 2 {
      TriedCount(base, n - 1);
      if Suffixed(base, n - 1) in Tried(base, n - 1) {
        TriedOnly(base, n - 1, Suffixed(base, n - 1));
        var m :| 2 <= m < n - 1 && Suffixed(base, n - 1) == Suffixed(base, m);
        SuffixedInjective(base, m, n - 1);
      }
    }
  }

  // The first key of the family base, base_2, base_3, ... that is free.
  ghost predicate FirstFree(existing: set<string>, base: string, key: string) {
    if base !in existing then key == base
    else exists n :: 2 <= n && key == Suffixed(base, n) && key !in existing
                     && forall m :: 2 <= m < n ==> Suffixed(base, m) in existing
  }

  // The suffix search ends for every finite set of existing keys.
  method UniqueScreenKey(existing: set<string>, base: string) returns (key: string)
    ensures key !in existing && FirstFree(existing, base, key)
  {
    if base !in existing {
      return base;
    }
    var suffix := 2;
    while Suffixed(base, suffix) in existing
      invariant suffix >= 2 && Tried(base, suffix) <= existing
      invariant forall m :: 2 <= m < suffix ==> Suffixed(base, m) in existing
      decreases |existing| + 2 - suffix
    {
      TriedCount(base, suffix + 1);
      SubsetSize(Tried(base, suffix + 1), existing);
      suffix := suffix + 1;
    }
    return Suffixed(base, suffix);
  }

  ghost predicate Distinct(keys: seq<string>) {
    forall i, j :: 0 <= i < j < |keys| ==> keys[i] != keys[j]
  }

  function KeySet(keys: seq<string>): set<string> {
    set k | k in keys
  }

  // Uploading a batch of screenshots one after another keeps all the keys of a
  // study distinct and leaves the earlier ones as they were.
  method UploadAll(keys: seq<string>, bases: seq<string>) returns (result: seq<string>)
    requires Distinct(keys)
    ensures Distinct(result) && |result| == |keys| + |bases| && keys <= result
    ensures forall i :: 0 <= i < |bases| ==>
              FirstFree(KeySet(result[..|keys| + i]), bases[i], result[|keys| + i])
  {
    result := keys;
    for i := 0 to |bases|
      invariant |result| == |keys| + i && keys <= result && Distinct(result)
      invariant forall j :: 0 <= j < i ==> FirstFree(KeySet(result[..|keys| + j]), bases[j], result[|keys| + j])
    {
      var existing := KeySet(result);
      var key := UniqueScreenKey(existing, bases[i]);
      ghost var before := result;
      result := result + [key];
      forall j | 0 <= j <= i
        ensures FirstFree(KeySet(result[..|keys| + j]), bases[j], result[|keys| + j])
      {
        assert result[..|keys| + j] == before[..|keys| + j];
        assert before[..|keys| + i] == before;
      }
    }
  }
}
