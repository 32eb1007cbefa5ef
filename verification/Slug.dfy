/** Provider slugs: probing base, base-2, base-3, ... until a free one is found. */
module Slug {
  import opened Prelude

  // ----- Decimal printing -----------------------------------------------------------------

  const DIGITS := "0123456789"

  function Decimal(n: nat): string {
    if n < 10 then [DIGITS[n]] else Decimal(n / 10) + [DIGITS[n % 10]]
  }

  function DigitValue(c: char): int {
    c as int - '0' as int
  }

  /** Reading a decimal string back. */
  function Value(s: string): int {
    if s == [] then 0 else 10 * Value(s[..|s| - 1]) + DigitValue(s[|s| - 1])
  }

  lemma {:induction false} ValueOfDecimal(n: nat)
    ensures Value(Decimal(n)) == n
  {
    var s := Decimal(n);
    assert DigitValue(DIGITS[n % 10]) == n % 10;
    if n < 10 {
      assert s[..0] == [] && n % 10 == n;
    } else {
      ValueOfDecimal(n / 10);
      assert s[..|s| - 1] == Decimal(n / 10);
    }
  }

  // ----- The probe sequence ---------------------------------------------------------------

  /** The slug tried on the k-th probe; an empty base is replaced on the first probe only. */
  function Probe(base: string, k: nat): string
    requires k >= 1
  {
    if k == 1 then (if base == "" then "provider" else base) else base + "-" + Decimal(k)
  }

  lemma ProbesDiffer(base: string, j: nat, k: nat)
    requires 1 <= j < k
    ensures Probe(base, j) != Probe(base, k)
  {
    ValueOfDecimal(j);
    ValueOfDecimal(k);
    assert Probe(base, k)[|base|] == '-' && Probe(base, k)[|base| + 1..] == Decimal(k);
    if j > 1 {
      assert Probe(base, j)[|base| + 1..] == Decimal(j);
    }
  }

  function Probes(base: string, n: nat): set<string> {
    set k | 1 <= k <= n :: Probe(base, k)
  }

  lemma OneMoreProbe(base: string, n: nat)
    requires n > 0
    ensures Probes(base, n) == Probes(base, n - 1) + {Probe(base, n)} && Probe(base, n) !in Probes(base, n - 1)
  {
    forall k | 1 <= k < n ensures Probe(base, k) != Probe(base, n) { ProbesDiffer(base, k, n); }
  }

  /** Distinct probes: the first n of them are n slugs. */
  lemma {:induction false} ProbesCount(base: string, n: nat)
    ensures |Probes(base, n)| == n
  {
    if n > 0 {
      ProbesCount(base, n - 1);
      OneMoreProbe(base, n);
    } else {
      assert Probes(base, 0) == {};
    }
  }

  lemma SubsetSize<T>(a: set<T>, b: set<T>)
    requires a <= b
    ensures |a| <= |b|
  {
    assert b == a + (b - a);
  }

  /** Pigeonhole: n slugs cannot all be taken when fewer are in use. */
  lemma TakenPrefixIsShort(base: string, taken: set<string>, n: nat)
    requires forall k :: 1 <= k <= n ==> Probe(base, k) in taken
    ensures n <= |taken|
  {
    ProbesCount(base, n);
    SubsetSize(Probes(base, n), taken);
  }

  /** k is the first probe that finds a free slug. */
  ghost predicate FirstFree(base: string, taken: set<string>, k: nat) {
    k >= 1 && Probe(base, k) !in taken && forall j :: 1 <= j < k ==> Probe(base, j) in taken
  }

  /** Returns the first free slug of the sequence, after at most |taken| + 1 look-ups. */
  method UniqueSlug(base: string, taken: set<string>) returns (candidate: string, suffix: nat)
    ensures FirstFree(base, taken, suffix) && candidate == Probe(base, suffix)
    ensures suffix <= |taken| + 1
  {
    candidate := if base == "" then "provider" else base;
    suffix := 1;
    while candidate in taken
      invariant suffix >= 1 && candidate == Probe(base, suffix)
      invariant forall j :: 1 <= j < suffix ==> Probe(base, j) in taken
      decreases |taken| + 1 - suffix
    {
      TakenPrefixIsShort(base, taken, suffix);
      suffix := suffix + 1;
      candidate := base + "-" + Decimal(suffix);
    }
    TakenPrefixIsShort(base, taken, suffix - 1);
  }

  lemma FirstFreeIsUnique(base: string, taken: set<string>, j: nat, k: nat)
    requires FirstFree(base, taken, j) && FirstFree(base, taken, k)
    ensures j == k
  {
  }

  function OrElse(a: string, b: string): string {
    if a != "" then a else b
  }

  /** Registering a provider: an explicit slug, the slug of its name or the slug of its kind. The
      table keeps distinct slugs, and a free one is taken as it is. */
  method RegisterSlug(slugs: seq<string>, explicit: string, fromName: string, fromKind: string) returns (slug: string)
    requires Distinct(slugs)
    ensures Distinct(slugs + [slug])
    ensures var base := OrElse(explicit, OrElse(fromName, fromKind)); base != "" && base !in slugs ==> slug == base
    ensures explicit != "" && explicit !in slugs ==> slug == explicit
    ensures explicit == "" && fromName != "" && fromName !in slugs ==> slug == fromName
    ensures explicit == "" && fromName == "" && fromKind != "" && fromKind !in slugs ==> slug == fromKind
  {
    var suffix;
    slug, suffix := UniqueSlug(OrElse(explicit, OrElse(fromName, fromKind)), set s | s in slugs);
    assert suffix > 1 ==> Probe(OrElse(explicit, OrElse(fromName, fromKind)), 1) in slugs;
  }
}
