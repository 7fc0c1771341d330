/** Text helpers, `slugify`, and the search for a slug nobody has taken. */
module Slugs {
  // ----- Text --------------------------------------------------------------------

  function LowerChar(c: char): char {
    if 'A' <= c <= 'Z' then (c as int - 'A' as int + 'a' as int) as char else c
  }

  function Lower(s: string): string {
    if s == "" then "" else [LowerChar(s[0])] + Lower(s[1..])
  }

  /** The white space that `String.prototype.trim` removes. */
  predicate IsSpace(c: char) {
    var u := c as int;
    || 0x09 <= u <= 0x0D || u == 0x20 || u == 0xA0 || u == 0x1680 || 0x2000 <= u <= 0x200A
    || u == 0x2028 || u == 0x2029 || u == 0x202F || u == 0x205F || u == 0x3000 || u == 0xFEFF
  }

  function TrimStart(s: string): string {
    if s != "" && IsSpace(s[0]) then TrimStart(s[1..]) else s
  }

  function TrimEnd(s: string): string {
    if s != "" && IsSpace(s[|s| - 1]) then TrimEnd(s[..|s| - 1]) else s
  }

  function Trim(s: string): string {
    TrimEnd(TrimStart(s))
  }

  function Decimal(n: nat): string {
    if n < 10 then ["0123456789"[n]] else Decimal(n / 10) + ["0123456789"[n % 10]]
  }

  // ----- slugify -------------------------------------------------------------------

  predicate IsAlnum(c: char) {
    'a' <= c <= 'z' || '0' <= c <= '9'
  }

  /** Every run of other characters becomes one dash. */
  function Dashed(s: string, inRun: bool): string {
    if s == "" then ""
    else if IsAlnum(s[0]) then [s[0]] + Dashed(s[1..], false)
    else (if inRun then "" else "-") + Dashed(s[1..], true)
  }

  function StripDashes(s: string): string {
    var t := if s != "" && s[0] == '-' then s[1..] else s;
    if t != "" && t[|t| - 1] == '-' then t[..|t| - 1] else t
  }

  function Slugify(s: string): string {
    StripDashes(Dashed(Trim(Lower(s)), false))
  }

  /** Letters, digits and single dashes. */
  predicate SingleDashes(s: string) {
    && (forall i :: 0 <= i < |s| ==> IsAlnum(s[i]) || s[i] == '-')
    && (forall i :: 0 <= i < |s| - 1 ==> s[i] == '-' ==> s[i + 1] != '-')
  }

  /** [a-z0-9]+(-[a-z0-9]+)* */
  predicate IsSlug(s: string) {
    s != "" && SingleDashes(s) && s[0] != '-' && s[|s| - 1] != '-'
  }

  lemma {:induction false} DashedIsSingle(s: string, inRun: bool)
    ensures SingleDashes(Dashed(s, inRun))
    ensures inRun && Dashed(s, inRun) != "" ==> Dashed(s, inRun)[0] != '-'
  {
    if s != "" {
      DashedIsSingle(s[1..], !IsAlnum(s[0]));
    }
  }

  /** `slugify` yields the empty string or a well-formed slug. */
  lemma SlugifyIsSlug(s: string)
    ensures Slugify(s) == "" || IsSlug(Slugify(s))
  {
    DashedIsSingle(Trim(Lower(s)), false);
  }

  lemma {:induction false} LowerOfSlug(s: string)
    requires forall i :: 0 <= i < |s| ==> IsAlnum(s[i]) || s[i] == '-'
    ensures Lower(s) == s
  {
    if s != "" {
      LowerOfSlug(s[1..]);
    }
  }

  lemma {:induction false} DashedOfSingle(s: string, inRun: bool)
    requires SingleDashes(s)
    requires inRun && s != "" ==> s[0] != '-'
    ensures Dashed(s, inRun) == s
  {
    if s != "" {
      assert forall i :: 0 <= i < |s[1..]| ==> s[1..][i] == s[i + 1];
      DashedOfSingle(s[1..], !IsAlnum(s[0]));
    }
  }

  /** A slug is its own slug, so `slugify` is idempotent. */
  lemma SlugifyOfSlug(s: string)
    requires IsSlug(s)
    ensures Slugify(s) == s
  {
    LowerOfSlug(s);
    assert !IsSpace(s[0]) && !IsSpace(s[|s| - 1]);
    DashedOfSingle(s, false);
  }

  lemma SlugifyIdempotent(s: string)
    ensures Slugify(Slugify(s)) == Slugify(s)
  {
    SlugifyIsSlug(s);
    if Slugify(s) != "" {
      SlugifyOfSlug(Slugify(s));
    } else {
      assert Dashed("", false) == "";
    }
  }

  // ----- uniqueSlug ------------------------------------------------------------------

  function BaseSlug(name: string): string {
    var s := Slugify(name);
    if s == "" then "product" else s
  }

  /** The k-th slug tried: the base, then base-1, base-2, ... */
  function Candidate(base: string, k: nat): string {
    if k == 0 then base else base + "-" + Decimal(k)
  }

  /** The first candidate from the k-th on that is not taken; a taken one cannot
      come up again, so it may be dropped from the set. */
  function FirstFree(taken: set<string>, base: string, k: nat): string
    decreases |taken|
  {
    var c := Candidate(base, k);
    if c in taken then FirstFree(taken - {c}, base, k + 1) else c
  }

  lemma {:induction false} DecimalInjective(a: nat, b: nat)
    requires Decimal(a) == Decimal(b)
    ensures a == b
  {
    DecimalLength(a);
    DecimalLength(b);
    var s, t := Decimal(a), Decimal(b);
    assert s[|s| - 1] == "0123456789"[a % 10] && t[|t| - 1] == "0123456789"[b % 10];
    DigitInjective(a % 10, b % 10);
    if a >= 10 && b >= 10 {
      assert s[..|s| - 1] == Decimal(a / 10) && t[..|t| - 1] == Decimal(b / 10);
      DecimalInjective(a / 10, b / 10);
    }
  }

  lemma DigitInjective(a: nat, b: nat)
    requires a < 10 && b < 10 && "0123456789"[a] == "0123456789"[b]
    ensures a == b
  {
  }

  lemma {:induction false} DecimalLength(n: nat)
    ensures |Decimal(n)| >= 1 && (n >= 10 ==> |Decimal(n)| >= 2)
    ensures n < 10 ==> |Decimal(n)| == 1
    ensures forall i :: 0 <= i < |Decimal(n)| ==> IsAlnum(Decimal(n)[i])
  {
    if n >= 10 {
      DecimalLength(n / 10);
    }
  }

  lemma CandidatesDiffer(base: string, j: nat, k: nat)
    requires j != k
    ensures Candidate(base, j) != Candidate(base, k)
  {
    DecimalLength(j);
    DecimalLength(k);
    if Candidate(base, j) == Candidate(base, k) {
      var n := |base| + 1;
      assert j > 0 ==> Candidate(base, j)[n..] == Decimal(j);
      assert k > 0 ==> Candidate(base, k)[n..] == Decimal(k);
      assert |Candidate(base, j)| == |Candidate(base, k)|;
      DecimalInjective(j, k);
    }
  }

  lemma CandidateIsSlug(base: string, k: nat)
    requires IsSlug(base)
    ensures IsSlug(Candidate(base, k))
  {
    if k > 0 {
      DecimalLength(k);
      var c := Candidate(base, k);
      assert c == base + "-" + Decimal(k);
      assert c[|base|] == '-' && c[|base| + 1] == Decimal(k)[0];
      assert forall i :: 0 <= i < |base| ==> c[i] == base[i];
      assert forall i :: |base| < i < |c| ==> c[i] == Decimal(k)[i - |base| - 1];
    }
  }

  /** The slug found is the first candidate that is free: every earlier one is
      taken, and it is not. */
  lemma {:induction false} FirstFreeIsFree(taken: set<string>, base: string, k: nat) returns (j: nat)
    ensures j >= k && FirstFree(taken, base, k) == Candidate(base, j)
    ensures Candidate(base, j) !in taken
    ensures forall i :: k <= i < j ==> Candidate(base, i) in taken
    decreases |taken|
  {
    hide Candidate;
    var c := Candidate(base, k);
    if c in taken {
      j := FirstFreeIsFree(taken - {c}, base, k + 1);
      CandidatesDiffer(base, j, k);
    } else {
      j := k;
    }
  }

  lemma BaseSlugIsSlug(name: string)
    ensures IsSlug(BaseSlug(name))
  {
    SlugifyIsSlug(name);
  }

  /** `taken` holds the slugs the existence check looks at. At most one check
      more than there are taken slugs is made. */
  method UniqueSlug(taken: set<string>, name: string) returns (slug: string, checks: nat)
    ensures slug == FirstFree(taken, BaseSlug(name), 0)
    ensures slug !in taken && IsSlug(slug)
    ensures 1 <= checks <= |taken| + 1
  {
    var base := BaseSlug(name);
    slug := base;
    var suffix := 1;
    checks := 1;
    ghost var left := taken;
    BaseSlugIsSlug(name);
    while slug in taken
      invariant suffix >= 1 && slug == Candidate(base, suffix - 1)
      invariant left <= taken && checks + |left| == |taken| + 1
      invariant forall k: nat :: k >= suffix - 1 && Candidate(base, k) in taken ==> Candidate(base, k) in left
      invariant FirstFree(taken, base, 0) == FirstFree(left, base, suffix - 1)
      decreases |left|
    {
      forall k: nat | k >= suffix ensures Candidate(base, k) != slug {
        CandidatesDiffer(base, k, suffix - 1);
      }
      left := left - {slug};
      slug := base + "-" + Decimal(suffix);
      suffix := suffix + 1;
      checks := checks + 1;
    }
    CandidateIsSlug(base, suffix - 1);
  }
}
