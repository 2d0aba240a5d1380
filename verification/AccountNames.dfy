/** Finding an unused account name by counting up the number at its end. Names are ASCII. */
module AccountNames {
  import opened Numerals

  const G_MAXINT: int := 0x7FFF_FFFF
  const LONG_MAX: int := 0x7FFF_FFFF_FFFF_FFFF

  /** The name without the digits at its end. */
  function Stem(s: string): (r: string)
    ensures r <= s && AllDigits(s[|r|..])
    ensures r == [] || !IsDigit(r[|r| - 1])
  {
    if s == [] || !IsDigit(s[|s| - 1]) then s
    else
      var r := Stem(s[..|s| - 1]);
      assert s[|r|..] == s[..|s| - 1][|r|..] + [s[|s| - 1]];
      r
  }

  function Number(s: string): nat {
    Value(s[|Stem(s)|..])
  }

  /** The value of an int expression as the 32-bit gint it is stored in. */
  function Gint(n: int): (r: int)
    ensures -0x8000_0000 <= r <= G_MAXINT
    ensures -0x8000_0000 <= n <= G_MAXINT ==> r == n
  {
    (n + 0x8000_0000) % 0x1_0000_0000 - 0x8000_0000
  }

  /** printf's %d. */
  function PrintInt(n: int): (s: string)
    ensures s != []
  {
    if n < 0 then "-" + PrintNat(-n) else PrintNat(n)
  }

  /** atol's result for a number, stored in a gint. */
  function Cut(v: nat): int {
    Gint(if v > LONG_MAX then LONG_MAX else v)
  }

  /** The number after v: read by atol and then counted up. */
  function Next(v: nat): int {
    Gint(Cut(v) + 1)
  }

  lemma NextFacts(v: nat)
    ensures -0x8000_0000 <= Next(v) <= G_MAXINT
    ensures v < G_MAXINT ==> Next(v) == v + 1
    ensures v == G_MAXINT || v == G_MAXINT + 1 ==> Next(v) < 0
  {
  }

  function Incremented(text: string): string {
    Stem(text) + PrintInt(Next(Number(text)))
  }

  /** Steps back over the digits at the end of a name. */
  method FindAlphaEnd(text: string) returns (alphaEnd: nat)
    requires text != ""
    ensures alphaEnd <= |text| && (alphaEnd == 0 || !IsDigit(text[alphaEnd - 1]))
    ensures forall k :: alphaEnd <= k < |text| ==> IsDigit(text[k])
  {
    var p := |text| - 1;
    while p >= 0
      invariant -1 <= p < |text|
      invariant forall k :: p < k < |text| ==> IsDigit(text[k])
    {
      if !IsDigit(text[p]) {
        return p + 1;
      }
      p := p - 1;
    }
    return 0;
  }

  /** util_increment_name. */
  method UtilIncrementName(text: string) returns (result: string)
    requires text != ""
    ensures result == Incremented(text) && result != ""
  {
    var alphaEnd := FindAlphaEnd(text);
    StemEndsAt(text, alphaEnd);
    result := text[..alphaEnd] + PrintInt(Next(Value(text[alphaEnd..])));
  }

  lemma StemEndsAt(text: string, n: nat)
    requires n <= |text| && (n == 0 || !IsDigit(text[n - 1]))
    requires forall k :: n <= k < |text| ==> IsDigit(text[k])
    ensures Stem(text) == text[..n] && Number(text) == Value(text[n..])
  {
    assert text == text[..n] + text[n..];
    StemOfDigits(text[..n], text[n..]);
  }

  lemma {:induction false} StemOfDigits(s: string, digits: string)
    requires s == [] || !IsDigit(s[|s| - 1])
    requires AllDigits(digits)
    ensures Stem(s + digits) == s && Number(s + digits) == Value(digits)
  {
    if digits == [] {
      assert s + digits == s;
      assert s[|s|..] == [];
    } else {
      var front := digits[..|digits| - 1];
      assert (s + digits)[..|s + digits| - 1] == s + front;
      StemOfDigits(s, front);
      assert (s + digits)[|s|..] == digits;
    }
  }

  lemma PrintedNumber(stem: string, num: nat)
    requires stem == [] || !IsDigit(stem[|stem| - 1])
    ensures Stem(stem + PrintNat(num)) == stem && Number(stem + PrintNat(num)) == num
  {
    StemOfDigits(stem, PrintNat(num));
  }

  lemma MinusSign(stem: string, digits: string)
    ensures stem + ("-" + digits) == stem + "-" + digits
    ensures var s := stem + "-"; !IsDigit(s[|s| - 1])
  {
  }

  lemma PrintedForm(stem: string, num: int)
    requires stem == [] || !IsDigit(stem[|stem| - 1])
    ensures var s := stem + PrintInt(num);
            if num >= 0 then Stem(s) == stem && Number(s) == num else Stem(s) == stem + "-" && Number(s) == -num
  {
    if num >= 0 {
      PrintedNumber(stem, num);
    } else {
      MinusSign(stem, PrintNat(-num));
      PrintedNumber(stem + "-", -num);
    }
  }

  lemma IncrementedForm(s: string)
    ensures Next(Number(s)) >= 0 ==> Stem(Incremented(s)) == Stem(s) && Number(Incremented(s)) == Next(Number(s))
    ensures Next(Number(s)) < 0 ==> Stem(Incremented(s)) == Stem(s) + "-" && Number(Incremented(s)) == -Next(Number(s))
  {
    PrintedForm(Stem(s), Next(Number(s)));
  }

  /** Counting up keeps the stem and adds one to the number, as long as the number is below the limit
      of a gint: reading the number back undoes printing it. */
  lemma IncrementCounts(s: string)
    requires Number(s) < G_MAXINT
    ensures Stem(Incremented(s)) == Stem(s) && Number(Incremented(s)) == Number(s) + 1
  {
    NextFacts(Number(s));
    IncrementedForm(s);
  }

  /** At the limit the number wraps around, and its minus sign becomes part of the stem; a number too
      large for a gint is cut down. */
  lemma IncrementOverflows(s: string)
    ensures Number(Incremented(s)) <= G_MAXINT + 1 && Stem(s) <= Stem(Incremented(s))
    ensures G_MAXINT <= Number(s) <= G_MAXINT + 1 ==> Stem(Incremented(s)) == Stem(s) + "-"
  {
    NextFacts(Number(s));
    IncrementedForm(s);
  }

  /** So counting up is right exactly below the limit. */
  lemma IncrementIsRightExactly(s: string)
    ensures Stem(Incremented(s)) == Stem(s) && Number(Incremented(s)) == Number(s) + 1 <==> Number(s) < G_MAXINT
  {
    IncrementOverflows(s);
    if Number(s) < G_MAXINT {
      IncrementCounts(s);
    }
  }

  /** What is printed behind the stem for any number, with atol's limit and the arithmetic of a 32-bit int. */
  lemma IncrementedText(s: string)
    ensures var n := if Number(s) > LONG_MAX then 0
                     else (Number(s) + 0x8000_0001) % 0x1_0000_0000 - 0x8000_0000;
            Incremented(s) == Stem(s) + (if n < 0 then "-" + PrintNat(-n) else PrintNat(n))
  {
    NextIs(Number(s));
  }

  lemma GintOfNext(v: int)
    ensures Gint(Gint(v) + 1) == (v + 0x8000_0001) % 0x1_0000_0000 - 0x8000_0000
  {
  }

  lemma NextIs(v: nat)
    ensures Next(v) == if v > LONG_MAX then 0 else (v + 0x8000_0001) % 0x1_0000_0000 - 0x8000_0000
  {
    GintOfNext(if v > LONG_MAX then LONG_MAX else v);
  }

  // ----- repeating a step -----

  /** The k-th name tried. */
  function Nth(f: string -> string, start: string, k: nat): string {
    if k == 0 then start else f(Nth(f, start, k - 1))
  }

  /** Each step lands at a number up to top, and from such a number goes up in the order of stem lengths
      and then numbers. */
  ghost predicate Climbs(f: string -> string, stem: string -> nat, number: string -> nat, top: nat) {
    forall s ::
      && number(f(s)) <= top
      && (number(s) <= top ==> stem(s) < stem(f(s)) || (stem(s) == stem(f(s)) && number(s) < number(f(s))))
  }

  lemma {:induction false} NthGoesUp(f: string -> string, stem: string -> nat, number: string -> nat, top: nat,
                                     start: string, i: nat, j: nat)
    requires Climbs(f, stem, number, top) && i < j && number(Nth(f, start, i)) <= top
    ensures var a, b := Nth(f, start, i), Nth(f, start, j);
            number(b) <= top && (stem(a) < stem(b) || (stem(a) == stem(b) && number(a) < number(b)))
  {
    if i < j - 1 {
      NthGoesUp(f, stem, number, top, start, i, j - 1);
    }
  }

  lemma NthDiffer(f: string -> string, stem: string -> nat, number: string -> nat, top: nat,
                  start: string, i: nat, j: nat)
    requires Climbs(f, stem, number, top) && i < j
    ensures Nth(f, start, i) != Nth(f, start, j)
  {
    if number(Nth(f, start, i)) <= top {
      NthGoesUp(f, stem, number, top, start, i, j);
    } else {
      assert number(f(Nth(f, start, j - 1))) <= top;
    }
  }

  lemma IncrementClimbs()
    ensures Climbs(Incremented, s => |Stem(s)|, Number, G_MAXINT + 1)
  {
    forall s: string
      ensures var t := Incremented(s);
              && Number(t) <= G_MAXINT + 1
              && (Number(s) <= G_MAXINT + 1 ==>
                    |Stem(s)| < |Stem(t)| || (|Stem(s)| == |Stem(t)| && Number(s) < Number(t)))
    {
      IncrementOverflows(s);
      if Number(s) < G_MAXINT { IncrementCounts(s); }
    }
  }

  /** No name is ever tried twice, not even when numbers overflow. */
  lemma NamesDiffer(start: string, i: nat, j: nat)
    requires i < j
    ensures Nth(Incremented, start, i) != Nth(Incremented, start, j)
  {
    IncrementClimbs();
    NthDiffer(Incremented, s => |Stem(s)|, Number, G_MAXINT + 1, start, i, j);
  }

  lemma {:induction false} NthKeepsPrefix(f: string -> string, stem: string -> string, start: string, k: nat)
    requires forall s :: stem(s) <= stem(f(s))
    ensures stem(start) <= stem(Nth(f, start, k))
  {
    if k > 0 {
      NthKeepsPrefix(f, stem, start, k - 1);
    }
  }

  /** Every name tried starts with the stem of the first. */
  lemma {:induction false} NamesKeepStem(start: string, k: nat)
    ensures Stem(start) <= Nth(Incremented, start, k)
  {
    forall s: string ensures Stem(s) <= Stem(Incremented(s)) {
      IncrementOverflows(s);
    }
    NthKeepsPrefix(Incremented, Stem, start, k);
  }

  function Tried(f: string -> string, start: string, k: nat): set<string> {
    set j: nat | j < k :: Nth(f, start, j)
  }

  lemma TriedStep(f: string -> string, start: string, k: nat)
    ensures Tried(f, start, k + 1) == Tried(f, start, k) + {Nth(f, start, k)}
    ensures Nth(f, start, k + 1) == f(Nth(f, start, k))
  {
  }

  ghost predicate NeverAgain(f: string -> string, start: string) {
    forall i: nat, j: nat :: i < j ==> Nth(f, start, i) != Nth(f, start, j)
  }

  lemma NewOne(f: string -> string, start: string, k: nat)
    requires NeverAgain(f, start)
    ensures Nth(f, start, k) !in Tried(f, start, k)
  {
  }

  lemma {:induction false} TriedCount(f: string -> string, start: string, k: nat)
    requires NeverAgain(f, start)
    ensures |Tried(f, start, k)| == k
  {
    if k > 0 {
      TriedCount(f, start, k - 1);
      TriedStep(f, start, k - 1);
      NewOne(f, start, k - 1);
    }
  }

  lemma SubsetIsSmaller<T>(a: set<T>, b: set<T>)
    requires a <= b
    ensures |a| <= |b|
  {
    if a != {} {
      var x :| x in a;
      SubsetIsSmaller(a - {x}, b - {x});
    }
  }

  ghost predicate AllUsed(existing: set<string>, start: string, k: nat) {
    forall j: nat :: j < k ==> Nth(Incremented, start, j) in existing
  }

  lemma FirstIsUsed(existing: set<string>, start: string, k: nat)
    requires AllUsed(existing, start, k) && k > 0
    ensures start in existing
  {
    var j: nat := 0;
    assert Nth(Incremented, start, j) == start;
  }

  /** Names that were all in use are no more than there are accounts. */
  lemma UsedAreFew(existing: set<string>, start: string, k: nat)
    requires AllUsed(existing, start, k)
    ensures k <= |existing|
  {
    forall i: nat, j: nat | i < j ensures Nth(Incremented, start, i) != Nth(Incremented, start, j) {
      NamesDiffer(start, i, j);
    }
    TriedCount(Incremented, start, k);
    SubsetIsSmaller(Tried(Incremented, start, k), existing);
  }

  lemma OneMoreUsed(existing: set<string>, start: string, k: nat)
    requires AllUsed(existing, start, k) && Nth(Incremented, start, k) in existing
    ensures AllUsed(existing, start, k + 1) && k + 1 <= |existing|
    ensures Nth(Incremented, start, k + 1) == Incremented(Nth(Incremented, start, k))
  {
    UsedAreFew(existing, start, k + 1);
  }

  /** modest_account_mgr_get_unused_account_name: the first of the names tried that is not used, found
      after at most as many steps as there are accounts. */
  method GetUnusedAccountName(existing: set<string>, startingName: string)
    returns (accountName: string, ghost steps: nat)
    requires startingName != ""
    ensures accountName !in existing && accountName == Nth(Incremented, startingName, steps)
    ensures steps <= |existing| && AllUsed(existing, startingName, steps)
  {
    accountName, steps := startingName, 0;
    while accountName in existing
      invariant accountName == Nth(Incremented, startingName, steps) && accountName != ""
      invariant AllUsed(existing, startingName, steps) && steps <= |existing|
      decreases |existing| - steps
    {
      OneMoreUsed(existing, startingName, steps);
      accountName := UtilIncrementName(accountName);
      steps := steps + 1;
    }
  }
}
