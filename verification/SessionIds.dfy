// Session ids, and how a restarted manager recovers its counter from the stored ones.
module SessionIds {
  import opened Options
  import opened Decimals
  import opened Text

  const UINT64_LIMIT: nat := 0x1_0000_0000_0000_0000

  // "%06d" pads to six digits and prints wider numbers in full.
  function IdWidth(n: nat): nat {
    if Width(n) < 6 then 6 else Width(n)
  }

  // fmt.Sprintf("s_%06d", n)
  function FormatId(n: nat): string {
    "s_" + Digits(n, IdWidth(n))
  }

  // id GLOB 's_[0-9]*'
  predicate GlobMatches(id: string) {
    |id| >= 3 && id[0] == 's' && id[1] == '_' && IsDigit(id[2])
  }

  // SELECT id ... WHERE id GLOB 's_[0-9]*' ORDER BY id DESC LIMIT 1, with "" for no row
  ghost function MaxSessionId(ids: set<string>): (m: string)
    ensures m == "" || (m in ids && GlobMatches(m))
    ensures forall id :: id in ids && GlobMatches(id) ==> m != "" && LexLe(id, m)
  {
    if ids == {} then ""
    else
      var id :| id in ids;
      var rest := MaxSessionId(ids - {id});
      assert forall o :: o in ids ==> o == id || o in ids - {id};
      LexTotal(id, rest);
      LexTotal(id, id);
      assert forall o :: LexLe(o, rest) && LexLe(rest, id) ==> LexLe(o, id) by {
        forall o | LexLe(o, rest) && LexLe(rest, id) ensures LexLe(o, id) { LexTransitive(o, rest, id); }
      }
      if GlobMatches(id) && (rest == "" || LexLe(rest, id)) then id else rest
  }

  // One more id: the larger of two stays the larger of all.
  lemma MaxOfMore(ids: set<string>, m: string, id: string)
    requires forall o :: o in ids && GlobMatches(o) ==> m != "" && LexLe(o, m)
    ensures LexLe(id, id) && (LexLe(m, id) || LexLe(id, m))
    ensures LexLe(m, id) ==> forall o :: o in ids && GlobMatches(o) ==> LexLe(o, id)
  {
    LexTotal(id, id);
    LexTotal(m, id);
    if LexLe(m, id) {
      forall o | o in ids && GlobMatches(o) ensures LexLe(o, id) {
        LexTransitive(o, m, id);
      }
    }
  }

  lemma MaxUnique(ids: set<string>, m: string)
    requires m == "" || (m in ids && GlobMatches(m))
    requires forall id :: id in ids && GlobMatches(id) ==> m != "" && LexLe(id, m)
    ensures m == MaxSessionId(ids)
  {
    LexTotal(m, MaxSessionId(ids));
  }

  // strconv.ParseUint(s, 10, 64)
  function ParseUint(s: string): Option<nat> {
    if s != "" && AllDigits(s) && Value(s) < UINT64_LIMIT then Some(Value(s)) else None
  }

  function ParseId(id: string): Option<nat> {
    var numStr := if |id| >= 2 && id[..2] == "s_" then id[2..] else id;
    var trimmed := TrimLeft(numStr, (c: char) => c == '0');
    ParseUint(if trimmed == "" then "0" else trimmed)
  }

  // What Init leaves in the counter when the store reports maxId.
  function SeedCounter(counter: nat, maxId: string): nat {
    if maxId != "" && ParseId(maxId).Some? && ParseId(maxId).value > counter then ParseId(maxId).value else counter
  }

  lemma {:induction false} ValueTrimZeros(s: string)
    requires AllDigits(s)
    ensures AllDigits(TrimLeft(s, (c: char) => c == '0'))
    ensures Value(TrimLeft(s, (c: char) => c == '0')) == Value(s)
  {
    if s != "" && s[0] == '0' {
      ValueTrimZeros(s[1..]);
      ValueLeadingZero(s[1..]);
      assert s == "0" + s[1..];
    }
  }

  lemma IdWidthFits(n: nat)
    ensures n < Pow10(IdWidth(n))
  {
    WidthBounds(n);
    if Width(n) < 6 {
      Pow10Monotone(Width(n), 6);
    }
  }

  lemma {:induction false} Pow10Monotone(j: nat, k: nat)
    requires j <= k
    ensures Pow10(j) <= Pow10(k)
  {
    if j < k {
      Pow10Monotone(j, k - 1);
    }
  }

  // Init's parse undoes Create's format.
  lemma ParseInverts(n: nat)
    requires n < 0x1_0000_0000_0000_0000
    ensures ParseId(FormatId(n)) == Some(n)
  {
    var digits := Digits(n, IdWidth(n));
    assert FormatId(n)[..2] == "s_" && FormatId(n)[2..] == digits;
    IdWidthFits(n);
    ValueOfDigits(n, IdWidth(n));
    ValueTrimZeros(digits);
    assert Value("0") == 0 by {
      assert "0"[..0] == "";
    }
  }

  lemma FormatInjective(m: nat, n: nat)
    requires FormatId(m) == FormatId(n)
    ensures m == n
  {
    var a, b := Digits(m, IdWidth(m)), Digits(n, IdWidth(n));
    assert a == FormatId(m)[2..] && b == FormatId(n)[2..];
    IdWidthFits(m);
    IdWidthFits(n);
    ValueOfDigits(m, IdWidth(m));
    ValueOfDigits(n, IdWidth(n));
  }

  // Text order of two ids, in numbers: the wider one is cut down to the width of the other first.
  lemma OrderOfIds(m: nat, n: nat)
    requires IdWidth(m) <= IdWidth(n)
    ensures LexLe(FormatId(m), FormatId(n)) <==> m <= Cut(n, IdWidth(n) - IdWidth(m))
  {
    var w, k := IdWidth(m), IdWidth(n) - IdWidth(m);
    LexCommonPrefix("s_", Digits(m, w), Digits(n, w + k));
    IdWidthFits(m);
    IdWidthFits(n);
    OrderOfDigits(m, n, w, k);
  }

  lemma OrderOfDigits(m: nat, n: nat, w: nat, k: nat)
    requires m < Pow10(w) && n < Pow10(w + k)
    ensures LexLe(Digits(m, w), Digits(n, w + k)) <==> m <= Cut(n, k)
  {
    CutFits(n, w, k);
    DigitsPrefix(n, w, k);
    LexAgainstLonger(Digits(m, w), Digits(n, w + k));
    LexOfDigits(m, Cut(n, k), w);
  }

  ghost function Ids(nums: set<nat>): set<string> {
    set n | n in nums :: FormatId(n)
  }

  // The stored numbers' text order agrees with number order at the largest of them.
  predicate TopSortsLast(nums: set<nat>, top: nat) {
    forall n :: n in nums ==> IdWidth(n) <= IdWidth(top) && n <= Cut(top, IdWidth(top) - IdWidth(n))
  }

  // Every id the manager will hand out after Init is absent from the store.
  ghost predicate FreshAfter(counter: nat, ids: set<string>) {
    forall n: nat :: n > counter ==> FormatId(n) !in ids
  }

  lemma FreshIffCovers(seed: nat, nums: set<nat>)
    ensures FreshAfter(seed, Ids(nums)) <==> forall n :: n in nums ==> n <= seed
  {
    forall n: nat | n > seed && FormatId(n) in Ids(nums) ensures n in nums {
      var m :| m in nums && FormatId(m) == FormatId(n);
      FormatInjective(m, n);
    }
    forall n | n in nums ensures FormatId(n) in Ids(nums) {
    }
  }

  // What Init seeds from: the number whose id sorts last.
  lemma SeedIsLexLast(nums: set<nat>, counter: nat) returns (last: nat)
    requires nums != {} && forall n :: n in nums ==> n < UINT64_LIMIT
    ensures last in nums && forall n :: n in nums ==> LexLe(FormatId(n), FormatId(last))
    ensures SeedCounter(counter, MaxSessionId(Ids(nums))) == if last > counter then last else counter
  {
    var ids := Ids(nums);
    var some :| some in nums;
    FormatMatchesGlob(some);
    assert FormatId(some) in ids;
    var max := MaxSessionId(ids);
    last :| last in nums && FormatId(last) == max;
    ParseInverts(last);
    forall n | n in nums ensures LexLe(FormatId(n), FormatId(last)) {
      assert FormatId(n) in ids;
      FormatMatchesGlob(n);
    }
  }

  lemma FormatMatchesGlob(n: nat)
    ensures GlobMatches(FormatId(n))
  {
    assert FormatId(n)[2] == Digits(n, IdWidth(n))[0];
  }

  // Restart freshness, exactly: with top the largest stored number, every later id is fresh if and only if
  // the manager had already counted that far or top's id also sorts last.
  lemma RestartExact(nums: set<nat>, top: nat, counter: nat)
    requires forall n :: n in nums ==> n < UINT64_LIMIT
    requires top in nums && forall n :: n in nums ==> n <= top
    ensures FreshAfter(SeedCounter(counter, MaxSessionId(Ids(nums))), Ids(nums))
       <==> top <= counter || TopSortsLast(nums, top)
  {
    var seed := SeedCounter(counter, MaxSessionId(Ids(nums)));
    var last := SeedIsLexLast(nums, counter);
    FreshIffCovers(seed, nums);
    forall n | n in nums
      ensures IdWidth(n) <= IdWidth(top)
      ensures LexLe(FormatId(n), FormatId(top)) <==> n <= Cut(top, IdWidth(top) - IdWidth(n))
    {
      WidthMonotone(n, top);
      OrderOfIds(n, top);
    }
    if TopSortsLast(nums, top) {
      LexTotal(FormatId(last), FormatId(top));
      FormatInjectiveIfEqual(last, top);
    }
  }

  lemma FormatInjectiveIfEqual(m: nat, n: nat)
    ensures FormatId(m) == FormatId(n) ==> m == n
  {
    if FormatId(m) == FormatId(n) {
      FormatInjective(m, n);
    }
  }

  // Up to a million sessions the padding is enough: every restart is fresh.
  lemma RestartFreshUpToMillion(nums: set<nat>, counter: nat)
    requires forall n :: n in nums ==> n <= 999_999
    ensures FreshAfter(SeedCounter(counter, MaxSessionId(Ids(nums))), Ids(nums))
  {
    if nums != {} {
      var top := LargestOf(nums);
      forall n | n in nums ensures IdWidth(n) == 6 {
        SixDigitsEnough(n);
      }
      SortsLastAtOneWidth(nums, top);
      RestartExact(nums, top, counter);
    }
  }

  lemma SixDigitsEnough(n: nat)
    requires n <= 999_999
    ensures IdWidth(n) == 6
  {
    Pow10Million();
    WidthLeast(n, 6);
  }

  lemma SortsLastAtOneWidth(nums: set<nat>, top: nat)
    requires forall n :: n in nums ==> IdWidth(n) == IdWidth(top) && n <= top
    ensures TopSortsLast(nums, top)
  {
  }

  ghost function LargestOf(nums: set<nat>): (top: nat)
    requires nums != {}
    ensures top in nums && forall n :: n in nums ==> n <= top
  {
    var n :| n in nums;
    if nums == {n} then n
    else
      var rest := LargestOf(nums - {n});
      assert forall o :: o in nums ==> o == n || o in nums - {n};
      if n > rest then n else rest
  }

  // The bound is tight: one more session and the seed is behind the store.
  lemma MillionthSessionBreaksSeed()
    ensures SeedCounter(0, MaxSessionId(Ids({999_999, 1_000_000}))) == 999_999
    ensures FormatId(999_999 + 1) in Ids({999_999, 1_000_000})
  {
    var nums: set<nat> := {999_999, 1_000_000};
    MillionIsWider();
    OrderOfIds(999_999, 1_000_000);
    LexTotal(FormatId(999_999), FormatId(1_000_000));
    var last := SeedIsLexLast(nums, 0);
    assert 999_999 in nums && 1_000_000 in nums;
    FormatInjectiveIfEqual(999_999, 1_000_000);
    assert last == 999_999;
    assert FormatId(1_000_000) in Ids(nums);
  }

  lemma MillionIsWider()
    ensures IdWidth(999_999) == 6 && IdWidth(1_000_000) == 7 && Cut(1_000_000, 1) == 100_000
  {
    Pow10Million();
    WidthLeast(999_999, 6);
    WidthLeast(1_000_000, 7);
    WidthAbove(1_000_000, 6);
  }

  lemma WidthAbove(n: nat, w: nat)
    requires n >= Pow10(w)
    ensures Width(n) > w
  {
    WidthBounds(n);
    if Width(n) <= w {
      Pow10Monotone(Width(n), w);
    }
  }

  lemma Pow10Million()
    ensures Pow10(1) == 10 && Pow10(6) == 1_000_000 && Pow10(7) == 10_000_000
  {
  }

  // What an id looks like: "s_" and the number's decimal digits, six of them unless it needs more.
  lemma IdText(n: nat)
    ensures var id := FormatId(n);
      && "s_" <= id && AllDigits(id[2..]) && Value(id[2..]) == n
      && (n <= 999_999 ==> |id| == 8) && (n > 999_999 ==> |id| > 8 && id[2] != '0')
  {
    IdWidthFits(n);
    ValueOfDigits(n, IdWidth(n));
    assert FormatId(n)[2..] == Digits(n, IdWidth(n));
    if n <= 999_999 {
      SixDigitsEnough(n);
    } else {
      Pow10Million();
      WidthAbove(n, 6);
      WidthBounds(n);
      FirstDigit(n, Width(n));
    }
  }

  // A number that needs all w digits does not begin with a zero.
  lemma {:induction false} FirstDigit(n: nat, w: nat)
    requires w >= 1 && Pow10(w - 1) <= n < Pow10(w)
    ensures Digits(n, w)[0] != '0'
  {
    if w > 1 {
      FirstDigit(n / 10, w - 1);
    }
  }

  // Rows under ids that are not numbered the same way do not disturb the seed.
  lemma ForeignIdsIgnored(ids: set<string>, foreign: set<string>)
    requires forall id :: id in foreign ==> !("s_" <= id && |id| >= 3 && '0' <= id[2] <= '9')
    ensures MaxSessionId(ids + foreign) == MaxSessionId(ids)
  {
    forall id | id in foreign ensures !GlobMatches(id) {
      assert |id| >= 2 && id[0] == 's' && id[1] == '_' ==> id[..2] == "s_";
    }
    MaxUnique(ids + foreign, MaxSessionId(ids));
  }
}
