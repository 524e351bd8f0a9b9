/** Day 4 (aoc/d04.py; d04.py holds the same functions and counting loop): the
    password rules, stated on the decimal digits of a number as characters, and
    the loop that counts the numbers of a range meeting them. */
module Day04 {
  import opened Lists

  /** The decimal digits of a natural number, most significant first: they
      read back as `n`, and only 0 itself starts with '0'. */
  function Decimal(n: nat): (s: seq<char>)
    ensures |s| > 0
    ensures forall i :: 0 <= i < |s| ==> '0' <= s[i] <= '9'
    ensures ReadDecimal(s) == n
    ensures s[0] == '0' ==> n == 0
  {
    var last := ((n % 10) + '0' as int) as char;
    if n < 10 then [last]
    else
      var s := Decimal(n / 10) + [last];
      assert s[..|s| - 1] == Decimal(n / 10);
      s
  }

  /** The value of a list of decimal digit characters, most significant first. */
  function ReadDecimal(s: seq<char>): int
  {
    if s == [] then 0 else 10 * ReadDecimal(s[..|s| - 1]) + (s[|s| - 1] as int - '0' as int)
  }

  /** `list(str(i))`. */
  function Str(i: int): seq<char>
  {
    if i < 0 then ['-'] + Decimal(-i) else Decimal(i)
  }

  /** Inserting one character into a sorted list, before the first that is not
      smaller. */
  function Insert(x: char, xs: seq<char>): (r: seq<char>)
    ensures |r| == |xs| + 1
    ensures multiset(r) == multiset(xs) + multiset{x}
  {
    if xs == [] || x <= xs[0] then [x] + xs
    else
      assert xs == [xs[0]] + xs[1..];
      [xs[0]] + Insert(x, xs[1..])
  }

  /** `sorted(digits)`, by insertion. */
  function Sort(xs: seq<char>): (r: seq<char>)
    ensures multiset(r) == multiset(xs)
  {
    if xs == [] then []
    else
      assert xs == [xs[0]] + xs[1..];
      Insert(xs[0], Sort(xs[1..]))
  }

  predicate NonDecreasing(xs: seq<char>)
  {
    forall i, j :: 0 <= i < j < |xs| ==> xs[i] <= xs[j]
  }

  /** `is_valid`: the digits equal their sorted copy, and some digit occurs
      more than once. That is the puzzle's first rule: the digits never
      decrease from left to right, and two adjacent digits are the same. */
  predicate IsValid(digits: seq<char>)
  {
    digits == Sort(digits) && exists c :: c in digits && Count(digits, c) > 1
  }

  /** `contains_one_pair`: 2 is among the counts of the distinct digits, that
      is, some digit occurs exactly twice. */
  predicate ContainsOnePair(digits: seq<char>)
    ensures ContainsOnePair(digits) <==> exists c :: c in digits && Count(digits, c) == 2
  {
    OnePairMeansExactlyTwice(digits);
    2 in (set c | c in digits :: Count(digits, c))
  }

  // ---------------------------------------------------------------------------
  // Sorting

  lemma {:induction false} InsertKeepsOrder(x: char, xs: seq<char>)
    requires NonDecreasing(xs)
    ensures NonDecreasing(Insert(x, xs))
  {
    if xs != [] && x > xs[0] {
      InsertKeepsOrder(x, xs[1..]);
      var r := Insert(x, xs);
      forall j | 0 < j < |r|
        ensures xs[0] <= r[j]
      {
        assert r[j] in multiset(xs[1..]) + multiset{x};
        if r[j] != x {
          assert r[j] in xs[1..];
        }
      }
    }
  }

  /** `sorted` returns a non-decreasing list. */
  lemma {:induction false} SortIsOrdered(xs: seq<char>)
    ensures NonDecreasing(Sort(xs))
  {
    if xs != [] {
      SortIsOrdered(xs[1..]);
      InsertKeepsOrder(xs[0], Sort(xs[1..]));
    }
  }

  /** `sorted` leaves a non-decreasing list as it is. */
  lemma {:induction false} SortKeepsOrdered(xs: seq<char>)
    requires NonDecreasing(xs)
    ensures Sort(xs) == xs
  {
    if xs != [] {
      SortKeepsOrdered(xs[1..]);
      assert xs == [xs[0]] + xs[1..];
    }
  }

  /** A list equals its sorted copy exactly when it is non-decreasing. */
  lemma SortedIffOrdered(xs: seq<char>)
    ensures xs == Sort(xs) <==> NonDecreasing(xs)
  {
    if NonDecreasing(xs) {
      SortKeepsOrdered(xs);
    } else {
      SortIsOrdered(xs);
    }
  }

  // ---------------------------------------------------------------------------
  // Counting

  /** A value occurs more than once exactly when two positions hold it. */
  lemma {:induction false} CountAboveOne<T>(xs: seq<T>, c: T)
    ensures Count(xs, c) > 1 <==> exists i, j :: 0 <= i < j < |xs| && xs[i] == c && xs[j] == c
  {
    if xs != [] {
      CountAboveOne(xs[1..], c);
      if Count(xs, c) > 1 && xs[0] == c {
        var j := IndexOf(xs[1..], c);
        assert xs[0] == c && xs[j + 1] == c;
      } else if Count(xs, c) > 1 {
        var i, j :| 0 <= i < j < |xs[1..]| && xs[1..][i] == c && xs[1..][j] == c;
        assert xs[i + 1] == c && xs[j + 1] == c;
      }
      if exists i, j :: 0 <= i < j < |xs| && xs[i] == c && xs[j] == c {
        var i, j :| 0 <= i < j < |xs| && xs[i] == c && xs[j] == c;
        if i == 0 {
          assert xs[1..][j - 1] == c;
        } else {
          assert xs[1..][i - 1] == c && xs[1..][j - 1] == c;
        }
      }
    }
  }

  /** In a non-decreasing list, a value at two positions is also at two
      adjacent ones. */
  lemma AdjacentFromRepeat(digits: seq<char>, c: char)
    requires NonDecreasing(digits) && Count(digits, c) > 1
    ensures exists i :: 0 <= i < |digits| - 1 && digits[i] == digits[i + 1]
  {
    CountAboveOne(digits, c);
    var i, j :| 0 <= i < j < |digits| && digits[i] == c && digits[j] == c;
    assert digits[i] <= digits[i + 1] <= digits[j];
  }

  /** Two equal adjacent digits make that digit occur more than once. */
  lemma RepeatFromAdjacent(digits: seq<char>, i: nat)
    requires i < |digits| - 1 && digits[i] == digits[i + 1]
    ensures digits[i] in digits && Count(digits, digits[i]) > 1
  {
    CountAboveOne(digits, digits[i]);
  }

  /** `is_valid` is the puzzle's first rule: the digits never decrease from
      left to right, and two adjacent digits are the same. */
  lemma IsValidMeansAdjacentPair(digits: seq<char>)
    ensures IsValid(digits) <==> NonDecreasing(digits) && exists i :: 0 <= i < |digits| - 1 && digits[i] == digits[i + 1]
  {
    SortedIffOrdered(digits);
    if IsValid(digits) {
      var c :| c in digits && Count(digits, c) > 1;
      AdjacentFromRepeat(digits, c);
    }
    if NonDecreasing(digits) && exists i :: 0 <= i < |digits| - 1 && digits[i] == digits[i + 1] {
      var i :| 0 <= i < |digits| - 1 && digits[i] == digits[i + 1];
      RepeatFromAdjacent(digits, i);
    }
  }

  /** `contains_one_pair`'s test, 2 among the counts, holds exactly when some
      digit occurs exactly twice. */
  lemma OnePairMeansExactlyTwice(digits: seq<char>)
    ensures 2 in (set c | c in digits :: Count(digits, c)) <==> exists c :: c in digits && Count(digits, c) == 2
  {
    if exists c :: c in digits && Count(digits, c) == 2 {
      var c :| c in digits && Count(digits, c) == 2;
      assert Count(digits, c) in (set c | c in digits :: Count(digits, c));
    }
  }

  /** The tests' valid vector of `is_valid`, on the digit list of 111111. */
  lemma IsValidExample(digits: seq<char>)
    requires digits == "111111"
    ensures IsValid(digits)
  {
    assert forall i :: 0 <= i < |digits| ==> digits[i] == '1';
    assert NonDecreasing(digits);
    assert digits[0] == digits[1];
    IsValidMeansAdjacentPair(digits);
  }

  /** The tests' invalid vector of `is_valid`, on the digit list of 223450:
      its digits decrease. */
  lemma IsInvalidExample(digits: seq<char>)
    requires digits == "223450"
    ensures !IsValid(digits)
  {
    SortedIffOrdered(digits);
    assert digits[4] > digits[5];
  }

  /** The tests' vectors of `contains_one_pair` that hold, on the digit lists
      of 112233 and 111122. */
  lemma ContainsOnePairExamples()
    ensures ContainsOnePair("112233") && ContainsOnePair("111122")
  {
    assert Count("112233", '1') == 2;
    assert Count("111122", '2') == 2;
  }

  /** The test vector of `contains_one_pair` that fails, on the digit list of
      123444. */
  lemma ContainsNoPairExample()
    ensures !ContainsOnePair("123444")
  {
    forall c | c in "123444"
      ensures Count("123444", c) != 2
    {
      assert c == '1' || c == '2' || c == '3' || c == '4';
    }
  }

  // ---------------------------------------------------------------------------
  // The counting loop of `main`

  /** How many numbers of `lo..hi-1` are valid passwords. */
  function CountValid(lo: int, hi: int): nat
    decreases hi - lo
  {
    if hi <= lo then 0
    else CountValid(lo, hi - 1) + if IsValid(Str(hi - 1)) then 1 else 0
  }

  /** How many numbers of `lo..hi-1` are valid passwords with a digit occurring
      exactly twice. */
  function CountValidWithPair(lo: int, hi: int): nat
    decreases hi - lo
  {
    if hi <= lo then 0
    else CountValidWithPair(lo, hi - 1) + if IsValid(Str(hi - 1)) && ContainsOnePair(Str(hi - 1)) then 1 else 0
  }

  /** Counting up to `hi + 1` adds the verdicts on `hi` to the counts up to `hi`. */
  lemma CountsStep(lo: int, hi: int)
    requires lo <= hi
    ensures CountValid(lo, hi + 1) == CountValid(lo, hi) + if IsValid(Str(hi)) then 1 else 0
    ensures CountValidWithPair(lo, hi + 1) ==
              CountValidWithPair(lo, hi) + if IsValid(Str(hi)) && ContainsOnePair(Str(hi)) then 1 else 0
  {
  }

  /** The second count never exceeds the first. */
  lemma {:induction false} PairCountBelowValidCount(lo: int, hi: int)
    ensures CountValidWithPair(lo, hi) <= CountValid(lo, hi)
    decreases hi - lo
  {
    if lo < hi {
      PairCountBelowValidCount(lo, hi - 1);
    }
  }

  /** The loop of `main` over `range(a, b + 1)`, with the range's bounds as
      parameters. */
  method CountPasswords(a: int, b: int) returns (p1: nat, p2: nat)
    ensures p1 == CountValid(a, b + 1) && p2 == CountValidWithPair(a, b + 1)
    ensures p2 <= p1
  {
    p1, p2 := 0, 0;
    var i := a;
    while i < b + 1
      invariant if a <= b + 1 then a <= i <= b + 1 else i == a
      invariant p1 == CountValid(a, i) && p2 == CountValidWithPair(a, i)
    {
      var digits := Str(i);
      CountsStep(a, i);
      if IsValid(digits) {
        p1 := p1 + 1;
        if ContainsOnePair(digits) {
          p2 := p2 + 1;
        }
      }
      i := i + 1;
    }
    PairCountBelowValidCount(a, b + 1);
  }
}
