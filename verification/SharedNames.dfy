/** Names of shared files: no two siblings get the same one, and none is too long for a Mac
    file system. */
module SharedNames {
  import opened Bytes

  const MAXIMUM_NAME := 255
  const LONG_EXTENSION := 240
  /** "Shared File" */
  const UNNAMED: Data := [83, 104, 97, 114, 101, 100, 32, 70, 105, 108, 101]

  function Clip(name: Data, size: nat): (r: Data)
    ensures |r| <= size && r <= name
  {
    if |name| <= size then name else name[..size]
  }

  function Digits(n: nat): (r: Data)
    ensures r != [] && forall d <- r :: 48 <= d < 58
  {
    if n < 10 then [48 + n] else Digits(n / 10) + [48 + n % 10]
  }

  /** " (n)" and the extension. */
  function Suffix(count: nat, extension: Data): Data {
    [32, 40] + Digits(count) + [41] + if extension == [] then [] else [46] + extension
  }

  function Candidate(stem: Data, extension: Data, count: nat): Data {
    var suffix := Suffix(count, extension);
    Clip(stem, if |suffix| <= MAXIMUM_NAME then MAXIMUM_NAME - |suffix| else 0) + suffix
  }

  lemma {:induction false} DigitsDiffer(a: nat, b: nat)
    requires Digits(a) == Digits(b)
    ensures a == b
  {
    if a >= 10 && b >= 10 {
      assert Digits(a)[..|Digits(a)| - 1] == Digits(a / 10) && Digits(b)[..|Digits(b)| - 1] == Digits(b / 10);
      DigitsDiffer(a / 10, b / 10);
      var x: int, y: int := Digits(a)[|Digits(a)| - 1], Digits(b)[|Digits(b)| - 1];
      assert x == 48 + a % 10 && y == 48 + b % 10;
    }
  }

  function Ending(extension: Data): Data { [41] + if extension == [] then [] else [46] + extension }

  /** Counted from the end of its extension a numbered name has a digit where a shorter number
      has its parenthesis. */
  lemma ShorterNumberDiffers(stem: Data, extension: Data, a: nat, b: nat)
    requires |Digits(a)| < |Digits(b)|
    ensures Candidate(stem, extension, a) != Candidate(stem, extension, b)
  {
    var x, y, back := Candidate(stem, extension, a), Candidate(stem, extension, b), |Ending(extension)| + |Digits(a)| + 1;
    CandidateParts(stem, extension, a);
    DigitAt(stem, extension, b, back);
    assert x[|x| - back] == 40;
  }

  lemma Within(y: Data, low: nat, part: Data, at: nat)
    requires low <= at < low + |part| <= |y| && y[low..low + |part|] == part
    ensures y[at] in part
  {
    assert part[at - low] == y[at];
  }

  lemma DigitAt(stem: Data, extension: Data, count: nat, back: nat)
    requires |Ending(extension)| < back <= |Ending(extension)| + |Digits(count)|
    ensures var y := Candidate(stem, extension, count); |y| >= back && 48 <= y[|y| - back]
  {
    var y, digits := Candidate(stem, extension, count), Digits(count);
    CandidateParts(stem, extension, count);
    var low := |y| - |Ending(extension)| - |digits|;
    Within(y, low, digits, |y| - back);
  }

  /** Two numbered names of one file differ in their numbers. */
  lemma CandidatesDiffer(stem: Data, extension: Data, a: nat, b: nat)
    requires a != b
    ensures Candidate(stem, extension, a) != Candidate(stem, extension, b)
  {
    if |Digits(a)| < |Digits(b)| {
      ShorterNumberDiffers(stem, extension, a, b);
    } else if |Digits(b)| < |Digits(a)| {
      ShorterNumberDiffers(stem, extension, b, a);
    } else {
      CandidateParts(stem, extension, a);
      CandidateParts(stem, extension, b);
      if Digits(a) == Digits(b) { DigitsDiffer(a, b); }
    }
  }

  lemma CandidateParts(stem: Data, extension: Data, count: nat)
    ensures var x, ending, digits := Candidate(stem, extension, count), Ending(extension), Digits(count);
            var p := |x| - |ending|;
            && p >= |digits| + 1
            && x[p - |digits|..p] == digits && x[p - |digits| - 1] == 40
  {
    var x, ending, digits := Candidate(stem, extension, count), Ending(extension), Digits(count);
    var front := Clip(stem, if |Suffix(count, extension)| <= MAXIMUM_NAME then MAXIMUM_NAME - |Suffix(count, extension)| else 0);
    assert x == front + [32, 40] + digits + ending;
  }

  /** The first numbered name that is free; each one found in use is one fewer to run into. */
  function FirstFree(used: set<Data>, stem: Data, extension: Data, count: nat): (r: Data)
    decreases |used|
  {
    var name := Candidate(stem, extension, count);
    if name !in used then name else FirstFree(used - {name}, stem, extension, count + 1)
  }

  /** What was set aside lies behind, so leaving it in changes nothing. */
  lemma {:induction false} FirstFreeIs(used: set<Data>, stem: Data, extension: Data, count: nat)
    ensures exists k: nat ::
      && count <= k <= count + |used|
      && FirstFree(used, stem, extension, count) == Candidate(stem, extension, k) && Candidate(stem, extension, k) !in used
      && forall j :: count <= j < k ==> Candidate(stem, extension, j) in used
    decreases |used|
  {
    var name := Candidate(stem, extension, count);
    if name in used {
      var rest := used - {name};
      FirstFreeIs(rest, stem, extension, count + 1);
      var k: nat :| count + 1 <= k <= count + 1 + |rest|
                    && FirstFree(rest, stem, extension, count + 1) == Candidate(stem, extension, k)
                    && Candidate(stem, extension, k) !in rest
                    && forall j :: count + 1 <= j < k ==> Candidate(stem, extension, j) in rest;
      CandidatesDiffer(stem, extension, count, k);
    } else {
      assert FirstFree(used, stem, extension, count) == Candidate(stem, extension, count);
    }
  }

  /** A name as the source offers it, whole and split at its extension. */
  datatype Offered = Offered(whole: Data, stem: Data, extension: Data)

  function ShortExtension(o: Offered): Data { if |o.extension| < LONG_EXTENSION then o.extension else [] }

  function Original(o: Offered): Data {
    var clipped := Clip(o.whole, MAXIMUM_NAME);
    if clipped == [] then UNNAMED else clipped
  }

  function Stem(o: Offered): Data { if ShortExtension(o) == [] then Original(o) else o.stem }

  function UniqueName(used: set<Data>, o: Offered): Data {
    if Original(o) !in used then Original(o) else FirstFree(used, Stem(o), ShortExtension(o), 2)
  }

  lemma {:induction false} DigitsAreFew(n: nat, limit: nat)
    requires n < Power(limit) && limit > 0
    ensures |Digits(n)| <= limit
  {
    if n >= 10 { DigitsAreFew(n / 10, limit - 1); }
  }

  function Power(n: nat): nat { if n == 0 then 1 else 10 * Power(n - 1) }

  function Value(digits: Data): nat
    requires forall k :: 0 <= k < |digits| ==> 48 <= digits[k] < 58
  {
    if digits == [] then 0
    else
      var last: int := digits[|digits| - 1];
      10 * Value(digits[..|digits| - 1]) + (last - 48)
  }

  /** A number is written in decimal. */
  lemma {:induction false} DigitsMean(n: nat)
    ensures forall k :: 0 <= k < |Digits(n)| ==> 48 <= Digits(n)[k] < 58
    ensures Value(Digits(n)) == n
  {
    assert forall k :: 0 <= k < |Digits(n)| ==> Digits(n)[k] in Digits(n);
    if n >= 10 {
      DigitsMean(n / 10);
      assert Digits(n)[..|Digits(n)| - 1] == Digits(n / 10);
    } else {
      assert Digits(n)[..0] == [];
    }
  }

  /** A numbered name: the beginning of the name, the number in parentheses, the extension. */
  predicate IsNumbered(name: Data, o: Offered, k: nat) {
    exists n: nat ::
      && n <= |Stem(o)|
      && name == Stem(o)[..n] + [32, 40] + Digits(k) + [41] + (if ShortExtension(o) == [] then [] else [46] + ShortExtension(o))
      && (n < |Stem(o)| ==> |name| >= MAXIMUM_NAME)
  }

  lemma CandidateIsNumbered(o: Offered, k: nat)
    ensures IsNumbered(Candidate(Stem(o), ShortExtension(o), k), o, k)
  {
    var suffix := Suffix(k, ShortExtension(o));
    var front := Clip(Stem(o), if |suffix| <= MAXIMUM_NAME then MAXIMUM_NAME - |suffix| else 0);
    assert front == Stem(o)[..|front|];
    assert front + suffix
        == Stem(o)[..|front|] + [32, 40] + Digits(k) + [41] + (if ShortExtension(o) == [] then [] else [46] + ShortExtension(o));
  }

  /** A free name of at most 255 bytes, found within one try more than there are names in use:
      the name itself, as far as it fits, if it is free, and otherwise the first number that
      makes it so. */
  lemma UniqueNameIsFree(used: set<Data>, o: Offered)
    ensures UniqueName(used, o) !in used
    ensures |used| + 2 < Power(12) ==> |UniqueName(used, o)| <= MAXIMUM_NAME
    ensures o.whole != [] && |o.whole| <= MAXIMUM_NAME && o.whole !in used ==> UniqueName(used, o) == o.whole
    ensures Original(o) !in used ==> UniqueName(used, o) == Original(o)
    ensures Original(o) in used ==> exists k: nat ::
              && 2 <= k <= |used| + 2 && UniqueName(used, o) == Candidate(Stem(o), ShortExtension(o), k)
              && IsNumbered(UniqueName(used, o), o, k)
              && forall j :: 2 <= j < k ==> Candidate(Stem(o), ShortExtension(o), j) in used
  {
    if Original(o) in used {
      FirstFreeIs(used, Stem(o), ShortExtension(o), 2);
      var k: nat :| 2 <= k <= 2 + |used| && FirstFree(used, Stem(o), ShortExtension(o), 2) == Candidate(Stem(o), ShortExtension(o), k)
                    && Candidate(Stem(o), ShortExtension(o), k) !in used
                    && forall j :: 2 <= j < k ==> Candidate(Stem(o), ShortExtension(o), j) in used;
      CandidateIsNumbered(o, k);
      if |used| + 2 < Power(12) { DigitsAreFew(k, 12); }
    }
  }

  method MakeUniqueName(used: set<Data>, o: Offered) returns (name: Data)
    ensures name == UniqueName(used, o)
  {
    var original := Clip(o.whole, MAXIMUM_NAME);
    if original == [] { original := UNNAMED; }
    if original !in used { return original; }
    var extension := if |o.extension| < LONG_EXTENSION then o.extension else [];
    var stem := if extension == [] then original else o.stem;
    var count := 2;
    name := Candidate(stem, extension, count);
    ghost var rest := used;
    while name in used
      invariant name == Candidate(stem, extension, count) && rest <= used
      invariant forall k :: count <= k ==> (Candidate(stem, extension, k) in used <==> Candidate(stem, extension, k) in rest)
      invariant FirstFree(rest, stem, extension, count) == FirstFree(used, stem, extension, 2)
      decreases |rest|
    {
      forall k | count < k ensures Candidate(stem, extension, k) != name { CandidatesDiffer(stem, extension, count, k); }
      rest := rest - {name};
      count := count + 1;
      name := Candidate(stem, extension, count);
    }
  }
}
