/**
  Printing layer indices as ranges (vllm/model_inspection.py, _format_index_ranges), with a reader
  for the printed form.
 */
module IndexRanges {
  import opened Wrappers

  /******* Sorting *******/

  function Insert(x: int, xs: seq<int>): seq<int> {
    if xs == [] || x <= xs[0] then [x] + xs else [xs[0]] + Insert(x, xs[1..])
  }

  function Sort(xs: seq<int>): seq<int> {
    if xs == [] then [] else Insert(xs[0], Sort(xs[1..]))
  }

  ghost predicate Sorted(xs: seq<int>) {
    forall i, j | 0 <= i < j < |xs| :: xs[i] <= xs[j]
  }

  lemma {:induction false} InsertAdds(x: int, xs: seq<int>)
    ensures multiset(Insert(x, xs)) == multiset(xs) + multiset{x}
  {
    if xs != [] {
      assert xs == [xs[0]] + xs[1..];
      InsertAdds(x, xs[1..]);
    }
  }

  lemma {:induction false} InsertSorts(x: int, xs: seq<int>)
    requires Sorted(xs)
    ensures Sorted(Insert(x, xs))
    ensures forall i | 0 <= i < |Insert(x, xs)| :: x <= Insert(x, xs)[i] || (xs != [] && xs[0] <= Insert(x, xs)[i])
  {
    if xs != [] && x > xs[0] {
      InsertSorts(x, xs[1..]);
    }
  }

  lemma {:induction false} SortSorts(xs: seq<int>)
    ensures Sorted(Sort(xs)) && multiset(Sort(xs)) == multiset(xs)
  {
    if xs != [] {
      SortSorts(xs[1..]);
      InsertSorts(xs[0], Sort(xs[1..]));
      InsertAdds(xs[0], Sort(xs[1..]));
      assert xs == [xs[0]] + xs[1..];
    }
  }

  /******* Decimal numbers *******/

  function Digit(d: nat): char
    requires d < 10
  {
    '0' + d as char
  }

  function Decimal(n: nat): string {
    if n < 10 then [Digit(n)] else Decimal(n / 10) + [Digit(n % 10)]
  }

  predicate Digits(s: string) {
    forall i | 0 <= i < |s| :: '0' <= s[i] <= '9'
  }

  function ReadDecimal(s: string): nat
    requires Digits(s)
  {
    if s == [] then 0 else 10 * ReadDecimal(s[..|s| - 1]) + (s[|s| - 1] - '0') as nat
  }

  lemma {:induction false} DecimalReads(n: nat)
    ensures Digits(Decimal(n)) && Decimal(n) != [] && ReadDecimal(Decimal(n)) == n
    ensures Decimal(n)[0] == '0' <==> n == 0
    ensures n == 0 ==> Decimal(n) == "0"
  {
    var s := Decimal(n);
    if n >= 10 {
      DecimalReads(n / 10);
      assert s[..|s| - 1] == Decimal(n / 10);
    } else {
      assert s[..|s| - 1] == [];
    }
  }

  /** `str(n)` */
  function Show(n: int): string {
    if n < 0 then "-" + Decimal(-n) else Decimal(n)
  }

  function ReadNumber(s: string): Option<int> {
    if s != [] && s[0] == '-' then
      var n :- ReadDigits(s[1..]);
      Some(-n)
    else ReadDigits(s)
  }

  function ReadDigits(s: string): Option<int> {
    if s != [] && Digits(s) then Some(ReadDecimal(s)) else None
  }

  /** A printed number reads back; past its first character it has no dash. */
  lemma {:induction false} ShowReads(n: int)
    ensures Show(n) != [] && ReadNumber(Show(n)) == Some(n) && '-' !in Show(n)[1..] && ',' !in Show(n)
    ensures Show(n)[0] == '-' <==> n < 0
    ensures n > 0 ==> Show(n)[0] != '0'
  {
    hide Decimal, ReadDecimal;
    var digits := Decimal(if n < 0 then -n else n);
    DecimalReads(if n < 0 then -n else n);
    DigitsPlain(digits);
    if n < 0 {
      assert Show(n)[1..] == digits;
    }
  }

  lemma {:induction false} DigitsPlain(s: string)
    requires Digits(s)
    ensures '-' !in s && ',' !in s
  {
  }

  /******* Ranges *******/

  datatype Range = Range(first: int, last: int)

  function ShowRange(r: Range): string {
    if r.first == r.last then Show(r.first) else Show(r.first) + "-" + Show(r.last)
  }

  function Find(s: string, c: char): (i: nat)
    ensures i <= |s| && (i < |s| ==> s[i] == c) && c !in s[..i]
  {
    if s == [] || s[0] == c then 0 else 1 + Find(s[1..], c)
  }

  lemma {:induction false} FindFirst(a: string, c: char, b: string)
    requires c !in a
    ensures Find(a, c) == |a|
    ensures Find(a + [c] + b, c) == |a|
  {
    if a != [] {
      assert (a + [c] + b)[1..] == a[1..] + [c] + b;
      FindFirst(a[1..], c, b);
    }
  }

  /** A number, or two numbers around a dash: the first dash that is no sign of the first number. */
  function ReadRange(s: string): Option<Range> {
    if s == [] then None
    else
      var i := 1 + Find(s[1..], '-');
      var first :- ReadNumber(s[..i]);
      if i == |s| then Some(Range(first, first))
      else
        var last :- ReadNumber(s[i + 1..]);
        Some(Range(first, last))
  }

  lemma {:induction false} RangeReads(r: Range)
    ensures ReadRange(ShowRange(r)) == Some(r) && ',' !in ShowRange(r)
    // a single index is printed alone, two ends with one dash between them
    ensures r.first == r.last ==> ShowRange(r) == Show(r.first)
    ensures r.first != r.last ==> ShowRange(r) == Show(r.first) + "-" + Show(r.last)
  {
    hide Show, Find, ReadNumber;
    var a, b, s := Show(r.first), Show(r.last), ShowRange(r);
    ShowReads(r.first);
    ShowReads(r.last);
    FindFirst(a[1..], '-', b);
    if r.first == r.last {
      assert s[..|s|] == s;
    } else {
      assert s == a + ['-'] + b && s[1..] == a[1..] + ['-'] + b;
      assert s[..|a|] == a && s[|a| + 1..] == b;
    }
  }

  /******* Lists of ranges *******/

  /** `", ".join(parts)` */
  function Join(parts: seq<string>): string
    requires parts != []
  {
    if |parts| == 1 then parts[0] else parts[0] + ", " + Join(parts[1..])
  }

  /** The parts between a comma and a space; None when a comma is not followed by a space. */
  function Split(s: string): Option<seq<string>>
    decreases |s|
  {
    var i := Find(s, ',');
    if i == |s| then Some([s])
    else if i + 1 == |s| || s[i + 1] != ' ' then None
    else
      var rest :- Split(s[i + 2..]);
      Some([s[..i]] + rest)
  }

  lemma {:induction false} SplitJoin(parts: seq<string>)
    requires parts != [] && forall i | 0 <= i < |parts| :: ',' !in parts[i]
    ensures Split(Join(parts)) == Some(parts)
  {
    hide Find;
    var s, head := Join(parts), parts[0];
    if |parts| == 1 {
      FindFirst(head, ',', "");
      assert parts == [head];
    } else {
      var tail := Join(parts[1..]);
      assert s == head + [','] + ([' '] + tail);
      FindFirst(head, ',', [' '] + tail);
      assert s[..|head|] == head && s[|head| + 1] == ' ' && s[|head| + 2..] == tail;
      SplitJoin(parts[1..]);
      assert parts == [head] + parts[1..];
    }
  }

  function ShowAll(ranges: seq<Range>): (parts: seq<string>)
    ensures |parts| == |ranges| && forall i | 0 <= i < |parts| :: parts[i] == ShowRange(ranges[i])
  {
    seq(|ranges|, i requires 0 <= i < |ranges| => ShowRange(ranges[i]))
  }

  function ReadParts(parts: seq<string>): Option<seq<Range>> {
    if parts == [] then Some([])
    else
      var head :- ReadRange(parts[0]);
      var tail :- ReadParts(parts[1..]);
      Some([head] + tail)
  }

  function Read(s: string): Option<seq<Range>> {
    var parts :- Split(s);
    ReadParts(parts)
  }

  lemma {:induction false} PartsRead(ranges: seq<Range>)
    ensures ReadParts(ShowAll(ranges)) == Some(ranges)
  {
    hide ShowRange, ReadRange;
    if ranges != [] {
      RangeReads(ranges[0]);
      assert ShowAll(ranges)[1..] == ShowAll(ranges[1..]);
      PartsRead(ranges[1..]);
      assert ranges == [ranges[0]] + ranges[1..];
    }
  }

  lemma {:induction false} PrintedReads(ranges: seq<Range>)
    requires ranges != []
    ensures Read(Join(ShowAll(ranges))) == Some(ranges)
  {
    hide ShowRange, Join, Split, ReadParts;
    forall i | 0 <= i < |ranges| ensures ',' !in ShowAll(ranges)[i] {
      RangeReads(ranges[i]);
    }
    SplitJoin(ShowAll(ranges));
    PartsRead(ranges);
  }

  function Span(first: int, last: int): (s: seq<int>)
    ensures |s| == if last < first then 0 else last - first + 1
    ensures forall i | 0 <= i < |s| :: s[i] == first + i
  {
    seq(if last < first then 0 else last - first + 1, i => first + i)
  }

  /** The indices that a list of ranges stands for, in order. */
  function Expand(ranges: seq<Range>): seq<int> {
    if ranges == [] then []
    else Expand(ranges[..|ranges| - 1]) + Span(ranges[|ranges| - 1].first, ranges[|ranges| - 1].last)
  }

  /** No range is empty, and none could be extended into the next. */
  ghost predicate Maximal(ranges: seq<Range>) {
    && (forall i | 0 <= i < |ranges| :: ranges[i].first <= ranges[i].last)
    && (forall i | 0 < i < |ranges| :: ranges[i].first != ranges[i - 1].last + 1)
  }

  lemma {:induction false} ExpandSnoc(ranges: seq<Range>, r: Range)
    ensures Expand(ranges + [r]) == Expand(ranges) + Span(r.first, r.last)
  {
  }

  /** Lists of indices have one maximal form. */
  lemma {:induction false} MaximalUnique(a: seq<Range>, b: seq<Range>)
    requires Maximal(a) && Maximal(b) && Expand(a) == Expand(b)
    ensures a == b
    decreases |a|
  {
    hide Expand, Maximal;
    if a == [] || b == [] {
      NotEmpty(a);
      NotEmpty(b);
    } else {
      LastsAgree(a, b);
      var a', b', x := a[..|a| - 1], b[..|b| - 1], a[|a| - 1];
      assert a == a' + [x] && b == b' + [x];
      ExpandSnoc(a', x);
      ExpandSnoc(b', x);
      CancelRight(Expand(a'), Expand(b'), Span(x.first, x.last));
      FrontMaximal(a);
      FrontMaximal(b);
      MaximalUnique(a', b');
    }
  }

  lemma {:induction false} CancelRight(a: seq<int>, b: seq<int>, s: seq<int>)
    requires a + s == b + s
    ensures a == b
  {
    assert |a + s| == |b + s|;
    assert a == (a + s)[..|a|] && b == (b + s)[..|a|];
  }

  lemma {:induction false} NotEmpty(a: seq<Range>)
    requires Maximal(a)
    ensures a == [] <==> Expand(a) == []
  {
  }

  lemma {:induction false} FrontMaximal(a: seq<Range>)
    requires a != [] && Maximal(a)
    ensures Maximal(a[..|a| - 1])
  {
  }

  lemma {:induction false} LastsAgree(a: seq<Range>, b: seq<Range>)
    requires a != [] && b != [] && Maximal(a) && Maximal(b) && Expand(a) == Expand(b)
    ensures a[|a| - 1] == b[|b| - 1]
  {
    hide Expand;
    LastRun(a, 0);
    LastRun(b, 0);
    LongerLast(a, b);
    LongerLast(b, a);
  }

  /** The last range, counted from the end. */
  lemma {:induction false} LastRun(a: seq<Range>, k: nat)
    requires a != [] && a[|a| - 1].first + k <= a[|a| - 1].last
    ensures |Expand(a)| > k && Expand(a)[|Expand(a)| - 1 - k] == a[|a| - 1].last - k
  {
  }

  /** What comes just before the last range does not continue into it. */
  lemma {:induction false} BeforeLastRun(a: seq<Range>)
    requires a != [] && Maximal(a)
    ensures var x := a[|a| - 1];
            var at := |Expand(a)| - (x.last - x.first + 1);
            at >= 0 && (at > 0 ==> Expand(a)[at - 1] + 1 != x.first)
  {
  }

  /** If one last range reached further down, the other list would not be maximal. */
  lemma {:induction false} LongerLast(a: seq<Range>, b: seq<Range>)
    requires a != [] && b != [] && Maximal(a) && Maximal(b) && Expand(a) == Expand(b)
    requires a[|a| - 1].last == b[|b| - 1].last
    ensures a[|a| - 1].first >= b[|b| - 1].first
  {
    hide Expand;
    var x, y := a[|a| - 1], b[|b| - 1];
    BeforeLastRun(b);
    if x.first < y.first {
      LastRun(a, y.last - y.first + 1);
      assert false;
    }
  }

  method FormatIndexRanges(indices: seq<int>) returns (r: Result<string>)
    ensures r.Ok? <==> indices != []
    ensures r.Ok? ==>
              && Read(r.value).Some?
              && Expand(Read(r.value).value) == Sort(indices)
              && Maximal(Read(r.value).value)
              && Read(r.value).value != []
              && r.value == Join(ShowAll(Read(r.value).value))
  {
    hide ShowRange, Join, Split, ReadParts, Read, Expand, Maximal, Sort;
    SortSorts(indices);
    var sorted := Sort(indices);
    assert |sorted| == |multiset(sorted)| == |indices|;
    if sorted == [] {
      return Raise("IndexError");
    }
    var parts: seq<string> := [];
    ghost var ranges: seq<Range> := [];
    var start, end := sorted[0], sorted[0];
    SingleRange(sorted[0]);
    assert ranges + [Range(start, end)] == [Range(start, end)];
    for i := 1 to |sorted|
      invariant start <= end && parts == ShowAll(ranges)
      invariant Maximal(ranges + [Range(start, end)])
      invariant Expand(ranges + [Range(start, end)]) == sorted[..i]
    {
      var idx := sorted[i];
      assert sorted[..i + 1] == sorted[..i] + [idx];
      if idx == end + 1 {
        ExtendLast(ranges, Range(start, end));
        end := idx;
      } else {
        StartNext(ranges + [Range(start, end)], idx);
        parts := parts + [ShowRange(Range(start, end))];
        ranges := ranges + [Range(start, end)];
        assert parts == ShowAll(ranges);
        start, end := idx, idx;
      }
    }
    parts := parts + [ShowRange(Range(start, end))];
    ranges := ranges + [Range(start, end)];
    assert parts == ShowAll(ranges);
    PrintedReads(ranges);
    assert sorted[..|sorted|] == sorted;
    r := Ok(Join(parts));
  }

  lemma {:induction false} SingleRange(idx: int)
    ensures Maximal([Range(idx, idx)]) && Expand([Range(idx, idx)]) == [idx]
  {
  }

  lemma {:induction false} ExtendLast(ranges: seq<Range>, r: Range)
    requires Maximal(ranges + [r])
    ensures Maximal(ranges + [Range(r.first, r.last + 1)])
    ensures Expand(ranges + [Range(r.first, r.last + 1)]) == Expand(ranges + [r]) + [r.last + 1]
  {
  }

  lemma {:induction false} StartNext(ranges: seq<Range>, idx: int)
    requires ranges != [] && Maximal(ranges) && idx != ranges[|ranges| - 1].last + 1
    ensures Maximal(ranges + [Range(idx, idx)])
    ensures Expand(ranges + [Range(idx, idx)]) == Expand(ranges) + [idx]
  {
    hide Expand;
    ExpandSnoc(ranges, Range(idx, idx));
    assert Span(idx, idx) == [idx];
    var more := ranges + [Range(idx, idx)];
    assert more[|ranges|] == Range(idx, idx);
    assert forall i | 0 <= i < |ranges| :: more[i] == ranges[i];
  }
}
