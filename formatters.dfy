/**
 * The integer formatters of the front end: the episode-range formatter
 * `formatEp`, the duration formatter `formatSeconds` and the small string
 * rules `formatSeason`, `avatarText` and `prefixWithPlus`.
 */
module Formatters {
  import opened Text

  // ---------------------------------------------------------------------------
  // formatEp: episode numbers as runs of consecutive values
  // ---------------------------------------------------------------------------

  /** The separator between tokens, U+3001 IDEOGRAPHIC COMMA. */
  const RangeSeparator: string := "、"

  /** A window `start..end` of the scan; well formed when `start <= end`. */
  datatype Run = Run(start: int, end: int)

  predicate WellFormed(runs: seq<Run>) {
    forall k :: 0 <= k < |runs| ==> runs[k].start <= runs[k].end
  }

  /** No run is immediately followed by one that starts at its end plus one. */
  predicate Maximal(runs: seq<Run>) {
    forall k :: 0 <= k < |runs| - 1 ==> runs[k + 1].start != runs[k].end + 1
  }

  predicate Sorted(s: seq<int>) {
    forall p, q :: 0 <= p < q < |s| ==> s[p] <= s[q]
  }

  predicate StrictlyIncreasing(s: seq<int>) {
    forall p, q :: 0 <= p < q < |s| ==> s[p] < s[q]
  }

  /**
   * The scan of the source's loop: `rest` are the values not yet visited and
   * `start..end` the open window. A value equal to `end + 1` extends the window;
   * any other value closes it and opens a new one at that value.
   */
  function Scan(rest: seq<int>, start: int, end: int): (runs: seq<Run>)
    requires start <= end
    ensures |runs| >= 1 && runs[0].start == start && runs[0].end >= end
    ensures WellFormed(runs) && Maximal(runs)
    decreases |rest|
  {
    if rest == [] then [Run(start, end)]
    else if rest[0] == end + 1 then Scan(rest[1..], start, rest[0])
    else [Run(start, end)] + Scan(rest[1..], rest[0], rest[0])
  }

  /** The runs `formatEp` renders for the (already sorted) values `s`. */
  function Runs(s: seq<int>): (runs: seq<Run>)
    ensures runs == [] <==> s == []
    ensures runs != [] ==> runs[0].start == s[0]
    ensures WellFormed(runs) && Maximal(runs)
  {
    if s == [] then [] else Scan(s[1..], s[0], s[0])
  }

  /** One token: `"n"` for a one-value run, `"start-end"` otherwise. */
  function Token(r: Run): (t: string)
    ensures |IntToString(r.start)| <= |t| && t[..|IntToString(r.start)|] == IntToString(r.start)
    ensures r.start == r.end <==> |t| == |IntToString(r.start)|
    ensures r.start != r.end ==>
              t[|IntToString(r.start)|] == '-' && t[|IntToString(r.start)| + 1..] == IntToString(r.end)
  {
    if r.start == r.end then IntToString(r.start)
    else IntToString(r.start) + "-" + IntToString(r.end)
  }

  function Tokens(runs: seq<Run>): (tokens: seq<string>)
    ensures |tokens| == |runs|
    ensures forall k :: 0 <= k < |runs| ==> tokens[k] == Token(runs[k])
  {
    if runs == [] then [] else [Token(runs[0])] + Tokens(runs[1..])
  }

  /** The string `formatEp` returns for the values `s` after sorting. */
  function Render(s: seq<int>): (text: string)
    ensures text == "" <==> s == []
  {
    var tokens := Tokens(Runs(s));
    if s == [] then ""
    else
      assert |tokens[0]| >= 1;
      Join(tokens, RangeSeparator)
  }

  /** The values a well-formed run stands for: `start, start + 1, ..., end`. */
  function Expand(r: Run): (values: seq<int>)
    requires r.start <= r.end
    ensures |values| == r.end - r.start + 1
    ensures forall k :: 0 <= k < |values| ==> values[k] == r.start + k
  {
    seq(r.end - r.start + 1, k => r.start + k)
  }

  /** All runs expanded and concatenated, in order. */
  function Flatten(runs: seq<Run>): seq<int>
    requires WellFormed(runs)
  {
    if runs == [] then [] else Expand(runs[0]) + Flatten(runs[1..])
  }

  lemma ExpandExtend(start: int, end: int)
    requires start <= end
    ensures Expand(Run(start, end + 1)) == Expand(Run(start, end)) + [end + 1]
  {
  }

  lemma {:induction false} ScanFlattens(rest: seq<int>, start: int, end: int)
    requires start <= end
    ensures Flatten(Scan(rest, start, end)) == Expand(Run(start, end)) + rest
    decreases |rest|
  {
    if rest == [] {
      assert Flatten(Scan(rest, start, end)) == Expand(Run(start, end)) + Flatten([]);
    } else if rest[0] == end + 1 {
      ScanFlattens(rest[1..], start, rest[0]);
      ExpandExtend(start, end);
      assert [rest[0]] + rest[1..] == rest;
    } else {
      ScanFlattens(rest[1..], rest[0], rest[0]);
      var tail := Scan(rest[1..], rest[0], rest[0]);
      assert ([Run(start, end)] + tail)[1..] == tail;
      assert Expand(Run(rest[0], rest[0])) == [rest[0]];
      assert [rest[0]] + rest[1..] == rest;
    }
  }

  /**
   * Expanding every run and concatenating gives back exactly the values the
   * runs were built from, for every input: no value is lost, reordered or
   * merged away, and a repeated value stays repeated.
   */
  lemma RunsFlatten(s: seq<int>)
    ensures WellFormed(Runs(s)) && Maximal(Runs(s))
    ensures Flatten(Runs(s)) == s
  {
    if s != [] {
      ScanFlattens(s[1..], s[0], s[0]);
      assert Expand(Run(s[0], s[0])) + s[1..] == s;
    }
  }

  lemma {:induction false} FlattenLength(runs: seq<Run>)
    requires WellFormed(runs)
    ensures |Flatten(runs)| >= |runs|
  {
    if runs != [] { FlattenLength(runs[1..]); }
  }

  /**
   * The runs are the only maximal decomposition: any well-formed, maximal list
   * of runs whose expansion is `Expand(start..end) + rest` and whose first run
   * starts at `start` and reaches at least `end` is the scan's result.
   */
  lemma {:induction false} ScanUnique(rest: seq<int>, start: int, end: int, runs: seq<Run>)
    requires start <= end
    requires WellFormed(runs) && Maximal(runs)
    requires |runs| >= 1 && runs[0].start == start && runs[0].end >= end
    requires Flatten(runs) == Expand(Run(start, end)) + rest
    ensures runs == Scan(rest, start, end)
    decreases |rest|
  {
    var r0 := runs[0];
    var tail := runs[1..];
    assert Flatten(runs) == Expand(r0) + Flatten(tail);
    var n := end - start + 1;
    if rest == [] {
      assert |Flatten(runs)| == n;
      assert r0.end == end;
      FlattenLength(tail);
      assert runs == [Run(start, end)];
    } else if r0.end > end {
      // The open window goes on past `end`, so the next value is `end + 1`.
      assert Flatten(runs)[n] == Expand(r0)[n] == end + 1;
      assert rest[0] == (Expand(Run(start, end)) + rest)[n];
      assert rest[0] == end + 1;
      ExpandExtend(start, end);
      assert Expand(Run(start, end)) + rest == Expand(Run(start, end + 1)) + rest[1..];
      ScanUnique(rest[1..], start, end + 1, runs);
    } else {
      // The first run ends at `end`, so the next run carries `rest`.
      assert Expand(r0) == Expand(Run(start, end));
      assert Flatten(tail) == Flatten(runs)[n..] == rest;
      assert tail != [] by { FlattenLength(tail); }
      var r1 := tail[0];
      assert Flatten(tail) == Expand(r1) + Flatten(tail[1..]);
      assert r1.start == Expand(r1)[0] == rest[0];
      assert Flatten(tail) == Expand(Run(rest[0], rest[0])) + rest[1..];
      assert Maximal(tail) by {
        forall k | 0 <= k < |tail| - 1 ensures tail[k + 1].start != tail[k].end + 1 {
          assert tail[k] == runs[k + 1] && tail[k + 1] == runs[k + 2];
        }
      }
      ScanUnique(rest[1..], rest[0], rest[0], tail);
      assert runs == [r0] + tail;
    }
  }

  /**
   * Uniqueness: a list of well-formed runs that is maximal and expands to `s`
   * is the list `formatEp` renders.
   */
  lemma RunsUnique(s: seq<int>, runs: seq<Run>)
    requires WellFormed(runs) && Maximal(runs)
    requires Flatten(runs) == s
    ensures runs == Runs(s)
  {
    if runs == [] {
      assert s == [];
    } else {
      assert Flatten(runs) == Expand(runs[0]) + Flatten(runs[1..]);
      assert s[0] == runs[0].start;
      assert Expand(Run(s[0], s[0])) + s[1..] == s;
      ScanUnique(s[1..], s[0], s[0], runs);
    }
  }

  /** Runs of sorted values follow each other: each ends no later than the next starts. */
  predicate Ascending(runs: seq<Run>) {
    forall k :: 0 <= k < |runs| - 1 ==> runs[k].end <= runs[k + 1].start
  }

  /** Runs of strictly increasing values leave a gap of at least one missing value. */
  predicate Separated(runs: seq<Run>) {
    forall k :: 0 <= k < |runs| - 1 ==> runs[k].end + 1 < runs[k + 1].start
  }

  lemma OrderTail(all: seq<int>)
    requires |all| >= 1
    ensures Sorted(all) ==> Sorted(all[1..])
    ensures StrictlyIncreasing(all) ==> StrictlyIncreasing(all[1..])
  {
    var rest := all[1..];
    if Sorted(all) {
      forall p, q | 0 <= p < q < |rest| ensures rest[p] <= rest[q] { assert all[p + 1] <= all[q + 1]; }
    }
    if StrictlyIncreasing(all) {
      forall p, q | 0 <= p < q < |rest| ensures rest[p] < rest[q] { assert all[p + 1] < all[q + 1]; }
    }
  }

  lemma {:induction false} ScanOrdered(rest: seq<int>, start: int, end: int)
    requires start <= end
    requires Sorted([end] + rest)
    ensures Ascending(Scan(rest, start, end))
    ensures StrictlyIncreasing([end] + rest) ==> Separated(Scan(rest, start, end))
    decreases |rest|
  {
    var all := [end] + rest;
    if rest != [] {
      assert all[1..] == rest;
      assert [rest[0]] + rest[1..] == rest;
      OrderTail(all);
      assert all[0] <= all[1];
      assert StrictlyIncreasing(all) ==> all[0] < all[1];
      if rest[0] == end + 1 {
        ScanOrdered(rest[1..], start, rest[0]);
      } else {
        var tail := Scan(rest[1..], rest[0], rest[0]);
        ScanOrdered(rest[1..], rest[0], rest[0]);
        ConsOrdered(Run(start, end), tail);
      }
    }
  }

  /** Putting a run in front of ordered runs that start no earlier than it ends. */
  lemma ConsOrdered(r: Run, tail: seq<Run>)
    requires |tail| >= 1
    requires Ascending(tail) && r.end <= tail[0].start
    ensures Ascending([r] + tail)
    ensures Separated(tail) && r.end + 1 < tail[0].start ==> Separated([r] + tail)
  {
    var runs := [r] + tail;
    assert forall k :: 1 <= k < |runs| ==> runs[k] == tail[k - 1];
  }

  /**
   * For sorted input the runs come in ascending order, each ending no later
   * than the next starts; for duplicate-free sorted input the ranges are
   * disjoint and at least one missing value lies between neighbours, so the
   * ranges are strictly increasing in start value.
   */
  lemma RunsOrdered(s: seq<int>)
    requires Sorted(s)
    ensures Ascending(Runs(s))
    ensures StrictlyIncreasing(s) ==> Separated(Runs(s))
    ensures StrictlyIncreasing(s) ==>
              forall k :: 0 <= k < |Runs(s)| - 1 ==> Runs(s)[k].start < Runs(s)[k + 1].start
  {
    if s != [] {
      assert [s[0]] + s[1..] == s;
      ScanOrdered(s[1..], s[0], s[0]);
    }
  }

  /** Positions where the next value is not the current one plus one. */
  function Breaks(s: seq<int>): nat
  {
    if |s| < 2 then 0 else (if s[1] != s[0] + 1 then 1 else 0) + Breaks(s[1..])
  }

  lemma {:induction false} ScanCount(rest: seq<int>, start: int, end: int)
    requires start <= end
    ensures |Scan(rest, start, end)| == 1 + Breaks([end] + rest)
    decreases |rest|
  {
    if rest != [] {
      assert ([end] + rest)[1..] == [rest[0]] + rest[1..];
      ScanCount(rest[1..], if rest[0] == end + 1 then start else rest[0], rest[0]);
    }
  }

  /**
   * Every break in the sequence closes a token and opens the next: a
   * non-empty input gives one token more than it has breaks. A repeated value
   * is a break, so duplicates are not collapsed.
   */
  lemma RunsCount(s: seq<int>)
    requires s != []
    ensures |Runs(s)| == 1 + Breaks(s)
  {
    assert [s[0]] + s[1..] == s;
    ScanCount(s[1..], s[0], s[0]);
  }

  /** Empty input renders as the empty string; one value renders as its decimal form. */
  lemma RenderShortInputs(x: int)
    ensures Render([]) == ""
    ensures Render([x]) == IntToString(x)
  {
  }

  /** Worked cases, among them a duplicate that opens a new token. */
  lemma RenderExamples()
    ensures Render([1, 2, 3]) == "1-3"
    ensures Render([1, 3, 4, 5, 8]) == "1、3-5、8"
    ensures Render([2, 2, 3]) == "2、2-3"
  {
    RenderOneRange();
    RenderThreeTokens();
    RenderDuplicate();
  }

  lemma RenderOneRange()
    ensures Render([1, 2, 3]) == "1-3"
  {
    assert Runs([1, 2, 3]) == [Run(1, 3)];
    assert Token(Run(1, 3)) == "1-3";
    RenderTokens([1, 2, 3], ["1-3"]);
  }

  lemma RenderThreeTokens()
    ensures Render([1, 3, 4, 5, 8]) == "1、3-5、8"
  {
    assert Runs([1, 3, 4, 5, 8]) == [Run(1, 1), Run(3, 5), Run(8, 8)];
    assert Token(Run(1, 1)) == "1" && Token(Run(3, 5)) == "3-5" && Token(Run(8, 8)) == "8";
    RenderTokens([1, 3, 4, 5, 8], ["1", "3-5", "8"]);
  }

  lemma RenderDuplicate()
    ensures Render([2, 2, 3]) == "2、2-3"
  {
    assert Runs([2, 2, 3]) == [Run(2, 2), Run(2, 3)];
    assert Token(Run(2, 2)) == "2" && Token(Run(2, 3)) == "2-3";
    RenderTokens([2, 2, 3], ["2", "2-3"]);
  }

  lemma RenderTokens(s: seq<int>, tokens: seq<string>)
    requires Tokens(Runs(s)) == tokens
    ensures Render(s) == Join(tokens, RangeSeparator)
  {
  }

  /**
   * `nums.sort((a, b) => a - b)`: sorts the caller's array ascending in place,
   * keeping the same values with the same multiplicities.
   */
  method SortAscending(a: array<int>)
    modifies a
    ensures Sorted(a[..])
    ensures multiset(a[..]) == multiset(old(a[..]))
  {
    var i := 0;
    while i < a.Length
      invariant 0 <= i <= a.Length
      invariant forall p, q :: 0 <= p < q < i ==> a[p] <= a[q]
      invariant multiset(a[..]) == multiset(old(a[..]))
    {
      // Sink a[i] into the sorted prefix a[..i].
      var j := i;
      while j > 0 && a[j - 1] > a[j]
        invariant 0 <= j <= i
        invariant forall p, q :: 0 <= p < q <= i && p != j && q != j ==> a[p] <= a[q]
        invariant forall q :: j < q <= i ==> a[j] <= a[q]
        invariant multiset(a[..]) == multiset(old(a[..]))
      {
        SwapAdjacent(a, j);
        j := j - 1;
      }
      i := i + 1;
    }
  }

  /** Exchanges `a[j - 1]` and `a[j]`. */
  method SwapAdjacent(a: array<int>, j: int)
    requires 0 < j < a.Length
    modifies a
    ensures a[..] == old(a[..])[j - 1 := old(a[j])][j := old(a[j - 1])]
    ensures multiset(a[..]) == multiset(old(a[..]))
  {
    a[j - 1], a[j] := a[j], a[j - 1];
  }

  /**
   * `formatEp(nums)`: with two or more values, sorts the caller's array in
   * place and renders its runs; with none or one, leaves the array alone.
   */
  method FormatEp(nums: array<int>) returns (r: string)
    modifies nums
    ensures nums.Length < 2 ==> nums[..] == old(nums[..])
    ensures nums.Length >= 2 ==> Sorted(nums[..]) && multiset(nums[..]) == multiset(old(nums[..]))
    ensures r == Render(nums[..])
  {
    if nums.Length == 0 {
      return "";
    }
    if nums.Length == 1 {
      return IntToString(nums[0]);
    }
    SortAscending(nums);
    ghost var sorted := nums[..];
    ghost var runs := Runs(sorted);
    var formattedRanges: seq<string> := [];
    ghost var closed: seq<Run> := [];
    var start := nums[0];
    var end := nums[0];
    for i := 1 to nums.Length
      invariant start <= end
      invariant nums[..] == sorted
      invariant runs == closed + Scan(sorted[i..], start, end)
      invariant formattedRanges == Tokens(closed)
    {
      ScanStep(closed, sorted[i..], start, end);
      assert sorted[i..][0] == nums[i] && sorted[i..][1..] == sorted[i + 1..];
      if nums[i] == end + 1 {
        end := nums[i];
      } else {
        if start == end {
          formattedRanges := formattedRanges + [IntToString(start)];
        } else {
          formattedRanges := formattedRanges + [IntToString(start) + "-" + IntToString(end)];
        }
        TokensAppend(closed, Run(start, end));
        closed := closed + [Run(start, end)];
        start, end := nums[i], nums[i];
      }
    }
    if start == end {
      formattedRanges := formattedRanges + [IntToString(start)];
    } else {
      formattedRanges := formattedRanges + [IntToString(start) + "-" + IntToString(end)];
    }
    TokensAppend(closed, Run(start, end));
    assert sorted[nums.Length..] == [];
    assert runs == closed + [Run(start, end)];
    r := Join(formattedRanges, RangeSeparator);
  }

  /** One step of the scan: extend the open run, or close it and open the next. */
  lemma ScanStep(closed: seq<Run>, rest: seq<int>, start: int, end: int)
    requires start <= end && rest != []
    ensures rest[0] == end + 1 ==>
      closed + Scan(rest, start, end) == closed + Scan(rest[1..], start, rest[0])
    ensures rest[0] != end + 1 ==>
      closed + Scan(rest, start, end) == (closed + [Run(start, end)]) + Scan(rest[1..], rest[0], rest[0])
  {
  }

  lemma {:induction false} TokensAppend(runs: seq<Run>, r: Run)
    ensures Tokens(runs + [r]) == Tokens(runs) + [Token(r)]
  {
  }

  // ---------------------------------------------------------------------------
  // formatSeconds: a whole number of seconds as hours, minutes and seconds
  // ---------------------------------------------------------------------------

  /** JavaScript's `a % b` for `b > 0`: the remainder takes the sign of `a`. */
  function JsRem(a: int, b: int): (r: int)
    requires b > 0
    ensures a >= 0 ==> 0 <= r < b && a == (a / b) * b + r
    ensures a < 0 ==> -b < r <= 0 && a == -((-a) / b) * b + r
  {
    if a >= 0 then a % b else -((-a) % b)
  }

  datatype Clock = Clock(hours: int, minutes: int, seconds: int)

  /**
   * `Math.floor(s / 3600)`, `Math.floor((s % 3600) / 60)` and `s % 60`. For a
   * non-negative count they are the hour, minute and second parts of it.
   */
  function Decompose(total: int): (c: Clock)
    ensures total >= 0 ==>
              && c.hours >= 0 && 0 <= c.minutes < 60 && 0 <= c.seconds < 60
              && c.hours * 3600 + c.minutes * 60 + c.seconds == total
    ensures total < 0 ==> c.hours < 0 && c.minutes <= 0 && c.seconds <= 0
  {
    Clock(total / 3600, JsRem(total, 3600) / 60, JsRem(total, 60))
  }

  /** The text `formatSeconds` builds: hours and minutes when positive, seconds only without hours. */
  function SecondsText(total: int): (text: string)
    ensures |text| > 0
    ensures total >= 3600 ==> text[|text| - 1] == '时' || text[|text| - 1] == '分'
  {
    var c := Decompose(total);
    var withHours := if c.hours > 0 then IntToString(c.hours) + "小时" else "";
    var withMinutes := withHours + (if c.minutes > 0 then IntToString(c.minutes) + "分" else "");
    if (c.seconds > 0 || withMinutes == "") && c.hours <= 0 then withMinutes + IntToString(c.seconds) + "秒"
    else withMinutes
  }

  /** `formatSeconds(seconds)`, appending to the text piece by piece. */
  method FormatSeconds(seconds: int) returns (formattedTime: string)
    ensures formattedTime == SecondsText(seconds)
  {
    var hours := seconds / 3600;
    var minutes := JsRem(seconds, 3600) / 60;
    var remainingSeconds := JsRem(seconds, 60);
    formattedTime := "";
    if hours > 0 {
      formattedTime := formattedTime + IntToString(hours) + "小时";
    }
    if minutes > 0 {
      formattedTime := formattedTime + IntToString(minutes) + "分";
    }
    ghost var withMinutes := formattedTime;
    if (remainingSeconds > 0 || formattedTime == "") && hours <= 0 {
      formattedTime := formattedTime + IntToString(remainingSeconds) + "秒";
    }
    SecondsTextParts(seconds, withMinutes, formattedTime);
  }

  lemma SecondsTextParts(total: int, withMinutes: string, text: string)
    requires var c := Clock(total / 3600, JsRem(total, 3600) / 60, JsRem(total, 60));
             && withMinutes == (if c.hours > 0 then IntToString(c.hours) + "小时" else "")
                               + (if c.minutes > 0 then IntToString(c.minutes) + "分" else "")
             && text == if (c.seconds > 0 || withMinutes == "") && c.hours <= 0
                        then withMinutes + IntToString(c.seconds) + "秒" else withMinutes
    ensures text == SecondsText(total)
  {
  }

  /** The text is never empty, whatever the input; zero seconds reads `0秒`. */
  lemma SecondsTextNeverEmpty(total: int)
    ensures |SecondsText(total)| > 0
    ensures SecondsText(0) == "0秒"
  {
    var c := Decompose(total);
    if c.hours <= 0 && c.minutes <= 0 {
      assert |IntToString(c.seconds)| >= 1;
    } else if c.hours > 0 {
      assert |IntToString(c.hours) + "小时"| > 0;
    } else {
      assert |IntToString(c.minutes) + "分"| > 0;
    }
  }

  /** Under a minute only seconds are shown; under an hour no hours are shown. */
  lemma SecondsTextBelowOneHour(total: int)
    requires 0 <= total < 3600
    ensures total < 60 ==> SecondsText(total) == IntToString(total) + "秒"
    ensures total % 60 == 0 && total > 0 ==> SecondsText(total) == IntToString(total / 60) + "分"
    ensures total % 60 != 0 && total >= 60 ==>
              SecondsText(total) == IntToString(total / 60) + "分" + IntToString(total % 60) + "秒"
  {
    var c := Decompose(total);
    assert c.hours == 0 && c.minutes == total / 60 && c.seconds == total % 60;
  }

  /**
   * From one hour on the seconds are dropped: the text is the hours, then the
   * minutes only when there are any, and so it is the same as for the count
   * rounded down to a whole minute.
   */
  lemma SecondsTextDropsSecondsWithHours(total: int)
    requires total >= 3600
    ensures SecondsText(total) ==
            IntToString(total / 3600) + "小时"
            + (if (total % 3600) / 60 > 0 then IntToString((total % 3600) / 60) + "分" else "")
    ensures SecondsText(total) == SecondsText(total - total % 60)
    ensures var h := IntToString(total / 3600) + "小时"; SecondsText(total)[..|h|] == h
  {
    var c := Decompose(total);
    var d := Decompose(total - total % 60);
    assert c.hours == d.hours && c.minutes == d.minutes;
    assert c.hours == total / 3600 > 0 && c.minutes == (total % 3600) / 60;
  }

  /**
   * A negative count has no positive part, so the text is the seconds
   * remainder alone, with the sign JavaScript's `%` gives it.
   */
  lemma SecondsTextNegative(total: int)
    requires total < 0
    ensures SecondsText(total) == IntToString(JsRem(total, 60)) + "秒"
    ensures -60 < JsRem(total, 60) <= 0
  {
    var c := Decompose(total);
    assert c.hours <= 0 && c.minutes <= 0;
  }

  // ---------------------------------------------------------------------------
  // formatSeason, avatarText, prefixWithPlus
  // ---------------------------------------------------------------------------

  /**
   * `formatSeason(value)`: `""` for an empty value, otherwise `S` and the value
   * left-padded with `0` to two characters; longer values are kept whole.
   */
  function FormatSeason(value: string): (r: string)
    ensures value == "" <==> r == ""
    ensures value != "" ==>
              && |r| == 1 + (if |value| >= 2 then |value| else 2)
              && r[0] == 'S'
              && r[|r| - |value|..] == value
              && (forall k :: 1 <= k < |r| - |value| ==> r[k] == '0')
    ensures |value| >= 2 ==> r == "S" + value
  {
    if value == "" then "" else "S" + PadStart(value, 2, '0')
  }

  /** `c.toUpperCase()` on the ASCII letters; every other character is kept. */
  function UpperCase(c: char): (u: char)
    ensures 'a' <= c <= 'z' ==> 'A' <= u <= 'Z' && u as int == c as int - 32
    ensures !('a' <= c <= 'z') ==> u == c
  {
    if 'a' <= c <= 'z' then (c as int - 32) as char else c
  }

  /** `word.charAt(0).toUpperCase()`: empty for an empty word. */
  function FirstUpper(word: string): string
  {
    if word == [] then [] else [UpperCase(word[0])]
  }

  /** `words.map(w => w.charAt(0).toUpperCase()).join('')`. */
  function Heads(words: seq<string>): string
  {
    if words == [] then [] else FirstUpper(words[0]) + Heads(words[1..])
  }

  /**
   * `avatarText(value)`: the upper-cased first character of each space-separated
   * word. It keeps exactly the first character of every word, in order, so
   * repeated, leading and trailing spaces add nothing.
   */
  function AvatarText(value: string): (initials: string)
    ensures initials == InitialsFrom(value, true)
    ensures |initials| <= |value|
  {
    HeadsOfSplit(value);
    InitialsShorter(value, true);
    if value == "" then "" else Heads(Split(value, ' '))
  }

  /**
   * Reference reading of the initials, character by character: a non-space
   * character is kept, upper-cased, exactly when it begins a word, that is
   * when it comes first or right after a space.
   */
  function InitialsFrom(s: string, atWordStart: bool): string
  {
    if s == [] then []
    else if s[0] == ' ' then InitialsFrom(s[1..], true)
    else (if atWordStart then [UpperCase(s[0])] else []) + InitialsFrom(s[1..], false)
  }

  lemma {:induction false} HeadsOfSplit(s: string)
    ensures Heads(Split(s, ' ')[1..]) == InitialsFrom(s, false)
    ensures Heads(Split(s, ' ')) == InitialsFrom(s, true)
  {
    if s != [] {
      var rest := Split(s[1..], ' ');
      HeadsOfSplit(s[1..]);
      assert Heads(rest) == FirstUpper(rest[0]) + Heads(rest[1..]);
      if s[0] == ' ' {
        assert Split(s, ' ') == [[]] + rest;
        assert Split(s, ' ')[1..] == rest;
      } else {
        assert Split(s, ' ') == [[s[0]] + rest[0]] + rest[1..];
        assert Split(s, ' ')[1..] == rest[1..];
      }
    }
  }

  lemma {:induction false} InitialsShorter(s: string, atWordStart: bool)
    ensures |InitialsFrom(s, atWordStart)| <= |s|
  {
    if s != [] {
      InitialsShorter(s[1..], true);
      InitialsShorter(s[1..], false);
    }
  }

  /** What `prefixWithPlus` returns: a string for positive values, the number itself otherwise. */
  datatype PlusResult = Signed(text: string) | Unchanged(number: int)

  /** `prefixWithPlus(value)` on an integer. */
  function PrefixWithPlus(value: int): (r: PlusResult)
    ensures r.Signed? <==> value > 0
    ensures r.Signed? ==> |r.text| >= 2 && r.text[0] == '+' && r.text[1..] == IntToString(value)
    ensures r.Unchanged? ==> r.number == value
  {
    if value > 0 then Signed("+" + IntToString(value)) else Unchanged(value)
  }

  /** The result as a template literal shows it. */
  function Display(r: PlusResult): string
  {
    match r
    case Signed(text) => text
    case Unchanged(number) => IntToString(number)
  }

  /**
   * Shown, every non-zero value carries its sign: `+` for positives, `-` for
   * negatives, and the digits after the sign are the magnitude.
   */
  lemma PrefixWithPlusShowsSign(value: int)
    ensures var t := Display(PrefixWithPlus(value));
              && (t[0] == '+' <==> value > 0)
              && (t[0] == '-' <==> value < 0)
              && (t == "0" <==> value == 0)
              && (value != 0 ==> AllDigits(t[1..]) && DigitsValue(t[1..]) == if value > 0 then value else -value)
  {
    var t := Display(PrefixWithPlus(value));
    if value > 0 {
      assert t[1..] == IntToString(value);
    } else if value == 0 {
      assert t == NatToString(0);
    }
  }
}
