/**
  `day2week` of iRONS/Functions/Data_management/day2week2month.py: daily
  data summed over whole weeks from a start date, with the running total
  (cumulative weekly sums) and the date that opens each week.

  Dates are day numbers and the data are daily, so entry k of `dates` is
  `dates[0] + k`. A 1-D series is handled as a table with one column.
 */
module WeeklyData {
  import opened Wrappers
  import opened Tables

  /** Days of a week. */
  const Week: int := 7

  /** The data: a series (`data.ndim == 1`) or a table with one column per variable. */
  datatype Data = Series(xs: seq<real>) | Table(m: Matrix)

  /** `data.reshape([len, 1])` for a series; a table is kept. */
  function AsTable(data: Data): (m: Matrix)
    ensures data.Series? ==> IsShape(m, |data.xs|, 1) && forall t :: 0 <= t < |m| ==> m[t][0] == data.xs[t]
    ensures data.Table? ==> m == data.m
  {
    match data
    case Series(xs) => seq(|xs|, t requires 0 <= t < |xs| => [xs[t]])
    case Table(m) => m
  }

  /** One value per day, one day after another. */
  predicate Daily(dates: seq<int>) {
    0 < |dates| && forall k :: 0 <= k < |dates| ==> dates[k] == dates[0] + k
  }

  /** At least one row per date, all of the same width. Rows past the last
      date are never read. */
  predicate FitsDates(data: Data, dates: seq<int>) {
    match data
    case Series(xs) => |xs| >= |dates|
    case Table(m) => Rectangular(m) && |m| >= |dates|
  }

  /** Reshaping a series into one column loses nothing: column 0 of the
      table is the series. */
  lemma ReshapeRoundTrip(xs: seq<real>)
    ensures IsShape(AsTable(Series(xs)), |xs|, 1)
    ensures Column(AsTable(Series(xs)), 0) == xs
  {
  }

  /** Sum of column c over rows `lo .. hi - 1`. */
  function ColumnSum(m: Matrix, c: nat, lo: nat, hi: nat): real
    requires lo <= hi <= |m| && forall r :: 0 <= r < |m| ==> c < |m[r]|
    decreases hi - lo
  {
    if lo == hi then 0.0 else ColumnSum(m, c, lo, hi - 1) + m[hi - 1][c]
  }

  /** `np.sum(m[lo:hi, :], axis=0)` for a table of the given width. */
  function RowsSum(m: Matrix, width: nat, lo: nat, hi: nat): (s: seq<real>)
    requires lo <= hi <= |m| && IsShape(m, |m|, width)
    ensures |s| == width && forall c :: 0 <= c < width ==> s[c] == ColumnSum(m, c, lo, hi)
  {
    seq(width, c requires 0 <= c < width => ColumnSum(m, c, lo, hi))
  }

  /** Sums over consecutive ranges add up. */
  lemma {:induction false} ColumnSumSplit(m: Matrix, c: nat, lo: nat, mid: nat, hi: nat)
    requires lo <= mid <= hi <= |m| && forall r :: 0 <= r < |m| ==> c < |m[r]|
    ensures ColumnSum(m, c, lo, hi) == ColumnSum(m, c, lo, mid) + ColumnSum(m, c, mid, hi)
    decreases hi - mid
  {
    if mid < hi {
      ColumnSumSplit(m, c, lo, mid, hi - 1);
    }
  }

  /** A column that is v on every row sums to v times the number of rows. */
  lemma {:induction false} ColumnSumConstant(m: Matrix, c: nat, lo: nat, hi: nat, v: real)
    requires lo <= hi <= |m| && forall r :: 0 <= r < |m| ==> c < |m[r]| && m[r][c] == v
    ensures ColumnSum(m, c, lo, hi) == (hi - lo) as real * v
    decreases hi - lo
  {
    if lo < hi {
      ColumnSumConstant(m, c, lo, hi - 1, v);
    }
  }

  /** The sum of weeks 1..i in column c of a list of weekly rows. */
  function WeeksTotal(week: Matrix, c: nat, i: nat): real
    requires i < |week| && forall r :: 0 <= r < |week| ==> c < |week[r]|
  {
    if i == 0 then 0.0 else WeeksTotal(week, c, i - 1) + week[i][c]
  }

  /** The whole weeks from `ini` to `end` (floor division, so negative when
      `end` comes before `ini`). */
  function Weeks(ini: int, end: int): int {
    (end - ini) / Week
  }

  /** What `day2week` returns: the dates opening the weeks, the weekly sums
      and the cumulative weekly sums, one row per week plus a zero row. */
  datatype Weekly = Weekly(dates: seq<int>, week: Matrix, cum: Matrix)

  /** `[np.zeros(width)]` */
  function Zeros(width: nat): (z: seq<real>)
    ensures |z| == width && forall c :: 0 <= c < width ==> z[c] == 0.0
  {
    seq(width, c => 0.0)
  }

  /** Why `day2week` stops: the two exceptions it raises, and the failed
      lookup of a start date past the data. */
  datatype DateError = StartBeforeData | EndAfterData | StartNotInDates

  predicate StartsTooEarly(dates: seq<int>, dateIni: Option<int>)
    requires 0 < |dates|
  {
    dateIni.Some? && dates[0] - dateIni.value > 0
  }

  predicate EndsTooLate(dates: seq<int>, dateEnd: Option<int>)
    requires 0 < |dates|
  {
    dateEnd.Some? && dateEnd.value - dates[|dates| - 1] > 0
  }

  /** `np.where(dates == date_ini)[0][0]` finds nothing. */
  predicate StartMissing(dates: seq<int>, dateIni: Option<int>)
    requires 0 < |dates|
  {
    dateIni.Some? && dates[|dates| - 1] < dateIni.value
  }

  /** The start date: `date_ini`, the first date when not given. */
  function Start(dates: seq<int>, dateIni: Option<int>): int
    requires 0 < |dates|
  {
    dateIni.GetOr(dates[0])
  }

  /** The end date: `date_end`, the last date when not given. */
  function End(dates: seq<int>, dateEnd: Option<int>): int
    requires 0 < |dates|
  {
    dateEnd.GetOr(dates[|dates| - 1])
  }

  /** The number of rows after the zero row: N, or none when N <= 0. */
  function WeekCount(ini: int, end: int): nat {
    if Weeks(ini, end) > 0 then Weeks(ini, end) else 0
  }

  /**
    The first k rows of the result for a start at index `idx` (date `ini`)
    of a table of the given width: row 0 of the weekly and cumulative sums
    is zero; row l sums days `idx + 7(l-1) .. idx + 7l - 1` and
    `idx .. idx + 7l - 1` respectively; date l is `dates[idx + 7l]`, which
    is `ini + 7l`.
   */
  predicate WeeklyRows(dates: seq<int>, m: Matrix, width: nat, idx: nat, ini: int, w: Weekly, k: nat)
    requires IsShape(m, |m|, width) && idx + Week * (k - 1) < |dates| <= |m|
  {
    && 0 < k && |w.dates| == k && IsShape(w.week, k, width) && IsShape(w.cum, k, width)
    && (forall l :: 0 <= l < k ==> w.dates[l] == dates[idx + Week * l] == ini + Week * l)
    && (forall c :: 0 <= c < width ==> w.week[0][c] == 0.0 && w.cum[0][c] == 0.0)
    && (forall l, c :: 1 <= l < k && 0 <= c < width ==>
          w.week[l][c] == ColumnSum(m, c, idx + Week * (l - 1), idx + Week * l)
          && w.cum[l][c] == ColumnSum(m, c, idx, idx + Week * l))
  }

  /** The cumulative rows are the running totals of the weekly rows. */
  lemma {:induction false} CumIsRunningTotal(dates: seq<int>, m: Matrix, width: nat, idx: nat, ini: int, w: Weekly, k: nat)
    requires IsShape(m, |m|, width) && idx + Week * (k - 1) < |dates| <= |m|
    requires WeeklyRows(dates, m, width, idx, ini, w, k)
    ensures forall l, c :: 0 <= l < k && 0 <= c < width ==> w.cum[l][c] == WeeksTotal(w.week, c, l)
  {
    forall l, c | 0 <= l < k && 0 <= c < width
      ensures w.cum[l][c] == WeeksTotal(w.week, c, l)
    {
      RunningTotalUpTo(m, width, idx, w, c, l);
    }
  }

  /** Induction step of `CumIsRunningTotal` for one column. */
  lemma {:induction false} RunningTotalUpTo(m: Matrix, width: nat, idx: nat, w: Weekly, c: nat, l: nat)
    requires IsShape(m, |m|, width) && c < width && idx + Week * l <= |m|
    requires l < |w.week| && IsShape(w.week, |w.week|, width)
    requires forall j :: 1 <= j <= l ==> w.week[j][c] == ColumnSum(m, c, idx + Week * (j - 1), idx + Week * j)
    ensures ColumnSum(m, c, idx, idx + Week * l) == WeeksTotal(w.week, c, l)
  {
    if l > 0 {
      RunningTotalUpTo(m, width, idx, w, c, l - 1);
      ColumnSumSplit(m, c, idx, idx + Week * (l - 1), idx + Week * l);
    }
  }

  /** One more week keeps the rows right. */
  lemma AppendWeek(dates: seq<int>, m: Matrix, width: nat, idx: nat, ini: int, w: Weekly, k: nat)
    requires Daily(dates) && IsShape(m, |m|, width) && idx + Week * k < |dates| <= |m|
    requires ini == dates[idx] && 0 < k
    requires WeeklyRows(dates, m, width, idx, ini, w, k)
    ensures WeeklyRows(dates, m, width, idx, ini,
      Weekly(w.dates + [dates[idx + Week * k]],
             w.week + [RowsSum(m, width, idx + Week * (k - 1), idx + Week * k)],
             w.cum + [RowsSum(m, width, idx, idx + Week * k)]), k + 1)
  {
  }

  /** The loop of `day2week`: the zero row, then one row per whole week
      from the start date `ini` up to `end`. */
  method WeeklySums(dates: seq<int>, data: Data, ini: int, end: int) returns (w: Weekly)
    requires Daily(dates) && FitsDates(data, dates)
    requires dates[0] <= ini <= dates[|dates| - 1] && end <= dates[|dates| - 1]
    ensures var m := AsTable(data);
      && ini - dates[0] + Week * WeekCount(ini, end) < |dates| <= |m| && IsShape(m, |m|, |m[0]|)
      && WeeklyRows(dates, m, |m[0]|, ini - dates[0], ini, w, WeekCount(ini, end) + 1)
  {
    var m := AsTable(data);
    var width := |m[0]|;
    assert IsShape(m, |m|, width);
    var idx := ini - dates[0];
    var n := WeekCount(ini, end);
    w := Weekly([dates[idx]], [Zeros(width)], [Zeros(width)]);
    var i := 1;
    while i <= n
      invariant 1 <= i <= n + 1
      invariant WeeklyRows(dates, m, width, idx, ini, w, i)
    {
      AppendWeek(dates, m, width, idx, ini, w, i);
      w := Weekly(w.dates + [dates[idx + Week * i]],
                  w.week + [RowsSum(m, width, idx + Week * (i - 1), idx + Week * i)],
                  w.cum + [RowsSum(m, width, idx, idx + Week * i)]);
      i := i + 1;
    }
  }

  /**
    `day2week`. It fails when a given start date is before the first date,
    when a given end date is after the last one, and when the start date is
    not among the dates. Otherwise, with `idx` the start's index and N the
    whole weeks from start to end, it returns N + 1 rows (one when N <= 0)
    as `WeeklyRows` describes.
   */
  method Day2Week(dates: seq<int>, data: Data, dateIni: Option<int>, dateEnd: Option<int>)
    returns (r: Result<Weekly, DateError>)
    requires Daily(dates) && FitsDates(data, dates)
    ensures r.Failure? <==>
      StartsTooEarly(dates, dateIni) || EndsTooLate(dates, dateEnd) || StartMissing(dates, dateIni)
    ensures r.Success? ==>
      var ini := Start(dates, dateIni);
      var m := AsTable(data);
      && dates[0] <= ini && IsShape(m, |m|, |m[0]|)
      && ini - dates[0] + Week * WeekCount(ini, End(dates, dateEnd)) < |dates| <= |m|
      && WeeklyRows(dates, m, |m[0]|, ini - dates[0], ini, r.value, WeekCount(ini, End(dates, dateEnd)) + 1)
  {
    var last := |dates| - 1;
    var ini := dates[0];
    if dateIni.Some? {
      if dates[0] - dateIni.value > 0 {
        return Failure(StartBeforeData);
      }
      ini := dateIni.value;
    }
    var end := dates[last];
    if dateEnd.Some? {
      if dateEnd.value - dates[last] > 0 {
        return Failure(EndAfterData);
      }
      end := dateEnd.value;
    }
    if dates[last] < ini {
      return Failure(StartNotInDates);
    }
    assert ini == Start(dates, dateIni) && end == End(dates, dateEnd);
    var w := WeeklySums(dates, data, Start(dates, dateIni), End(dates, dateEnd));
    r := Success(w);
  }

  /** The running total of the first weeks does not see later rows. */
  lemma {:induction false} WeeksTotalPrefix(shorter: Matrix, longer: Matrix, c: nat, i: nat)
    requires i < |shorter| <= |longer| && shorter == longer[..|shorter|]
    requires forall r :: 0 <= r < |longer| ==> c < |longer[r]|
    ensures WeeksTotal(shorter, c, i) == WeeksTotal(longer, c, i)
  {
    if i > 0 {
      WeeksTotalPrefix(shorter, longer, c, i - 1);
    }
  }

  /**
    Thirty-one dates and thirty-two daily ones (one value more than dates,
    never read): the 30 days from the first date to the last hold
    four whole weeks, the weeks open on days 0, 7, 14, 21 and 28, the weekly
    sums are [0, 7, 7, 7, 7] and the cumulative sums [0, 7, 14, 21, 28].
   */
  lemma DailyOnes(dates: seq<int>, w: Weekly)
    requires Daily(dates) && |dates| == 31
    requires WeeklyRows(dates, AsTable(Series(seq(32, t => 1.0))), 1, 0, dates[0], w,
                        WeekCount(dates[0], dates[30]) + 1)
    ensures WeekCount(dates[0], dates[30]) == 4
    ensures w.dates == [dates[0], dates[0] + 7, dates[0] + 14, dates[0] + 21, dates[0] + 28]
    ensures w.week == [[0.0], [7.0], [7.0], [7.0], [7.0]]
    ensures w.cum == [[0.0], [7.0], [14.0], [21.0], [28.0]]
  {
    var m := AsTable(Series(seq(32, t => 1.0)));
    assert dates[30] == dates[0] + 30;
    forall l | 1 <= l <= 4
      ensures w.week[l] == [7.0] && w.cum[l] == [(Week * l) as real]
    {
      ColumnSumConstant(m, 0, Week * (l - 1), Week * l, 1.0);
      ColumnSumConstant(m, 0, 0, Week * l, 1.0);
    }
    assert w.week[0] == [0.0] && w.cum[0] == [0.0];
  }
}
