/**
  The progress that block migration reports: what it is computed from, and why it never goes back.
 */
module BlockProgress {
  import opened Bits
  import opened BlockProtocol

  // ---------- the percentage ----------

  function Sum(x: seq<nat>): nat
  {
    if x == [] then 0 else Sum(x[..|x| - 1]) + x[|x| - 1]
  }

  lemma {:induction false} SumAtMost(x: seq<nat>, y: seq<nat>)
    requires |x| == |y| && forall i :: 0 <= i < |x| ==> x[i] <= y[i]
    ensures Sum(x) <= Sum(y)
  {
    if x == [] {
    } else {
      SumAtMost(x[..|x| - 1], y[..|y| - 1]);
    }
  }

  lemma {:induction false} SumOfZeros(x: seq<nat>, n: nat)
    requires n <= |x| && forall i :: n <= i < |x| ==> x[i] == 0
    ensures Sum(x) == Sum(x[..n])
    decreases |x|
  {
    if n == |x| {
      assert x[..n] == x;
    } else {
      SumOfZeros(x[..|x| - 1], n);
      assert x[..|x| - 1][..n] == x[..n];
    }
  }

  function Sizes(devs: seq<Device>): seq<nat>
  {
    seq(|devs|, v requires 0 <= v < |devs| => |devs[v].disk|)
  }

  function Percent(part: nat, total: nat): nat
  {
    if total == 0 then 100 else part * 100 / total
  }

  lemma PercentGrows(a: nat, b: nat, total: nat)
    requires a <= b <= total
    ensures Percent(a, total) <= Percent(b, total) <= 100
  {
    if total > 0 {
      QuotientGrows(a * 100, b * 100, total);
      QuotientGrows(b * 100, total * 100, total);
      QuotientUnique(total * 100, total, 100, 0);
    }
  }

  lemma QuotientGrows(a: nat, b: nat, d: nat)
    requires a <= b && d > 0
    ensures a / d <= b / d
  {
    if a / d > b / d { MultipleGrows(a / d - b / d, d); }
  }

  /** The progress last reported is that of the sectors completed, of which no device has more than
      its cursor has passed. */
  ghost predicate Progressing(devs: seq<Device>, completed: seq<nat>, prev: int)
  {
    && |completed| == |devs| && (forall v :: 0 <= v < |devs| ==> completed[v] <= devs[v].curSector <= |devs[v].disk|)
    && -1 <= prev <= Percent(Sum(completed), Sum(Sizes(devs)))
  }

  /** The sectors completed up to the device being read are all that are completed. */
  lemma SumSoFar(d: seq<Device>, c: seq<nat>, prev: int, devs: seq<Device>, completed: seq<nat>, v: nat, sum: nat)
    requires Progressing(d, c, prev) && |devs| == |d| && |completed| == |c| && v <= |d|
    requires forall u :: 0 <= u < |d| ==>
      |devs[u].disk| == |d[u].disk| && d[u].curSector <= devs[u].curSector <= |d[u].disk|
    requires forall u :: v < u < |d| ==> d[u].curSector == 0
    requires if v < |d| then completed == c[v := d[v].curSector] && sum == Sum(c[..v]) + completed[v]
      else completed == c && sum == Sum(c[..v])
    ensures sum == Sum(completed) && Progressing(devs, completed, prev) && sum <= Sum(Sizes(devs))
    ensures prev <= Percent(sum, Sum(Sizes(devs))) <= 100
  {
    assert Sizes(devs) == Sizes(d);
    SumOfAll(c, completed, v, sum);
    SumGrows(c, completed, Sizes(devs));
  }

  lemma SumOfAll(c: seq<nat>, completed: seq<nat>, v: nat, sum: nat)
    requires |completed| == |c| && v <= |c| && forall u :: v < u < |c| ==> c[u] == 0
    requires if v < |c| then completed == c[v := completed[v]] && sum == Sum(c[..v]) + completed[v]
      else completed == c && sum == Sum(c[..v])
    ensures sum == Sum(completed)
  {
    if v < |c| {
      assert completed[..v + 1][..v] == c[..v];
      SumOfZeros(completed, v + 1);
    } else {
      assert c[..v] == c;
    }
  }

  lemma SumGrows(a: seq<nat>, b: seq<nat>, sizes: seq<nat>)
    requires |a| == |b| == |sizes| && forall i :: 0 <= i < |a| ==> a[i] <= b[i] <= sizes[i]
    ensures Sum(b) <= Sum(sizes) && Percent(Sum(a), Sum(sizes)) <= Percent(Sum(b), Sum(sizes)) <= 100
  {
    SumAtMost(a, b);
    SumAtMost(b, sizes);
    PercentGrows(Sum(a), Sum(b), Sum(sizes));
  }

  lemma ProgressKept(a: seq<Device>, b: seq<Device>, completed: seq<nat>, prev: int)
    requires Progressing(a, completed, prev) && |a| == |b|
    requires forall v :: 0 <= v < |a| ==> |b[v].disk| == |a[v].disk| && b[v].curSector == a[v].curSector
    ensures Progressing(b, completed, prev)
  {
    assert Sizes(a) == Sizes(b);
  }

  // ---------- the records ----------

  /** The percentages reported in a stream, in order. */
  function Percents(file: seq<Record>): seq<int>
  {
    if file == [] then []
    else
      var r := file[|file| - 1];
      Percents(file[..|file| - 1]) + if r.Progress? then [r.percent] else []
  }

  /** `told` is what the stream reports.  The quantifier keeps `Percents` from being unfolded wherever
      this is known. */
  ghost predicate Tells(file: seq<Record>, told: seq<int>)
  {
    forall f :: f == file ==> Percents(f) == told
  }

  lemma TellsMore(file: seq<Record>, told: seq<int>, r: Record)
    requires Tells(file, told)
    ensures Tells(file + [r], if r.Progress? then told + [r.percent] else told)
  {
    assert Percents(file) == told;
    assert (file + [r])[..|file + [r]| - 1] == file;
  }

  /** Percentages that do not go back, lie from 0 to 100, and do not pass the last one noted. */
  predicate Rising(told: seq<int>, prev: int)
  {
    && prev <= 100 && (forall i :: 0 <= i < |told| ==> 0 <= told[i] <= prev)
    && forall i, j :: 0 <= i < j < |told| ==> told[i] <= told[j]
  }
}
