/**
 * The recency filter and `ttm_data`: which records enter the sample, and
 * which of their merge latencies enter each bucket.
 */
module Sampling {
  import opened Wrappers
  import opened Errors
  import opened GitHubPullRequestInfo

  /** `a` is `b` with some elements left out, the rest in their original order. */
  predicate IsSubsequence<T(==)>(a: seq<T>, b: seq<T>)
    decreases |b|
  {
    if a == [] then true
    else if b == [] then false
    else (a[0] == b[0] && IsSubsequence(a[1..], b[1..])) || IsSubsequence(a, b[1..])
  }

  lemma {:induction false} SubsequenceLength<T>(a: seq<T>, b: seq<T>)
    requires IsSubsequence(a, b)
    ensures |a| <= |b|
    decreases |b|
  {
    if a != [] {
      if a[0] == b[0] && IsSubsequence(a[1..], b[1..]) {
        SubsequenceLength(a[1..], b[1..]);
      } else {
        SubsequenceLength(a, b[1..]);
      }
    }
  }

  lemma {:induction false} SubsequenceTransitive<T>(a: seq<T>, b: seq<T>, c: seq<T>)
    requires IsSubsequence(a, b) && IsSubsequence(b, c)
    ensures IsSubsequence(a, c)
    decreases |c|
  {
    if a != [] {
      assert b != [] && c != [];
      if b[0] == c[0] && IsSubsequence(b[1..], c[1..]) {
        if a[0] == b[0] && IsSubsequence(a[1..], b[1..]) {
          SubsequenceTransitive(a[1..], b[1..], c[1..]);
        } else {
          SubsequenceTransitive(a, b[1..], c[1..]);
        }
      } else {
        SubsequenceTransitive(a, b, c[1..]);
      }
    }
  }

  /** The block of the select at line 87, for a record whose Created field compares. */
  predicate IsRecent(pr: PullRequest, cutoff: Timestamp) {
    pr.created.At? && pr.created.time > cutoff
  }

  /**
   * `records.select { |pr| pr.created && pr.created > cutoff }`: records without
   * a Created date are dropped; a Created value that is the empty String is truthy and its
   * comparison with the cutoff raises.
   */
  function SelectRecent(records: seq<PullRequest>, cutoff: Timestamp): (r: Result<seq<PullRequest>, Error>)
    ensures r.Err? <==> exists i :: 0 <= i < |records| && records[i].created.EmptyText?
    ensures r.Err? ==> r.error == ComparisonFailed
    ensures r.Ok? ==> IsSubsequence(r.value, records)
    ensures r.Ok? ==> forall i :: 0 <= i < |r.value| ==> IsRecent(r.value[i], cutoff)
    ensures r.Ok? ==> forall pr :: pr in records && IsRecent(pr, cutoff) ==> pr in r.value
  {
    if records == [] then Ok([])
    else
      var pr := records[0];
      assert forall i :: 1 <= i < |records| ==> records[i] == records[1..][i - 1];
      match pr.created
      case Nil => SelectRecent(records[1..], cutoff)
      case EmptyText => Err(ComparisonFailed)
      case At(t) =>
        var rest :- SelectRecent(records[1..], cutoff);
        Ok(if t > cutoff then [pr] + rest else rest)
  }

  /** The filter keeps each record on its own merits: selecting from `a + b` is selecting from each. */
  lemma {:induction false} SelectRecentAppend(a: seq<PullRequest>, b: seq<PullRequest>, cutoff: Timestamp)
    ensures SelectRecent(a + b, cutoff) ==
              match SelectRecent(a, cutoff)
              case Err(e) => Err(e)
              case Ok(ra) =>
                match SelectRecent(b, cutoff)
                case Err(e) => Err(e)
                case Ok(rb) => Ok(ra + rb)
  {
    if a == [] {
      assert a + b == b;
      assert SelectRecent(a, cutoff) == Ok([]);
      if SelectRecent(b, cutoff).Ok? {
        assert [] + SelectRecent(b, cutoff).value == SelectRecent(b, cutoff).value;
      }
    } else {
      assert (a + b)[0] == a[0] && (a + b)[1..] == a[1..] + b;
      SelectRecentAppend(a[1..], b, cutoff);
      match SelectRecent(a[1..], cutoff)
      case Err(_) =>
      case Ok(ra) =>
        match SelectRecent(b, cutoff)
        case Err(_) =>
        case Ok(rb) =>
          assert [a[0]] + (ra + rb) == ([a[0]] + ra) + rb;
    }
  }

  /** A single record: kept exactly when it is recent, and an error when its Created value is the empty String. */
  lemma SelectRecentSingle(pr: PullRequest, cutoff: Timestamp)
    ensures SelectRecent([pr], cutoff) ==
              if pr.created.EmptyText? then Err(ComparisonFailed)
              else Ok(if IsRecent(pr, cutoff) then [pr] else [])
  {
    assert [pr][0] == pr && [pr][1..] == [];
    assert SelectRecent([], cutoff) == Ok([]);
    assert [pr] + [] == [pr];
  }

  /** `pr.time_to_merge or 0`. */
  function TtmOrZero(pr: PullRequest): int {
    match pr.timeToMerge
    case Some(t) => t
    case None => 0
  }

  /** `data.select { |pr| (pr.time_to_merge or 0) >= minimum_ttm }`. */
  function SelectByTtm(data: seq<PullRequest>, minimumTtm: int): (r: seq<PullRequest>)
    ensures IsSubsequence(r, data)
    ensures forall i :: 0 <= i < |r| ==> TtmOrZero(r[i]) >= minimumTtm
    ensures forall pr :: pr in data && TtmOrZero(pr) >= minimumTtm ==> pr in r
  {
    if data == [] then []
    else
      var rest := SelectByTtm(data[1..], minimumTtm);
      assert forall i :: 1 <= i < |data| ==> data[i] == data[1..][i - 1];
      if TtmOrZero(data[0]) >= minimumTtm then [data[0]] + rest else rest
  }

  /** `.map(&:time_to_merge)`. */
  function MapTtm(prs: seq<PullRequest>): (r: seq<Option<int>>)
    ensures |r| == |prs|
    ensures forall i :: 0 <= i < |prs| ==> r[i] == prs[i].timeToMerge
  {
    if prs == [] then [] else [prs[0].timeToMerge] + MapTtm(prs[1..])
  }

  /** `.compact`: the values that are not `nil`, in order. */
  function Compact(xs: seq<Option<int>>): (r: seq<int>)
    ensures |r| <= |xs|
    ensures forall x :: x in r <==> Some(x) in xs
  {
    if xs == [] then []
    else
      var rest := Compact(xs[1..]);
      assert forall i :: 1 <= i < |xs| ==> xs[i] == xs[1..][i - 1];
      match xs[0]
      case Some(x) => [x] + rest
      case None => rest
  }

  /** `ttm_data(data, minimum_ttm)`: the merge latencies of at least `minimumTtm` days. */
  function TtmData(data: seq<PullRequest>, minimumTtm: int): (r: seq<int>)
    ensures forall i :: 0 <= i < |r| ==> r[i] >= minimumTtm
    ensures forall x :: x in r <==> exists pr :: pr in data && pr.timeToMerge == Some(x) && x >= minimumTtm
  {
    TtmDataMembers(data, minimumTtm);
    Compact(MapTtm(SelectByTtm(data, minimumTtm)))
  }

  /** The latencies `ttm_data` keeps are those of the merged requests at or above the minimum. */
  lemma TtmDataMembers(data: seq<PullRequest>, minimumTtm: int)
    ensures var r := Compact(MapTtm(SelectByTtm(data, minimumTtm)));
            && (forall i :: 0 <= i < |r| ==> r[i] >= minimumTtm)
            && (forall x :: x in r <==> exists pr :: pr in data && pr.timeToMerge == Some(x) && x >= minimumTtm)
  {
    var r := Compact(MapTtm(SelectByTtm(data, minimumTtm)));
    forall x | x in r
      ensures exists pr :: pr in data && pr.timeToMerge == Some(x) && x >= minimumTtm
    {
      KeptLatencySound(data, minimumTtm, x);
    }
    forall pr | pr in data && pr.timeToMerge.Some? && pr.timeToMerge.value >= minimumTtm
      ensures pr.timeToMerge.value in r
    {
      KeptLatencyComplete(data, minimumTtm, pr);
    }
    forall i | 0 <= i < |r| ensures r[i] >= minimumTtm {
      KeptLatencySound(data, minimumTtm, r[i]);
    }
  }

  lemma KeptLatencySound(data: seq<PullRequest>, minimumTtm: int, x: int)
    requires x in Compact(MapTtm(SelectByTtm(data, minimumTtm)))
    ensures exists pr :: pr in data && pr.timeToMerge == Some(x) && x >= minimumTtm
  {
    var selected := SelectByTtm(data, minimumTtm);
    var latencies := MapTtm(selected);
    var j :| 0 <= j < |latencies| && latencies[j] == Some(x);
    SubsequenceMember(selected, data, selected[j]);
  }

  lemma KeptLatencyComplete(data: seq<PullRequest>, minimumTtm: int, pr: PullRequest)
    requires pr in data && pr.timeToMerge.Some? && pr.timeToMerge.value >= minimumTtm
    ensures pr.timeToMerge.value in Compact(MapTtm(SelectByTtm(data, minimumTtm)))
  {
    var selected := SelectByTtm(data, minimumTtm);
    var latencies := MapTtm(selected);
    var j :| 0 <= j < |selected| && selected[j] == pr;
    assert latencies[j] == Some(pr.timeToMerge.value);
  }

  lemma {:induction false} SubsequenceMember<T>(a: seq<T>, b: seq<T>, x: T)
    requires IsSubsequence(a, b) && x in a
    ensures x in b
    decreases |b|
  {
    if a[0] == b[0] && IsSubsequence(a[1..], b[1..]) {
      if x != a[0] {
        SubsequenceMember(a[1..], b[1..], x);
      }
    } else {
      SubsequenceMember(a, b[1..], x);
    }
  }

  /** The latencies in `xs` of at least `minimum` days, in order. */
  function AtLeast(xs: seq<int>, minimum: int): (r: seq<int>)
    ensures IsSubsequence(r, xs)
    ensures forall i :: 0 <= i < |r| ==> r[i] >= minimum
    ensures forall x :: x in xs && x >= minimum ==> x in r
  {
    if xs == [] then []
    else
      var rest := AtLeast(xs[1..], minimum);
      assert forall i :: 1 <= i < |xs| ==> xs[i] == xs[1..][i - 1];
      if xs[0] >= minimum then [xs[0]] + rest else rest
  }

  lemma {:induction false} AtLeastAppend(a: seq<int>, b: seq<int>, minimum: int)
    ensures AtLeast(a + b, minimum) == AtLeast(a, minimum) + AtLeast(b, minimum)
  {
    if a == [] {
      assert a + b == b;
    } else {
      assert (a + b)[0] == a[0] && (a + b)[1..] == a[1..] + b;
      AtLeastAppend(a[1..], b, minimum);
    }
  }

  lemma {:induction false} SelectByTtmAppend(a: seq<PullRequest>, b: seq<PullRequest>, minimumTtm: int)
    ensures SelectByTtm(a + b, minimumTtm) == SelectByTtm(a, minimumTtm) + SelectByTtm(b, minimumTtm)
  {
    if a == [] {
      assert a + b == b;
    } else {
      assert (a + b)[0] == a[0] && (a + b)[1..] == a[1..] + b;
      SelectByTtmAppend(a[1..], b, minimumTtm);
    }
  }

  /** A single record passes the select exactly when `(time_to_merge or 0) >= minimum_ttm`. */
  lemma SelectByTtmSingle(pr: PullRequest, minimumTtm: int)
    ensures SelectByTtm([pr], minimumTtm) == if TtmOrZero(pr) >= minimumTtm then [pr] else []
  {
    assert [pr][0] == pr && [pr][1..] == [];
  }

  /** The select keeps every occurrence of a passing record and none of a failing one. */
  lemma {:induction false} SelectByTtmCounts(data: seq<PullRequest>, minimumTtm: int)
    ensures forall pr :: multiset(SelectByTtm(data, minimumTtm))[pr] ==
                           if TtmOrZero(pr) >= minimumTtm then multiset(data)[pr] else 0
  {
    if data != [] {
      assert data == [data[0]] + data[1..];
      SelectByTtmCounts(data[1..], minimumTtm);
    }
  }

  lemma {:induction false} MapTtmAppend(a: seq<PullRequest>, b: seq<PullRequest>)
    ensures MapTtm(a + b) == MapTtm(a) + MapTtm(b)
  {
    if a == [] {
      assert a + b == b;
    } else {
      assert (a + b)[0] == a[0] && (a + b)[1..] == a[1..] + b;
      MapTtmAppend(a[1..], b);
    }
  }

  lemma {:induction false} CompactAppend(a: seq<Option<int>>, b: seq<Option<int>>)
    ensures Compact(a + b) == Compact(a) + Compact(b)
  {
    if a == [] {
      assert a + b == b;
    } else {
      assert (a + b)[0] == a[0] && (a + b)[1..] == a[1..] + b;
      CompactAppend(a[1..], b);
    }
  }

  /** `compact` keeps a single value exactly when it is not `nil`. */
  lemma CompactSingle(x: Option<int>)
    ensures Compact([x]) == if x.Some? then [x.value] else []
  {
    assert [x][0] == x && [x][1..] == [];
  }

  /** `compact` keeps every occurrence of every non-`nil` value. */
  lemma {:induction false} CompactCounts(xs: seq<Option<int>>)
    ensures forall x :: multiset(Compact(xs))[x] == multiset(xs)[Some(x)]
  {
    if xs != [] {
      assert xs == [xs[0]] + xs[1..];
      CompactCounts(xs[1..]);
    }
  }

  /** `ttm_data` looks at each record on its own: the latencies of `a + b` are those of `a`, then those of `b`. */
  lemma TtmDataAppend(a: seq<PullRequest>, b: seq<PullRequest>, minimumTtm: int)
    ensures TtmData(a + b, minimumTtm) == TtmData(a, minimumTtm) + TtmData(b, minimumTtm)
  {
    SelectByTtmAppend(a, b, minimumTtm);
    MapTtmAppend(SelectByTtm(a, minimumTtm), SelectByTtm(b, minimumTtm));
    CompactAppend(MapTtm(SelectByTtm(a, minimumTtm)), MapTtm(SelectByTtm(b, minimumTtm)));
  }

  /**
   * One record contributes its latency when it has one of at least
   * `minimumTtm` days, and nothing otherwise: an unmerged record that passes
   * the `or 0` test is still dropped by `compact`.
   */
  lemma TtmDataSingle(pr: PullRequest, minimumTtm: int)
    ensures TtmData([pr], minimumTtm) ==
              if pr.timeToMerge.Some? && pr.timeToMerge.value >= minimumTtm then [pr.timeToMerge.value] else []
  {
    assert [pr][0] == pr && [pr][1..] == [];
    var selected := SelectByTtm([pr], minimumTtm);
    assert selected == if TtmOrZero(pr) >= minimumTtm then [pr] else [];
    var latencies := MapTtm(selected);
    assert latencies == if TtmOrZero(pr) >= minimumTtm then [pr.timeToMerge] else [];
    if latencies != [] {
      assert latencies[1..] == [];
    }
  }

  /** An unmerged record never reaches a bucket, whatever the threshold. */
  lemma TtmDataIgnoresUnmerged(a: seq<PullRequest>, pr: PullRequest, b: seq<PullRequest>, minimumTtm: int)
    requires WellFormed(pr) && pr.merged.Nil?
    ensures TtmData(a + [pr] + b, minimumTtm) == TtmData(a + b, minimumTtm)
  {
    TtmDataAppend(a + [pr], b, minimumTtm);
    TtmDataAppend(a, [pr], minimumTtm);
    TtmDataSingle(pr, minimumTtm);
    TtmDataAppend(a, b, minimumTtm);
    assert TtmData(a, minimumTtm) + [] == TtmData(a, minimumTtm);
  }

  /**
   * Raising the threshold from `low` to `high` keeps exactly the latencies of
   * the lower bucket that reach `high`.
   */
  lemma {:induction false} TtmDataRaise(data: seq<PullRequest>, low: int, high: int)
    requires low <= high
    ensures TtmData(data, high) == AtLeast(TtmData(data, low), high)
  {
    if data == [] {
      assert TtmData(data, high) == [] && TtmData(data, low) == [];
    } else {
      assert data == [data[0]] + data[1..];
      TtmDataRaise(data[1..], low, high);
      TtmDataAppend([data[0]], data[1..], low);
      TtmDataAppend([data[0]], data[1..], high);
      TtmDataSingle(data[0], low);
      TtmDataSingle(data[0], high);
      AtLeastAppend(TtmData([data[0]], low), TtmData(data[1..], low), high);
      var head := TtmData([data[0]], low);
      if head != [] {
        assert head[1..] == [];
        assert AtLeast(head, high) == TtmData([data[0]], high);
      }
    }
  }

  /** A higher threshold gives a subsequence of the lower one's bucket, so never a larger bucket. */
  lemma TtmDataMonotone(data: seq<PullRequest>, low: int, high: int)
    requires low <= high
    ensures IsSubsequence(TtmData(data, high), TtmData(data, low))
    ensures |TtmData(data, high)| <= |TtmData(data, low)|
  {
    TtmDataRaise(data, low, high);
    SubsequenceLength(TtmData(data, high), TtmData(data, low));
  }

  /** The merge latencies of `data`, in input order, unmerged records left out. */
  function Latencies(data: seq<PullRequest>): (r: seq<int>)
    ensures forall x :: x in r <==> exists pr :: pr in data && pr.timeToMerge == Some(x)
  {
    if data == [] then []
    else
      var rest := Latencies(data[1..]);
      assert forall i :: 1 <= i < |data| ==> data[i] == data[1..][i - 1];
      match data[0].timeToMerge
      case Some(x) => [x] + rest
      case None => rest
  }

  /**
   * `ttm_data(data, m)` is the list of latencies of `data`, in input order,
   * restricted to those of at least `m` days.
   */
  lemma {:induction false} TtmDataInOrder(data: seq<PullRequest>, minimumTtm: int)
    ensures TtmData(data, minimumTtm) == AtLeast(Latencies(data), minimumTtm)
  {
    if data == [] {
      assert TtmData(data, minimumTtm) == [];
    } else {
      assert data == [data[0]] + data[1..];
      TtmDataInOrder(data[1..], minimumTtm);
      TtmDataAppend([data[0]], data[1..], minimumTtm);
      TtmDataSingle(data[0], minimumTtm);
      match data[0].timeToMerge
      case Some(x) =>
        assert Latencies(data) == [x] + Latencies(data[1..]);
        assert ([x] + Latencies(data[1..]))[1..] == Latencies(data[1..]);
      case None =>
        assert Latencies(data) == Latencies(data[1..]);
    }
  }
}
