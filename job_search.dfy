/**
 * The job search of index/views.py (`job_list`): five trimmed search fields,
 * three exact signals, two fuzzy signals with fixed thresholds, a recency
 * score, four priority buckets, a stable sort of each bucket by recency
 * (highest first) and the concatenation of the buckets in priority order.
 *
 * The similarity score (rapidfuzz's token_sort_ratio applied to the two
 * lower-cased strings) is outside the model and enters as the parameter
 * `sim`, a total function into [0, 100]. Instants are counted in
 * microseconds, the resolution of timezone.now() and of the stored posted_at.
 */
module JobSearch {
  import opened Text

  type Percent = x: int | 0 <= x <= 100

  /** token_sort_ratio(a.lower(), b.lower()), supplied by the caller. */
  type Similarity = (string, string) -> Percent

  /** The fields of a posting that the search reads. */
  datatype Job = Job(
    id: nat,
    title: string,
    industry: string,
    department: string,
    workType: string,
    fullLocationAddress: string,
    postedAt: int)

  /** The five search fields as submitted. */
  datatype Criteria = Criteria(
    title: string,
    industry: string,
    department: string,
    workType: string,
    location: string)

  /** Everything a score depends on besides the posting itself. */
  datatype Query = Query(criteria: Criteria, now: int, sim: Similarity)

  /** What the search renders: the error state, or the ranked postings. */
  datatype Outcome = Incomplete(message: string) | Found(jobs: seq<Job>)

  const IncompleteMessage: string := "Please fill in all filter fields."
  const MicrosPerDay: int := 86_400_000_000
  const LocationThreshold: int := 80
  const TitleThreshold: int := 60
  const RecencyWindow: int := 30

  function Trimmed(raw: Criteria): Criteria {
    Criteria(Strip(raw.title), Strip(raw.industry), Strip(raw.department),
             Strip(raw.workType), Strip(raw.location))
  }

  /** `all([title, industry, dept, wtype, location])`. */
  predicate Complete(c: Criteria) {
    c.title != [] && c.industry != [] && c.department != [] && c.workType != [] && c.location != []
  }

  /** Number of the three structured fields that equal the search exactly. */
  function ExactCount(c: Criteria, j: Job): (n: nat)
    ensures n <= 3
    ensures n == 3 <==> j.industry == c.industry && j.department == c.department && j.workType == c.workType
    ensures n == 0 <==> j.industry != c.industry && j.department != c.department && j.workType != c.workType
  {
    (if j.industry == c.industry then 1 else 0)
    + (if j.department == c.department then 1 else 0)
    + (if j.workType == c.workType then 1 else 0)
  }

  /** Number of fuzzy signals: location score at least 80, title score at least 60. */
  function FuzzCount(loc: Percent, title: Percent): (n: nat)
    ensures n <= 2
    ensures n == 2 <==> loc >= LocationThreshold && title >= TitleThreshold
    ensures n == 0 <==> loc < LocationThreshold && title < TitleThreshold
  {
    (if loc >= LocationThreshold then 1 else 0) + (if title >= TitleThreshold then 1 else 0)
  }

  /** `(now - posted_at).days`: whole days elapsed, rounded down (negative for a future post). */
  function DaysOld(now: int, postedAt: int): (d: int)
    ensures d * MicrosPerDay <= now - postedAt < (d + 1) * MicrosPerDay
  {
    (now - postedAt) / MicrosPerDay
  }

  /**
   * The numerator of `max(0, (30 - days_old) / 30)`: thirty times the
   * source's recency score, as an integer. Dividing by the positive constant
   * 30 changes no comparison, so it orders postings exactly as the source's
   * floating-point score does.
   */
  function Recency(daysOld: int): (r: nat)
    ensures daysOld >= RecencyWindow ==> r == 0
    ensures daysOld < RecencyWindow ==> r > 0
  {
    if RecencyWindow - daysOld > 0 then RecencyWindow - daysOld else 0
  }

  /** The source's score `max(0, (30 - days_old) / 30)`, in exact arithmetic. */
  function RecencyScore(daysOld: int): real {
    var x := (RecencyWindow - daysOld) as real / RecencyWindow as real;
    if 0.0 >= x then 0.0 else x
  }

  /**
   * The integer numerator is thirty times the source's score, so the two
   * order any pair of postings the same way.
   */
  lemma RecencyIsScaledScore(d1: int, d2: int)
    ensures Recency(d1) as real == 30.0 * RecencyScore(d1)
    ensures Recency(d1) <= Recency(d2) <==> RecencyScore(d1) <= RecencyScore(d2)
  {
  }

  /**
   * Recency is never negative, vanishes from day 30 on, never grows as a
   * posting ages, and stays within the source's nominal [0, 1] (here
   * [0, 30]) only for postings whose age is not negative: the source clamps
   * the low end only.
   */
  lemma RecencyFacts(d1: int, d2: int)
    ensures RecencyScore(d1) >= 0.0
    ensures d1 >= 30 ==> RecencyScore(d1) == 0.0
    ensures d1 <= d2 ==> RecencyScore(d1) >= RecencyScore(d2)
    ensures RecencyScore(d1) <= 1.0 <==> d1 >= 0
  {
  }

  /**
   * The priority buckets, checked in order; 0 means discarded.
   * A posting is discarded exactly when it has fewer than two signals.
   */
  function BucketOf(exact: nat, loc: Percent, title: Percent): (b: nat)
    requires exact <= 3
    ensures 0 <= b <= 4
    ensures b == 0 <==> exact + FuzzCount(loc, title) < 2
    ensures exact == 3 ==> 1 <= b <= 3
  {
    if exact == 3 && loc >= LocationThreshold && title >= TitleThreshold then 1
    else if exact == 3 && title >= TitleThreshold then 2
    else if exact == 3 then 3
    else if exact + FuzzCount(loc, title) >= 2 then 4
    else 0
  }

  /**
   * The bucket rules are mutually exclusive; read without their priority
   * order, bucket 2 is the full exact match with a title match but no
   * location match, bucket 3 the full exact match without a title match,
   * bucket 4 at most two exact matches with at least two signals overall.
   */
  lemma BucketRules(exact: nat, loc: Percent, title: Percent)
    requires exact <= 3
    ensures BucketOf(exact, loc, title) == 1 <==> exact == 3 && loc >= LocationThreshold && title >= TitleThreshold
    ensures BucketOf(exact, loc, title) == 2 <==> exact == 3 && loc < LocationThreshold && title >= TitleThreshold
    ensures BucketOf(exact, loc, title) == 3 <==> exact == 3 && title < TitleThreshold
    ensures BucketOf(exact, loc, title) == 4 <==> exact <= 2 && exact + FuzzCount(loc, title) >= 2
  {
  }

  function LocationScore(q: Query, j: Job): Percent {
    q.sim(q.criteria.location, j.fullLocationAddress)
  }

  function TitleScore(q: Query, j: Job): Percent {
    q.sim(q.criteria.title, j.title)
  }

  function JobBucket(q: Query, j: Job): nat {
    BucketOf(ExactCount(q.criteria, j), LocationScore(q, j), TitleScore(q, j))
  }

  function JobRecency(q: Query, j: Job): nat {
    Recency(DaysOld(q.now, j.postedAt))
  }

  // ---------------------------------------------------------------------
  // Buckets and their stable sort (`sort_bucket`)
  // ---------------------------------------------------------------------

  /** A `(recency_score, job)` tuple of a bucket list. */
  datatype Entry = Entry(recency: nat, job: Job)

  function EntryOf(q: Query, j: Job): Entry {
    Entry(JobRecency(q, j), j)
  }

  /** The bucket list `b` as the loop leaves it: its postings in scan order. */
  function BucketEntries(q: Query, jobs: seq<Job>, b: nat): seq<Entry> {
    if jobs == [] then []
    else (if JobBucket(q, jobs[0]) == b then [EntryOf(q, jobs[0])] else []) + BucketEntries(q, jobs[1..], b)
  }

  /** Every entry of `es` holds a posting of bucket `b` with its own recency. */
  predicate Tagged(q: Query, es: seq<Entry>, b: nat) {
    forall e :: e in es ==> JobBucket(q, e.job) == b && e.recency == JobRecency(q, e.job)
  }

  predicate Descending(es: seq<Entry>) {
    forall i, j :: 0 <= i < j < |es| ==> es[i].recency >= es[j].recency
  }

  /** The entries of recency `r`, in order. */
  function WithRecency(es: seq<Entry>, r: nat): seq<Entry> {
    if es == [] then []
    else (if es[0].recency == r then [es[0]] else []) + WithRecency(es[1..], r)
  }

  function JobsOf(es: seq<Entry>): (js: seq<Job>)
    ensures |js| == |es| && forall k :: 0 <= k < |es| ==> js[k] == es[k].job
  {
    if es == [] then [] else [es[0].job] + JobsOf(es[1..])
  }

  /** Insert `e` before the first entry whose recency is not greater than its own. */
  function Insert(e: Entry, es: seq<Entry>): seq<Entry> {
    if es == [] || es[0].recency <= e.recency then [e] + es
    else [es[0]] + Insert(e, es[1..])
  }

  lemma {:induction false} InsertPermutes(e: Entry, es: seq<Entry>)
    ensures multiset(Insert(e, es)) == multiset(es) + multiset{e}
  {
    if es == [] || es[0].recency <= e.recency {
    } else {
      InsertPermutes(e, es[1..]);
      assert es == [es[0]] + es[1..];
    }
  }

  lemma {:induction false} InsertDescending(e: Entry, es: seq<Entry>)
    requires Descending(es)
    ensures Descending(Insert(e, es))
  {
    if es == [] || es[0].recency <= e.recency {
    } else {
      var tail := Insert(e, es[1..]);
      InsertDescending(e, es[1..]);
      InsertPermutes(e, es[1..]);
      var out := [es[0]] + tail;
      forall j | 0 < j < |out| ensures out[0].recency >= out[j].recency {
        assert out[j] == tail[j - 1];
        assert out[j] in multiset(tail);
        if out[j] != e {
          assert out[j] in es[1..];
          var k :| 0 <= k < |es[1..]| && es[1..][k] == out[j];
          assert es[k + 1] == out[j];
        }
      }
    }
  }

  lemma {:induction false} InsertWithRecency(e: Entry, es: seq<Entry>, r: nat)
    ensures WithRecency(Insert(e, es), r) == (if e.recency == r then [e] else []) + WithRecency(es, r)
  {
    if es == [] || es[0].recency <= e.recency {
      assert ([e] + es)[1..] == es;
    } else {
      var tail := Insert(e, es[1..]);
      var mine := if e.recency == r then [e] else [];
      var head := if es[0].recency == r then [es[0]] else [];
      InsertWithRecency(e, es[1..], r);
      assert ([es[0]] + tail)[1..] == tail;
      calc {
        WithRecency(Insert(e, es), r);
        head + WithRecency(tail, r);
        head + (mine + WithRecency(es[1..], r));
        { assert head == [] || mine == []; }
        mine + (head + WithRecency(es[1..], r));
        mine + WithRecency(es, r);
      }
    }
  }

  /**
   * Python's `sorted(b, key=lambda x: x[0], reverse=True)`: the recency is
   * non-increasing along the result, the result is a permutation of the
   * input, and the entries of any one recency keep their input order (the
   * sort is stable).
   */
  function SortDesc(es: seq<Entry>): (out: seq<Entry>)
    ensures Descending(out)
    ensures multiset(out) == multiset(es)
    ensures forall r :: WithRecency(out, r) == WithRecency(es, r)
  {
    if es == [] then []
    else
      var rest := SortDesc(es[1..]);
      InsertKeepsOrder(es, rest);
      Insert(es[0], rest)
  }

  /** Inserting the first entry into the sorted rest sorts the whole sequence. */
  lemma InsertKeepsOrder(es: seq<Entry>, rest: seq<Entry>)
    requires es != [] && Descending(rest) && multiset(rest) == multiset(es[1..])
    requires forall r :: WithRecency(rest, r) == WithRecency(es[1..], r)
    ensures Descending(Insert(es[0], rest))
    ensures multiset(Insert(es[0], rest)) == multiset(es)
    ensures forall r :: WithRecency(Insert(es[0], rest), r) == WithRecency(es, r)
  {
    InsertPermutes(es[0], rest);
    InsertDescending(es[0], rest);
    assert es == [es[0]] + es[1..];
    forall r ensures WithRecency(Insert(es[0], rest), r) == WithRecency(es, r) {
      InsertWithRecency(es[0], rest, r);
    }
  }

  /** `sort_bucket`: the postings of a bucket, most recent first. */
  function SortBucket(es: seq<Entry>): seq<Job> {
    JobsOf(SortDesc(es))
  }

  // ---------------------------------------------------------------------
  // The ranking and the search
  // ---------------------------------------------------------------------

  /** `sort_bucket(bucket1) + sort_bucket(bucket2) + sort_bucket(bucket3) + sort_bucket(bucket4)`. */
  function Ranked(q: Query, jobs: seq<Job>): seq<Job> {
    SortBucket(BucketEntries(q, jobs, 1)) + SortBucket(BucketEntries(q, jobs, 2))
    + SortBucket(BucketEntries(q, jobs, 3)) + SortBucket(BucketEntries(q, jobs, 4))
  }

  /** The search as a whole: reject an incomplete search, otherwise rank. */
  function Search(raw: Criteria, jobs: seq<Job>, now: int, sim: Similarity): Outcome {
    var c := Trimmed(raw);
    if !Complete(c) then Incomplete(IncompleteMessage) else Found(Ranked(Query(c, now, sim), jobs))
  }

  lemma {:induction false} BucketEntriesSnoc(q: Query, jobs: seq<Job>, x: Job, b: nat)
    ensures BucketEntries(q, jobs + [x], b)
         == BucketEntries(q, jobs, b) + (if JobBucket(q, x) == b then [EntryOf(q, x)] else [])
  {
    if jobs == [] {
      assert jobs + [x] == [x];
    } else {
      assert (jobs + [x])[1..] == jobs[1..] + [x];
      BucketEntriesSnoc(q, jobs[1..], x, b);
    }
  }

  /** What one more posting adds to each bucket list. */
  lemma ScanStep(q: Query, jobs: seq<Job>, i: nat)
    requires i < |jobs|
    ensures forall b :: (BucketEntries(q, jobs[..i + 1], b)
      == BucketEntries(q, jobs[..i], b) + (if JobBucket(q, jobs[i]) == b then [EntryOf(q, jobs[i])] else []))
  {
    assert jobs[..i + 1] == jobs[..i] + [jobs[i]];
    forall b {
      BucketEntriesSnoc(q, jobs[..i], jobs[i], b);
    }
  }

  // ---------------------------------------------------------------------
  // What the ranking guarantees
  // ---------------------------------------------------------------------

  /** `x` is listed no later than `y` may be: a better bucket, or the same bucket and at least as recent. */
  predicate Precedes(q: Query, x: Job, y: Job) {
    || JobBucket(q, x) < JobBucket(q, y)
    || (JobBucket(q, x) == JobBucket(q, y) && JobRecency(q, x) >= JobRecency(q, y))
  }

  predicate RankOrdered(q: Query, s: seq<Job>) {
    forall i, j :: 0 <= i < j < |s| ==> Precedes(q, s[i], s[j])
  }

  /** The postings of `s` in bucket `b` with recency `r`, in their order in `s`. */
  function Select(q: Query, s: seq<Job>, b: nat, r: nat): seq<Job> {
    if s == [] then []
    else (if JobBucket(q, s[0]) == b && JobRecency(q, s[0]) == r then [s[0]] else []) + Select(q, s[1..], b, r)
  }

  /** The postings of `s` in bucket `b`, in order. */
  function InBucket(q: Query, s: seq<Job>, b: nat): seq<Job> {
    if s == [] then []
    else (if JobBucket(q, s[0]) == b then [s[0]] else []) + InBucket(q, s[1..], b)
  }

  /** The postings of `s` that are not discarded, in order. */
  function Kept(q: Query, s: seq<Job>): seq<Job> {
    if s == [] then []
    else (if JobBucket(q, s[0]) != 0 then [s[0]] else []) + Kept(q, s[1..])
  }

  lemma {:induction false} BucketEntriesTagged(q: Query, jobs: seq<Job>, b: nat)
    ensures Tagged(q, BucketEntries(q, jobs, b), b)
    ensures JobsOf(BucketEntries(q, jobs, b)) == InBucket(q, jobs, b)
  {
    if jobs != [] {
      BucketEntriesTagged(q, jobs[1..], b);
      var head := if JobBucket(q, jobs[0]) == b then [EntryOf(q, jobs[0])] else [];
      var rest := BucketEntries(q, jobs[1..], b);
      assert JobsOf(head + rest) == JobsOf(head) + JobsOf(rest);
    }
  }

  predicate BucketsWithin(q: Query, s: seq<Job>, lo: nat, hi: nat) {
    forall k :: 0 <= k < |s| ==> lo <= JobBucket(q, s[k]) <= hi
  }

  lemma {:induction false} SortedBucketOrdered(q: Query, es: seq<Entry>, b: nat)
    requires Tagged(q, es, b)
    ensures BucketsWithin(q, SortBucket(es), b, b)
    ensures RankOrdered(q, SortBucket(es))
  {
    var out := SortDesc(es);
    forall k | 0 <= k < |out| ensures JobBucket(q, out[k].job) == b && out[k].recency == JobRecency(q, out[k].job) {
      assert out[k] in multiset(es);
      assert out[k] in es;
    }
  }

  lemma {:induction false} OrderedAppend(q: Query, a: seq<Job>, c: seq<Job>, lo: nat, mid: nat, hi: nat)
    requires lo <= mid < hi
    requires RankOrdered(q, a) && RankOrdered(q, c)
    requires BucketsWithin(q, a, lo, mid) && BucketsWithin(q, c, mid + 1, hi)
    ensures RankOrdered(q, a + c)
    ensures BucketsWithin(q, a + c, lo, hi)
  {
    var s := a + c;
    forall i, j | 0 <= i < j < |s| ensures Precedes(q, s[i], s[j]) {
      if j < |a| {
        assert s[i] == a[i] && s[j] == a[j];
      } else if i >= |a| {
        assert s[i] == c[i - |a|] && s[j] == c[j - |a|];
      } else {
        assert s[i] == a[i] && s[j] == c[j - |a|];
      }
    }
    forall k | 0 <= k < |s| ensures lo <= JobBucket(q, s[k]) <= hi {
      if k < |a| { assert s[k] == a[k]; } else { assert s[k] == c[k - |a|]; }
    }
  }

  /**
   * Along the result the bucket never decreases (buckets 1 to 4 in that
   * order, no discarded posting), and within a bucket the recency never
   * increases.
   */
  lemma RankedOrdered(q: Query, jobs: seq<Job>)
    ensures BucketsWithin(q, Ranked(q, jobs), 1, 4)
    ensures RankOrdered(q, Ranked(q, jobs))
  {
    var s1 := SortBucket(BucketEntries(q, jobs, 1));
    var s2 := SortBucket(BucketEntries(q, jobs, 2));
    var s3 := SortBucket(BucketEntries(q, jobs, 3));
    var s4 := SortBucket(BucketEntries(q, jobs, 4));
    BucketEntriesTagged(q, jobs, 1);
    BucketEntriesTagged(q, jobs, 2);
    BucketEntriesTagged(q, jobs, 3);
    BucketEntriesTagged(q, jobs, 4);
    SortedBucketOrdered(q, BucketEntries(q, jobs, 1), 1);
    SortedBucketOrdered(q, BucketEntries(q, jobs, 2), 2);
    SortedBucketOrdered(q, BucketEntries(q, jobs, 3), 3);
    SortedBucketOrdered(q, BucketEntries(q, jobs, 4), 4);
    OrderedAppend(q, s1, s2, 1, 1, 2);
    OrderedAppend(q, s1 + s2, s3, 1, 2, 3);
    OrderedAppend(q, s1 + s2 + s3, s4, 1, 3, 4);
  }

  lemma {:induction false} SelectAppend(q: Query, s: seq<Job>, t: seq<Job>, b: nat, r: nat)
    ensures Select(q, s + t, b, r) == Select(q, s, b, r) + Select(q, t, b, r)
  {
    if s == [] {
      assert s + t == t;
    } else {
      assert (s + t)[1..] == s[1..] + t;
      SelectAppend(q, s[1..], t, b, r);
    }
  }

  lemma {:induction false} SelectOfTagged(q: Query, es: seq<Entry>, tag: nat, b: nat, r: nat)
    requires Tagged(q, es, tag)
    ensures Select(q, JobsOf(es), b, r) == if tag == b then JobsOf(WithRecency(es, r)) else []
  {
    if es != [] {
      assert es[0] in es;
      SelectOfTagged(q, es[1..], tag, b, r);
      assert JobsOf(es)[1..] == JobsOf(es[1..]);
      var head := if es[0].recency == r then [es[0]] else [];
      JobsOfAppend(head, WithRecency(es[1..], r));
    }
  }

  lemma {:induction false} BucketEntriesWithRecency(q: Query, jobs: seq<Job>, b: nat, r: nat)
    ensures JobsOf(WithRecency(BucketEntries(q, jobs, b), r)) == Select(q, jobs, b, r)
  {
    if jobs != [] {
      BucketEntriesWithRecency(q, jobs[1..], b, r);
      var head := if JobBucket(q, jobs[0]) == b then [EntryOf(q, jobs[0])] else [];
      var rest := BucketEntries(q, jobs[1..], b);
      if head == [] {
        assert head + rest == rest;
      } else {
        assert (head + rest)[0] == EntryOf(q, jobs[0]);
        var h2 := if JobRecency(q, jobs[0]) == r then [EntryOf(q, jobs[0])] else [];
        assert WithRecency(head + rest, r) == h2 + WithRecency(rest, r);
        JobsOfAppend(h2, WithRecency(rest, r));
      }
    }
  }

  /** The part of bucket `b` that a sorted bucket list contributes to the result. */
  lemma SelectOfSortedBucket(q: Query, jobs: seq<Job>, tag: nat, b: nat, r: nat)
    ensures Select(q, SortBucket(BucketEntries(q, jobs, tag)), b, r)
         == if tag == b then Select(q, jobs, b, r) else []
  {
    var es := BucketEntries(q, jobs, tag);
    BucketEntriesTagged(q, jobs, tag);
    var out := SortDesc(es);
    assert Tagged(q, out, tag) by {
      forall e | e in out ensures JobBucket(q, e.job) == tag && e.recency == JobRecency(q, e.job) {
        assert e in multiset(es);
        assert e in es;
      }
    }
    SelectOfTagged(q, out, tag, b, r);
    BucketEntriesWithRecency(q, jobs, b, r);
  }

  /**
   * The ranking is stable: the postings that share a bucket and a recency
   * appear in the result in exactly the order of the input.
   */
  lemma RankedStable(q: Query, jobs: seq<Job>, b: nat, r: nat)
    requires 1 <= b <= 4
    ensures Select(q, Ranked(q, jobs), b, r) == Select(q, jobs, b, r)
  {
    var s1 := SortBucket(BucketEntries(q, jobs, 1));
    var s2 := SortBucket(BucketEntries(q, jobs, 2));
    var s3 := SortBucket(BucketEntries(q, jobs, 3));
    var s4 := SortBucket(BucketEntries(q, jobs, 4));
    assert Ranked(q, jobs) == s1 + s2 + s3 + s4;
    SelectOfFour(q, s1, s2, s3, s4, b, r);
    SelectOfSortedBucket(q, jobs, 1, b, r);
    SelectOfSortedBucket(q, jobs, 2, b, r);
    SelectOfSortedBucket(q, jobs, 3, b, r);
    SelectOfSortedBucket(q, jobs, 4, b, r);
    OnlyOnePart(Select(q, s1, b, r), Select(q, s2, b, r), Select(q, s3, b, r), Select(q, s4, b, r),
                Select(q, jobs, b, r), b);
  }

  lemma SelectOfFour(q: Query, s1: seq<Job>, s2: seq<Job>, s3: seq<Job>, s4: seq<Job>, b: nat, r: nat)
    ensures Select(q, s1 + s2 + s3 + s4, b, r)
         == Select(q, s1, b, r) + Select(q, s2, b, r) + Select(q, s3, b, r) + Select(q, s4, b, r)
  {
    SelectAppend(q, s1, s2, b, r);
    SelectAppend(q, s1 + s2, s3, b, r);
    SelectAppend(q, s1 + s2 + s3, s4, b, r);
  }

  lemma OnlyOnePart(a1: seq<Job>, a2: seq<Job>, a3: seq<Job>, a4: seq<Job>, want: seq<Job>, b: nat)
    requires 1 <= b <= 4
    requires a1 == (if b == 1 then want else []) && a2 == (if b == 2 then want else [])
    requires a3 == (if b == 3 then want else []) && a4 == (if b == 4 then want else [])
    ensures a1 + a2 + a3 + a4 == want
  {
    if b == 1 {
      assert a1 + a2 + a3 + a4 == want + [] + [] + [];
    } else if b == 2 {
      assert a1 + a2 + a3 + a4 == [] + want + [] + [];
    } else if b == 3 {
      assert a1 + a2 + a3 + a4 == [] + [] + want + [];
    } else {
      assert a1 + a2 + a3 + a4 == [] + [] + [] + want;
    }
  }

  lemma JobsOfCons(x: Entry, xs: seq<Entry>)
    ensures JobsOf([x] + xs) == [x.job] + JobsOf(xs)
  {
    assert ([x] + xs)[1..] == xs;
  }

  lemma JobsOfAppend(xs: seq<Entry>, ys: seq<Entry>)
    ensures JobsOf(xs + ys) == JobsOf(xs) + JobsOf(ys)
  {
    assert forall k :: 0 <= k < |xs + ys| ==> JobsOf(xs + ys)[k] == (JobsOf(xs) + JobsOf(ys))[k];
  }

  lemma {:induction false} InsertJobs(e: Entry, es: seq<Entry>)
    ensures multiset(JobsOf(Insert(e, es))) == multiset(JobsOf(es)) + multiset{e.job}
  {
    if es == [] || es[0].recency <= e.recency {
      JobsOfCons(e, es);
    } else {
      InsertJobs(e, es[1..]);
      JobsOfCons(es[0], Insert(e, es[1..]));
      JobsOfCons(es[0], es[1..]);
      assert es == [es[0]] + es[1..];
    }
  }

  lemma {:induction false} SortBucketPermutes(es: seq<Entry>)
    ensures multiset(SortBucket(es)) == multiset(JobsOf(es))
  {
    if es != [] {
      SortBucketPermutes(es[1..]);
      InsertJobs(es[0], SortDesc(es[1..]));
      assert JobsOf(es) == [es[0].job] + JobsOf(es[1..]);
    }
  }

  lemma {:induction false} KeptSplits(q: Query, jobs: seq<Job>)
    ensures multiset(Kept(q, jobs))
         == multiset(InBucket(q, jobs, 1)) + multiset(InBucket(q, jobs, 2))
          + multiset(InBucket(q, jobs, 3)) + multiset(InBucket(q, jobs, 4))
  {
    if jobs != [] {
      KeptSplits(q, jobs[1..]);
      assert JobBucket(q, jobs[0]) <= 4;
    }
  }

  /**
   * The result holds exactly the postings that are not discarded, each as
   * often as in the input: nothing is added, lost or duplicated.
   */
  lemma RankedPermutesKept(q: Query, jobs: seq<Job>)
    ensures multiset(Ranked(q, jobs)) == multiset(Kept(q, jobs))
  {
    BucketEntriesTagged(q, jobs, 1);
    BucketEntriesTagged(q, jobs, 2);
    BucketEntriesTagged(q, jobs, 3);
    BucketEntriesTagged(q, jobs, 4);
    SortBucketPermutes(BucketEntries(q, jobs, 1));
    SortBucketPermutes(BucketEntries(q, jobs, 2));
    SortBucketPermutes(BucketEntries(q, jobs, 3));
    SortBucketPermutes(BucketEntries(q, jobs, 4));
    KeptSplits(q, jobs);
  }

  lemma {:induction false} KeptMembers(q: Query, jobs: seq<Job>, j: Job)
    ensures j in Kept(q, jobs) <==> j in jobs && JobBucket(q, j) != 0
  {
    if jobs != [] {
      KeptMembers(q, jobs[1..], j);
      assert jobs == [jobs[0]] + jobs[1..];
    }
  }

  /** A posting with fewer than two signals in all is never listed. */
  lemma DiscardedNeverListed(q: Query, jobs: seq<Job>, j: Job)
    requires ExactCount(q.criteria, j) + FuzzCount(LocationScore(q, j), TitleScore(q, j)) < 2
    ensures j !in Ranked(q, jobs)
  {
    RankedPermutesKept(q, jobs);
    KeptMembers(q, jobs, j);
    assert j !in multiset(Kept(q, jobs));
  }

  /** A posting that matches industry, department and work type exactly is always listed. */
  lemma FullExactMatchListed(q: Query, jobs: seq<Job>, j: Job)
    requires j in jobs && ExactCount(q.criteria, j) == 3
    ensures j in Ranked(q, jobs)
  {
    RankedPermutesKept(q, jobs);
    KeptMembers(q, jobs, j);
    assert j in multiset(Kept(q, jobs));
  }

  /** Every bucket-1 posting (all five signals) is listed before every posting of another bucket. */
  lemma BestMatchesFirst(q: Query, jobs: seq<Job>, i: nat, k: nat)
    requires i < |Ranked(q, jobs)| && k < |Ranked(q, jobs)|
    requires JobBucket(q, Ranked(q, jobs)[i]) == 1 && JobBucket(q, Ranked(q, jobs)[k]) != 1
    ensures i < k
  {
    RankedOrdered(q, jobs);
  }

  /**
   * The search is rejected, with the fixed message, exactly when one of the
   * five fields is empty or whitespace only.
   */
  lemma SearchRejectsBlankField(raw: Criteria, jobs: seq<Job>, now: int, sim: Similarity)
    ensures Search(raw, jobs, now, sim).Incomplete? <==>
      AllSpace(raw.title) || AllSpace(raw.industry) || AllSpace(raw.department)
      || AllSpace(raw.workType) || AllSpace(raw.location)
    ensures Search(raw, jobs, now, sim).Incomplete? ==> Search(raw, jobs, now, sim).message == IncompleteMessage
  {
  }

  /**
   * The scan of `job_list`: one pass over the postings, appending each
   * `(recency_score, job)` pair to the bucket list its signals select.
   */
  method FillBuckets(c: Criteria, jobs: seq<Job>, now: int, sim: Similarity)
    returns (bucket1: seq<Entry>, bucket2: seq<Entry>, bucket3: seq<Entry>, bucket4: seq<Entry>)
    ensures bucket1 == BucketEntries(Query(c, now, sim), jobs, 1)
    ensures bucket2 == BucketEntries(Query(c, now, sim), jobs, 2)
    ensures bucket3 == BucketEntries(Query(c, now, sim), jobs, 3)
    ensures bucket4 == BucketEntries(Query(c, now, sim), jobs, 4)
  {
    ghost var q := Query(c, now, sim);
    bucket1, bucket2, bucket3, bucket4 := [], [], [], [];
    for i := 0 to |jobs|
      invariant bucket1 == BucketEntries(q, jobs[..i], 1)
      invariant bucket2 == BucketEntries(q, jobs[..i], 2)
      invariant bucket3 == BucketEntries(q, jobs[..i], 3)
      invariant bucket4 == BucketEntries(q, jobs[..i], 4)
    {
      var job := jobs[i];
      var exactCount := ExactCount(c, job);
      var locScore := sim(c.location, job.fullLocationAddress);
      var titleScore := sim(c.title, job.title);
      var fuzzCount := FuzzCount(locScore, titleScore);
      var recency := Recency(DaysOld(now, job.postedAt));

      assert Entry(recency, job) == EntryOf(q, job);
      assert BucketOf(exactCount, locScore, titleScore) == JobBucket(q, job);
      BucketRules(exactCount, locScore, titleScore);
      ScanStep(q, jobs, i);

      if exactCount == 3 && locScore >= LocationThreshold && titleScore >= TitleThreshold {
        bucket1 := bucket1 + [Entry(recency, job)];
      } else if exactCount == 3 && titleScore >= TitleThreshold {
        bucket2 := bucket2 + [Entry(recency, job)];
      } else if exactCount == 3 {
        bucket3 := bucket3 + [Entry(recency, job)];
      } else if exactCount + fuzzCount >= 2 {
        bucket4 := bucket4 + [Entry(recency, job)];
      }
      // else: fewer than two signals, the posting is discarded
    }
    assert jobs[..|jobs|] == jobs;
  }

  /**
   * `job_list` on a POST: trim the five fields and reject the search if one
   * is empty; otherwise scan the postings into the four buckets and
   * concatenate the buckets, each sorted by recency, in priority order.
   */
  method JobList(raw: Criteria, jobs: seq<Job>, now: int, sim: Similarity) returns (result: Outcome)
    ensures result == Search(raw, jobs, now, sim)
  {
    var c := Trimmed(raw);
    if !Complete(c) {
      return Incomplete(IncompleteMessage);
    }
    var bucket1, bucket2, bucket3, bucket4 := FillBuckets(c, jobs, now, sim);
    result := Found(SortBucket(bucket1) + SortBucket(bucket2) + SortBucket(bucket3) + SortBucket(bucket4));
  }
}
