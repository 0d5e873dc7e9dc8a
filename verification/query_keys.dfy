/** Query normalisation and the cache keys made of normalised queries. */
module QueryKeys {
  import opened Wrappers
  import opened CostTypes
  import opened Decimals

  const HOURLY := "HOURLY"
  const DAILY := "DAILY"
  const MONTHLY := "MONTHLY"
  const TAG_PREFIX := "TAG:"
  const SUMMARY_KEY := "summary"

  const MAX_HOURLY_DAYS := 14
  const MAX_DAILY_DAYS := 365
  const DEFAULT_DAILY_DAYS := 30
  const MIN_MONTHLY_DAYS := 30
  const MAX_MONTHLY_DAYS := 390

  function ValidGroupBys(): set<string> {
    {"SERVICE", "LINKED_ACCOUNT", "REGION", "USAGE_TYPE", "RESOURCE_ID"}
  }

  datatype Rejection = BadGranularity | TagNotAllowed(tag: string) | BadGroupBy

  function Clamp(v: int, min: int, max: int): int {
    if v < min then min else if v > max then max else v
  }

  predicate IsTag(groupBy: string) {
    TAG_PREFIX <= groupBy
  }

  function Normalize(q: Query, allowed: set<string>): Result<Query, Rejection> {
    if q.granularity !in {HOURLY, DAILY, MONTHLY} then Failure(BadGranularity)
    else if IsTag(q.groupBy) && q.groupBy[|TAG_PREFIX|..] !in allowed then
      Failure(TagNotAllowed(q.groupBy[|TAG_PREFIX|..]))
    else if !IsTag(q.groupBy) && q.groupBy !in ValidGroupBys() then Failure(BadGroupBy)
    else if q.granularity == HOURLY then Success(q.(days := Clamp(q.days, 1, MAX_HOURLY_DAYS)))
    else if q.granularity == DAILY then
      var d := Clamp(q.days, 1, MAX_DAILY_DAYS);
      Success(q.(days := if d == 1 then DEFAULT_DAILY_DAYS else d))
    else Success(q.(days := Clamp(q.days, MIN_MONTHLY_DAYS, MAX_MONTHLY_DAYS)))
  }

  /** A query as its caller holds it: normalisation rewrites its days in place. */
  class MutableQuery {
    const granularity: string
    const groupBy: string
    var days: int

    function Value(): Query
      reads this
    {
      Query(granularity, groupBy, days)
    }

    constructor (q: Query)
      ensures Value() == q
    {
      granularity, groupBy, days := q.granularity, q.groupBy, q.days;
    }

    /** A rejected query keeps its days. */
    method NormalizeInPlace(allowed: set<string>) returns (err: Option<Rejection>)
      modifies this`days
      ensures match Normalize(old(Value()), allowed)
        case Failure(e) => err == Some(e) && days == old(days)
        case Success(n) => err == None && Value() == n
    {
      if granularity != HOURLY && granularity != DAILY && granularity != MONTHLY {
        return Some(BadGranularity);
      }
      if IsTag(groupBy) {
        var tag := groupBy[|TAG_PREFIX|..];
        if tag !in allowed {
          return Some(TagNotAllowed(tag));
        }
      } else if groupBy !in ValidGroupBys() {
        return Some(BadGroupBy);
      }
      if granularity == HOURLY {
        days := Clamp(days, 1, MAX_HOURLY_DAYS);
      } else if granularity == DAILY {
        days := Clamp(days, 1, MAX_DAILY_DAYS);
        if days == 1 {
          days := DEFAULT_DAILY_DAYS;
        }
      } else {
        days := Clamp(days, MIN_MONTHLY_DAYS, MAX_MONTHLY_DAYS);
      }
      return None;
    }
  }

  // ----- decimal days -----

  function Decimal(n: int): string {
    if n < 0 then "-" + Digits(-n) else Digits(n)
  }

  lemma DecimalSign(n: int)
    ensures Decimal(n) != [] && (Decimal(n)[0] == '-' <==> n < 0)
  {
  }

  lemma DigitsInjective(a: nat, b: nat)
    requires Digits(a) == Digits(b)
    ensures a == b
  {
    DigitsReadBack(a);
    DigitsReadBack(b);
  }

  lemma SamePrefix<T>(p: seq<T>, x: seq<T>, y: seq<T>)
    requires p + x == p + y
    ensures x == y
  {
    assert (p + x)[|p|..] == x && (p + y)[|p|..] == y;
  }

  lemma NegativeInjective(a: int, b: int)
    requires a < 0 && b < 0 && Decimal(a) == Decimal(b)
    ensures a == b
  {
    SamePrefix("-", Digits(-a), Digits(-b));
    DigitsInjective(-a, -b);
  }

  lemma DecimalInjective(a: int, b: int)
    requires Decimal(a) == Decimal(b)
    ensures a == b
  {
    DecimalSign(a);
    DecimalSign(b);
    if a < 0 {
      NegativeInjective(a, b);
    } else {
      DigitsInjective(a, b);
    }
  }

  // ----- keys -----

  function CostsKey(q: Query): string {
    "costs" + "|" + q.granularity + "|" + q.groupBy + "|" + Decimal(q.days)
  }

  /** In a text split by a separator its left part lacks, the separator first stands right after that part. */
  lemma FirstSeparator(a: string, x: string, sep: char)
    requires sep !in a
    ensures var s := a + [sep] + x;
      s[|a|] == sep && (forall i :: 0 <= i < |a| ==> s[i] != sep) && s[..|a|] == a && s[|a| + 1..] == x
  {
  }

  lemma LastSeparator(x: string, a: string, sep: char)
    requires sep !in a
    ensures var s := x + [sep] + a;
      s[|x|] == sep && (forall i :: |x| < i < |s| ==> s[i] != sep) && s[..|x|] == x && s[|x| + 1..] == a
  {
    var s := x + [sep] + a;
    assert forall i :: |x| < i < |s| ==> s[i] == a[i - |x| - 1];
  }

  lemma SplitAtFirst(a: string, x: string, b: string, y: string, sep: char)
    requires sep !in a && sep !in b
    requires a + [sep] + x == b + [sep] + y
    ensures a == b && x == y
  {
    FirstSeparator(a, x, sep);
    FirstSeparator(b, y, sep);
    assert |a| == |b|;
  }

  lemma SplitAtLast(x: string, a: string, y: string, b: string, sep: char)
    requires sep !in a && sep !in b
    requires x + [sep] + a == y + [sep] + b
    ensures x == y && a == b
  {
    LastSeparator(x, a, sep);
    LastSeparator(y, b, sep);
    assert |x| == |y|;
  }

  lemma NoBarInDecimal(n: int)
    ensures '|' !in Decimal(n)
  {
  }

  lemma Regroup(a: string, b: string, c: string, d: string, sep: string)
    ensures a + sep + b + sep + c + sep + d == a + sep + (b + sep + (c + sep + d))
  {
    var t := c + sep + d;
    assert a + sep + b + sep + c + sep + d == a + sep + b + sep + t;
    assert a + sep + b + sep + t == a + sep + (b + sep + t);
  }

  /** What a key holds after its prefix, and after its granularity. */
  function KeyBody(q: Query): string {
    q.granularity + "|" + KeyTail(q)
  }

  function KeyTail(q: Query): string {
    q.groupBy + "|" + Decimal(q.days)
  }

  lemma SameBody(p: Query, q: Query)
    requires CostsKey(p) == CostsKey(q)
    ensures KeyBody(p) == KeyBody(q)
  {
    Regroup("costs", p.granularity, p.groupBy, Decimal(p.days), "|");
    Regroup("costs", q.granularity, q.groupBy, Decimal(q.days), "|");
    SamePrefix("costs" + "|", KeyBody(p), KeyBody(q));
  }

  /** Keys tell queries apart whatever bars their tags hold, as long as the granularity has none. */
  lemma CostsKeyInjective(p: Query, q: Query)
    requires '|' !in p.granularity && '|' !in q.granularity
    requires CostsKey(p) == CostsKey(q)
    ensures p == q
  {
    SameBody(p, q);
    SplitAtFirst(p.granularity, KeyTail(p), q.granularity, KeyTail(q), '|');
    NoBarInDecimal(p.days);
    NoBarInDecimal(q.days);
    SplitAtLast(p.groupBy, Decimal(p.days), q.groupBy, Decimal(q.days), '|');
    DecimalInjective(p.days, q.days);
  }

  lemma CostsKeyIsNotSummary(q: Query)
    ensures CostsKey(q) != SUMMARY_KEY && CostsKey(q) != ""
  {
    assert CostsKey(q)[0] == 'c';
  }

  predicate IsNormal(q: Query, allowed: set<string>) {
    && (IsTag(q.groupBy) ==> q.groupBy[|TAG_PREFIX|..] in allowed)
    && (!IsTag(q.groupBy) ==> q.groupBy in ValidGroupBys())
    && (|| (q.granularity == HOURLY && 1 <= q.days <= MAX_HOURLY_DAYS)
        || (q.granularity == DAILY && 2 <= q.days <= MAX_DAILY_DAYS)
        || (q.granularity == MONTHLY && MIN_MONTHLY_DAYS <= q.days <= MAX_MONTHLY_DAYS))
  }

  /** Normalisation lands on normal queries, and leaves exactly those as they are. */
  lemma NormalizeReachesNormal(q: Query, allowed: set<string>)
    ensures Normalize(q, allowed).Success? ==>
      var n := Normalize(q, allowed).value;
      IsNormal(n, allowed) && n.granularity == q.granularity && n.groupBy == q.groupBy
    ensures IsNormal(q, allowed) <==> Normalize(q, allowed) == Success(q)
  {
  }

  predicate IsGranularity(g: string) {
    g == HOURLY || g == DAILY || g == MONTHLY
  }

  /**
   * What is rejected, and why: an unknown granularity before all else, then a grouping by a tag
   * that is not allowed, then a grouping that is neither a tag nor one of the dimensions. All
   * other queries pass, whatever their days.
   */
  lemma NormalizeRejectsIff(q: Query, allowed: set<string>)
    ensures Normalize(q, allowed) == Failure(BadGranularity) <==> !IsGranularity(q.granularity)
    ensures forall tag :: Normalize(q, allowed) == Failure(TagNotAllowed(tag)) <==>
      IsGranularity(q.granularity) && q.groupBy == TAG_PREFIX + tag && tag !in allowed
    ensures Normalize(q, allowed) == Failure(BadGroupBy) <==>
      IsGranularity(q.granularity) && !IsTag(q.groupBy) && q.groupBy !in GroupBys(allowed)
    ensures Normalize(q, allowed).Success? <==> IsGranularity(q.granularity) && q.groupBy in GroupBys(allowed)
  {
    GroupBysExact(allowed, q.groupBy);
    if IsTag(q.groupBy) {
      assert q.groupBy == TAG_PREFIX + q.groupBy[|TAG_PREFIX|..];
    }
    forall tag | q.groupBy == TAG_PREFIX + tag
      ensures IsTag(q.groupBy) && q.groupBy[|TAG_PREFIX|..] == tag
    {
    }
  }

  /** The days a normalised query asks for: 1 to 14 by the hour. */
  lemma HourlyDays(q: Query, allowed: set<string>)
    requires q.granularity == "HOURLY" && Normalize(q, allowed).Success?
    ensures var d := Normalize(q, allowed).value.days;
      d == if q.days < 1 then 1 else if q.days > 14 then 14 else q.days
  {
  }

  /** By the day 2 to 365, and anything up to 1, an absent number of days among it, means 30. */
  lemma DailyDays(q: Query, allowed: set<string>)
    requires q.granularity == "DAILY" && Normalize(q, allowed).Success?
    ensures var d := Normalize(q, allowed).value.days;
      d == if q.days <= 1 then 30 else if q.days > 365 then 365 else q.days
  {
  }

  /** By the month 30 to 390. */
  lemma MonthlyDays(q: Query, allowed: set<string>)
    requires q.granularity == "MONTHLY" && Normalize(q, allowed).Success?
    ensures var d := Normalize(q, allowed).value.days;
      d == if q.days < 30 then 30 else if q.days > 390 then 390 else q.days
  {
  }

  /** What passes, spelled out. */
  lemma PassesExactly(q: Query, allowed: set<string>)
    ensures Normalize(q, allowed).Success? <==>
      && (q.granularity == "HOURLY" || q.granularity == "DAILY" || q.granularity == "MONTHLY")
      && (|| q.groupBy in {"SERVICE", "LINKED_ACCOUNT", "REGION", "USAGE_TYPE", "RESOURCE_ID"}
          || exists tag :: tag in allowed && q.groupBy == "TAG:" + tag)
    ensures Normalize(q, allowed).Success? ==>
      Normalize(q, allowed).value.granularity == q.granularity && Normalize(q, allowed).value.groupBy == q.groupBy
  {
    NormalizeRejectsIff(q, allowed);
    GroupBysExact(allowed, q.groupBy);
    if IsTag(q.groupBy) {
      assert q.groupBy == "TAG:" + q.groupBy[|TAG_PREFIX|..];
    }
    forall tag | q.groupBy == "TAG:" + tag
      ensures IsTag(q.groupBy) && q.groupBy[|TAG_PREFIX|..] == tag
    {
    }
  }

  /** A key as it is written. */
  lemma KeyExample()
    ensures CostsKey(Query("DAILY", "SERVICE", 30)) == "costs|DAILY|SERVICE|30"
  {
    assert Digits(3) == "3";
    assert Digits(30) == "30";
  }

  /** Two queries that pass normalisation share a key iff they normalise to the same query. */
  lemma KeysTellNormalQueriesApart(p: Query, q: Query, allowed: set<string>)
    requires IsNormal(p, allowed) && IsNormal(q, allowed)
    ensures CostsKey(p) == CostsKey(q) <==> p == q
  {
    if CostsKey(p) == CostsKey(q) {
      CostsKeyInjective(p, q);
    }
  }

  // ----- how many keys there are -----

  predicate Between(lo: int, d: int, hi: int) {
    lo <= d <= hi
  }

  ghost function Range(lo: int, hi: int): set<int> {
    set d: int | lo <= d <= hi && Between(lo, d, hi)
  }

  ghost function Tagged(tags: set<string>): set<string> {
    set t | t in tags :: TAG_PREFIX + t
  }

  lemma TagInjective(t: string, u: string)
    requires TAG_PREFIX + t == TAG_PREFIX + u
    ensures t == u
  {
    assert (TAG_PREFIX + t)[|TAG_PREFIX|..] == t && (TAG_PREFIX + u)[|TAG_PREFIX|..] == u;
  }

  lemma {:induction false} TaggedCount(tags: set<string>)
    ensures |Tagged(tags)| == |tags|
    decreases |tags|
  {
    if tags != {} {
      var t :| t in tags;
      TaggedCount(tags - {t});
      assert Tagged(tags) == Tagged(tags - {t}) + {TAG_PREFIX + t};
      forall u | u in tags - {t}
        ensures TAG_PREFIX + u != TAG_PREFIX + t
      {
        if TAG_PREFIX + u == TAG_PREFIX + t {
          TagInjective(t, u);
        }
      }
    }
  }

  ghost function GroupBys(allowed: set<string>): set<string> {
    ValidGroupBys() + Tagged(allowed)
  }

  lemma TaggedAreTags(tags: set<string>, g: string)
    ensures g in Tagged(tags) <==> IsTag(g) && g[|TAG_PREFIX|..] in tags
  {
    if g in Tagged(tags) {
      var t :| t in tags && g == TAG_PREFIX + t;
      assert g[|TAG_PREFIX|..] == t;
    }
    if IsTag(g) {
      assert g == TAG_PREFIX + g[|TAG_PREFIX|..];
    }
  }

  lemma DimensionsAreNotTags(g: string)
    requires g in ValidGroupBys()
    ensures !IsTag(g)
  {
    assert TAG_PREFIX[0] == 'T';
    assert g[0] != 'T';
  }

  lemma DimensionsCount()
    ensures |ValidGroupBys()| == 5
  {
    assert |"SERVICE"| == 7 && |"LINKED_ACCOUNT"| == 14 && |"REGION"| == 6
        && |"USAGE_TYPE"| == 10 && |"RESOURCE_ID"| == 11;
  }

  lemma GroupBysExact(allowed: set<string>, g: string)
    ensures g in GroupBys(allowed) <==> if IsTag(g) then g[|TAG_PREFIX|..] in allowed else g in ValidGroupBys()
  {
    TaggedAreTags(allowed, g);
    if g in ValidGroupBys() {
      DimensionsAreNotTags(g);
    }
  }

  lemma GroupBysCount(allowed: set<string>)
    ensures |GroupBys(allowed)| == 5 + |allowed|
  {
    TaggedCount(allowed);
    DimensionsCount();
    forall g | g in ValidGroupBys()
      ensures g !in Tagged(allowed)
    {
      TaggedAreTags(allowed, g);
      DimensionsAreNotTags(g);
    }
    DisjointCount(ValidGroupBys(), Tagged(allowed));
  }

  lemma DisjointCount<T>(a: set<T>, b: set<T>)
    requires a !! b
    ensures |a + b| == |a| + |b|
  {
  }

  /** The keys of all queries with one granularity, the given groupings and one of the given days. */
  ghost function KeysFor(granularity: string, groups: set<string>, days: set<int>): set<string> {
    set g, d | g in groups && d in days :: CostsKey(Query(granularity, g, d))
  }

  lemma {:induction false} KeysForOneDay(granularity: string, groups: set<string>, d: int)
    requires '|' !in granularity
    ensures |KeysFor(granularity, groups, {d})| == |groups|
    decreases |groups|
  {
    if groups == {} {
      assert KeysFor(granularity, groups, {d}) == {};
    } else {
      var g :| g in groups;
      var k := CostsKey(Query(granularity, g, d));
      KeysForOneDay(granularity, groups - {g}, d);
      assert KeysFor(granularity, groups, {d}) == KeysFor(granularity, groups - {g}, {d}) + {k};
      forall h | h in groups - {g}
        ensures CostsKey(Query(granularity, h, d)) != k
      {
        SameKeySameQuery(Query(granularity, h, d), Query(granularity, g, d));
      }
    }
  }

  lemma SameKeySameQuery(p: Query, q: Query)
    requires '|' !in p.granularity && '|' !in q.granularity
    ensures CostsKey(p) == CostsKey(q) ==> p == q
  {
    if CostsKey(p) == CostsKey(q) {
      CostsKeyInjective(p, q);
    }
  }

  lemma OtherDaysOtherKeys(granularity: string, groups: set<string>, days: set<int>, days': set<int>)
    requires '|' !in granularity && days !! days'
    ensures KeysFor(granularity, groups, days) !! KeysFor(granularity, groups, days')
  {
    forall g, d, h, e | g in groups && d in days && h in groups && e in days'
      ensures CostsKey(Query(granularity, g, d)) != CostsKey(Query(granularity, h, e))
    {
      SameKeySameQuery(Query(granularity, g, d), Query(granularity, h, e));
    }
  }

  lemma KeysForUnion(granularity: string, groups: set<string>, days: set<int>, days': set<int>)
    requires '|' !in granularity && days !! days'
    ensures |KeysFor(granularity, groups, days + days')|
         == |KeysFor(granularity, groups, days)| + |KeysFor(granularity, groups, days')|
  {
    OtherDaysOtherKeys(granularity, groups, days, days');
    DisjointCount(KeysFor(granularity, groups, days), KeysFor(granularity, groups, days'));
    assert KeysFor(granularity, groups, days + days')
        == KeysFor(granularity, groups, days) + KeysFor(granularity, groups, days');
  }

  lemma {:induction false} KeysForCount(granularity: string, groups: set<string>, lo: int, n: nat)
    requires '|' !in granularity
    ensures |KeysFor(granularity, groups, Range(lo, lo + n - 1))| == |groups| * n
  {
    if n == 0 {
      assert Range(lo, lo - 1) == {};
      assert KeysFor(granularity, groups, {}) == {};
    } else {
      var last := lo + n - 1;
      KeysForCount(granularity, groups, lo, n - 1);
      KeysForOneDay(granularity, groups, last);
      assert Range(lo, last) == Range(lo, last - 1) + {last};
      KeysForUnion(granularity, groups, Range(lo, last - 1), {last});
      MultiplyOneMore(|groups|, n - 1);
    }
  }

  lemma MultiplyOneMore(n: nat, k: int)
    ensures n * k + n == n * (k + 1)
  {
  }

  ghost function HourlyKeys(allowed: set<string>): set<string> {
    KeysFor(HOURLY, GroupBys(allowed), Range(1, MAX_HOURLY_DAYS))
  }

  ghost function DailyKeys(allowed: set<string>): set<string> {
    KeysFor(DAILY, GroupBys(allowed), Range(2, MAX_DAILY_DAYS))
  }

  ghost function MonthlyKeys(allowed: set<string>): set<string> {
    KeysFor(MONTHLY, GroupBys(allowed), Range(MIN_MONTHLY_DAYS, MAX_MONTHLY_DAYS))
  }

  ghost function CostsKeys(allowed: set<string>): set<string> {
    HourlyKeys(allowed) + DailyKeys(allowed) + MonthlyKeys(allowed)
  }

  /** Every key the service can ever use. */
  ghost function AllKeys(allowed: set<string>): set<string> {
    CostsKeys(allowed) + {SUMMARY_KEY}
  }

  lemma NormalKeyIsAKey(q: Query, allowed: set<string>)
    requires IsNormal(q, allowed)
    ensures CostsKey(q) in AllKeys(allowed)
  {
    GroupBysExact(allowed, q.groupBy);
    assert q == Query(q.granularity, q.groupBy, q.days);
    assert q.granularity == HOURLY ==> Between(1, q.days, MAX_HOURLY_DAYS) && q.days in Range(1, MAX_HOURLY_DAYS);
    assert q.granularity == DAILY ==> q.days in Range(2, MAX_DAILY_DAYS);
    assert q.granularity == MONTHLY ==> q.days in Range(MIN_MONTHLY_DAYS, MAX_MONTHLY_DAYS);
  }

  lemma GrainsApart(a: string, b: string, groups: set<string>, days: set<int>, days': set<int>)
    requires '|' !in a && '|' !in b && a != b
    ensures KeysFor(a, groups, days) !! KeysFor(b, groups, days')
  {
    forall g, d, h, e | g in groups && d in days && h in groups && e in days'
      ensures CostsKey(Query(a, g, d)) != CostsKey(Query(b, h, e))
    {
      SameKeySameQuery(Query(a, g, d), Query(b, h, e));
    }
  }

  lemma KeysAreCostsKeys(k: string, granularity: string, groups: set<string>, days: set<int>)
    ensures k in KeysFor(granularity, groups, days) ==> k != "" && k != SUMMARY_KEY
  {
    if k in KeysFor(granularity, groups, days) {
      var g, d :| g in groups && d in days && k == CostsKey(Query(granularity, g, d));
      CostsKeyIsNotSummary(Query(granularity, g, d));
    }
  }

  lemma KeysForSpan(granularity: string, groups: set<string>, lo: int, hi: int, n: nat)
    requires '|' !in granularity && n == hi - lo + 1
    ensures |KeysFor(granularity, groups, Range(lo, hi))| == |groups| * n
  {
    KeysForCount(granularity, groups, lo, n);
    assert lo + n - 1 == hi;
  }

  /** Keys of three granularities are disjoint, so they can be counted apart. */
  lemma ThreeGrains(a: string, b: string, c: string, groups: set<string>, x: set<int>, y: set<int>, z: set<int>)
    requires '|' !in a && '|' !in b && '|' !in c && a != b && a != c && b != c
    ensures |KeysFor(a, groups, x) + KeysFor(b, groups, y) + KeysFor(c, groups, z)|
         == |KeysFor(a, groups, x)| + |KeysFor(b, groups, y)| + |KeysFor(c, groups, z)|
  {
    GrainsApart(a, b, groups, x, y);
    GrainsApart(a, c, groups, x, z);
    GrainsApart(b, c, groups, y, z);
    DisjointCount(KeysFor(a, groups, x), KeysFor(b, groups, y));
    DisjointCount(KeysFor(a, groups, x) + KeysFor(b, groups, y), KeysFor(c, groups, z));
  }

  lemma CostsKeysAreNot(k: string, allowed: set<string>)
    requires k in CostsKeys(allowed)
    ensures k != "" && k != SUMMARY_KEY
  {
    var groups := GroupBys(allowed);
    KeysAreCostsKeys(k, HOURLY, groups, Range(1, MAX_HOURLY_DAYS));
    KeysAreCostsKeys(k, DAILY, groups, Range(2, MAX_DAILY_DAYS));
    KeysAreCostsKeys(k, MONTHLY, groups, Range(MIN_MONTHLY_DAYS, MAX_MONTHLY_DAYS));
  }

  lemma GranularitiesDiffer()
    ensures '|' !in HOURLY && '|' !in DAILY && '|' !in MONTHLY
    ensures HOURLY != DAILY && HOURLY != MONTHLY && DAILY != MONTHLY
  {
    assert HOURLY[0] == 'H' && DAILY[0] == 'D' && MONTHLY[0] == 'M';
  }

  lemma HourlyCount(allowed: set<string>)
    ensures |HourlyKeys(allowed)| == |GroupBys(allowed)| * 14
  {
    GranularitiesDiffer();
    KeysForSpan(HOURLY, GroupBys(allowed), 1, MAX_HOURLY_DAYS, 14);
  }

  lemma DailyCount(allowed: set<string>)
    ensures |DailyKeys(allowed)| == |GroupBys(allowed)| * 364
  {
    GranularitiesDiffer();
    KeysForSpan(DAILY, GroupBys(allowed), 2, MAX_DAILY_DAYS, 364);
  }

  lemma MonthlyCount(allowed: set<string>)
    ensures |MonthlyKeys(allowed)| == |GroupBys(allowed)| * 361
  {
    GranularitiesDiffer();
    KeysForSpan(MONTHLY, GroupBys(allowed), MIN_MONTHLY_DAYS, MAX_MONTHLY_DAYS, 361);
  }

  lemma CostsKeysCount(allowed: set<string>)
    ensures |CostsKeys(allowed)| == 739 * |GroupBys(allowed)|
  {
    HourlyCount(allowed);
    DailyCount(allowed);
    MonthlyCount(allowed);
    GranularitiesDiffer();
    ThreeGrains(HOURLY, DAILY, MONTHLY, GroupBys(allowed), Range(1, MAX_HOURLY_DAYS), Range(2, MAX_DAILY_DAYS),
                Range(MIN_MONTHLY_DAYS, MAX_MONTHLY_DAYS));
  }

  lemma CostsKeysArePlain(allowed: set<string>)
    ensures SUMMARY_KEY !in CostsKeys(allowed) && "" !in CostsKeys(allowed)
  {
    forall k | k in CostsKeys(allowed)
      ensures k != "" && k != SUMMARY_KEY
    {
      CostsKeysAreNot(k, allowed);
    }
  }

  /** A key that some caller of the service can use. */
  ghost predicate IsServiceKey(k: string, allowed: set<string>) {
    k == SUMMARY_KEY || exists q :: Normalize(q, allowed) == Success(q) && CostsKey(q) == k
  }

  lemma KeyHasQuery(k: string, granularity: string, days: set<int>, allowed: set<string>) returns (q: Query)
    requires k in KeysFor(granularity, GroupBys(allowed), days)
    ensures q.granularity == granularity && q.groupBy in GroupBys(allowed) && q.days in days && CostsKey(q) == k
  {
    var g, d :| g in GroupBys(allowed) && d in days && k == CostsKey(Query(granularity, g, d));
    q := Query(granularity, g, d);
  }

  lemma CountedKeyIsUsed(k: string, allowed: set<string>)
    requires k in CostsKeys(allowed)
    ensures IsServiceKey(k, allowed)
  {
    var q;
    if k in HourlyKeys(allowed) {
      q := KeyHasQuery(k, HOURLY, Range(1, MAX_HOURLY_DAYS), allowed);
    } else if k in DailyKeys(allowed) {
      q := KeyHasQuery(k, DAILY, Range(2, MAX_DAILY_DAYS), allowed);
    } else {
      q := KeyHasQuery(k, MONTHLY, Range(MIN_MONTHLY_DAYS, MAX_MONTHLY_DAYS), allowed);
    }
    GroupBysExact(allowed, q.groupBy);
    NormalizeReachesNormal(q, allowed);
  }

  /** The key space holds exactly the keys that callers can use. */
  lemma KeySpaceIsExact(k: string, allowed: set<string>)
    ensures k in AllKeys(allowed) <==> IsServiceKey(k, allowed)
  {
    if k in CostsKeys(allowed) {
      CountedKeyIsUsed(k, allowed);
    }
    if IsServiceKey(k, allowed) && k != SUMMARY_KEY {
      var q :| Normalize(q, allowed) == Success(q) && CostsKey(q) == k;
      NormalizeReachesNormal(q, allowed);
      NormalKeyIsAKey(q, allowed);
    }
  }

  /** With T allowed tags the service has exactly 739 * (5 + T) + 1 cache keys: none empty, and all of them usable. */
  lemma KeySpace(allowed: set<string>)
    ensures |AllKeys(allowed)| == 739 * (5 + |allowed|) + 1
    ensures "" !in AllKeys(allowed)
    ensures forall k :: k in AllKeys(allowed) <==> IsServiceKey(k, allowed)
  {
    GroupBysCount(allowed);
    CostsKeysCount(allowed);
    CostsKeysArePlain(allowed);
    DisjointCount(CostsKeys(allowed), {SUMMARY_KEY});
    forall k
      ensures k in AllKeys(allowed) <==> IsServiceKey(k, allowed)
    {
      KeySpaceIsExact(k, allowed);
    }
  }
}
