/**
 Retention: which complete backups a pass keeps, and why running passes one at a
 time over a growing history ends where one pass over the whole history would.

 Within one database folder a complete backup is identified by its second, so
 the theory is about sets of seconds.  The daily and the weekly series are one
 notion: the newest second of each of the n largest classes of a monotone key.
 */
module Retention {
  import opened Records

  const DAY := 86400

  /** UTC day and ISO 8601 (Monday first) week; day 0 was a Thursday. */
  function Day(t: int): int { t / DAY }
  function Week(t: int): int { (Day(t) + 3) / 7 }

  /** A retention count below zero keeps nothing, like zero. */
  function Slots(n: int): nat { if n < 0 then 0 else n }

  lemma {:induction false} HasMax(s: set<int>)
    requires s != {}
    ensures exists m :: m in s && forall x | x in s :: x <= m
    decreases |s|
  {
    var x := Pick(s);
    if s != {x} {
      HasMax(s - {x});
      var m :| m in s - {x} && forall y | y in s - {x} :: y <= m;
      assert forall y | y in s :: y == x || y in s - {x};
      assert m in s && (x <= m || forall y | y in s :: y <= x);
    }
  }

  ghost function Max(s: set<int>): (m: int)
    requires s != {}
    ensures m in s && forall x | x in s :: x <= m
  {
    HasMax(s);
    var m :| m in s && forall x | x in s :: x <= m;
    m
  }

  /** The n largest members of s. */
  ghost function Top(s: set<int>, n: nat): set<int>
    decreases n
  {
    if n == 0 || s == {} then {} else {Max(s)} + Top(s - {Max(s)}, n - 1)
  }

  ghost predicate Monotone(key: int -> int) { forall x, y | x <= y :: key(x) <= key(y) }

  ghost function Image(s: set<int>, key: int -> int): set<int> { set t | t in s :: key(t) }

  /** The newest member of each of the n largest classes of key. */
  ghost function Series(s: set<int>, key: int -> int, n: nat): set<int> {
    set t | t in s && key(t) in Top(Image(s, key), n) && NewestOfClass(s, key, t)
  }

  /** The members outside the n largest classes. */
  ghost function Rest(s: set<int>, key: int -> int, n: nat): set<int> {
    set t | t in s && key(t) !in Top(Image(s, key), n)
  }

  ghost predicate NewestOfClass(s: set<int>, key: int -> int, t: int) {
    forall u | u in s && t < u :: key(u) != key(t)
  }

  // ----- what the policy keeps, stated without the loop -----

  /** The backups on days older than the most recent `daily` days that have one. */
  ghost function Older(s: set<int>, p: Policy): set<int> { Rest(s, Day, Slots(p.daily)) }

  ghost function Daily(s: set<int>, p: Policy): set<int> { Series(s, Day, Slots(p.daily)) }
  ghost function Weekly(s: set<int>, p: Policy): set<int> { Series(Older(s, p), Week, Slots(p.weekly)) }

  /** The newest of all, everything from the last day, and the two series. */
  ghost function Keep(s: set<int>, p: Policy, now: int): set<int> {
    (if s == {} then {} else {Max(s)}) + Recent(s, now) + Daily(s, p) + Weekly(s, p)
  }

  ghost function Recent(s: set<int>, now: int): set<int> { set t | t in s && now - DAY < t }

  // ----- the n largest members -----

  lemma {:induction false} TopIsSubset(s: set<int>, n: nat)
    ensures Top(s, n) <= s
    decreases n
  {
    if n != 0 && s != {} { TopIsSubset(s - {Max(s)}, n - 1); }
  }

  /** Top counts: it is the members with fewer than n larger ones. */
  lemma {:induction false} TopCounts(s: set<int>, n: nat, x: int)
    ensures x in Top(s, n) <==> x in s && |set y | y in s && x < y| < n
    decreases n
  {
    var above := set y | y in s && x < y;
    if n == 0 || s == {} { return; }
    var m := Max(s);
    if x == m {
      assert above == {};
    } else {
      var rest := set y | y in s - {m} && x < y;
      TopCounts(s - {m}, n - 1, x);
      if x in s { assert above == rest + {m}; }
    }
  }

  /** Removing members outside the top leaves the top alone. */
  lemma {:induction false} TopSandwich(s: set<int>, n: nat, u: set<int>)
    requires Top(s, n) <= u <= s
    ensures Top(u, n) == Top(s, n)
    decreases n
  {
    if n != 0 && s != {} {
      var m := Max(s);
      assert Max(u) == m;
      TopIsSubset(s - {m}, n - 1);
      TopSandwich(s - {m}, n - 1, u - {m});
    }
  }

  /** A member that is in the top of more is in the top of fewer. */
  lemma TopShrinks(s: set<int>, n: nat, u: set<int>, x: int)
    requires u <= s && x in u && x in Top(s, n)
    ensures x in Top(u, n)
  {
    TopCounts(s, n, x);
    TopCounts(u, n, x);
    var inU := set y | y in u && x < y;
    var inS := set y | y in s && x < y;
    assert inS == inU + (inS - inU);
  }

  lemma {:induction false} TopSize(s: set<int>, n: nat)
    ensures |Top(s, n)| == if |s| < n then |s| else n
    decreases n
  {
    if n != 0 && s != {} {
      TopIsSubset(s - {Max(s)}, n - 1);
      TopSize(s - {Max(s)}, n - 1);
    }
  }

  /** While the top has room it is everything. */
  lemma TopFull(s: set<int>, n: nat)
    requires |s| <= n
    ensures Top(s, n) == s
  {
    TopIsSubset(s, n);
    TopSize(s, n);
    assert s == Top(s, n) + (s - Top(s, n));
  }

  /** A member no larger than the rest enters the top exactly while there is room. */
  lemma TopWithNewMin(s: set<int>, n: nat, x: int)
    requires forall y | y in s :: x <= y
    ensures Top(s + {x}, n) == if |Top(s, n)| < n then Top(s, n) + {x} else Top(s, n)
  {
    var more := s + {x};
    TopSize(s, n);
    TopIsSubset(s, n);
    TopIsSubset(more, n);
    forall y | y in more ensures y in Top(more, n) <==> if y == x then |s - {x}| < n else y in Top(s, n) {
      TopCounts(more, n, y);
      TopCounts(s, n, y);
      if y == x {
        assert (set z | z in more && y < z) == s - {x};
      } else {
        assert (set z | z in more && y < z) == (set z | z in s && y < z);
      }
    }
    if x in s {
      assert more == s && |s - {x}| == |s| - 1;
      if |s| == n { TopFull(s, n); }
    } else {
      assert s - {x} == s;
    }
  }

  // ----- series -----

  lemma NewestExists(s: set<int>, key: int -> int, c: int) returns (t: int)
    requires c in Image(s, key)
    ensures t in s && key(t) == c && NewestOfClass(s, key, t)
  {
    var same := set x | x in s && key(x) == c;
    var w :| w in s && key(w) == c;
    assert w in same;
    t := Max(same);
    forall u | u in s && t < u ensures key(u) != key(t) {
      assert key(u) == c ==> u in same;
    }
  }

  /** A subset that holds the series of s has the same top classes and the same series. */
  lemma SeriesSandwich(s: set<int>, u: set<int>, key: int -> int, n: nat)
    requires Series(s, key, n) <= u <= s
    ensures Top(Image(u, key), n) == Top(Image(s, key), n)
    ensures Series(u, key, n) == Series(s, key, n)
  {
    TopIsSubset(Image(s, key), n);
    forall c | c in Top(Image(s, key), n) ensures c in Image(u, key) {
      var t := NewestExists(s, key, c);
      assert t in Series(s, key, n);
    }
    TopSandwich(Image(s, key), n, Image(u, key));
    forall x | x in Series(u, key, n) ensures x in Series(s, key, n) {
      var t := NewestExists(s, key, key(x));
      assert t in Series(s, key, n);
    }
  }

  lemma SeriesShrinks(s: set<int>, u: set<int>, key: int -> int, n: nat, x: int)
    requires u <= s && x in u && x in Series(s, key, n)
    ensures x in Series(u, key, n)
  {
    assert key(x) in Image(u, key);
    assert Image(u, key) <= Image(s, key);
    TopShrinks(Image(s, key), n, Image(u, key), key(x));
  }

  /** There is a slot left and x opens a new class: x joins the series. */
  ghost predicate Joins(s: set<int>, x: int, key: int -> int, n: nat) {
    |Top(Image(s, key), n)| < n && key(x) !in Top(Image(s, key), n)
  }

  /** No slot is left and x belongs to no chosen class: x is left to the next series. */
  ghost predicate Passed(s: set<int>, x: int, key: int -> int, n: nat) {
    |Top(Image(s, key), n)| >= n && key(x) !in Top(Image(s, key), n)
  }

  lemma TopWithOlder(s: set<int>, x: int, key: int -> int, n: nat)
    requires Monotone(key) && forall y | y in s :: x < y
    ensures Top(Image(s + {x}, key), n) == Top(Image(s, key), n) + (if Joins(s, x, key, n) then {key(x)} else {})
    ensures |Top(Image(s, key), n)| < n ==> Top(Image(s, key), n) == Image(s, key)
  {
    assert Image(s + {x}, key) == Image(s, key) + {key(x)};
    forall c | c in Image(s, key) ensures key(x) <= c {}
    TopSize(Image(s, key), n);
    if |Top(Image(s, key), n)| < n { TopFull(Image(s, key), n); }
    TopWithNewMin(Image(s, key), n, key(x));
  }

  /** An older member joins the series exactly when the loop's test says so, and
      nothing already in the series leaves it. */
  lemma SeriesWithOlder(s: set<int>, x: int, key: int -> int, n: nat)
    requires Monotone(key) && forall y | y in s :: x < y
    ensures Series(s + {x}, key, n) == Series(s, key, n) + (if Joins(s, x, key, n) then {x} else {})
  {
    NewestJoins(s, x, key, n);
    TopWithOlder(s, x, key, n);
    forall t | t in s ensures t in Series(s + {x}, key, n) <==> t in Series(s, key, n) {
      assert key(t) in Image(s, key);
      assert NewestOfClass(s + {x}, key, t) <==> NewestOfClass(s, key, t);
    }
  }

  lemma NewestJoins(s: set<int>, x: int, key: int -> int, n: nat)
    requires Monotone(key) && forall y | y in s :: x < y
    ensures x in Series(s + {x}, key, n) <==> Joins(s, x, key, n)
  {
    TopWithOlder(s, x, key, n);
    TopIsSubset(Image(s, key), n);
    if key(x) in Top(Image(s, key), n) {
      var t := NewestExists(s, key, key(x));
      assert !NewestOfClass(s + {x}, key, x);
    } else if Joins(s, x, key, n) {
      forall u | u in s + {x} && x < u ensures key(u) != key(x) { assert key(u) in Image(s, key); }
    }
  }

  lemma RestWithOlder(s: set<int>, x: int, key: int -> int, n: nat)
    requires Monotone(key) && forall y | y in s :: x < y
    ensures Rest(s + {x}, key, n) == Rest(s, key, n) + (if Passed(s, x, key, n) then {x} else {})
  {
    TopWithOlder(s, x, key, n);
    forall t | t in s ensures t in Rest(s + {x}, key, n) <==> t in Rest(s, key, n) { assert key(t) in Image(s, key); }
  }

  /** The same for the second series, which is taken from what the first left over. */
  lemma SecondSeriesWithOlder(s: set<int>, x: int, key: int -> int, n: nat, key2: int -> int, n2: nat)
    requires Monotone(key) && Monotone(key2) && forall y | y in s :: x < y
    ensures var rest, more := Rest(s, key, n), Rest(s + {x}, key, n);
      var joins := Passed(s, x, key, n) && Joins(rest, x, key2, n2);
      && Series(more, key2, n2) == Series(rest, key2, n2) + (if joins then {x} else {})
      && Top(Image(more, key2), n2) == Top(Image(rest, key2), n2) + (if joins then {key2(x)} else {})
  {
    RestWithOlder(s, x, key, n);
    var rest := Rest(s, key, n);
    if Passed(s, x, key, n) {
      SeriesWithOlder(rest, x, key2, n2);
      TopWithOlder(rest, x, key2, n2);
    } else {
      assert Rest(s + {x}, key, n) == rest;
    }
  }

  lemma KeysAreMonotone()
    ensures Monotone(Day) && Monotone(Week)
  {
  }

  // ----- the facts the run theorem needs -----

  lemma KeepShrinksWithTime(s: set<int>, p: Policy, t0: int, t1: int)
    requires t0 <= t1
    ensures Keep(s, p, t1) <= Keep(s, p, t0)
  {
    assert Recent(s, t1) <= Recent(s, t0);
  }

  /** A subset that holds everything h keeps, keeps exactly what h keeps. */
  lemma KeepSandwich(h: set<int>, u: set<int>, p: Policy, now: int)
    requires Keep(h, p, now) <= u <= h
    ensures Keep(u, p, now) == Keep(h, p, now)
  {
    if h != {} {
      assert Max(h) in u;
      assert Max(u) == Max(h);
    }
    SeriesSandwich(h, u, Day, Slots(p.daily));
    assert Older(u, p) == Older(h, p) * u;
    SeriesSandwich(Older(h, p), Older(u, p), Week, Slots(p.weekly));
    assert Recent(u, now) == Recent(h, now);
  }

  /** Once expired, always expired: a newer backup never brings an older one back. */
  lemma OnceExpiredAlwaysExpired(h: set<int>, b: int, p: Policy, now: int)
    requires forall t | t in h :: t < b
    ensures Keep(h + {b}, p, now) <= Keep(h, p, now) + {b}
  {
    var more := h + {b};
    assert Max(more) == b;
    assert Recent(more, now) <= Recent(h, now) + {b};
    forall x | x in Daily(more, p) && x != b ensures x in Daily(h, p) {
      SeriesShrinks(more, h, Day, Slots(p.daily), x);
    }
    assert Older(h, p) <= Older(more, p) by {
      forall t | t in Older(h, p) ensures t in Older(more, p) {
        assert Day(t) in Image(h, Day);
        assert Image(h, Day) <= Image(more, Day);
        if Day(t) in Top(Image(more, Day), Slots(p.daily)) {
          TopShrinks(Image(more, Day), Slots(p.daily), Image(h, Day), Day(t));
        }
      }
    }
    forall x | x in Weekly(more, p) && x != b ensures x in Weekly(h, p) || x in Daily(h, p) {
      if x in Older(h, p) {
        SeriesShrinks(Older(more, p), Older(h, p), Week, Slots(p.weekly), x);
      } else {
        // x's day has just left the daily series.  A newer backup of that day
        // would hold x's week, so x is the newest of its day.
        forall u | u in h && x < u ensures Day(u) != Day(x) {
          assert Day(u) == Day(x) ==> u in Older(more, p);
        }
        assert x in Daily(h, p);
      }
    }
  }

  // ----- incremental retention equals batch retention -----

  datatype Event = Arrive(at: int) | Pass(now: int, deleted: set<int>)

  /** `history` is every complete backup ever published; `present` what is left. */
  datatype Folder = Folder(history: set<int>, present: set<int>, clock: int)

  /** A backup arrives newer than all before it.  A pass at a time no earlier than
      the last removes any part of what has expired: all of it, or as much as a
      failure or a blocked folder let it. */
  ghost predicate Allowed(f: Folder, e: Event, p: Policy) {
    match e
    case Arrive(at) => forall t | t in f.history :: t < at
    case Pass(now, deleted) => f.clock <= now && deleted <= f.present - Keep(f.present, p, now)
  }

  ghost function After(f: Folder, e: Event): Folder {
    match e
    case Arrive(at) => f.(history := f.history + {at}, present := f.present + {at})
    case Pass(now, deleted) => f.(present := f.present - deleted, clock := now)
  }

  ghost predicate IsRun(f: Folder, run: seq<Event>, p: Policy)
    decreases run
  {
    run == [] || (Allowed(f, run[0], p) && IsRun(After(f, run[0]), run[1..], p))
  }

  ghost function Final(f: Folder, run: seq<Event>): Folder
    decreases run
  {
    if run == [] then f else Final(After(f, run[0]), run[1..])
  }

  ghost predicate Between(f: Folder, p: Policy) {
    Keep(f.history, p, f.clock) <= f.present <= f.history
  }

  lemma BetweenIsKept(f: Folder, e: Event, p: Policy)
    requires Between(f, p) && Allowed(f, e, p)
    ensures Between(After(f, e), p)
  {
    match e
    case Arrive(at) =>
      OnceExpiredAlwaysExpired(f.history, at, p, f.clock);
    case Pass(now, deleted) =>
      KeepShrinksWithTime(f.history, p, f.clock, now);
      KeepSandwich(f.history, f.present, p, now);
  }

  lemma {:induction false} BetweenOverRun(f: Folder, run: seq<Event>, p: Policy)
    requires Between(f, p) && IsRun(f, run, p)
    ensures Between(Final(f, run), p)
    decreases run
  {
    if run != [] {
      BetweenIsKept(f, run[0], p);
      BetweenOverRun(After(f, run[0]), run[1..], p);
    }
  }

  /** Whatever the interleaving of arrivals and partial passes, a last complete
      pass leaves exactly what the policy keeps of the full history. */
  lemma IncrementalEqualsBatch(run: seq<Event>, p: Policy, start: int, now: int)
    requires IsRun(Folder({}, {}, start), run, p)
    requires Final(Folder({}, {}, start), run).clock <= now
    ensures var f := Final(Folder({}, {}, start), run);
      var last := Pass(now, f.present - Keep(f.present, p, now));
      Allowed(f, last, p) && After(f, last).present == Keep(f.history, p, now)
  {
    var f := Final(Folder({}, {}, start), run);
    assert Keep({}, p, start) == {} by { TopIsSubset(Image({}, Day), Slots(p.daily)); }
    BetweenOverRun(Folder({}, {}, start), run, p);
    KeepShrinksWithTime(f.history, p, f.clock, now);
    KeepSandwich(f.history, f.present, p, now);
  }

  // ----- the loop -----

  /** Newest first, as the rows of one folder are read. */
  ghost predicate NewestFirst(rows: seq<Row>) {
    forall i, j | 0 <= i < j < |rows| :: TakenAt(rows[j].dir) < TakenAt(rows[i].dir)
  }

  /** The rows whose second is not in keep, in order. */
  ghost function Without(rows: seq<Row>, keep: set<int>): seq<Row> {
    if rows == [] then []
    else (if TakenAt(rows[0].dir) in keep then [] else [rows[0]]) + Without(rows[1..], keep)
  }

  lemma {:induction false} CompleteSnoc(rows: seq<Row>, b: Row)
    ensures CompleteRows(rows + [b]) == CompleteRows(rows) + if b.state.Complete? then [b] else []
  {
    if rows != [] {
      assert (rows + [b])[1..] == rows[1..] + [b];
      CompleteSnoc(rows[1..], b);
    }
  }

  lemma {:induction false} WithoutSnoc(rows: seq<Row>, b: Row, keep: set<int>)
    ensures Without(rows + [b], keep) == Without(rows, keep) + if TakenAt(b.dir) in keep then [] else [b]
  {
    if rows != [] {
      assert (rows + [b])[1..] == rows[1..] + [b];
      WithoutSnoc(rows[1..], b, keep);
    }
  }

  /** The loop's tests for x, given the newer backups s. */
  ghost predicate OpensDay(s: set<int>, x: int, p: Policy) { Joins(s, x, Day, Slots(p.daily)) }

  ghost predicate OpensWeek(s: set<int>, x: int, p: Policy) {
    Passed(s, x, Day, Slots(p.daily)) && Joins(Older(s, p), x, Week, Slots(p.weekly))
  }

  /** Adding an older backup to s: the earlier verdicts stand and the loop's own
      tests decide the new one. */
  lemma KeepWithOlder(s: set<int>, x: int, p: Policy, now: int)
    requires s != {} && forall y | y in s :: x < y
    ensures Keep(s + {x}, p, now) ==
            Keep(s, p, now) + (if now - DAY < x || OpensDay(s, x, p) || OpensWeek(s, x, p) then {x} else {})
  {
    assert Max(s + {x}) == Max(s);
    RecentWithOlder(s, x, now);
    SeriesStep(s, x, p);
    UnionWithOlder({Max(s)}, Recent(s, now), Daily(s, p), Weekly(s, p), x, now - DAY < x, OpensDay(s, x, p),
                   OpensWeek(s, x, p));
  }

  lemma RecentWithOlder(s: set<int>, x: int, now: int)
    ensures Recent(s + {x}, now) == Recent(s, now) + (if now - DAY < x then {x} else {})
  {
  }

  lemma SeriesStep(s: set<int>, x: int, p: Policy)
    requires forall y | y in s :: x < y
    ensures Daily(s + {x}, p) == Daily(s, p) + (if OpensDay(s, x, p) then {x} else {})
    ensures Weekly(s + {x}, p) == Weekly(s, p) + (if OpensWeek(s, x, p) then {x} else {})
  {
    KeysAreMonotone();
    SeriesWithOlder(s, x, Day, Slots(p.daily));
    SecondSeriesWithOlder(s, x, Day, Slots(p.daily), Week, Slots(p.weekly));
  }

  lemma UnionWithOlder(m: set<int>, a: set<int>, b: set<int>, c: set<int>, x: int, inA: bool, inB: bool, inC: bool)
    ensures m + (a + if inA then {x} else {}) + (b + if inB then {x} else {}) + (c + if inC then {x} else {})
            == m + a + b + c + if inA || inB || inC then {x} else {}
  {
  }

  /** The loop's sets: the days and weeks it has opened and the seconds it keeps. */
  datatype Marks = Marks(days: set<int>, weeks: set<int>, keep: set<int>)

  /** One row of the loop. */
  function Mark(m: Marks, x: int, p: Policy, now: int): Marks {
    var opensDay := |m.days| < p.daily && Day(x) !in m.days;
    var opensWeek := !opensDay && Day(x) !in m.days && |m.weeks| < p.weekly && Week(x) !in m.weeks;
    Marks(if opensDay then m.days + {Day(x)} else m.days,
          if opensWeek then m.weeks + {Week(x)} else m.weeks,
          if now - DAY < x || opensDay || opensWeek then m.keep + {x} else m.keep)
  }

  /** All rows in order; the newest is kept before the loop starts. */
  function MarkAll(seconds: seq<int>, p: Policy, now: int): Marks {
    if seconds == [] then Marks({}, {}, {})
    else if |seconds| == 1 then Mark(Marks({}, {}, {seconds[0]}), seconds[0], p, now)
    else Mark(MarkAll(seconds[..|seconds| - 1], p, now), seconds[|seconds| - 1], p, now)
  }

  ghost predicate Descending(seconds: seq<int>) {
    forall i, j | 0 <= i < j < |seconds| :: seconds[j] < seconds[i]
  }

  ghost function Members(seconds: seq<int>): set<int> { set t | t in seconds }

  ghost function DaySlots(s: set<int>, p: Policy): set<int> { Top(Image(s, Day), Slots(p.daily)) }
  ghost function WeekSlots(s: set<int>, p: Policy): set<int> { Top(Image(Older(s, p), Week), Slots(p.weekly)) }

  /** The declarative sets of the backups s, as the loop holds them. */
  ghost function MarksOf(s: set<int>, p: Policy, now: int): Marks {
    Marks(DaySlots(s, p), WeekSlots(s, p), Keep(s, p, now))
  }

  lemma SlotsStep(s: set<int>, x: int, p: Policy)
    requires forall y | y in s :: x < y
    ensures DaySlots(s + {x}, p) == DaySlots(s, p) + (if OpensDay(s, x, p) then {Day(x)} else {})
    ensures WeekSlots(s + {x}, p) == WeekSlots(s, p) + (if OpensWeek(s, x, p) then {Week(x)} else {})
    ensures OpensDay(s, x, p) <==> |DaySlots(s, p)| < p.daily && Day(x) !in DaySlots(s, p)
    ensures OpensWeek(s, x, p) <==>
            && !OpensDay(s, x, p) && Day(x) !in DaySlots(s, p) && |WeekSlots(s, p)| < p.weekly
            && Week(x) !in WeekSlots(s, p)
  {
    KeysAreMonotone();
    TopWithOlder(s, x, Day, Slots(p.daily));
    SecondSeriesWithOlder(s, x, Day, Slots(p.daily), Week, Slots(p.weekly));
  }

  /** The tests and what they add, for any sets: Mark written as unions. */
  lemma MarkAdds(m: Marks, x: int, p: Policy, now: int, opensDay: bool, opensWeek: bool)
    requires opensDay <==> |m.days| < p.daily && Day(x) !in m.days
    requires opensWeek <==> !opensDay && Day(x) !in m.days && |m.weeks| < p.weekly && Week(x) !in m.weeks
    ensures Mark(m, x, p, now) == Marks(m.days + (if opensDay then {Day(x)} else {}),
                                        m.weeks + (if opensWeek then {Week(x)} else {}),
                                        m.keep + (if now - DAY < x || opensDay || opensWeek then {x} else {}))
  {
  }

  lemma MarkStep(s: set<int>, x: int, p: Policy, now: int)
    requires s != {} && forall y | y in s :: x < y
    ensures MarksOf(s + {x}, p, now) == Mark(MarksOf(s, p, now), x, p, now)
  {
    SlotsStep(s, x, p);
    KeepWithOlder(s, x, p, now);
    MarkAdds(MarksOf(s, p, now), x, p, now, OpensDay(s, x, p), OpensWeek(s, x, p));
  }

  lemma FirstMark(x: int, p: Policy, now: int)
    ensures MarksOf({x}, p, now) == Mark(Marks({}, {}, {x}), x, p, now)
  {
    var none: set<int> := {};
    assert none + {x} == {x};
    NothingKept(p, now);
    SlotsStep(none, x, p);
    KeepOfOne(x, p, now);
    MarkAdds(Marks(none, none, {x}), x, p, now, OpensDay(none, x, p), OpensWeek(none, x, p));
  }

  lemma KeepOfOne(x: int, p: Policy, now: int)
    ensures Keep({x}, p, now) == {x}
  {
    assert Max({x}) == x;
    assert Recent({x}, now) <= {x} && Daily({x}, p) <= {x} && Weekly({x}, p) <= Older({x}, p) <= {x};
  }

  lemma NothingKept(p: Policy, now: int)
    ensures MarksOf({}, p, now) == Marks({}, {}, {})
  {
    TopIsSubset(Image({}, Day), Slots(p.daily));
    TopIsSubset(Image(Older({}, p), Week), Slots(p.weekly));
  }

  ghost predicate Below(x: int, s: set<int>) { forall y | y in s :: x < y }

  lemma MembersSnoc(seconds: seq<int>)
    requires seconds != [] && Descending(seconds)
    ensures Members(seconds) == Members(seconds[..|seconds| - 1]) + {seconds[|seconds| - 1]}
    ensures Below(seconds[|seconds| - 1], Members(seconds[..|seconds| - 1]))
  {
  }

  /** The loop computes what the policy keeps. */
  lemma {:induction false} LoopKeeps(seconds: seq<int>, p: Policy, now: int)
    requires Descending(seconds)
    ensures MarkAll(seconds, p, now) == MarksOf(Members(seconds), p, now)
  {
    if seconds == [] {
      NothingKept(p, now);
      assert Members(seconds) == {};
    } else {
      var n := |seconds| - 1;
      var s, x := Members(seconds[..n]), seconds[n];
      MembersSnoc(seconds);
      if n == 0 {
        assert s == {};
        FirstMark(x, p, now);
      } else {
        LoopKeeps(seconds[..n], p, now);
        assert seconds[..n][0] in s;
        MarkStep(s, x, p, now);
      }
    }
  }

  function SecondsOf(c: seq<Row>): (r: seq<int>)
    ensures |r| == |c| && forall i | 0 <= i < |c| :: r[i] == TakenAt(c[i].dir)
  {
    seq(|c|, i requires 0 <= i < |c| => TakenAt(c[i].dir))
  }

  /** The directories in keep stand for the seconds in decided. */
  ghost predicate Recorded(c: seq<Row>, keep: set<Dir>, decided: set<int>) {
    forall i | 0 <= i < |c| :: c[i].dir in keep <==> TakenAt(c[i].dir) in decided
  }

  lemma RecordedStep(c: seq<Row>, k: nat, keep: set<Dir>, decided: set<int>)
    requires k < |c| && NewestFirst(c) && Recorded(c, keep, decided)
    ensures Recorded(c, keep + {c[k].dir}, decided + {TakenAt(c[k].dir)})
  {
    forall i | 0 <= i < |c| && i != k ensures TakenAt(c[i].dir) != TakenAt(c[k].dir) {
      if i < k { assert TakenAt(c[k].dir) < TakenAt(c[i].dir); } else { assert TakenAt(c[i].dir) < TakenAt(c[k].dir); }
    }
  }

  /** The middle loop: one pass over the complete rows decides all of them. */
  method ChooseKept(complete: seq<Row>, p: Policy, now: int) returns (keep: set<Dir>)
    requires NewestFirst(complete) && 0 < |complete|
    ensures Recorded(complete, keep, MarkAll(SecondsOf(complete), p, now).keep)
  {
    keep := {complete[0].dir};
    var days, weeks := {}, {};
    ghost var at := SecondsOf(complete);
    ghost var m := Marks({}, {}, {at[0]});
    RecordedStep(complete, 0, {}, {});
    assert {} + {complete[0].dir} == keep && {} + {at[0]} == m.keep;
    for k := 0 to |complete|
      invariant days == m.days && weeks == m.weeks && Recorded(complete, keep, m.keep)
      invariant m == if k == 0 then Marks({}, {}, {at[0]}) else MarkAll(at[..k], p, now)
    {
      RecordedStep(complete, k, keep, m.keep);
      m := Mark(m, at[k], p, now);
      MarkSnoc(at, k, p, now);
      var t := TakenAt(complete[k].dir);
      if now - DAY < t { keep := keep + {complete[k].dir}; }
      if |days| < p.daily && Day(t) !in days {
        days := days + {Day(t)};
        keep := keep + {complete[k].dir};
      } else if Day(t) in days {
      } else if |weeks| < p.weekly && Week(t) !in weeks {
        weeks := weeks + {Week(t)};
        keep := keep + {complete[k].dir};
      }
    }
    TakeAll(at);
  }

  lemma MarkSnoc(at: seq<int>, k: nat, p: Policy, now: int)
    requires k < |at|
    ensures MarkAll(at[..k + 1], p, now) ==
      Mark(if k == 0 then Marks({}, {}, {at[0]}) else MarkAll(at[..k], p, now), at[k], p, now)
  {
    assert at[..k + 1][..k] == at[..k];
  }

  method OnlyComplete(rows: seq<Row>) returns (complete: seq<Row>)
    ensures complete == CompleteRows(rows)
  {
    complete := [];
    for i := 0 to |rows|
      invariant complete == CompleteRows(rows[..i])
    {
      TakeSnoc(rows, i);
      CompleteSnoc(rows[..i], rows[i]);
      if rows[i].state.Complete? { complete := complete + [rows[i]]; }
    }
    TakeAll(rows);
  }

  method Dropping(c: seq<Row>, keep: set<Dir>, ghost decided: set<int>) returns (expired: seq<Row>)
    requires Recorded(c, keep, decided)
    ensures expired == Without(c, decided)
  {
    expired := [];
    for i := 0 to |c|
      invariant expired == Without(c[..i], decided)
    {
      TakeSnoc(c, i);
      WithoutSnoc(c[..i], c[i], decided);
      if c[i].dir !in keep { expired := expired + [c[i]]; }
    }
    TakeAll(c);
  }

  /** The complete rows the policy does not keep, newest first.  The rows of one
      folder arrive newest first and complete ones never share a second. */
  method SelectExpired(rows: seq<Row>, p: Policy, now: int) returns (expired: seq<Row>)
    requires NewestFirst(CompleteRows(rows))
    ensures expired == Without(CompleteRows(rows), Keep(Members(SecondsOf(CompleteRows(rows))), p, now))
  {
    var complete := OnlyComplete(rows);
    if |complete| == 0 { return []; }
    LoopKeeps(SecondsOf(complete), p, now);
    var keep := ChooseKept(complete, p, now);
    expired := Dropping(complete, keep, MarkAll(SecondsOf(complete), p, now).keep);
  }
}
