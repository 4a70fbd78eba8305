/** The contribution calendar: per year, 364 cells saying how much a user did on each day. */
module Contributions {
  import opened Basics

  datatype Kind = Answer | Article | Question | Submission

  datatype Moment = Moment(year: int, dayOfYear: int)

  /** A moment as a calendar gives it: days of a year are numbered 1 to 366. */
  type Stamp = m: Moment | 1 <= m.dayOfYear <= 366 witness Moment(1970, 1)

  const DAYS := 364
  const CAP := 3

  /** One action, put in the bucket it counts for. */
  datatype Event = Event(kind: Kind, year: int, day: int)

  function EventOf(kind: Kind, s: Stamp): Event {
    Event(kind, s.year, Min(s.dayOfYear, DAYS))
  }

  function EventsOf(kind: Kind, ss: seq<Stamp>): seq<Event> {
    if ss == [] then [] else EventsOf(kind, ss[..|ss| - 1]) + [EventOf(kind, ss[|ss| - 1])]
  }

  function Log(answers: seq<Stamp>, articles: seq<Stamp>, questions: seq<Stamp>, submissions: seq<Stamp>): seq<Event> {
    EventsOf(Answer, answers) + EventsOf(Article, articles)
    + EventsOf(Question, questions) + EventsOf(Submission, submissions)
  }

  /** How many actions of one kind fall on one day. */
  function Hits(log: seq<Event>, kind: Kind, year: int, day: int): nat {
    multiset(log)[Event(kind, year, day)]
  }

  /** What `n` actions of one kind are worth. */
  function Worth(kind: Kind, n: nat): nat {
    if n == 0 then 0 else
      match kind
      case Answer => Max(n, 2)
      case Article => Max(n, 2)
      case Question => Max(n, 1)
      case Submission => Max(n / 2, 1)
  }

  function Cell(log: seq<Event>, year: int, day: int): nat {
    Min(CAP,
        Worth(Answer, Hits(log, Answer, year, day)) + Worth(Question, Hits(log, Question, year, day))
        + Worth(Submission, Hits(log, Submission, year, day)) + Worth(Article, Hits(log, Article, year, day)))
  }

  type Calendar = seq<(int, seq<nat>)>

  /** `ret` is the calendar of `log`: no years for no actions, else every year from the latest with
      an action down to the earliest, each with one cell a day. */
  ghost predicate Reports(ret: Calendar, log: seq<Event>) {
    if log == [] then ret == [] else
      && ret != []
      && (forall e :: e in log ==> ret[|ret| - 1].0 <= e.year <= ret[0].0)
      && (exists e :: e in log && e.year == ret[0].0)
      && (exists e :: e in log && e.year == ret[|ret| - 1].0)
      && (forall i :: 0 <= i < |ret| ==> ret[i].0 == ret[0].0 - i && DrawsYear(ret[i].1, log, ret[i].0))
  }

  ghost predicate DrawsYear(cells: seq<nat>, log: seq<Event>, year: int) {
    |cells| == DAYS && forall k :: 0 <= k < DAYS ==> cells[k] == Cell(log, year, k + 1)
  }

  // ----- the computation -----

  /** Year, then day, then kind of action. */
  type Table = map<int, map<int, map<Kind, nat>>>

  function Stored(d: Table, kind: Kind, year: int, day: int): nat {
    if year in d && day in d[year] && kind in d[year][day] then d[year][day][kind] else 0
  }

  /** `d` counts the actions of `log`: it has the years that occur, no stored count is zero, and
      every count is right. */
  ghost predicate Counts(d: Table, log: seq<Event>) {
    && (forall y :: y in d <==> exists e :: e in log && e.year == y)
    && (forall y, a, k :: y in d && a in d[y] && k in d[y][a] ==> d[y][a][k] > 0)
    && (forall k, y, a :: Stored(d, k, y, a) == Hits(log, k, y, a))
  }

  function Incr(d: Table, e: Event): Table {
    var days := if e.year in d then d[e.year] else map[];
    var kinds := if e.day in days then days[e.day] else map[];
    var n := if e.kind in kinds then kinds[e.kind] else 0;
    d[e.year := days[e.day := kinds[e.kind := n + 1]]]
  }

  lemma IncrStores(d: Table, e: Event, kind: Kind, year: int, day: int)
    ensures Stored(Incr(d, e), kind, year, day)
         == Stored(d, kind, year, day) + if e == Event(kind, year, day) then 1 else 0
  {
  }

  lemma IncrCounts(d: Table, log: seq<Event>, e: Event)
    requires Counts(d, log)
    ensures Counts(Incr(d, e), log + [e])
  {
    var next, longer := Incr(d, e), log + [e];
    assert e in longer && forall f :: f in longer <==> f in log || f == e;
    forall k, y, a
      ensures Stored(next, k, y, a) == Hits(longer, k, y, a)
    {
      IncrStores(d, e, k, y, a);
      assert Hits(longer, k, y, a) == Hits(log, k, y, a) + if e == Event(k, y, a) then 1 else 0;
    }
  }

  method CountAll(d: Table, ghost log: seq<Event>, kind: Kind, stamps: seq<Stamp>) returns (r: Table)
    requires Counts(d, log)
    ensures Counts(r, log + EventsOf(kind, stamps))
  {
    r := d;
    assert log + EventsOf(kind, []) == log;
    for i := 0 to |stamps|
      invariant Counts(r, log + EventsOf(kind, stamps[..i]))
    {
      ghost var events := EventsOf(kind, stamps[..i]);
      var e := EventOf(kind, stamps[i]);
      IncrCounts(r, log + events, e);
      r := Incr(r, e);
      assert stamps[..i + 1][..i] == stamps[..i];
      assert log + (events + [e]) == (log + events) + [e];
    }
    assert stamps[..|stamps|] == stamps;
  }

  lemma SomeYear(years: set<int>)
    ensures years == {} || exists y :: y in years
  {
    if forall y :: y !in years {
      assert years == {};
    }
  }

  method Bounds(years: set<int>) returns (lo: int, hi: int)
    requires years != {}
    ensures lo in years && hi in years && forall y :: y in years ==> lo <= y <= hi
  {
    SomeYear(years);
    var first :| first in years;
    lo, hi := first, first;
    var rest := years - {first};
    while rest != {}
      invariant rest <= years && lo in years && hi in years
      invariant forall y :: y in years && y !in rest ==> lo <= y <= hi
      decreases |rest|
    {
      SomeYear(rest);
      var y :| y in rest;
      lo, hi, rest := Min(lo, y), Max(hi, y), rest - {y};
    }
  }

  method DrawDay(d: Table, ghost log: seq<Event>, year: int, day: int) returns (cell: nat)
    requires Counts(d, log)
    ensures cell == Cell(log, year, day)
  {
    if year !in d || day !in d[year] {
      cell := 0;
      assert forall k :: Stored(d, k, year, day) == 0;
    } else {
      var kinds := d[year][day];
      assert forall k :: Hits(log, k, year, day) == if k in kinds then kinds[k] else 0;
      var v := 0;
      if Answer in kinds { v := v + Max(kinds[Answer], 2); }
      if Question in kinds { v := v + Max(kinds[Question], 1); }
      if Submission in kinds { v := v + Max(kinds[Submission] / 2, 1); }
      if Article in kinds { v := v + Max(kinds[Article], 2); }
      cell := Min(v, 3);
    }
  }

  lemma NothingBefore(log: seq<Event>)
    ensures [] + log == log
  {
  }

  method CountEverything(
    answers: seq<Stamp>, articles: seq<Stamp>, questions: seq<Stamp>, submissions: seq<Stamp>)
    returns (d: Table)
    ensures Counts(d, Log(answers, articles, questions, submissions))
  {
    ghost var a, b, q := EventsOf(Answer, answers), EventsOf(Article, articles), EventsOf(Question, questions);
    d := CountAll(map[], [], Answer, answers);
    NothingBefore(a);
    d := CountAll(d, a, Article, articles);
    d := CountAll(d, a + b, Question, questions);
    d := CountAll(d, a + b + q, Submission, submissions);
  }

  method DrawRow(d: Table, ghost log: seq<Event>, year: int) returns (cells: seq<nat>)
    requires Counts(d, log)
    ensures DrawsYear(cells, log, year)
  {
    cells := [];
    for day := 1 to 365
      invariant |cells| == day - 1
      invariant forall k :: 0 <= k < |cells| ==> cells[k] == Cell(log, year, k + 1)
    {
      var cell := DrawDay(d, log, year, day);
      cells := cells + [cell];
    }
  }

  lemma YearsAreThere(d: Table, log: seq<Event>)
    requires Counts(d, log)
    ensures log != [] ==> log[0].year in d.Keys
  {
    if log != [] {
      assert log[0] in log;
    }
  }

  method DrawCalendar(d: Table, ghost log: seq<Event>) returns (ret: Calendar)
    requires Counts(d, log)
    ensures Reports(ret, log)
  {
    YearsAreThere(d, log);
    ret := [];
    if d.Keys == {} {
      return;
    }
    var lo, hi := Bounds(d.Keys);
    var year := hi;
    while year >= lo
      invariant lo - 1 <= year <= hi && |ret| == hi - year
      invariant forall i :: 0 <= i < |ret| ==> ret[i].0 == hi - i && DrawsYear(ret[i].1, log, ret[i].0)
    {
      var cells := DrawRow(d, log, year);
      ret := ret + [(year, cells)];
      year := year - 1;
    }
    assert lo in d && hi in d;
    assert ret[0].0 == hi && ret[|ret| - 1].0 == lo;
    assert forall e :: e in log ==> e.year in d.Keys;
  }

  method ComputeUserContributions(
    answers: seq<Stamp>, articles: seq<Stamp>, questions: seq<Stamp>, submissions: seq<Stamp>)
    returns (ret: Calendar)
    ensures Reports(ret, Log(answers, articles, questions, submissions))
  {
    var d := CountEverything(answers, articles, questions, submissions);
    ret := DrawCalendar(d, Log(answers, articles, questions, submissions));
  }

  // ----- what the calendar says -----

  /** A cell lies in 0..3, and is blank exactly when nothing happened on its day. */
  lemma CellIsLitByActions(log: seq<Event>, year: int, day: int)
    ensures 0 <= Cell(log, year, day) <= 3
    ensures Cell(log, year, day) > 0 <==> exists e :: e in log && e.year == year && e.day == day
  {
    if e :| e in log && e.year == year && e.day == day {
      assert e == Event(e.kind, year, day) && e in multiset(log);
      assert Worth(e.kind, Hits(log, e.kind, year, day)) > 0;
    }
    if Cell(log, year, day) > 0 {
      var kind := if Hits(log, Answer, year, day) > 0 then Answer
                  else if Hits(log, Question, year, day) > 0 then Question
                  else if Hits(log, Submission, year, day) > 0 then Submission
                  else Article;
      assert Event(kind, year, day) in multiset(log);
    }
  }

  /** The actions of one list that fall on a day, days after the 364th counting as the 364th. */
  function OnDay(ss: seq<Stamp>, year: int, day: int): set<int> {
    set i | 0 <= i < |ss| && FallsOn(ss[i], year, day)
  }

  predicate FallsOn(s: Stamp, year: int, day: int) {
    s.year == year && (if s.dayOfYear > 364 then 364 else s.dayOfYear) == day
  }

  lemma OneMoreOnDay(ss: seq<Stamp>, s: Stamp, year: int, day: int)
    ensures |OnDay(ss + [s], year, day)| == |OnDay(ss, year, day)| + if FallsOn(s, year, day) then 1 else 0
  {
    var longer := ss + [s];
    assert forall i :: 0 <= i < |ss| ==> longer[i] == ss[i];
    assert OnDay(longer, year, day) == OnDay(ss, year, day) + if FallsOn(s, year, day) then {|ss|} else {};
  }

  lemma OneMoreHit(log: seq<Event>, e: Event, k: Kind, year: int, day: int)
    ensures Hits(log + [e], k, year, day) == Hits(log, k, year, day) + if e == Event(k, year, day) then 1 else 0
  {
  }

  lemma {:induction false} HitsOfKind(kind: Kind, ss: seq<Stamp>, k: Kind, year: int, day: int)
    ensures Hits(EventsOf(kind, ss), k, year, day) == if k == kind then |OnDay(ss, year, day)| else 0
  {
    if ss != [] {
      var n := |ss| - 1;
      HitsOfKind(kind, ss[..n], k, year, day);
      OneMoreHit(EventsOf(kind, ss[..n]), EventOf(kind, ss[n]), k, year, day);
      OneMoreOnDay(ss[..n], ss[n], year, day);
      assert ss == ss[..n] + [ss[n]];
    }
  }

  /** Each list counts as what it is: answers as answers, and so on. */
  lemma HitsOfLog(answers: seq<Stamp>, articles: seq<Stamp>, questions: seq<Stamp>, submissions: seq<Stamp>,
                  k: Kind, year: int, day: int)
    ensures Hits(Log(answers, articles, questions, submissions), k, year, day)
         == match k
            case Answer => |OnDay(answers, year, day)|
            case Article => |OnDay(articles, year, day)|
            case Question => |OnDay(questions, year, day)|
            case Submission => |OnDay(submissions, year, day)|
  {
    HitsOfKind(Answer, answers, k, year, day);
    HitsOfKind(Article, articles, k, year, day);
    HitsOfKind(Question, questions, k, year, day);
    HitsOfKind(Submission, submissions, k, year, day);
  }

  /** What actions of one kind light by themselves: one answer or article 2 and three of them 3, as many
      questions as there are up to 3, and half the submissions, rounded down, but at least 1. */
  lemma OneKindLights(log: seq<Event>, kind: Kind, year: int, day: int)
    requires forall k :: k != kind ==> Hits(log, k, year, day) == 0
    ensures var n, cell := Hits(log, kind, year, day), Cell(log, year, day);
      && (kind.Answer? || kind.Article? ==> cell == if n == 0 then 0 else if n <= 2 then 2 else 3)
      && (kind.Question? ==> cell == if n <= 3 then n else 3)
      && (kind.Submission? ==> cell == if n == 0 then 0 else if n <= 3 then 1 else if n <= 5 then 2 else 3)
  {
    assert kind != Answer ==> Hits(log, Answer, year, day) == 0;
    assert kind != Question ==> Hits(log, Question, year, day) == 0;
    assert kind != Submission ==> Hits(log, Submission, year, day) == 0;
    assert kind != Article ==> Hits(log, Article, year, day) == 0;
  }

  /** What happened of two kinds on one day adds up until the cell is full. */
  lemma KindsAddUp(log: seq<Event>, more: seq<Event>, year: int, day: int)
    requires forall k :: Hits(log, k, year, day) == 0 || Hits(more, k, year, day) == 0
    ensures Cell(log + more, year, day)
         == var sum := Cell(log, year, day) + Cell(more, year, day); if sum < 3 then sum else 3
  {
    forall k
      ensures Hits(log + more, k, year, day) == Hits(log, k, year, day) + Hits(more, k, year, day)
    {
    }
    forall k
      ensures Worth(k, Hits(log + more, k, year, day))
           == Worth(k, Hits(log, k, year, day)) + Worth(k, Hits(more, k, year, day))
    {
      assert Hits(log, k, year, day) == 0 || Hits(more, k, year, day) == 0;
    }
  }

  /** Every action is shown: on the row of its year, in the cell of its clamped day. */
  lemma EveryActionIsShown(ret: Calendar, log: seq<Event>, kind: Kind, s: Stamp)
    requires Reports(ret, log) && EventOf(kind, s) in log
    ensures exists i :: (
      && 0 <= i < |ret| && ret[i].0 == s.year && |ret[i].1| == DAYS
      && ret[i].1[Min(s.dayOfYear, DAYS) - 1] > 0)
  {
    var e := EventOf(kind, s);
    var i := ret[0].0 - s.year;
    var last := |ret| - 1;
    assert ret[last].0 == ret[0].0 - last;
    assert ret[i].0 == s.year && DrawsYear(ret[i].1, log, s.year);
    CellIsLitByActions(log, s.year, e.day);
    assert ret[i].1[e.day - 1] == Cell(log, s.year, e.day - 1 + 1);
  }

  /** The calendar is determined by which actions there are, not by their order. */
  lemma OrderDoesNotMatter(ret: Calendar, log: seq<Event>, ret': Calendar, log': seq<Event>)
    requires Reports(ret, log) && Reports(ret', log') && multiset(log) == multiset(log')
    ensures ret == ret'
  {
    assert forall e :: e in log <==> e in multiset(log);
    assert forall e :: e in log' <==> e in multiset(log');
    if log != [] {
      assert log[0] in log';
      assert log'[0] in log;
      assert ret[|ret| - 1].0 == ret[0].0 - (|ret| - 1) && ret'[|ret'| - 1].0 == ret'[0].0 - (|ret'| - 1);
      forall i | 0 <= i < |ret|
        ensures ret[i] == ret'[i]
      {
        assert ret[i].1 == ret'[i].1;
      }
    } else {
      assert |multiset(log')| == 0;
    }
  }
}
