/** The interviews page's list of interviews to attend: the scheduled
    interviews dated today or later, earliest first, and what the panel
    shows for it. Dates are day keys; today is an input. */
module InterviewsPage {
  import opened Seqs
  import opened Data

  predicate IsDigit(c: char) {
    '0' <= c <= '9'
  }

  function DigitValue(c: char): int {
    c as int - '0' as int
  }

  /** The number written by the digits `s[i..j]`. */
  function Number(s: string, i: nat, j: nat): (n: int)
    requires i <= j <= |s|
    decreases j - i
  {
    if i == j then 0 else Number(s, i, j - 1) * 10 + DigitValue(s[j - 1])
  }

  /** The digits of `s` at 0..3, 5..6 and 8..9 with dashes at 4 and 7,
      the shape of the store's dates. */
  predicate DateShaped(s: string) {
    |s| == 10 && s[4] == '-' && s[7] == '-' &&
    forall k :: 0 <= k < 10 && k != 4 && k != 7 ==> IsDigit(s[k])
  }

  function Year(s: string): int
    requires DateShaped(s)
  {
    Number(s, 0, 4)
  }

  function Month(s: string): int
    requires DateShaped(s)
  {
    Number(s, 5, 7)
  }

  function Day(s: string): int
    requires DateShaped(s)
  {
    Number(s, 8, 10)
  }

  /** A date string whose month is 1..12 and whose day is 1..31. */
  predicate WellFormedDate(s: string) {
    DateShaped(s) && 1 <= Month(s) <= 12 && 1 <= Day(s) <= 31
  }

  /** A 'YYYY-MM-DD' date as the ordered day key `y * 10000 + m * 100 + d`.
      Only this form is read as a date here; any other string gives no day
      and is left out of the upcoming list. */
  function ParseDay(s: string): (r: Option<int>)
    ensures r.Some? <==> WellFormedDate(s)
    ensures r.Some? ==> r.value == Year(s) * 10000 + Month(s) * 100 + Day(s)
  {
    if DateShaped(s) then
      var y, m, d := Number(s, 0, 4), Number(s, 5, 7), Number(s, 8, 10);
      if 1 <= m <= 12 && 1 <= d <= 31 then Some(y * 10000 + m * 100 + d) else None
    else None
  }

  /** Later days of the calendar have larger keys: the key orders first by
      year, then month, then day. */
  lemma DayKeyOrder(y1: int, m1: int, d1: int, y2: int, m2: int, d2: int)
    requires 1 <= m1 <= 12 && 1 <= d1 <= 31 && 1 <= m2 <= 12 && 1 <= d2 <= 31
    ensures y1 * 10000 + m1 * 100 + d1 < y2 * 10000 + m2 * 100 + d2 <==>
            y1 < y2 || (y1 == y2 && (m1 < m2 || (m1 == m2 && d1 < d2)))
  {
    if y1 < y2 {
      assert y1 * 10000 + 10000 <= y2 * 10000;
    } else if y1 > y2 {
      assert y2 * 10000 + 10000 <= y1 * 10000;
    }
  }

  /** Two dates that parse compare by their days exactly as the calendar
      orders them: by year, then month, then day; and equal keys mean the
      same date. */
  lemma ParseDayOrder(a: string, b: string)
    requires ParseDay(a).Some? && ParseDay(b).Some?
    ensures ParseDay(a).value < ParseDay(b).value <==>
            Year(a) < Year(b) || (Year(a) == Year(b) &&
              (Month(a) < Month(b) || (Month(a) == Month(b) && Day(a) < Day(b))))
    ensures ParseDay(a).value == ParseDay(b).value <==>
            Year(a) == Year(b) && Month(a) == Month(b) && Day(a) == Day(b)
  {
    DayKeyOrder(Year(a), Month(a), Day(a), Year(b), Month(b), Day(b));
    DayKeyOrder(Year(b), Month(b), Day(b), Year(a), Month(a), Day(a));
  }

  /** The filter's test: scheduled, and dated today or later. */
  predicate IsUpcoming(i: InterviewRecord, today: int) {
    i.status == Scheduled && ParseDay(i.date).Some? && ParseDay(i.date).value >= today
  }

  /** The sort key: the interview's day. */
  function DayOf(i: InterviewRecord): int {
    match ParseDay(i.date)
    case Some(k) => k
    case None => 0
  }

  /** `upcomingInterviews`: the filter, then a sort by day that keeps the
      store's order among interviews of the same day. */
  function UpcomingInterviews(all: seq<InterviewRecord>, today: int): (r: seq<InterviewRecord>)
    ensures SortedBy(r, DayOf)
    ensures multiset(r) == multiset(Filter(all, (i: InterviewRecord) => IsUpcoming(i, today)))
  {
    SortBy(Filter(all, (i: InterviewRecord) => IsUpcoming(i, today)), DayOf)
  }

  /** Each upcoming interview is scheduled and dated today or later, and an
      interview is in the list exactly when it is in the input and passes. */
  lemma UpcomingMembers(all: seq<InterviewRecord>, today: int)
    ensures forall k :: 0 <= k < |UpcomingInterviews(all, today)| ==>
              UpcomingInterviews(all, today)[k].status == Scheduled &&
              DayOf(UpcomingInterviews(all, today)[k]) >= today
    ensures forall x :: x in UpcomingInterviews(all, today) <==> x in all && IsUpcoming(x, today)
  {
    var p := (i: InterviewRecord) => IsUpcoming(i, today);
    var r := UpcomingInterviews(all, today);
    forall x
      ensures x in r <==> x in all && IsUpcoming(x, today)
    {
      FilterMember(all, p, x);
      assert x in r <==> x in multiset(r);
      assert x in Filter(all, p) <==> x in multiset(Filter(all, p));
    }
    forall k | 0 <= k < |r|
      ensures r[k].status == Scheduled && DayOf(r[k]) >= today
    {
      assert r[k] in r;
    }
  }

  /** The list's length is the number of interviews that pass. */
  lemma UpcomingLength(all: seq<InterviewRecord>, today: int)
    ensures |UpcomingInterviews(all, today)| ==
            |Filter(all, (i: InterviewRecord) => IsUpcoming(i, today))|
  {
    var r := UpcomingInterviews(all, today);
    assert |r| == |multiset(r)|;
    var f := Filter(all, (i: InterviewRecord) => IsUpcoming(i, today));
    assert |f| == |multiset(f)|;
  }

  /** Interviews on the same day are listed in the store's order. */
  lemma UpcomingSameDayInStoreOrder(all: seq<InterviewRecord>, today: int, day: int)
    ensures Filter(UpcomingInterviews(all, today), KeyIs(DayOf, day)) ==
            Filter(Filter(all, (i: InterviewRecord) => IsUpcoming(i, today)), KeyIs(DayOf, day))
  {
    SortByStable(Filter(all, (i: InterviewRecord) => IsUpcoming(i, today)), DayOf, day);
  }

  /** Every date of the store is a well-formed day. */
  lemma StoreDatesParse()
    ensures forall k :: 0 <= k < |Interviews| ==> WellFormedDate(Interviews[k].date)
  {
  }

  const EmptyMessage: string := "No upcoming interviews."

  /** What a row shows: the candidate's name, the interview type, its date
      and time. The date is kept as the stored 'YYYY-MM-DD' text; the
      locale formatting the page applies to it is not modelled. */
  datatype Row = Row(name: string, kind: InterviewKind, date: string, time: string)

  datatype Panel = NoUpcoming(message: string) | Rows(rows: seq<Row>)

  /** The rows, one per joined interview, in order. */
  function RowsOf(joined: seq<(InterviewRecord, Candidate)>): (rows: seq<Row>)
    ensures |rows| == |joined|
    ensures forall k :: 0 <= k < |rows| ==>
              rows[k] == Row(joined[k].1.name, joined[k].0.kind, joined[k].0.date, joined[k].0.time)
  {
    if joined == [] then []
    else [Row(joined[0].1.name, joined[0].0.kind, joined[0].0.date, joined[0].0.time)] + RowsOf(joined[1..])
  }

  /** The 'Interviews to Attend' panel: the empty message exactly when there
      is no upcoming interview; otherwise one row for each upcoming
      interview whose candidate is found, in list order, showing that
      candidate's name and the interview's type, date and time. */
  function InterviewsPanel(upcoming: seq<InterviewRecord>, candidates: seq<Candidate>): (p: Panel)
    ensures p == NoUpcoming(EmptyMessage) <==> upcoming == []
    ensures p.Rows? ==> |p.rows| == |Filter(upcoming, HasCandidate(candidates))|
    ensures p.Rows? ==> forall k :: 0 <= k < |p.rows| ==>
              var i := Filter(upcoming, HasCandidate(candidates))[k];
              var c := FindCandidate(candidates, i.candidateId);
              c.Some? && p.rows[k] == Row(c.value.name, i.kind, i.date, i.time)
  {
    if |upcoming| > 0 then
      var joined := Joined(upcoming, candidates);
      assert forall k :: 0 <= k < |joined| ==> Firsts(joined)[k] == joined[k].0;
      Rows(RowsOf(joined))
    else NoUpcoming(EmptyMessage)
  }

  /** With upcoming interviews none of whose candidates exists, the panel
      shows neither rows nor the empty message. */
  lemma OrphansRenderNothing(upcoming: seq<InterviewRecord>, candidates: seq<Candidate>)
    requires upcoming != []
    requires forall i :: 0 <= i < |upcoming| ==> FindCandidate(candidates, upcoming[i].candidateId).None?
    ensures InterviewsPanel(upcoming, candidates) == Rows([])
  {
    JoinedNoneFound(upcoming, candidates);
  }
}
