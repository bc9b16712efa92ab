/** The dashboard's summary: the first five scheduled interviews and the
    candidate and interview counts. Today's date is an input. */
module DashboardPage {
  import opened Seqs
  import opened Data

  const UpcomingLimit: nat := 5

  predicate IsScheduled(i: InterviewRecord) {
    i.status == Scheduled
  }

  /** `upcomingInterviews`: the scheduled interviews, cut to five. */
  function UpcomingInterviews(all: seq<InterviewRecord>): (r: seq<InterviewRecord>)
    ensures |r| <= UpcomingLimit
    ensures forall k :: 0 <= k < |r| ==> r[k].status == Scheduled
  {
    Take(Filter(all, IsScheduled), UpcomingLimit)
  }

  /** The list is the start of the scheduled subsequence, in order, and as
      long as it can be up to five. */
  lemma UpcomingIsPrefix(all: seq<InterviewRecord>)
    ensures var s := Filter(all, IsScheduled);
            var r := UpcomingInterviews(all);
            |r| == (if |s| < UpcomingLimit then |s| else UpcomingLimit) && r == s[..|r|]
  {
  }

  /** A scheduled interview is left out only when the list is full: with
      fewer than five listed, every scheduled interview is listed. */
  lemma UpcomingDropsOnlyWhenFull(all: seq<InterviewRecord>, x: InterviewRecord)
    requires x in all && x.status == Scheduled && |UpcomingInterviews(all)| < UpcomingLimit
    ensures x in UpcomingInterviews(all)
  {
    FilterMember(all, IsScheduled, x);
  }

  /** The summary cards. */
  datatype Summary = Summary(totalCandidates: nat, hiredCandidates: nat, interviewsToday: nat)

  predicate IsHired(c: Candidate) {
    c.stage == Hired
  }

  /** The counts, with `todayIso` the date part of the current time's ISO
      string. */
  function Counts(candidates: seq<Candidate>, all: seq<InterviewRecord>, todayIso: string): (s: Summary)
    ensures s.hiredCandidates <= s.totalCandidates == |candidates|
    ensures s.interviewsToday <= |all|
  {
    Summary(|candidates|, |Filter(candidates, IsHired)|,
            |Filter(all, (i: InterviewRecord) => i.date == todayIso)|)
  }

  lemma {:induction false} FilterLengthCounts<T(!new)>(xs: seq<T>, p: T -> bool)
    ensures |Filter(xs, p)| == CountWhere(xs, p)
  {
    if xs != [] {
      FilterLengthCounts(xs[1..], p);
    }
  }

  /** The interviews-today count is the number of interviews whose date
      string equals today's, and the hired count the number of hired
      candidates. */
  lemma CountsMeaning(candidates: seq<Candidate>, all: seq<InterviewRecord>, todayIso: string)
    ensures Counts(candidates, all, todayIso).interviewsToday ==
            CountWhere(all, (i: InterviewRecord) => i.date == todayIso)
    ensures Counts(candidates, all, todayIso).hiredCandidates == CountWhere(candidates, IsHired)
  {
    FilterLengthCounts(all, (i: InterviewRecord) => i.date == todayIso);
    FilterLengthCounts(candidates, IsHired);
  }

  /** What a row shows: the candidate's name and role, the interview's date
      and time, and the link to the candidate's page. */
  datatype Row = Row(name: string, role: string, date: string, time: string, candidateId: string)

  function RowsOf(joined: seq<(InterviewRecord, Candidate)>): (rows: seq<Row>)
    ensures |rows| == |joined|
    ensures forall k :: 0 <= k < |rows| ==>
              rows[k] == Row(joined[k].1.name, joined[k].1.role, joined[k].0.date, joined[k].0.time, joined[k].1.id)
  {
    if joined == [] then []
    else [Row(joined[0].1.name, joined[0].1.role, joined[0].0.date, joined[0].0.time, joined[0].1.id)] +
         RowsOf(joined[1..])
  }

  /** The table of upcoming interviews: one row for each of the first five
      scheduled interviews whose candidate is found, in order, showing that
      candidate's name and role and the interview's date and time, and
      linking to that candidate. */
  function UpcomingTable(all: seq<InterviewRecord>, candidates: seq<Candidate>): (rows: seq<Row>)
    ensures |rows| == |Filter(UpcomingInterviews(all), HasCandidate(candidates))| <= UpcomingLimit
    ensures forall k :: 0 <= k < |rows| ==>
              var i := Filter(UpcomingInterviews(all), HasCandidate(candidates))[k];
              var c := FindCandidate(candidates, i.candidateId);
              c.Some? && c.value in candidates &&
              rows[k] == Row(c.value.name, c.value.role, i.date, i.time, c.value.id)
  {
    var joined := Joined(UpcomingInterviews(all), candidates);
    assert forall k :: 0 <= k < |joined| ==> Firsts(joined)[k] == joined[k].0;
    RowsOf(joined)
  }
}
