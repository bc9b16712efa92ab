/** The record types of the hiring dashboard and its in-memory mock store:
    eleven interviews, one shared document list and six candidates, each of
    whose interview list is the store's interviews filtered by its id. */
module Data {
  import opened Seqs

  datatype Stage = Screening | Interview | Offer | Hired | Rejected

  datatype InterviewKind = AIScreening | Technical | HRRound

  datatype InterviewStatus = Scheduled | Completed | Canceled

  datatype DocumentName = AadhaarCard | PANCard | DrivingLicence

  datatype DocumentStatus = Verified | Pending | NotSubmitted

  /** `date` is the store's 'YYYY-MM-DD' text, `time` its display text. */
  datatype InterviewRecord = InterviewRecord(
    id: string, candidateId: string, date: string, time: string,
    kind: InterviewKind, status: InterviewStatus)

  datatype Document = Document(name: DocumentName, status: DocumentStatus)

  /** A candidate's `interviews` field is not stored here: the store fills
      it with its interviews filtered by the candidate's id, which
      `CandidateInterviews` computes. */
  datatype Candidate = Candidate(
    id: string, name: string, email: string, avatar: string, role: string,
    stage: Stage, documents: seq<Document>, lastActivity: string, resume: string)

  const Interviews: seq<InterviewRecord> := [
    InterviewRecord("int-101", "can-1", "2024-08-05", "10:00 AM", AIScreening, Completed),
    InterviewRecord("int-102", "can-1", "2024-08-10", "02:00 PM", Technical, Scheduled),
    InterviewRecord("int-201", "can-2", "2024-08-06", "11:00 AM", AIScreening, Completed),
    InterviewRecord("int-202", "can-2", "2024-08-08", "03:00 PM", Technical, Completed),
    InterviewRecord("int-203", "can-2", "2024-08-10", "10:00 AM", HRRound, Completed),
    InterviewRecord("int-301", "can-3", "2024-08-07", "09:00 AM", AIScreening, Completed),
    InterviewRecord("int-302", "can-3", "2024-08-12", "11:30 AM", HRRound, Scheduled),
    InterviewRecord("int-401", "can-4", "2024-08-08", "03:00 PM", AIScreening, Completed),
    InterviewRecord("int-402", "can-4", "2024-08-12", "04:00 PM", Technical, Scheduled),
    InterviewRecord("int-501", "can-5", "2024-08-09", "10:30 AM", AIScreening, Canceled),
    InterviewRecord("int-601", "can-6", "2024-08-10", "01:00 PM", AIScreening, Scheduled)
  ]

  /** A candidate's list holds exactly the interviews of the store with its
      id. */
  lemma InterviewsOfMembers(store: seq<InterviewRecord>, id: string, x: InterviewRecord)
    ensures x in InterviewsOf(store, id) <==> x in store && x.candidateId == id
  {
    FilterMember(store, (i: InterviewRecord) => i.candidateId == id, x);
  }

  /** The list keeps the store's order: filtering two parts of the store
      and concatenating gives the filter of the whole. */
  lemma InterviewsOfKeepsOrder(a: seq<InterviewRecord>, b: seq<InterviewRecord>, id: string)
    ensures InterviewsOf(a + b, id) == InterviewsOf(a, id) + InterviewsOf(b, id)
  {
    FilterAppend(a, b, (i: InterviewRecord) => i.candidateId == id);
  }

  /** The module-level document list; candidate can-3 uses it as its own. */
  const Documents: seq<Document> := [
    Document(AadhaarCard, Verified),
    Document(PANCard, Verified),
    Document(DrivingLicence, Pending)
  ]

  /** `interviews.filter(i => i.candidateId === id)`. */
  function InterviewsOf(store: seq<InterviewRecord>, id: string): (r: seq<InterviewRecord>)
    ensures forall i :: 0 <= i < |r| ==> r[i].candidateId == id
  {
    Filter(store, (i: InterviewRecord) => i.candidateId == id)
  }

  /** The `interviews` field of a candidate of the store. */
  function CandidateInterviews(c: Candidate): (r: seq<InterviewRecord>)
    ensures forall i :: 0 <= i < |r| ==> r[i].candidateId == c.id
  {
    InterviewsOf(Interviews, c.id)
  }

  const Candidates: seq<Candidate> := [
    Candidate("can-1", "Sarah Johnson", "sarah.j@example.com", "candidate-1",
      "Senior Frontend Developer", Interview,
      [Document(AadhaarCard, Verified), Document(PANCard, Verified), Document(DrivingLicence, NotSubmitted)],
      "3 days ago",
      "Sarah Johnson is a results-driven Senior Frontend Developer with 8 years of experience in building and maintaining responsive and scalable web applications. Proficient in React, TypeScript, and modern JavaScript frameworks. Passionate about creating intuitive user interfaces and seamless user experiences. Proven ability to lead projects and mentor junior developers."),
    Candidate("can-2", "Michael Chen", "michael.c@example.com", "candidate-2",
      "Product Manager", Hired,
      [Document(AadhaarCard, Verified), Document(PANCard, Verified), Document(DrivingLicence, Verified)],
      "1 day ago",
      "Michael Chen is a strategic Product Manager with a 6-year track record of launching successful SaaS products. Skilled in market research, user-centric design, and agile methodologies. Excels at collaborating with cross-functional teams to deliver products that meet user needs and business goals."),
    Candidate("can-3", "Emily Rodriguez", "emily.r@example.com", "candidate-3",
      "UX/UI Designer", Interview,
      Documents,
      "5 hours ago",
      "Emily Rodriguez is a creative UX/UI Designer with a passion for crafting beautiful and functional digital experiences. With 4 years of experience, she is proficient in Figma, Sketch, and Adobe Creative Suite. Specializes in user research, wireframing, and prototyping to create intuitive and engaging designs."),
    Candidate("can-4", "David Lee", "david.l@example.com", "candidate-4",
      "Backend Engineer", Screening,
      [Document(AadhaarCard, Pending), Document(PANCard, NotSubmitted), Document(DrivingLicence, NotSubmitted)],
      "1 week ago",
      "David Lee is a dedicated Backend Engineer with 5 years of experience in designing and building robust server-side applications. Expertise in Node.js, Python, and database management with PostgreSQL and MongoDB. Experienced in developing RESTful APIs and microservices architecture."),
    Candidate("can-5", "Jessica Williams", "jessica.w@example.com", "candidate-5",
      "Data Scientist", Rejected,
      [],
      "2 weeks ago",
      "Jessica Williams is an analytical Data Scientist with a knack for turning data into actionable insights. She has 3 years of experience in machine learning, statistical analysis, and data visualization using Python, R, and Tableau. Holds a Master's degree in Data Science."),
    Candidate("can-6", "Chris Taylor", "chris.t@example.com", "candidate-6",
      "DevOps Engineer", Screening,
      [Document(AadhaarCard, Verified), Document(PANCard, Pending), Document(DrivingLicence, NotSubmitted)],
      "4 days ago",
      "Chris Taylor is a skilled DevOps Engineer with 7 years of experience in automating and streamlining development pipelines. Proficient in CI/CD tools like Jenkins, containerization with Docker and Kubernetes, and cloud platforms like AWS. Strong focus on infrastructure as code and system reliability.")
  ]

  /** The store exports its interview list a second time under this name. */
  const AllInterviews: seq<InterviewRecord> := Interviews

  /** `candidates.find(c => c.id === id)`. */
  function FindCandidate(candidates: seq<Candidate>, id: string): (r: Option<Candidate>)
    ensures r.Some? ==> r.value in candidates && r.value.id == id
    ensures r.None? <==> forall k :: 0 <= k < |candidates| ==> candidates[k].id != id
  {
    Find(candidates, (c: Candidate) => c.id == id)
  }

  predicate UniqueIds(candidates: seq<Candidate>) {
    forall j, k :: 0 <= j < k < |candidates| ==> candidates[j].id != candidates[k].id
  }

  predicate DistinctDocumentNames(docs: seq<Document>) {
    forall j, k :: 0 <= j < k < |docs| ==> docs[j].name != docs[k].name
  }

  /** No two candidates of the store share an id. */
  lemma CandidateIdsUnique()
    ensures UniqueIds(Candidates)
  {
  }

  /** Within each candidate of the store, no document name repeats. */
  lemma DocumentNamesDistinct()
    ensures forall k :: 0 <= k < |Candidates| ==> DistinctDocumentNames(Candidates[k].documents)
  {
  }

  /** Every interview of the store names one of the store's candidates. */
  lemma EveryInterviewHasCandidate()
    ensures forall i :: 0 <= i < |Interviews| ==> Interviews[i].candidateId in CandidateIds()
  {
  }

  /** Filtering one interview list by the ids of candidates with unique ids
      puts each interview whose id is among them in exactly one candidate's
      list. */
  lemma {:induction false} FilterPartitions(cs: seq<Candidate>, xs: seq<InterviewRecord>, x: InterviewRecord, k: nat)
    requires UniqueIds(cs) && x in xs
    requires k < |cs| && cs[k].id == x.candidateId
    ensures x in InterviewsOf(xs, cs[k].id)
    ensures forall j :: 0 <= j < |cs| && x in InterviewsOf(xs, cs[j].id) ==> j == k
  {
    FilterMember(xs, (i: InterviewRecord) => i.candidateId == cs[k].id, x);
    forall j | 0 <= j < |cs| && x in InterviewsOf(xs, cs[j].id)
      ensures j == k
    {
      assert x.candidateId == cs[j].id;
    }
  }

  /** Every interview of the store is in exactly one candidate's list. */
  lemma InterviewsPartitioned(x: InterviewRecord)
    requires x in Interviews
    ensures exists k :: 0 <= k < |Candidates| && x in CandidateInterviews(Candidates[k]) &&
              forall j :: 0 <= j < |Candidates| && x in CandidateInterviews(Candidates[j]) ==> j == k
  {
    EveryInterviewHasCandidate();
    CandidateIdsUnique();
    var ids := CandidateIds();
    var k :| 0 <= k < |ids| && ids[k] == x.candidateId;
    FilterPartitions(Candidates, Interviews, x, k);
  }

  /** The ids of the store's candidates, in order. */
  function CandidateIds(): (ids: seq<string>)
    ensures |ids| == |Candidates|
    ensures forall k :: 0 <= k < |ids| ==> Candidates[k].id == ids[k]
  {
    ["can-1", "can-2", "can-3", "can-4", "can-5", "can-6"]
  }

  /** The exported list is the store's list, and can-3's documents are the
      module-level list. */
  lemma SharedLists()
    ensures AllInterviews == Interviews
    ensures Candidates[2].id == "can-3" && Candidates[2].documents == Documents
  {
  }

  /** The test `candidates.find` passes for an interview: its candidate
      exists. */
  function HasCandidate(cs: seq<Candidate>): InterviewRecord -> bool {
    (x: InterviewRecord) => FindCandidate(cs, x.candidateId).Some?
  }

  /** The interviews of a list of rows, in order. */
  function Firsts(r: seq<(InterviewRecord, Candidate)>): (s: seq<InterviewRecord>)
    ensures |s| == |r|
    ensures forall k :: 0 <= k < |r| ==> s[k] == r[k].0
  {
    if r == [] then [] else [r[0].0] + Firsts(r[1..])
  }

  /** The rows a page renders for a list of interviews: each interview with
      the candidate `find` returns for it, and nothing for an interview
      whose candidate is not found. So the rows' interviews are exactly the
      interviews whose candidate exists, in list order, each paired with
      the candidate `find` gives for it. */
  function Joined(xs: seq<InterviewRecord>, cs: seq<Candidate>): (r: seq<(InterviewRecord, Candidate)>)
    ensures Firsts(r) == Filter(xs, HasCandidate(cs))
    ensures forall k :: 0 <= k < |r| ==> FindCandidate(cs, r[k].0.candidateId) == Some(r[k].1)
    ensures forall k :: 0 <= k < |r| ==>
              r[k].0 in xs && r[k].1 in cs && r[k].1.id == r[k].0.candidateId
  {
    if xs == [] then []
    else
      var rest := Joined(xs[1..], cs);
      match FindCandidate(cs, xs[0].candidateId)
      case Some(c) =>
        assert Firsts([(xs[0], c)] + rest) == [xs[0]] + Firsts(rest);
        [(xs[0], c)] + rest
      case None => rest
  }

  /** When every interview's candidate is found, there is one row per
      interview, in order. */
  lemma {:induction false} JoinedAllFound(xs: seq<InterviewRecord>, cs: seq<Candidate>)
    requires forall i :: 0 <= i < |xs| ==> FindCandidate(cs, xs[i].candidateId).Some?
    ensures |Joined(xs, cs)| == |xs|
    ensures forall k :: 0 <= k < |xs| ==> Joined(xs, cs)[k].0 == xs[k]
  {
    if xs != [] {
      assert forall i :: 0 <= i < |xs[1..]| ==> xs[1..][i] == xs[i + 1];
      JoinedAllFound(xs[1..], cs);
      var rest := Joined(xs[1..], cs);
      var c := FindCandidate(cs, xs[0].candidateId).value;
      assert Joined(xs, cs) == [(xs[0], c)] + rest;
      forall k | 0 <= k < |xs|
        ensures Joined(xs, cs)[k].0 == xs[k]
      {
        if k > 0 {
          assert Joined(xs, cs)[k] == rest[k - 1];
        }
      }
    }
  }

  /** When no interview's candidate is found, nothing is rendered. */
  lemma {:induction false} JoinedNoneFound(xs: seq<InterviewRecord>, cs: seq<Candidate>)
    requires forall i :: 0 <= i < |xs| ==> FindCandidate(cs, xs[i].candidateId).None?
    ensures Joined(xs, cs) == []
  {
    if xs != [] {
      JoinedNoneFound(xs[1..], cs);
    }
  }
}
