/** The dashboard layout: the sidebar's navigation items and which of them
    is highlighted for a path, the page title chosen for a path, and the
    sign-in guard (a spinner while the user is unknown or absent, and a
    redirect to the login page once the client knows there is no user). */
module Layout {
  import opened Text
  import opened Seqs

  datatype NavItem = NavItem(href: string, caption: string)

  const DashboardHref: string := "/dashboard"
  const CandidatesHref: string := DashboardHref + "/candidates"
  const InterviewsHref: string := DashboardHref + "/interviews"
  const QuestionnairesHref: string := DashboardHref + "/questionnaires"
  const ProfilePath: string := DashboardHref + "/profile"
  /** The prefix of a single candidate's page. */
  const CandidateDetailsPrefix: string := CandidatesHref + "/"

  /** `navItems`, in order. */
  const NavItems: seq<NavItem> := [
    NavItem(DashboardHref, "Dashboard"),
    NavItem(CandidatesHref, "Candidates"),
    NavItem(InterviewsHref, "Interviews"),
    NavItem(QuestionnairesHref, "Questionnaires")
  ]

  /** Every item's href starts with the first item's. */
  lemma NavItemsUnderDashboard()
    ensures forall k :: 0 <= k < |NavItems| ==> StartsWith(NavItems[k].href, NavItems[0].href)
  {
    PrefixOfConcat(DashboardHref, "/candidates");
    PrefixOfConcat(DashboardHref, "/interviews");
    PrefixOfConcat(DashboardHref, "/questionnaires");
    assert StartsWith(DashboardHref, DashboardHref);
  }

  /** `items.find(item => path.startsWith(item.href))` when the first
      item's href is a prefix of every href: the first item, or none. */
  lemma FindUnderFirstPrefix(items: seq<NavItem>, path: string)
    requires |items| > 0
    requires forall k :: 0 <= k < |items| ==> StartsWith(items[k].href, items[0].href)
    ensures Find(items, (item: NavItem) => StartsWith(path, item.href)) ==
            if StartsWith(path, items[0].href) then Some(items[0]) else None
  {
    var p := (item: NavItem) => StartsWith(path, item.href);
    if !StartsWith(path, items[0].href) {
      forall k | 0 <= k < |items|
        ensures !p(items[k])
      {
        if StartsWith(path, items[k].href) {
          StartsWithTransitive(path, items[k].href, items[0].href);
        }
      }
    }
  }

  /** `getPageTitle`, as written: the profile path first, then the first
      navigation item whose href starts the path, then the candidate
      details prefix, then 'Dashboard'. */
  function GetPageTitle(path: string): string {
    if path == ProfilePath then "Recruiter Profile"
    else
      match Find(NavItems, (item: NavItem) => StartsWith(path, item.href))
      case Some(item) => item.caption
      case None =>
        if StartsWith(path, CandidateDetailsPrefix) then "Candidate Details"
        else "Dashboard"
  }

  /** The title is 'Recruiter Profile' on the profile page and 'Dashboard'
      everywhere else: '/dashboard' is the first item and starts every
      other href, so no other item is ever found. */
  lemma PageTitleTwoValues(path: string)
    ensures GetPageTitle(path) == "Recruiter Profile" <==> path == ProfilePath
    ensures path != ProfilePath ==> GetPageTitle(path) == "Dashboard"
  {
    NavItemsUnderDashboard();
    FindUnderFirstPrefix(NavItems, path);
    if !StartsWith(path, DashboardHref) && StartsWith(path, CandidateDetailsPrefix) {
      PrefixOfConcat(DashboardHref, "/candidates");
      PrefixOfConcat(CandidatesHref, "/");
      StartsWithTransitive(CandidateDetailsPrefix, CandidatesHref, DashboardHref);
      StartsWithTransitive(path, CandidateDetailsPrefix, DashboardHref);
    }
  }

  /** The 'Candidate Details' title is never produced. */
  lemma CandidateDetailsUnreachable(path: string)
    ensures GetPageTitle(path) != "Candidate Details"
  {
    PageTitleTwoValues(path);
  }

  /** A sidebar button's `isActive`: the Dashboard item on its exact path,
      the others on every path they start. */
  predicate Active(path: string, item: NavItem) {
    if item.href == DashboardHref then path == item.href else StartsWith(path, item.href)
  }

  /** The 'Interviews to Attend' sub-item's `isActive`. */
  predicate InterviewsToAttendActive(path: string) {
    path == InterviewsHref
  }

  /** Two prefixes of one path that differ at a position both have cannot
      both start it. */
  lemma PrefixesClash(path: string, p: string, q: string, k: nat)
    requires k < |p| && k < |q| && p[k] != q[k]
    ensures StartsWith(path, p) ==> !StartsWith(path, q)
  {
    if StartsWith(path, p) {
      assert path[k] == p[k] by { assert path[..|p|][k] == p[k]; }
    }
  }

  /** For any path, at most one top-level sidebar item is active. */
  lemma AtMostOneActive(path: string)
    ensures forall j, k :: (0 <= j < |NavItems| && 0 <= k < |NavItems| &&
                           Active(path, NavItems[j]) && Active(path, NavItems[k])) ==> j == k
  {
    assert CandidatesHref[11] == 'c' && InterviewsHref[11] == 'i' && QuestionnairesHref[11] == 'q';
    PrefixesClash(path, CandidatesHref, InterviewsHref, 11);
    PrefixesClash(path, CandidatesHref, QuestionnairesHref, 11);
    PrefixesClash(path, InterviewsHref, QuestionnairesHref, 11);
    assert |DashboardHref| == 10;
  }

  /** The sub-item is active only together with its parent item. */
  lemma SubItemUnderParent(path: string)
    requires InterviewsToAttendActive(path)
    ensures Active(path, NavItems[2])
  {
    assert InterviewsHref[..|InterviewsHref|] == InterviewsHref;
  }

  /** The title a reader of the sidebar would expect: the profile title, the
      candidate details title on a single candidate's page, otherwise the
      label of the highlighted item. */
  function CorrectedPageTitle(path: string): string {
    if path == ProfilePath then "Recruiter Profile"
    else if StartsWith(path, CandidateDetailsPrefix) then "Candidate Details"
    else
      match Find(NavItems, (item: NavItem) => Active(path, item))
      case Some(item) => item.caption
      case None => "Dashboard"
  }

  /** Away from the profile and candidate pages, the corrected title is the
      label of the active item, and 'Dashboard' when none is active; on a
      candidate's page it is 'Candidate Details'. */
  lemma CorrectedTitleFollowsSidebar(path: string)
    ensures StartsWith(path, CandidateDetailsPrefix) ==> CorrectedPageTitle(path) == "Candidate Details"
    ensures path != ProfilePath && !StartsWith(path, CandidateDetailsPrefix) ==>
              forall k :: 0 <= k < |NavItems| && Active(path, NavItems[k]) ==>
                CorrectedPageTitle(path) == NavItems[k].caption
    ensures path != ProfilePath && !StartsWith(path, CandidateDetailsPrefix) &&
            (forall k :: 0 <= k < |NavItems| ==> !Active(path, NavItems[k])) ==>
              CorrectedPageTitle(path) == "Dashboard"
  {
    PrefixOfConcat(CandidatesHref, "/");
    if path != ProfilePath && !StartsWith(path, CandidateDetailsPrefix) {
      AtMostOneActive(path);
    }
  }

  /** On the interviews page the sidebar highlights 'Interviews' but the
      title as written reads 'Dashboard'; the corrected title agrees with
      the sidebar. */
  lemma InterviewsTitleDisagrees()
    ensures Active(InterviewsHref, NavItems[2]) && NavItems[2].caption == "Interviews"
    ensures GetPageTitle(InterviewsHref) == "Dashboard"
    ensures CorrectedPageTitle(InterviewsHref) == "Interviews"
  {
    assert InterviewsHref[..|InterviewsHref|] == InterviewsHref;
    PageTitleTwoValues(InterviewsHref);
    assert |InterviewsHref| == 21;
    PrefixesClash(InterviewsHref, InterviewsHref, CandidateDetailsPrefix, 11);
    CorrectedTitleFollowsSidebar(InterviewsHref);
  }

  /** The redirect effect's condition: on the client, the user is known
      and there is none. */
  predicate ShouldRedirect(isClient: bool, isUserLoading: bool, hasUser: bool) {
    isClient && !isUserLoading && !hasUser
  }

  /** The layout renders only a spinner while the user is loading or
      absent. */
  predicate ShowSpinner(isUserLoading: bool, hasUser: bool) {
    isUserLoading || !hasUser
  }

  /** A redirect is only ever issued while the spinner is shown, and the
      layout itself is shown only to a signed-in user. */
  lemma RedirectBehindSpinner(isClient: bool, isUserLoading: bool, hasUser: bool)
    ensures ShouldRedirect(isClient, isUserLoading, hasUser) ==> ShowSpinner(isUserLoading, hasUser)
    ensures !ShowSpinner(isUserLoading, hasUser) ==> hasUser && !ShouldRedirect(isClient, isUserLoading, hasUser)
  {
  }

  /** The layout instance: the `isClient` flag and the navigations the
      redirect effect has asked for. */
  class DashboardLayout {
    var isClient: bool
    var navigations: seq<string>

    constructor ()
      ensures !isClient && navigations == []
    {
      isClient := false;
      navigations := [];
    }

    /** The mount effect. */
    method MountEffect()
      modifies this
      ensures isClient && navigations == old(navigations)
    {
      isClient := true;
    }

    /** The redirect effect, run whenever `isClient`, the loading flag or
        the user changes. */
    method RedirectEffect(isUserLoading: bool, hasUser: bool)
      modifies this
      ensures isClient == old(isClient)
      ensures navigations == old(navigations) +
                (if ShouldRedirect(isClient, isUserLoading, hasUser) then ["/login"] else [])
    {
      if isClient && !isUserLoading && !hasUser {
        navigations := navigations + ["/login"];
      }
    }
  }
}
