/** The application store (App.tsx): the current view, the project list and the
    selected project, with the handlers that change them and the screen they select. */
module App {
  import opened GigTypes
  import CreateProject
  import ProjectDetail

  datatype View = HomeView | DashboardView | CreateView | DetailView

  /** What the main area renders. */
  datatype Screen = HomeScreen | DashboardScreen | CreateScreen | DetailScreen(project: Project) | NoScreen

  /** The render conditions of the main area. */
  function ScreenFor(view: View, selected: Option<Project>): Screen {
    match view
    case HomeView => HomeScreen
    case DashboardView => DashboardScreen
    case CreateView => CreateScreen
    case DetailView => if selected.Some? then DetailScreen(selected.value) else NoScreen
  }

  /** The detail screen shows the selection, and only when one exists; the detail
      view without a selection renders nothing. */
  lemma DetailScreenGuard(view: View, selected: Option<Project>)
    ensures ScreenFor(view, selected).DetailScreen? <==> view == DetailView && selected.Some?
    ensures ScreenFor(view, selected).DetailScreen? ==> ScreenFor(view, selected).project == selected.value
    ensures ScreenFor(view, selected) == NoScreen <==> view == DetailView && selected.None?
  {
  }

  // ---------------------------------------------------------------------------
  // The project list
  // ---------------------------------------------------------------------------

  /** No two listed projects share an id. */
  predicate UniqueIds(ps: seq<Project>) {
    forall i, j :: 0 <= i < j < |ps| ==> ps[i].id != ps[j].id
  }

  predicate IdFresh(ps: seq<Project>, id: string) {
    forall i :: 0 <= i < |ps| ==> ps[i].id != id
  }

  /** The selection is a listed project, and every listed project with its id equals it. */
  predicate Mirrors(ps: seq<Project>, selected: Option<Project>) {
    selected.Some? ==>
      && (exists k :: 0 <= k < |ps| && ps[k] == selected.value)
      && (forall k :: 0 <= k < |ps| && ps[k].id == selected.value.id ==> ps[k] == selected.value)
  }

  /** A draft the `as Project` cast can stand behind: every field the new record
      takes from the draft is present, apart from those the store fills in. */
  predicate Castable(d: ProjectDraft) {
    && d.title.Some? && d.description.Some? && d.department.Some? && d.bravoPoints.Some?
    && d.status.Some? && d.bids.Some? && d.postedDate.Some?
  }

  /** The record `handleCreateProject` builds: the draft's fields, the generated id
      in place of any id the draft carries, the draft's skills or none. A missing
      requester name is the empty name. */
  function NewProject(d: ProjectDraft, newId: string): (p: Project)
    requires Castable(d)
  {
    Project(
      id := newId,
      title := d.title.value,
      description := d.description.value,
      department := d.department.value,
      requesterName := d.requesterName.GetOr(""),
      bravoPoints := d.bravoPoints.value,
      skills := d.skills.GetOr([]),
      status := d.status.value,
      bids := d.bids.value,
      postedDate := d.postedDate.value)
  }

  /** The generated id wins over the draft's, and absent skills become the empty list. */
  lemma NewProjectIdAndSkills(d: ProjectDraft, newId: string)
    requires Castable(d)
    ensures NewProject(d, newId).id == newId
    ensures forall other :: NewProject(d.(id := other), newId) == NewProject(d, newId)
    ensures d.skills.None? ==> NewProject(d, newId).skills == []
    ensures d.skills.Some? ==> NewProject(d, newId).skills == d.skills.value
  {
  }

  /** A submitted creation form becomes an open project with the form's fields, no
      skills, no bids, the generated id and no requester name. */
  lemma SubmittedFormProject(title: string, description: string, department: string, points: int, postedDate: int, newId: string)
    ensures var d := CreateProject.SubmittedDraft(title, description, department, points, postedDate);
            && Castable(d)
            && NewProject(d, newId)
               == Project(newId, title, description, department, "", points, [], Open, [], postedDate)
  {
  }

  /** Prepending a project with a fresh id keeps ids unique, and keeps a mirrored selection mirrored. */
  lemma {:induction false} PrependKeepsInvariant(ps: seq<Project>, p: Project, selected: Option<Project>)
    requires UniqueIds(ps) && Mirrors(ps, selected) && IdFresh(ps, p.id)
    ensures UniqueIds([p] + ps) && Mirrors([p] + ps, selected)
  {
    var qs := [p] + ps;
    forall i, j | 0 <= i < j < |qs| ensures qs[i].id != qs[j].id {
      if i == 0 {
        assert qs[j] == ps[j - 1];
      } else {
        assert qs[i] == ps[i - 1] && qs[j] == ps[j - 1];
      }
    }
    if selected.Some? {
      var k :| 0 <= k < |ps| && ps[k] == selected.value;
      assert qs[k + 1] == selected.value;
      assert p.id != selected.value.id;
      forall m | 0 <= m < |qs| && qs[m].id == selected.value.id ensures qs[m] == selected.value {
        assert m > 0 && qs[m] == ps[m - 1];
      }
    }
  }

  /** One entry of `projects.map(...)` in `handlePlaceBid`. */
  function WithBid(p: Project, projectId: string, bid: Bid): Project {
    if p.id == projectId then p.(bids := p.bids + [bid]) else p
  }

  /** The list after `handlePlaceBid`. */
  function AddBid(ps: seq<Project>, projectId: string, bid: Bid): seq<Project>
    decreases |ps|
  {
    if ps == [] then [] else [WithBid(ps[0], projectId, bid)] + AddBid(ps[1..], projectId, bid)
  }

  /** Placing a bid keeps the length and the order; each project with the id gets
      exactly the bid appended and nothing else changed; every other project is unchanged. */
  lemma {:induction false} AddBidPointwise(ps: seq<Project>, projectId: string, bid: Bid)
    ensures |AddBid(ps, projectId, bid)| == |ps|
    ensures forall i :: 0 <= i < |ps| && ps[i].id == projectId ==>
              AddBid(ps, projectId, bid)[i] == ps[i].(bids := ps[i].bids + [bid])
    ensures forall i :: 0 <= i < |ps| && ps[i].id != projectId ==>
              AddBid(ps, projectId, bid)[i] == ps[i]
    decreases |ps|
  {
    if ps != [] {
      AddBidPointwise(ps[1..], projectId, bid);
      var r := AddBid(ps, projectId, bid);
      assert r == [WithBid(ps[0], projectId, bid)] + AddBid(ps[1..], projectId, bid);
      forall i | 0 < i < |ps| ensures r[i] == WithBid(ps[i], projectId, bid) {
        assert r[i] == AddBid(ps[1..], projectId, bid)[i - 1];
      }
    }
  }

  /** A bid for an id nobody has leaves the list as it was. */
  lemma AddBidNoMatch(ps: seq<Project>, projectId: string, bid: Bid)
    requires IdFresh(ps, projectId)
    ensures AddBid(ps, projectId, bid) == ps
  {
  }

  /** The selection after `handlePlaceBid`. */
  function SelectionAfterBid(selected: Option<Project>, projectId: string, bid: Bid): Option<Project> {
    if selected.Some? && selected.value.id == projectId
    then Some(selected.value.(bids := selected.value.bids + [bid]))
    else selected
  }

  /** Placing a bid changes no id, so unique ids stay unique. */
  lemma AddBidKeepsUniqueIds(ps: seq<Project>, projectId: string, bid: Bid)
    requires UniqueIds(ps)
    ensures UniqueIds(AddBid(ps, projectId, bid))
  {
    AddBidPointwise(ps, projectId, bid);
  }

  /** Placing a bid keeps a mirrored selection mirrored, whether or not ids repeat:
      every entry equal to the selection changes exactly as the selection does. */
  lemma AddBidKeepsMirror(ps: seq<Project>, selected: Option<Project>, projectId: string, bid: Bid)
    requires Mirrors(ps, selected)
    ensures Mirrors(AddBid(ps, projectId, bid), SelectionAfterBid(selected, projectId, bid))
  {
    AddBidPointwise(ps, projectId, bid);
    var qs := AddBid(ps, projectId, bid);
    assert forall i :: 0 <= i < |ps| ==> qs[i].id == ps[i].id;
    if selected.Some? {
      var k :| 0 <= k < |ps| && ps[k] == selected.value;
      assert qs[k] == SelectionAfterBid(selected, projectId, bid).value;
    }
  }

  // ---------------------------------------------------------------------------
  // The store
  // ---------------------------------------------------------------------------

  class AppState {
    var currentView: View
    var projects: seq<Project>
    var selectedProject: Option<Project>

    ghost predicate Valid()
      reads this
    {
      UniqueIds(projects) && Mirrors(projects, selectedProject)
    }

    function CurrentScreen(): Screen
      reads this
    {
      ScreenFor(currentView, selectedProject)
    }

    /** The app as first shown: the home view, the initial list, no selection. */
    constructor (initial: seq<Project>)
      ensures currentView == HomeView && projects == initial && selectedProject == None
      ensures UniqueIds(initial) ==> Valid()
    {
      currentView, projects, selectedProject := HomeView, initial, None;
    }

    /** `handleNavigate`: leaving for any view but the detail view drops the selection. */
    method Navigate(view: View)
      modifies this`currentView, this`selectedProject
      ensures currentView == view
      ensures selectedProject == if view != DetailView then None else old(selectedProject)
      ensures view != DetailView ==> !CurrentScreen().DetailScreen?
      ensures old(Valid()) ==> Valid()
    {
      currentView := view;
      if view != DetailView {
        selectedProject := None;
      }
    }

    /** `handleProjectClick`: select a project and show it. */
    method ProjectClick(p: Project)
      modifies this`currentView, this`selectedProject
      ensures selectedProject == Some(p) && currentView == DetailView
      ensures CurrentScreen() == DetailScreen(p)
      ensures old(Valid()) && p in projects ==> Valid()
    {
      selectedProject := Some(p);
      currentView := DetailView;
    }

    /** `handleCreateProject`: prepend the new record and go back to the listing.
        The id is supplied by the caller; it keeps ids unique when it is fresh. */
    method CreateProject(draft: ProjectDraft, newId: string)
      requires Castable(draft)
      modifies this`projects, this`currentView
      ensures projects == [NewProject(draft, newId)] + old(projects)
      ensures |projects| == |old(projects)| + 1 && projects[1..] == old(projects)
      ensures projects[0].id == newId
      ensures currentView == DashboardView
      ensures old(Valid()) && IdFresh(old(projects), newId) ==> Valid()
    {
      if Valid() && IdFresh(projects, newId) {
        PrependKeepsInvariant(projects, NewProject(draft, newId), selectedProject);
      }
      projects := [NewProject(draft, newId)] + projects;
      currentView := DashboardView;
    }

    /** `handlePlaceBid`: append the bid to every project with the id, and to the
        selection if it has that id. */
    method PlaceBid(projectId: string, bid: Bid)
      modifies this`projects, this`selectedProject
      ensures projects == AddBid(old(projects), projectId, bid)
      ensures selectedProject == SelectionAfterBid(old(selectedProject), projectId, bid)
      ensures |projects| == |old(projects)|
      ensures forall i :: 0 <= i < |projects| ==>
                projects[i] == if old(projects)[i].id == projectId
                               then old(projects)[i].(bids := old(projects)[i].bids + [bid])
                               else old(projects)[i]
      ensures IdFresh(old(projects), projectId) ==> projects == old(projects)
      ensures old(UniqueIds(projects)) ==> UniqueIds(projects)
      ensures old(Mirrors(projects, selectedProject)) ==> Mirrors(projects, selectedProject)
      ensures old(Valid()) ==> Valid()
    {
      AddBidPointwise(projects, projectId, bid);
      if IdFresh(projects, projectId) {
        AddBidNoMatch(projects, projectId, bid);
      }
      if UniqueIds(projects) {
        AddBidKeepsUniqueIds(projects, projectId, bid);
      }
      if Mirrors(projects, selectedProject) {
        AddBidKeepsMirror(projects, selectedProject, projectId, bid);
      }
      projects := AddBid(projects, projectId, bid);
      if selectedProject.Some? && selectedProject.value.id == projectId {
        selectedProject := Some(selectedProject.value.(bids := selectedProject.value.bids + [bid]));
      }
    }
  }

  /** Submitting the bid form of the detail page showing the selection. A bid that
      goes out lands in that project, in the list and in the selection, and nowhere
      else, and the page is re-rendered with the updated selection, so the page still
      shows the selection for the next bid. A refused form changes nothing. */
  method SubmitBidFromDetail(app: AppState, page: ProjectDetail.ProjectDetailView, bidId: string, timestamp: int)
      returns (report: Option<ProjectDetail.BidReport>)
    requires Mirrors(app.projects, app.selectedProject)
    requires app.selectedProject.Some? && app.selectedProject.value.id == page.project.id
    modifies app`projects, app`selectedProject, page`showBidForm, page`project
    ensures Mirrors(app.projects, app.selectedProject)
    ensures app.selectedProject.Some? && app.selectedProject.value.id == page.project.id
    ensures old(UniqueIds(app.projects)) ==> UniqueIds(app.projects)
    ensures report.Some? <==> old(page.showBidForm) && page.bidComment != ""
    ensures report.None? ==>
              && app.projects == old(app.projects) && app.selectedProject == old(app.selectedProject)
              && page.project == old(page.project) && page.showBidForm == old(page.showBidForm)
    ensures report.Some? ==>
              var before := old(app.selectedProject).value;
              var after := before.(bids := before.bids + [report.value.bid]);
              && report.value.bid
                 == Bid(bidId, page.currentUser.id, page.currentUser.name, page.bidAmount, page.bidComment, timestamp)
              && app.selectedProject == Some(after) && page.project == after && !page.showBidForm
              && |app.projects| == |old(app.projects)|
              && (forall i :: 0 <= i < |app.projects| && old(app.projects)[i].id == before.id ==>
                    app.projects[i] == after)
              && (forall i :: 0 <= i < |app.projects| && old(app.projects)[i].id != before.id ==>
                    app.projects[i] == old(app.projects)[i])
  {
    report := page.SubmitBid(bidId, timestamp);
    if report.Some? {
      app.PlaceBid(report.value.projectId, report.value.bid);
      page.ReceiveProject(app.selectedProject.value);
    }
  }

  /** Two bids placed one after the other from the same detail page, reopening the
      form in between: the selection ends with both bids, in order. */
  method BidTwiceFromDetail(app: AppState, page: ProjectDetail.ProjectDetailView,
                            firstId: string, secondId: string, firstTime: int, secondTime: int)
      returns (first: Option<ProjectDetail.BidReport>, second: Option<ProjectDetail.BidReport>)
    requires Mirrors(app.projects, app.selectedProject)
    requires app.selectedProject.Some? && app.selectedProject.value.id == page.project.id
    requires page.bidComment != ""
    modifies app`projects, app`selectedProject, page`showBidForm, page`project
    ensures first.Some? && second.Some?
    ensures app.selectedProject.Some?
    ensures app.selectedProject.value.bids
            == old(app.selectedProject).value.bids + [first.value.bid, second.value.bid]
    ensures first.value.bid.id == firstId && second.value.bid.id == secondId
    ensures Mirrors(app.projects, app.selectedProject)
  {
    page.OpenBidForm();
    first := SubmitBidFromDetail(app, page, firstId, firstTime);
    page.OpenBidForm();
    second := SubmitBidFromDetail(app, page, secondId, secondTime);
  }
}
