/** The project detail page (components/ProjectDetail.tsx): the bid form and the
    handover-document generator. */
module ProjectDetail {
  import opened GigTypes

  /** The code context sent when no snippet was pasted. */
  const NO_SNIPPET := "No specific code snippet provided. Please generate generic structure."

  /** `solutionCode || NO_SNIPPET`: the pasted snippet, or the placeholder for an empty one. */
  function CodeContext(solutionCode: string): (context: string)
    ensures context != ""
    ensures solutionCode != "" ==> context == solutionCode
    ensures solutionCode == "" ==> context == NO_SNIPPET
  {
    if solutionCode != "" then solutionCode else NO_SNIPPET
  }

  /** The call `onPlaceBid(projectId, bid)` that the page makes to its parent. */
  datatype BidReport = BidReport(projectId: string, bid: Bid)

  /** The call made to the handover-document service. */
  datatype DocsRequest = DocsRequest(projectTitle: string, repoUrl: string, codeContext: string)

  /** The detail page of one project, seen by one user. */
  class ProjectDetailView {
    var project: Project
    const currentUser: User
    var bidAmount: int
    var bidComment: string
    var showBidForm: bool
    var showHandover: bool
    var repoUrl: string
    var solutionCode: string
    var isGeneratingDocs: bool
    var generatedDocs: string

    /** The page as first shown: the bid is pre-filled with the offered points and both sub-forms are closed. */
    constructor (project: Project, currentUser: User)
      ensures this.project == project && this.currentUser == currentUser
      ensures bidAmount == project.bravoPoints && bidComment == "" && !showBidForm
      ensures !showHandover && repoUrl == "" && solutionCode == ""
      ensures !isGeneratingDocs && generatedDocs == ""
      ensures GenerateDisabled() && !GenerateButtonShown()
    {
      this.project := project;
      this.currentUser := currentUser;
      bidAmount, bidComment, showBidForm := project.bravoPoints, "", false;
      showHandover, repoUrl, solutionCode := false, "", "";
      isGeneratingDocs, generatedDocs := false, "";
    }

    /** The generate button is disabled while a request is pending or no repository is given. */
    predicate GenerateDisabled()
      reads this
    {
      isGeneratingDocs || repoUrl == ""
    }

    /** The generate button is on screen while the handover form is open and no document is shown. */
    predicate GenerateButtonShown()
      reads this
    {
      showHandover && generatedDocs == ""
    }

    method OpenBidForm()
      modifies this`showBidForm
      ensures showBidForm
    {
      showBidForm := true;
    }

    method CancelBidForm()
      modifies this`showBidForm
      ensures !showBidForm
    {
      showBidForm := false;
    }

    method SetBidAmount(amount: int)
      modifies this`bidAmount
      ensures bidAmount == amount
    {
      bidAmount := amount;
    }

    method SetBidComment(comment: string)
      modifies this`bidComment
      ensures bidComment == comment
    {
      bidComment := comment;
    }

    /** Submitting the bid form. Only an open form can be submitted, and the browser
        refuses one with no comment (`required`); otherwise `handleBidSubmit` builds a
        bid from the current user and the form, reports it once for this project, and
        closes the form. The id and the time are supplied by the caller. */
    method SubmitBid(bidId: string, timestamp: int) returns (report: Option<BidReport>)
      modifies this`showBidForm
      ensures report.Some? <==> old(showBidForm) && bidComment != ""
      ensures report.Some? ==>
                && report == Some(BidReport(project.id,
                                            Bid(bidId, currentUser.id, currentUser.name, bidAmount, bidComment, timestamp)))
                && !showBidForm
      ensures report.None? ==> showBidForm == old(showBidForm)
    {
      report := None;
      if showBidForm && bidComment != "" {
        var bid := Bid(bidId, currentUser.id, currentUser.name, bidAmount, bidComment, timestamp);
        report := Some(BidReport(project.id, bid));
        showBidForm := false;
      }
    }

    /** The parent re-renders the page with a new `project`; the page's own state is
        kept, since its initial values are taken only when it is first shown. */
    method ReceiveProject(p: Project)
      modifies this`project
      ensures project == p
    {
      project := p;
    }

    method OpenHandover()
      modifies this`showHandover
      ensures showHandover
    {
      showHandover := true;
    }

    method SetRepoUrl(url: string)
      modifies this`repoUrl
      ensures repoUrl == url
    {
      repoUrl := url;
    }

    method SetSolutionCode(code: string)
      modifies this`solutionCode
      ensures solutionCode == code
    {
      solutionCode := code;
    }

    /** `handleGenerateDocs`, up to the point where it awaits the service: without a
        repository URL nothing happens; otherwise the request is pending. */
    method GenerateDocs() returns (request: Option<DocsRequest>)
      modifies this`isGeneratingDocs
      ensures repoUrl == "" ==> request == None && isGeneratingDocs == old(isGeneratingDocs)
      ensures repoUrl != "" ==>
                && request == Some(DocsRequest(project.title, repoUrl, CodeContext(solutionCode)))
                && isGeneratingDocs
    {
      if repoUrl == "" {
        return None;
      }
      isGeneratingDocs := true;
      request := Some(DocsRequest(project.title, repoUrl, CodeContext(solutionCode)));
    }

    /** A click on the generate button: a disabled or hidden button does nothing, so a
        request goes out only when none is pending. */
    method ClickGenerate() returns (request: Option<DocsRequest>)
      modifies this`isGeneratingDocs
      ensures request.Some? ==> !old(isGeneratingDocs) && old(GenerateButtonShown())
      ensures request.Some? <==> old(GenerateButtonShown()) && !old(GenerateDisabled())
      ensures request.Some? ==>
                && request == Some(DocsRequest(project.title, repoUrl, CodeContext(solutionCode)))
                && isGeneratingDocs
      ensures request.None? ==> isGeneratingDocs == old(isGeneratingDocs)
    {
      request := None;
      if GenerateButtonShown() && !GenerateDisabled() {
        request := GenerateDocs();
      }
    }

    /** The pending request resolves with the generated text. */
    method DocsGenerated(docs: string)
      requires isGeneratingDocs
      modifies this`isGeneratingDocs, this`generatedDocs
      ensures generatedDocs == docs && !isGeneratingDocs
      ensures docs != "" ==> !GenerateButtonShown()
    {
      generatedDocs := docs;
      isGeneratingDocs := false;
    }

    /** "Reset & Try Again": discard the document, bringing the generate button back. */
    method ResetDocs()
      modifies this`generatedDocs
      ensures generatedDocs == ""
      ensures GenerateButtonShown() == showHandover
    {
      generatedDocs := "";
    }
  }
}
