/** The project-creation form (components/CreateProject.tsx): its fields, the
    debounced duplicate check, the feedback panel, the submit gate and the
    draft it submits. */
module CreateProject {
  import opened GigTypes

  /** The smallest title and description lengths that are worth checking, exclusive. */
  const MIN_TITLE_LENGTH := 5
  const MIN_DESCRIPTION_LENGTH := 10

  /** The initial number of points offered. */
  const DEFAULT_POINTS := 100

  /** The smallest offer the points field accepts, and the step it accepts offers in. */
  const MIN_POINTS := 50
  const POINTS_STEP := 50

  /** How many UTF-16 code units encode character `c`: two above the Basic Multilingual Plane. */
  function CodeUnits(c: char): nat {
    if c as int >= 0x1_0000 then 2 else 1
  }

  /** A string's `length`: the number of UTF-16 code units that encode it. */
  function Utf16Length(s: string): (n: nat)
    ensures |s| <= n <= 2 * |s|
    ensures (forall i :: 0 <= i < |s| ==> s[i] as int < 0x1_0000) ==> n == |s|
    decreases |s|
  {
    if s == [] then 0 else CodeUnits(s[0]) + Utf16Length(s[1..])
  }

  /** The length of a concatenation is the sum of the lengths. */
  lemma {:induction false} Utf16LengthAppend(s: string, t: string)
    ensures Utf16Length(s + t) == Utf16Length(s) + Utf16Length(t)
    decreases |s|
  {
    if s != [] {
      assert (s + t)[0] == s[0] && (s + t)[1..] == s[1..] + t;
      Utf16LengthAppend(s[1..], t);
    } else {
      assert s + t == t;
    }
  }

  /** Whether a settled form is worth sending to the duplicate check; lengths are
      counted in UTF-16 code units. */
  predicate WorthChecking(title: string, description: string) {
    Utf16Length(title) > MIN_TITLE_LENGTH && Utf16Length(description) > MIN_DESCRIPTION_LENGTH
  }

  /** Three characters outside the Basic Multilingual Plane make a title of length six,
      which is long enough to check. */
  lemma AstralTitleWorthChecking()
    ensures Utf16Length("\U{1F600}\U{1F600}\U{1F600}") == 6
    ensures WorthChecking("\U{1F600}\U{1F600}\U{1F600}", "abcdefghijk")
    ensures !WorthChecking("abc", "abcdefghijk")
  {
  }

  /** The browser's checks before a submit event: a title and a description
      (`required`), and an offer of at least `MIN_POINTS` in steps of `POINTS_STEP`
      counted from it (`min`, `step`). */
  predicate ConstraintsHold(title: string, description: string, points: int) {
    title != "" && description != "" && points >= MIN_POINTS && (points - MIN_POINTS) % POINTS_STEP == 0
  }

  // ---------------------------------------------------------------------------
  // Feedback panel and submit gate
  // ---------------------------------------------------------------------------

  /** The four feedback panels of the duplicate-check section. */
  datatype Panel = CheckingPanel | UniquePanel | DuplicatePanel | IdlePanel

  /** The panels whose render conditions hold; each condition is tested on its own. */
  function Panels(isChecking: bool, hasChecked: bool, checkResult: Option<DuplicateCheckResult>): set<Panel> {
    (if isChecking then {CheckingPanel} else {})
    + (if !isChecking && hasChecked && checkResult.Some? && !checkResult.value.isDuplicate
       then {UniquePanel} else {})
    + (if !isChecking && hasChecked && checkResult.Some? && checkResult.value.isDuplicate
       then {DuplicatePanel} else {})
    + (if !isChecking && !hasChecked then {IdlePanel} else {})
  }

  /** Exactly one panel shows whenever a finished check always has a result. */
  lemma ExactlyOnePanel(isChecking: bool, hasChecked: bool, checkResult: Option<DuplicateCheckResult>)
    requires hasChecked ==> checkResult.Some?
    ensures |Panels(isChecking, hasChecked, checkResult)| == 1
  {
  }

  /** The disabled condition of the submit button. */
  predicate SubmitDisabled(isChecking: bool, checkResult: Option<DuplicateCheckResult>) {
    isChecking || (checkResult.Some? && checkResult.value.isDuplicate)
  }

  /** When the result and the checked flag go together, submit is disabled exactly
      while the checking or the duplicate panel shows. */
  lemma SubmitDisabledIffBlockingPanel(isChecking: bool, hasChecked: bool, checkResult: Option<DuplicateCheckResult>)
    requires hasChecked <==> checkResult.Some?
    ensures SubmitDisabled(isChecking, checkResult) <==>
              (CheckingPanel in Panels(isChecking, hasChecked, checkResult)
               || DuplicatePanel in Panels(isChecking, hasChecked, checkResult))
  {
  }

  /** `handleSubmit`: the record the form hands to its parent. */
  function SubmittedDraft(title: string, description: string, department: string, points: int, postedDate: int): ProjectDraft {
    ProjectDraft(
      id := None,
      title := Some(title),
      description := Some(description),
      department := Some(department),
      requesterName := None,
      bravoPoints := Some(points),
      skills := Some([]),
      status := Some(Open),
      bids := Some([]),
      postedDate := Some(postedDate))
  }

  /** What the form asks the duplicate-check service. */
  datatype CheckQuery = CheckQuery(title: string, description: string, existingProjects: seq<Project>)

  // ---------------------------------------------------------------------------
  // The form's state machine
  // ---------------------------------------------------------------------------

  /** The form's fields and the duplicate-check flags. A timer is named by the
      number it was scheduled under; `pendingTimer` is the one not yet fired or
      cleared, and every timer scheduled so far is numbered below `nextTimer`. */
  class CreateProjectForm {
    var title: string
    var description: string
    var department: string
    var points: int
    var existingProjects: seq<Project>
    var isChecking: bool
    var checkResult: Option<DuplicateCheckResult>
    var hasChecked: bool
    var pendingTimer: Option<nat>
    var nextTimer: nat

    /** A result is present exactly when a check has finished, and the pending
        timer is one that was scheduled. */
    ghost predicate Valid()
      reads this
    {
      && (hasChecked <==> checkResult.Some?)
      && (pendingTimer.Some? ==> pendingTimer.value < nextTimer)
    }

    /** The form as first shown; the effect runs once after mounting, so timer 0 is pending. */
    constructor (existing: seq<Project>)
      ensures Valid()
      ensures title == "" && description == "" && department == DEPARTMENTS[0] && points == DEFAULT_POINTS
      ensures existingProjects == existing
      ensures !isChecking && checkResult == None && !hasChecked
      ensures pendingTimer == Some(0) && nextTimer == 1
      ensures Panels(isChecking, hasChecked, checkResult) == {IdlePanel}
      ensures !SubmitDisabled(isChecking, checkResult)
    {
      title, description, department, points := "", "", DEPARTMENTS[0], DEFAULT_POINTS;
      existingProjects := existing;
      isChecking, checkResult, hasChecked := false, None, false;
      pendingTimer, nextTimer := Some(0), 1;
    }

    /** The effect's cleanup and re-run: clear the pending timer, schedule a fresh one. */
    method Reschedule()
      requires Valid()
      modifies this`pendingTimer, this`nextTimer
      ensures Valid()
      ensures pendingTimer == Some(old(nextTimer)) && nextTimer == old(nextTimer) + 1
      ensures old(pendingTimer).Some? ==> old(pendingTimer).value != pendingTimer.value
    {
      pendingTimer := Some(nextTimer);
      nextTimer := nextTimer + 1;
    }

    /** Typing in the title; the effect re-runs only when the value changed. */
    method SetTitle(t: string)
      requires Valid()
      modifies this`title, this`pendingTimer, this`nextTimer
      ensures Valid()
      ensures title == t
      ensures t != old(title) ==> pendingTimer == Some(old(nextTimer)) && nextTimer == old(nextTimer) + 1
      ensures t == old(title) ==> pendingTimer == old(pendingTimer) && nextTimer == old(nextTimer)
    {
      if t != title {
        title := t;
        Reschedule();
      }
    }

    /** Typing in the description; the effect re-runs only when the value changed. */
    method SetDescription(d: string)
      requires Valid()
      modifies this`description, this`pendingTimer, this`nextTimer
      ensures Valid()
      ensures description == d
      ensures d != old(description) ==> pendingTimer == Some(old(nextTimer)) && nextTimer == old(nextTimer) + 1
      ensures d == old(description) ==> pendingTimer == old(pendingTimer) && nextTimer == old(nextTimer)
    {
      if d != description {
        description := d;
        Reschedule();
      }
    }

    /** The parent passes a new project list; the effect depends on it too. */
    method SetExistingProjects(ps: seq<Project>)
      requires Valid()
      modifies this`existingProjects, this`pendingTimer, this`nextTimer
      ensures Valid()
      ensures existingProjects == ps
      ensures ps != old(existingProjects) ==> pendingTimer == Some(old(nextTimer)) && nextTimer == old(nextTimer) + 1
      ensures ps == old(existingProjects) ==> pendingTimer == old(pendingTimer) && nextTimer == old(nextTimer)
    {
      if ps != existingProjects {
        existingProjects := ps;
        Reschedule();
      }
    }

    method SetDepartment(d: string)
      modifies this`department
      ensures department == d
    {
      department := d;
    }

    method SetPoints(n: int)
      modifies this`points
      ensures points == n
    {
      points := n;
    }

    /** Timer `timer` fires. A cleared timer never fires: nothing happens. The
        pending one issues a check when the form is worth checking, and
        otherwise forgets the last result. */
    method Fire(timer: nat) returns (query: Option<CheckQuery>)
      requires Valid()
      modifies this`pendingTimer, this`isChecking, this`checkResult, this`hasChecked
      ensures Valid()
      ensures old(pendingTimer) != Some(timer) ==>
                && query == None
                && pendingTimer == old(pendingTimer)
                && isChecking == old(isChecking)
                && checkResult == old(checkResult)
                && hasChecked == old(hasChecked)
      ensures old(pendingTimer) == Some(timer) ==> pendingTimer == None
      ensures old(pendingTimer) == Some(timer) && WorthChecking(title, description) ==>
                && query == Some(CheckQuery(title, description, existingProjects))
                && isChecking
                && checkResult == old(checkResult)
                && hasChecked == old(hasChecked)
      ensures old(pendingTimer) == Some(timer) && !WorthChecking(title, description) ==>
                && query == None
                && isChecking == old(isChecking)
                && checkResult == None
                && !hasChecked
    {
      query := None;
      if pendingTimer == Some(timer) {
        pendingTimer := None;
        if WorthChecking(title, description) {
          isChecking := true;
          query := Some(CheckQuery(title, description, existingProjects));
        } else {
          checkResult := None;
          hasChecked := false;
        }
      }
    }

    /** Submitting the form: a disabled submit button submits nothing, and neither does a
        form whose fields fail the browser's checks; otherwise `handleSubmit` hands the
        draft to the parent. */
    method Submit(postedDate: int) returns (draft: Option<ProjectDraft>)
      ensures draft.Some? <==>
                !SubmitDisabled(isChecking, checkResult) && ConstraintsHold(title, description, points)
      ensures draft.Some? ==> draft == Some(SubmittedDraft(title, description, department, points, postedDate))
      ensures draft.Some? ==> draft.value.title.GetOr("") != "" && draft.value.bravoPoints.GetOr(0) >= MIN_POINTS
    {
      draft := None;
      if !SubmitDisabled(isChecking, checkResult) && ConstraintsHold(title, description, points) {
        draft := Some(SubmittedDraft(title, description, department, points, postedDate));
      }
    }

    /** The issued check resolves with `result`. */
    method Resolve(result: DuplicateCheckResult)
      requires Valid()
      requires isChecking
      modifies this`isChecking, this`checkResult, this`hasChecked
      ensures Valid()
      ensures checkResult == Some(result) && hasChecked && !isChecking
      ensures Panels(isChecking, hasChecked, checkResult) ==
                if result.isDuplicate then {DuplicatePanel} else {UniquePanel}
      ensures SubmitDisabled(isChecking, checkResult) <==> result.isDuplicate
    {
      checkResult := Some(result);
      hasChecked := true;
      isChecking := false;
    }
  }
}
