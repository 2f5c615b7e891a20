/** The entities of the marketplace (types.ts). Dates are integer timestamps. */
module GigTypes {

  /** A value that may be absent: `T | null`, or an optional record field. */
  datatype Option<+T> = None | Some(value: T) {
    /** `x || d` / `x ?? d`: the value if present, else the default. */
    function GetOr(default: T): T {
      match this
      case Some(v) => v
      case None => default
    }
  }

  datatype ProjectStatus = Open | InProgress | Completed

  datatype Bid = Bid(
    id: string,
    userId: string,
    userName: string,
    proposedPoints: int,
    comment: string,
    timestamp: int)

  datatype Project = Project(
    id: string,
    title: string,
    description: string,
    department: string,
    requesterName: string,
    bravoPoints: int,
    skills: seq<string>,
    status: ProjectStatus,
    bids: seq<Bid>,
    postedDate: int)

  datatype User = User(id: string, name: string, role: string, bravoBalance: int)

  datatype DuplicateCheckResult = DuplicateCheckResult(
    isDuplicate: bool,
    reason: string,
    similarProjectIds: seq<string>)

  /** `Partial<Project>`: a project record in which every field may be missing. */
  datatype ProjectDraft = ProjectDraft(
    id: Option<string>,
    title: Option<string>,
    description: Option<string>,
    department: Option<string>,
    requesterName: Option<string>,
    bravoPoints: Option<int>,
    skills: Option<seq<string>>,
    status: Option<ProjectStatus>,
    bids: Option<seq<Bid>>,
    postedDate: Option<int>)

  /** The departments a new project can be filed under, in menu order. */
  const DEPARTMENTS: seq<string> := [
    "CMP Team", "Wet Process", "Metrology", "Yield Enhancement", "Photolithography",
    "IT Support", "SSD Firmware", "Supply Chain", "Global Quality", "Facilities",
    "DRAM Product Engineering"
  ]
}
