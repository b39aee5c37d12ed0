/** The ticket state machine and the database trigger that repeats it on the stored row. */
module Fsm {
  import opened Wrappers

  datatype Status =
    | Created | Waiting | Called | InService | Hold | Transferred
    | Completed | Canceled | NoShow

  /** Every event type but one is named after the status the ticket enters. */
  datatype EventType = Entered(status: Status) | NoteAdded

  datatype InvalidTransition = InvalidTransition(fromStatus: Status, toStatus: Status)

  /** `is_terminal`. */
  predicate IsTerminal(s: Status) {
    s == Completed || s == Canceled || s == NoShow
  }

  /** `VALID_TRANSITIONS`. */
  function ValidTargets(s: Status): set<Status> {
    match s
    case Created => {Waiting, Canceled}
    case Waiting => {Called, Canceled, NoShow}
    case Called => {InService, Waiting, NoShow, Canceled}
    case InService => {Completed, Hold, Transferred, Canceled}
    case Hold => {Waiting, Canceled}
    case Transferred => {Waiting}
    case Completed => {}
    case Canceled => {}
    case NoShow => {}
  }

  /** `TRANSITION_EVENT`: nine listed pairs, then every legal cancellation and no-show. */
  function TransitionEvent(fromStatus: Status, toStatus: Status): Option<EventType> {
    match (fromStatus, toStatus)
    case (Created, Waiting) => Some(Entered(Waiting))
    case (Waiting, Called) => Some(Entered(Called))
    case (Called, InService) => Some(Entered(InService))
    case (Called, Waiting) => Some(Entered(Waiting))
    case (InService, Completed) => Some(Entered(Completed))
    case (InService, Hold) => Some(Entered(Hold))
    case (InService, Transferred) => Some(Entered(Transferred))
    case (Hold, Waiting) => Some(Entered(Waiting))
    case (Transferred, Waiting) => Some(Entered(Waiting))
    case (_, Canceled) => if Canceled in ValidTargets(fromStatus) then Some(Entered(Canceled)) else None
    case (_, NoShow) => if NoShow in ValidTargets(fromStatus) then Some(Entered(NoShow)) else None
    case (_, _) => None
  }

  /** `transition`: statuses are typed here, so its two unknown-string errors cannot arise. */
  function Transition(current: Status, target: Status): (r: Result<Status, InvalidTransition>)
    ensures r.Ok? ==> r.value == target && !IsTerminal(current) && current != target
    ensures r.Err? ==> r.error == InvalidTransition(current, target)
  {
    if target in ValidTargets(current) then Ok(target) else Err(InvalidTransition(current, target))
  }

  /** `event_type_for`: whatever the pair, the event names the status entered. */
  function EventTypeFor(fromStatus: Status, toStatus: Status): (e: EventType)
    ensures e == Entered(toStatus)
  {
    match TransitionEvent(fromStatus, toStatus)
    case Some(e) => e
    case None => Entered(toStatus)
  }

  /** Body of the trigger `check_ticket_status_transition`: false where it raises. */
  predicate TriggerAllows(oldStatus: Status, newStatus: Status) {
    oldStatus != newStatus ==>
      match oldStatus
      case Created => newStatus in {Waiting, Canceled}
      case Waiting => newStatus in {Called, Canceled, NoShow}
      case Called => newStatus in {InService, Waiting, NoShow, Canceled}
      case InService => newStatus in {Completed, Hold, Transferred, Canceled}
      case Hold => newStatus in {Waiting, Canceled}
      case Transferred => newStatus == Waiting
      case Completed => false
      case Canceled => false
      case NoShow => false
  }

  /** A stutter or an edge of the table. */
  predicate Moves(a: Status, b: Status) {
    a == b || b in ValidTargets(a)
  }

  /** The trigger accepts exactly the stutters and the edges of the Python table. */
  lemma TriggerIsTable(oldStatus: Status, newStatus: Status)
    ensures TriggerAllows(oldStatus, newStatus) <==> Moves(oldStatus, newStatus)
  {
  }

  /** The arrows of the documented diagram. */
  const DIAGRAM: set<(Status, Status)> := {
    (Created, Waiting), (Created, Canceled),
    (Waiting, Called), (Waiting, Canceled), (Waiting, NoShow),
    (Called, InService), (Called, NoShow), (Called, Canceled), (Called, Waiting),
    (InService, Completed), (InService, Canceled), (InService, Hold), (InService, Transferred),
    (Hold, Waiting), (Transferred, Waiting)
  }

  /** The table has those arrows and one more: a ticket on hold can be canceled. */
  lemma TableIsDiagram(a: Status, b: Status)
    ensures b in ValidTargets(a) <==> (a, b) in DIAGRAM || (a, b) == (Hold, Canceled)
  {
  }
}
