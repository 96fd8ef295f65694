/** The authoritative task and stage transition tables. */
module TaskState {
  import opened Common

  datatype TaskStatus = Pending | Leased | Running | Succeeded | Failed | Cancelled {

    predicate Terminal() {
      Succeeded? || Failed? || Cancelled?
    }
  }

  datatype StageStatus = Pending | Leased | Running | Succeeded | Failed | Cancelled | Skipped {

    /** Held by a worker. */
    predicate Active() {
      Leased? || Running?
    }

    /** What a dependent stage waits for. */
    predicate Done() {
      Succeeded? || Skipped?
    }

    /** Pending, leased or running: what a cancellation sweeps up. */
    predicate Open() {
      Pending? || Active()
    }

    predicate Terminal() {
      !Open()
    }
  }

  function TaskTransitions(current: TaskStatus): set<TaskStatus> {
    match current
    case Pending => {TaskStatus.Leased, TaskStatus.Cancelled}
    case Leased =>
      {TaskStatus.Pending, TaskStatus.Running, TaskStatus.Succeeded, TaskStatus.Failed, TaskStatus.Cancelled}
    case Running => {TaskStatus.Succeeded, TaskStatus.Failed, TaskStatus.Cancelled}
    case Succeeded => {}
    case Failed => {TaskStatus.Pending}
    case Cancelled => {TaskStatus.Pending}
  }

  function StageTransitions(current: StageStatus): set<StageStatus> {
    match current
    case Pending => {StageStatus.Leased, StageStatus.Cancelled, StageStatus.Skipped}
    case Leased => {StageStatus.Pending, StageStatus.Running, StageStatus.Failed, StageStatus.Cancelled}
    case Running => {StageStatus.Succeeded, StageStatus.Failed, StageStatus.Cancelled}
    case Succeeded => {}
    case Failed => {StageStatus.Pending, StageStatus.Skipped}
    case Cancelled => {StageStatus.Pending}
    case Skipped => {}
  }

  function RequireTask(current: TaskStatus, target: TaskStatus): Result<()> {
    Require(target in TaskTransitions(current), InvalidTaskTransition)
  }

  function RequireStage(current: StageStatus, target: StageStatus): Result<()> {
    Require(target in StageTransitions(current), InvalidStageTransition)
  }

  /** One or two edges of the table: a retry passes through Failed without storing it. */
  predicate StagePath(current: StageStatus, target: StageStatus) {
    || target == current
    || target in StageTransitions(current)
    || (StageStatus.Failed in StageTransitions(current) && target in StageTransitions(StageStatus.Failed))
  }

  /** Nothing leaves success, and a finished task only goes back to pending. */
  lemma TaskTableShape(current: TaskStatus, target: TaskStatus)
    requires target in TaskTransitions(current)
    ensures current != target && !current.Succeeded?
    ensures current.Terminal() ==> target.Pending?
    ensures target.Pending? ==> current.Leased? || current.Terminal()
    ensures target.Leased? ==> current.Pending?
    ensures target.Running? ==> current.Leased?
    ensures target.Succeeded? || target.Failed? ==> current.Leased? || current.Running?
  {
  }

  /** The same for stages: what is done stays, and a stage is skipped only from pending or failed. */
  lemma StageTableShape(current: StageStatus, target: StageStatus)
    requires target in StageTransitions(current)
    ensures current != target && !current.Done()
    ensures target.Pending? ==> current.Leased? || current.Failed? || current.Cancelled?
    ensures target.Leased? ==> current.Pending?
    ensures target.Running? ==> current.Leased?
    ensures target.Succeeded? ==> current.Running?
    ensures target.Failed? ==> current.Active()
    ensures target.Skipped? ==> current.Pending? || current.Failed?
    ensures target.Cancelled? ==> current.Open()
  {
  }
}
