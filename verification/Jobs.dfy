/** Jobs as workers, the gateway and clients speak of them. */
module Jobs {
  import opened Options

  type JobId = int

  datatype Status = Queued | Processing | Done | Failed

  predicate Terminal(status: Status) { status.Done? || status.Failed? }

  /** The rest of what a worker says: where the job belongs, how far it is, and the time the event goes by. */
  datatype News = News(room: string, item: string, progress: real, message: Option<string>, error: Option<string>,
                       strategy: Option<string>, at: int)

  datatype JobEvent = JobEvent(job: JobId, status: Status, artifacts: seq<string>, news: News)
}
