/** Wire types shared by relay, agent and push (src/proto.rs). */
module Proto {
  import opened Wrappers

  /** An agent job id. Ids are only compared, so a number stands for each, in
      the order of their spelling. */
  type Id = nat

  datatype Status = Updated | Unchanged | RolledBack | Offline | Failed {
    predicate Ok() {
      Updated? || Unchanged?
    }
  }

  /** Unknown stands for whatever another version of the program may write. */
  datatype JobState = Pending | Running | Done | Unknown {
    predicate Live() {
      Pending? || Running?
    }
  }

  datatype DoneBody = DoneBody(status: Status, generation: Option<nat>, revision: Option<string>, tail: seq<string>)

  const FAILED := DoneBody(Failed, None, None, [])

  /** Who asked for a job, recorded in the job table. */
  datatype Caller = Caller(caller: string, name: string, clientId: string)

  datatype JobRef = JobRef(id: Id, flakelet: string, state: JobState, who: Caller, created: nat,
                           finished: Option<nat>, status: Option<Status>,
                           generation: Option<nat>, revision: Option<string>)

  datatype Named = Named(name: string, generation: Option<nat>, revision: Option<string>)

  /** Frames from an agent that concern a job or the host. */
  datatype Frame =
    | Ack(id: Id, accepted: bool, reason: string)
    | Log(id: Id, seqno: nat, line: string)
    | Progress(id: Id)
    | Done(id: Id, body: DoneBody)
    | Job(job: JobRef)
    | Flakelets(flakelets: seq<Named>)
    | Error(id: Id, code: string)

  datatype TargetStatus = TargetStatus(target: string, status: Status)

  /** Server-sent events to a client. */
  datatype Event =
    | Accepted(job: string)
    | Wave(index: nat)
    | Log(target: string, seqno: nat, line: string)
    | Progress(target: string)
    | Done(target: string, body: DoneBody)
    | Result(ok: bool, targets: seq<TargetStatus>, skipped: seq<string>)
}
