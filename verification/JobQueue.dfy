/**
 * Durable job dispatch: `RedisJobQueue` and `InMemoryJobQueue` of
 * backend/app/services/queue.py, as classes over the structures they mutate, each
 * method proved against a function on the queue's value.
 */
module JobQueue {
  import opened Wrappers

  type JobId = nat
  type RowId = nat

  /** What a job asks for; `None` is a payload without a usable row id. */
  datatype Work = ExecuteRun(run: Option<RowId>) | IngestDocument(document: Option<RowId>) | UnknownType

  datatype Job = Job(id: JobId, work: Work, attempts: nat)

  /** A value of the data hash: what `_dump` wrote, or text `_load` cannot read. */
  datatype Raw = Dumped(job: Job) | Unreadable

  function Load(raw: Raw): Option<Job>
  {
    match raw
    case Dumped(job) => Some(job)
    case Unreadable => None
  }

  /** How many more times a job can be handled; a job is handled at least once. */
  function Left(job: Job, maxAttempts: nat): nat
  {
    if job.attempts < maxAttempts then maxAttempts - job.attempts else 1
  }

  // -------------------------------------------------------- the Redis queue

  datatype Redis = Redis(
    data: map<JobId, Raw>, pending: seq<JobId>, inflight: map<JobId, Time>, dead: seq<Job>)

  function PutNew(q: Redis, job: Job): Redis
  {
    q.(data := q.data[job.id := Dumped(job)], pending := q.pending + [job.id])
  }

  /** `blpop`, `hget`, and `zadd` unless the job is gone or unreadable. */
  function TakeNext(q: Redis, deadline: Time): (Redis, Option<Job>)
  {
    if q.pending == [] then (q, None)
    else
      var id, popped := q.pending[0], q.(pending := q.pending[1..]);
      if id !in q.data then (popped, None)
      else
        match Load(q.data[id])
        case None => (popped.(data := q.data - {id}), None)
        case Some(job) => (popped.(inflight := q.inflight[id := deadline]), Some(job))
  }

  function Settle(q: Redis, job: Job): Redis
  {
    q.(inflight := q.inflight - {job.id}, data := q.data - {job.id})
  }

  /** One more attempt recorded: back to pending, or to the dead letters. */
  function PutBack(q: Redis, job: Job, maxAttempts: nat): Redis
  {
    var attempted := job.(attempts := job.attempts + 1);
    if attempted.attempts >= maxAttempts then Settle(q, job).(dead := q.dead + [attempted])
    else
      q.(data := q.data[job.id := Dumped(attempted)],
         inflight := q.inflight - {job.id},
         pending := q.pending + [job.id])
  }

  function RecoverOne(q: Redis, id: JobId, maxAttempts: nat): Redis
  {
    if id !in q.data then q.(inflight := q.inflight - {id})
    else
      match Load(q.data[id])
      case None => q.(inflight := q.inflight - {id}, data := q.data - {id})
      case Some(job) => PutBack(q, job, maxAttempts)
  }

  function Recover(q: Redis, expired: seq<JobId>, maxAttempts: nat): Redis
  {
    if expired == [] then q
    else RecoverOne(Recover(q, expired[..|expired| - 1], maxAttempts), expired[|expired| - 1], maxAttempts)
  }

  /** What `zrangebyscore` may answer at `now`: the lapsed ids, each once, in some order. */
  ghost predicate IsLapsed(expired: seq<JobId>, inflight: map<JobId, Time>, now: Time)
  {
    && (forall id :: id in expired <==> id in inflight && inflight[id] <= now)
    && (forall i, j :: 0 <= i < j < |expired| ==> expired[i] != expired[j])
  }

  type Query = (map<JobId, Time>, Time) -> seq<JobId>

  ghost predicate Answers(query: Query)
  {
    forall inflight, now :: IsLapsed(query(inflight, now), inflight, now)
  }

  /** What is dealt with when the connection fails after `cut` items, if it does. */
  function Upto<T>(items: seq<T>, cut: Option<nat>): (reached: seq<T>)
    ensures reached <= items
    ensures |reached| == if cut.Some? && cut.value < |items| then cut.value else |items|
  {
    if cut.Some? && cut.value < |items| then items[..cut.value] else items
  }

  /** Where a claim that raises had got: nowhere, past its pop, or past its write. */
  datatype ClaimFailure = BeforePop | AfterPop | AfterWrite

  function LoseClaim(q: Redis, failure: ClaimFailure, deadline: Time): Redis
  {
    match failure
    case BeforePop => q
    case AfterPop => if q.pending == [] then q else q.(pending := q.pending[1..])
    case AfterWrite => TakeNext(q, deadline).0
  }

  class RedisJobQueue {
    var data: map<JobId, Raw>
    var pending: seq<JobId>
    var inflight: map<JobId, Time>
    var dead: seq<Job>
    const maxAttempts: nat
    const visibility: Time
    const lapsed: Query

    function State(): Redis
      reads this
    {
      Redis(data, pending, inflight, dead)
    }

    constructor (maxAttempts: nat, visibility: Time, lapsed: Query)
      ensures State() == Redis(map[], [], map[], [])
      ensures this.maxAttempts == maxAttempts && this.visibility == visibility && this.lapsed == lapsed
    {
      data, pending, inflight, dead := map[], [], map[], [];
      this.maxAttempts, this.visibility, this.lapsed := maxAttempts, visibility, lapsed;
    }

    /** `uuid` is the new random id. */
    method Enqueue(uuid: JobId, work: Work)
      modifies this
      ensures State() == PutNew(old(State()), Job(uuid, work, 0))
    {
      var job := Job(uuid, work, 0);
      data := data[job.id := Dumped(job)];
      pending := pending + [job.id];
    }

    method Claim(now: Time) returns (claimed: Option<Job>)
      modifies this
      ensures (State(), claimed) == TakeNext(old(State()), now + visibility)
    {
      if pending == [] {
        return None;
      }
      var jobId := pending[0];
      pending := pending[1..];
      if jobId !in data {
        return None;
      }
      claimed := Load(data[jobId]);
      if claimed == None {
        data := data - {jobId};
        return None;
      }
      inflight := inflight[jobId := now + visibility];
    }

    /** A claim that raises: nobody has the job, whatever was done to the queue. */
    method FailClaim(now: Time, failure: ClaimFailure)
      modifies this
      ensures State() == LoseClaim(old(State()), failure, now + visibility)
    {
      match failure {
        case BeforePop =>
        case AfterPop =>
          if pending != [] {
            pending := pending[1..];
          }
        case AfterWrite =>
          var _ := Claim(now);
      }
    }

    method Ack(job: Job)
      modifies this
      ensures State() == Settle(old(State()), job)
    {
      inflight := inflight - {job.id};
      data := data - {job.id};
    }

    method Retry(job: Job) returns (again: bool)
      modifies this
      ensures State() == PutBack(old(State()), job, maxAttempts)
      ensures again <==> job.attempts + 1 < maxAttempts
    {
      var attempted := job.(attempts := job.attempts + 1);
      if attempted.attempts >= maxAttempts {
        inflight := inflight - {job.id};
        data := data - {job.id};
        dead := dead + [attempted];
        return false;
      }
      data := data[job.id := Dumped(attempted)];
      inflight := inflight - {job.id};
      pending := pending + [job.id];
      return true;
    }

    /** The lapsed jobs, or the first of them if the connection fails, are retried. */
    method RecoverExpired(now: Time, cut: Option<nat>) returns (recovered: nat)
      modifies this
      ensures State() == Recover(old(State()), Upto(lapsed(old(inflight), now), cut), maxAttempts)
      ensures |pending| == |old(pending)| + recovered
    {
      recovered := 0;
      var expired := Upto(lapsed(inflight, now), cut);
      for i := 0 to |expired|
        invariant State() == Recover(old(State()), expired[..i], maxAttempts)
        invariant |pending| == |old(pending)| + recovered
      {
        assert expired[..i + 1][..i] == expired[..i];
        var jobId := expired[i];
        if jobId !in data {
          inflight := inflight - {jobId};
          continue;
        }
        var job := Load(data[jobId]);
        if job == None {
          inflight := inflight - {jobId};
          data := data - {jobId};
          continue;
        }
        var again := Retry(job.value);
        if again {
          recovered := recovered + 1;
        }
      }
      assert expired[..|expired|] == expired;
    }
  }

  // ---------------------------------------------------- the in-memory queue

  /** The abstract queue: jobs waiting, jobs given up on. */
  datatype Memory = Memory(pending: seq<Job>, dead: seq<Job>)

  function Requeue(q: Memory, job: Job, maxAttempts: nat): Memory
  {
    var attempted := job.(attempts := job.attempts + 1);
    if attempted.attempts >= maxAttempts then q.(dead := q.dead + [attempted])
    else q.(pending := q.pending + [attempted])
  }

  class InMemoryJobQueue {
    var pending: seq<Job>
    var dead: seq<Job>
    const maxAttempts: nat

    function State(): Memory
      reads this
    {
      Memory(pending, dead)
    }

    constructor (maxAttempts: nat)
      ensures State() == Memory([], []) && this.maxAttempts == maxAttempts
    {
      pending, dead, this.maxAttempts := [], [], maxAttempts;
    }

    method Enqueue(uuid: JobId, work: Work)
      modifies this
      ensures State() == old(State()).(pending := old(pending) + [Job(uuid, work, 0)])
    {
      pending := pending + [Job(uuid, work, 0)];
    }

    method Claim() returns (claimed: Option<Job>)
      modifies this
      ensures if old(pending) == [] then claimed == None && State() == old(State())
              else claimed == Some(old(pending)[0]) && State() == old(State()).(pending := old(pending)[1..])
    {
      if pending == [] {
        return None;
      }
      claimed := Some(pending[0]);
      pending := pending[1..];
    }

    method Ack(job: Job)
      ensures State() == old(State())
    {
    }

    method Retry(job: Job) returns (again: bool)
      modifies this
      ensures State() == Requeue(old(State()), job, maxAttempts)
      ensures again <==> job.attempts + 1 < maxAttempts
    {
      var attempted := job.(attempts := job.attempts + 1);
      if attempted.attempts >= maxAttempts {
        dead := dead + [attempted];
        return false;
      }
      pending := pending + [attempted];
      return true;
    }
  }
}
