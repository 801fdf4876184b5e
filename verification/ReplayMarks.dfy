/**
 The replay store as its users see it (src/auth_cache.rs, src/redis_replay.rs): an atomic
 check-and-set of a `jti` with a time to live, which may fail, before or after taking effect.
 */
module ReplayMarks {
  import opened DpopProof

  /** Remembered jtis, each with the instant (in milliseconds) it is forgotten. */
  type Seen = map<string, int>

  datatype MarkResult = New | Replay | BackendError
  datatype Backend = Up | Down(tookEffect: bool)

  /** The environment of one request: the clock reading in seconds, the instant of the mark, the
      later clock reading an insertion uses, and how the store's backend behaves. */
  datatype Moment = Moment(now: int, markAt: int, insertNow: int, backend: Backend)

  predicate Remembers(seen: Seen, jti: string, at: int) { jti in seen && at < seen[jti] }

  function Marked(seen: Seen, jti: string, ttl: nat, at: int): Seen {
    if Remembers(seen, jti, at) then seen else seen[jti := at + ttl]
  }

  function MarkOutcome(seen: Seen, jti: string, ttl: nat, at: int, backend: Backend): (Seen, MarkResult) {
    match backend
    case Up => (Marked(seen, jti, ttl, at), if Remembers(seen, jti, at) then Replay else New)
    case Down(took) => (if took then Marked(seen, jti, ttl, at) else seen, BackendError)
  }

  function Ttl(p: Policy): nat { 1000 * Window(p) }

  /** Marking the jti of an otherwise good proof, and whether the request is admitted. */
  function Admit(p: Policy, seen: Seen, jti: string, m: Moment): (Seen, bool) {
    var (after, r) := MarkOutcome(seen, jti, Ttl(p), m.markAt, m.backend);
    (after, r == New || (r == BackendError && !p.failClosed))
  }

  class ReplayStore {
    var seen: Seen

    constructor ()
      ensures seen == map[]
    {
      seen := map[];
    }

    method Mark(jti: string, ttl: nat, at: int, backend: Backend) returns (r: MarkResult)
      modifies this
      ensures (seen, r) == MarkOutcome(old(seen), jti, ttl, at, backend)
    {
      if backend.Down? && !backend.tookEffect { return BackendError; }
      var unseen := !Remembers(seen, jti, at);
      if unseen { seen := seen[jti := at + ttl]; }
      return if backend.Down? then BackendError else if unseen then New else Replay;
    }
  }
}
