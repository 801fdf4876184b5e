/**
 The distributed store provides the store that authentication relies on (src/auth_cache.rs,
 src/redis_replay.rs): the commands Redis applied, read in order, behave as the atomic
 check-and-set of `ReplayMarks`.
 */
module SharedReplay {
  import opened DpopProof
  import ReplayMarks
  import opened RedisReplay

  /** The jtis remembered after the commands of a log. */
  function SeenAfter(log: seq<Entry>): ReplayMarks.Seen {
    if log == [] then map[]
    else
      var e, before := log[|log| - 1], SeenAfter(log[..|log| - 1]);
      if e.op.Mark? then ReplayMarks.Marked(before, e.op.jti, TtlMillis(e.op.ttlNanos), e.at) else before
  }

  lemma PrefixCorrect(log: seq<Entry>, k: nat)
    requires LogCorrect(log) && k <= |log|
    ensures LogCorrect(log[..k])
  {
  }

  lemma PrefixMarked(log: seq<Entry>, k: nat, i: nat, jti: string, at: nat)
    requires i <= k <= |log|
    ensures MarkedBefore(log[..k], i, jti, at) <==> MarkedBefore(log, i, jti, at)
  {
  }

  /** One more command: marked before it, or by it. */
  lemma MarkedNext(log: seq<Entry>, jti: string, at: nat)
    requires log != []
    ensures MarkedBefore(log, |log|, jti, at)
            <==> MarkedBefore(log, |log| - 1, jti, at) || Covers(log[|log| - 1], jti, at)
  {
  }

  /** What the log says is remembered is what the check-and-set remembers. */
  lemma {:induction false} RemembersIsMarked(log: seq<Entry>, jti: string, at: nat)
    requires LogCorrect(log) && (forall k :: 0 <= k < |log| ==> log[k].at <= at)
    ensures ReplayMarks.Remembers(SeenAfter(log), jti, at) <==> MarkedBefore(log, |log|, jti, at)
  {
    if log != [] {
      var n := |log| - 1;
      var e, before := log[n], log[..n];
      PrefixCorrect(log, n);
      RemembersIsMarked(before, jti, at);
      PrefixMarked(log, n, n, jti, at);
      MarkedNext(log, jti, at);
      if e.op.Mark? && e.op.jti == jti {
        RemembersIsMarked(before, jti, e.at);
        PrefixMarked(log, n, n, jti, e.at);
        if IsNew(e) { NoneStillCovers(log, n, jti, at); }
      }
    }
  }

  /** After a New mark no earlier mark of that jti is still within its time to live. */
  lemma NoneStillCovers(log: seq<Entry>, n: nat, jti: string, at: nat)
    requires LogCorrect(log) && n < |log| && IsNew(log[n]) && log[n].op.jti == jti && log[n].at <= at
    ensures !MarkedBefore(log, n, jti, at)
  {
  }

  /** Every logged mark got the answer, and left the memory, that the check-and-set gives. */
  lemma LogIsCheckAndSet(log: seq<Entry>, k: nat)
    requires LogCorrect(log) && k < |log| && log[k].op.Mark?
    ensures var op, before := log[k].op, SeenAfter(log[..k]);
            var (after, r) := ReplayMarks.MarkOutcome(before, op.jti, TtlMillis(op.ttlNanos), log[k].at,
                                                      ReplayMarks.Up);
            after == SeenAfter(log[..k + 1]) && (r == ReplayMarks.New <==> log[k].reply == New)
                && (r == ReplayMarks.Replay <==> log[k].reply == Replay)
  {
    PrefixCorrect(log, k);
    RemembersIsMarked(log[..k], log[k].op.jti, log[k].at);
    PrefixMarked(log, k, k, log[k].op.jti, log[k].at);
    assert log[..k + 1][..k] == log[..k];
  }

  /** In every run of the distributed store the log behaves so. */
  lemma RunsAreCheckAndSet(r: Run, s: nat, k: nat)
    requires ValidRun(r) && s < |r.states| && k < |r.states[s].log| && r.states[s].log[k].op.Mark?
    ensures var log := r.states[s].log;
            var op := log[k].op;
            var (after, reply) := ReplayMarks.MarkOutcome(SeenAfter(log[..k]), op.jti, TtlMillis(op.ttlNanos),
                                                          log[k].at, ReplayMarks.Up);
            after == SeenAfter(log[..k + 1]) && (reply == ReplayMarks.New <==> log[k].reply == New)
  {
    Reachable(r, s);
    LogIsCheckAndSet(r.states[s].log, k);
  }

  /** The replay window survives the conversion to milliseconds unshortened. */
  lemma WindowIsKept(p: Policy)
    requires 1000 * Window(p) <= U64_MAX
    ensures TtlMillis(1_000_000_000 * Window(p)) == ReplayMarks.Ttl(p)
  {
  }
}
