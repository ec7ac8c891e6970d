/** What a sequence of CheckJobStatus calls can see: order of answers and staleness of the cache. */
module Observations {
  import opened Domain
  import opened Protocol
  import opened ProtocolSafety

  // ----- monotone observation -----

  /** No CheckJobStatus call for `id` stands between a store read of processing and its cache write. */
  ghost predicate NoStaleHolder(s: State, id: JobId) {
    forall r :: r in s.readers && s.readers[r].id == id ==> s.readers[r].pc != Holding(Processing)
  }

  /**
    The side conditions: UpdateJob does not fail while the row exists, a reader's write-back is
    not lost, and no reader holds processing at the moment of the update. Every other call may
    fail in any way.
   */
  ghost predicate Calm(s: State, a: Action) {
    && (a.Update? ==> a.call.Succeeds? && NoStaleHolder(s, a.id))
    && (a.WriteBack? ==> a.call.TakesEffect())
  }

  ghost predicate CalmRun(ss: seq<State>, acts: seq<Action>) {
    |ss| == |acts| + 1 && forall k :: 0 <= k < |acts| ==> Calm(ss[k], acts[k])
  }

  /** After the update the row, if any, is terminal and agrees with what ProcessJob announces. */
  predicate Settled(s: State, id: JobId) {
    id in s.tasks && s.tasks[id].process.After? ==>
      && s.tasks[id].held <= {Processing, s.tasks[id].process.final}
      && (id in s.rows ==> s.tasks[id].process.final in s.tasks[id].held)
  }

  predicate ReaderCalm(s: State, rd: Reader) {
    && (rd.pc == Holding(Processing) ==> !Updated(s, rd.id))
    && (rd.pc.Answered? && rd.pc.status.Terminal() ==> !CachedAs(s, rd.id, Processing))
  }

  ghost predicate CalmInv(s: State) {
    && Inv(s)
    && (forall id :: Settled(s, id))
    && (forall r :: r in s.readers ==> ReaderCalm(s, s.readers[r]))
  }

  lemma StepKeepsSettled(c: Config, s: State, a: Action, id: JobId)
    requires JobOk(s, id) && Settled(s, id) && Enabled(s, a) && Calm(s, a)
    ensures Settled(Apply(c, s, a), id)
  {
  }

  lemma StepKeepsReaderCalm(c: Config, s: State, a: Action, r: nat)
    requires CalmInv(s) && Enabled(s, a) && Calm(s, a) && r in Apply(c, s, a).readers
    ensures ReaderCalm(Apply(c, s, a), Apply(c, s, a).readers[r])
  {
    var id := Apply(c, s, a).readers[r].id;
    assert JobOk(s, id) && Settled(s, id);
    if r in s.readers {
      assert ReaderOk(s, s.readers[r]) && ReaderCalm(s, s.readers[r]);
    }
    if a.WriteBack? {
      assert ReaderOk(s, s.readers[a.r]) && ReaderCalm(s, s.readers[a.r]);
    }
  }

  lemma {:induction false} CalmInvHolds(c: Config, ss: seq<State>, acts: seq<Action>, k: nat)
    requires IsRun(c, ss, acts) && CalmRun(ss, acts) && k < |ss|
    ensures CalmInv(ss[k])
  {
    if k > 0 {
      CalmInvHolds(c, ss, acts, k - 1);
      InvHolds(c, ss, acts, k);
      assert StepAt(c, ss, acts, k - 1);
      var s, a := ss[k - 1], acts[k - 1];
      forall id ensures Settled(ss[k], id) {
        assert JobOk(s, id) && Settled(s, id);
        StepKeepsSettled(c, s, a, id);
      }
      forall r | r in ss[k].readers ensures ReaderCalm(ss[k], ss[k].readers[r]) {
        StepKeepsReaderCalm(c, s, a, r);
      }
    }
  }

  /** A finished call keeps its answer. */
  lemma StepKeepsAnswer(c: Config, s: State, a: Action, r: nat)
    requires Enabled(s, a) && r in s.readers && s.readers[r].pc.Answered?
    ensures r in Apply(c, s, a).readers && Apply(c, s, a).readers[r] == s.readers[r]
  {
  }

  lemma {:induction false} AnswerStays(c: Config, ss: seq<State>, acts: seq<Action>, i: nat, j: nat, r: nat)
    requires IsPath(c, ss, acts) && i <= j < |ss| && r in ss[i].readers && ss[i].readers[r].pc.Answered?
    ensures r in ss[j].readers && ss[j].readers[r] == ss[i].readers[r]
  {
    if i < j {
      AnswerStays(c, ss, acts, i, j - 1, r);
      assert StepAt(c, ss, acts, j - 1);
      StepKeepsAnswer(c, ss[j - 1], acts[j - 1], r);
    }
  }

  /** In a calm state whose job was already answered as terminal, the next answer is the same. */
  lemma NextAnswer(c: Config, s: State, a: Action, seen: nat)
    requires CalmInv(s) && Enabled(s, a) && (a.CacheRead? || a.WriteBack?)
    requires seen in s.readers && s.readers[seen].id == s.readers[a.r].id
    requires s.readers[seen].pc.Answered? && s.readers[seen].pc.status.Terminal()
    ensures Apply(c, s, a).readers[a.r].pc.Answered? ==> Apply(c, s, a).readers[a.r].pc == s.readers[seen].pc
  {
    var id := s.readers[a.r].id;
    assert JobOk(s, id) && Settled(s, id);
    assert ReaderOk(s, s.readers[seen]) && ReaderCalm(s, s.readers[seen]);
    assert ReaderOk(s, s.readers[a.r]) && ReaderCalm(s, s.readers[a.r]);
  }

  /**
    In a calm run the answers for a job go from processing to at most one terminal status and
    never back, through cache expiries, early evictions, cleanups and read-through refills.
   */
  lemma MonotoneObservation(
      c: Config, ss: seq<State>, acts: seq<Action>, i: nat, j: nat, id: JobId, first: JobStatus, second: JobStatus)
    requires IsRun(c, ss, acts) && CalmRun(ss, acts)
    requires i < j && Answers(ss, acts, i, id, first) && Answers(ss, acts, j, id, second)
    ensures first == second || (first.Processing? && second.Terminal())
  {
    var seen := acts[i].r;
    InvHolds(c, ss, acts, i + 1);
    assert ReaderOk(ss[i + 1], ss[i + 1].readers[seen]) && JobOk(ss[i + 1], id);
    InvHolds(c, ss, acts, j + 1);
    assert ReaderOk(ss[j + 1], ss[j + 1].readers[acts[j].r]) && JobOk(ss[j + 1], id);
    AnswerStays(c, ss, acts, i + 1, j, seen);
    CalmInvHolds(c, ss, acts, j);
    assert StepAt(c, ss, acts, j);
    if first.Terminal() {
      NextAnswer(c, ss[j], acts[j], seen);
    }
  }
}
