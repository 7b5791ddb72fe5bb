/** Matching JSON-RPC responses to requests (crates/rustykrab-channels/src/mcp.rs): any number of
    concurrent requesters, one reader, and timeouts, interleaved at every access to shared state.

    The identifier counter and the pending map are a class whose methods are the atomic accesses; the
    machine below is stated over the same functions. */
module Mcp {
  import opened Options
  import opened Json
  import opened Runs

  // What a response carries: its result, or its error as text.
  type Reply = Outcome<Json, string>

  /** `next_id`, and the requester whose sender is pending under each identifier. */
  datatype Shared = Shared(nextId: nat, pending: map<nat, nat>)

  function Numbered(s: Shared): Shared {
    s.(nextId := s.nextId + 1)
  }

  function Registered(s: Shared, id: nat, who: nat): Shared {
    s.(pending := s.pending[id := who])
  }

  function Removed(s: Shared, id: nat): Shared {
    s.(pending := s.pending - {id})
  }

  function Holder(s: Shared, id: nat): Option<nat> {
    if id in s.pending then Some(s.pending[id]) else None
  }

  class McpClient {
    var nextId: nat
    var pending: map<nat, nat>

    ghost function State(): Shared
      reads this
    {
      Shared(nextId, pending)
    }

    constructor ()
      ensures State() == Shared(1, map[])
    {
      nextId, pending := 1, map[];
    }

    /** `next_id.fetch_add(1)`. */
    method FetchId() returns (id: nat)
      modifies this`nextId
      ensures id == old(nextId) && State() == Numbered(old(State()))
    {
      id := nextId;
      nextId := nextId + 1;
    }

    method Register(id: nat, who: nat)
      modifies this`pending
      ensures State() == Registered(old(State()), id, who)
    {
      pending := pending[id := who];
    }

    /** The reader, under the lock: whose sender, if any, gets a response with this identifier. */
    method Dispatch(id: nat) returns (who: Option<nat>)
      modifies this`pending
      ensures who == Holder(old(State()), id) && State() == Removed(old(State()), id)
    {
      who := None;
      if id in pending {
        who := Some(pending[id]);
      }
      pending := pending - {id};
    }

    method CleanUp(id: nat)
      modifies this`pending
      ensures State() == Removed(old(State()), id)
    {
      pending := pending - {id};
    }
  }

  // ---- The machine -------------------------------------------------------------------------

  datatype Result =
    | Got(reply: Reply)
    | TimedOut
    | SendFailed
    | SerializeFailed
    | ChannelDropped
    | Cancelled
    | NeverRegistered   // cancelled while waiting to register

  datatype Phase =
    | Fresh
    | HasId
    | Pending      // registered, the line not yet handed to the writer
    | Waiting      // written
    | Expired      // timed out, the entry not yet removed
    | Returned(result: Result)

  /** One call of `request`.  `since` is how many responses had been read when it registered; `taken`
      is the value its sender was used for. */
  datatype Request = Request(phase: Phase, id: nat, since: nat, taken: Option<Reply>)

  /** `log` is every response with an identifier that the reader has read. */
  datatype State = State(shared: Shared, requests: seq<Request>, log: seq<(nat, Reply)>)

  const INITIAL := State(Shared(1, map[]), [], [])

  function With(s: State, i: nat, r: Request): State
    requires i < |s.requests|
  {
    s.(requests := s.requests[i := r])
  }

  /** A step of the i-th requester. */
  ghost predicate Request1(s: State, s2: State, i: nat)
    requires i < |s.requests|
  {
    var r := s.requests[i];
    match r.phase
    case Fresh =>
      s2 == With(s.(shared := Numbered(s.shared)), i, r.(phase := HasId, id := s.shared.nextId))
    case HasId =>
      || s2 == With(s.(shared := Registered(s.shared, r.id, i)), i, r.(phase := Pending, since := |s.log|))
      || s2 == With(s, i, r.(phase := Returned(SerializeFailed)))
      || s2 == With(s, i, r.(phase := Returned(NeverRegistered)))
    case Pending =>
      || s2 == With(s, i, r.(phase := Waiting))
      || s2 == With(s, i, r.(phase := Returned(SendFailed)))
      || s2 == With(s, i, r.(phase := Returned(Cancelled)))
    case Waiting =>
      || (r.taken.Some? && s2 == With(s, i, r.(phase := Returned(Got(r.taken.value)))))
      || (r.taken.None? && Holder(s.shared, r.id) != Some(i) && s2 == With(s, i, r.(phase := Returned(ChannelDropped))))
      || (r.taken.None? && s2 == With(s, i, r.(phase := Expired)))
      || s2 == With(s, i, r.(phase := Returned(Cancelled)))
    case Expired =>
      || s2 == With(s.(shared := Removed(s.shared, r.id)), i, r.(phase := Returned(TimedOut)))
      || s2 == With(s, i, r.(phase := Returned(Cancelled)))
    case Returned(_) => false
  }

  /** The reader handles one response: at most one sender is used, and used up. */
  ghost predicate Read(s: State, s2: State, id: nat, reply: Reply) {
    var t := s.(shared := Removed(s.shared, id), log := s.log + [(id, reply)]);
    match Holder(s.shared, id)
    case Some(i) => i < |s.requests| && s2 == With(t, i, s.requests[i].(taken := Some(reply)))
    case None => s2 == t
  }

  ghost predicate Next(s: State, s2: State) {
    || s2 == s.(requests := s.requests + [Request(Fresh, 0, 0, None)])
    || (exists i :: 0 <= i < |s.requests| && Request1(s, s2, i))
    || (exists id, reply :: Read(s, s2, id, reply))
  }

  ghost predicate Run(run: seq<State>) {
    run != [] && run[0] == INITIAL && forall k :: 0 <= k < |run| - 1 ==> Next(run[k], run[k + 1])
  }

  // ---- The invariant -----------------------------------------------------------------------

  predicate HasNumber(r: Request) {
    !r.phase.Fresh?
  }

  predicate HasRegistered(r: Request) {
    match r.phase
    case Pending => true
    case Waiting => true
    case Expired => true
    case Returned(result) => !result.SerializeFailed? && !result.NeverRegistered?
    case _ => false
  }

  /** Its sender must have been used or still be pending: nothing else removes it. */
  predicate Accountable(r: Request) {
    match r.phase
    case Pending => true
    case Waiting => true
    case Expired => true
    case Returned(result) => result.SendFailed? || result.Cancelled?
    case _ => false
  }

  /** No response with identifier `id` in this stretch of the log. */
  ghost predicate Silent(log: seq<(nat, Reply)>, from: nat, to: nat, id: nat)
    requires from <= to <= |log|
  {
    forall k :: from <= k < to ==> log[k].0 != id
  }

  /** `reply` is the first response with the identifier since `since`. */
  ghost predicate FirstSince(log: seq<(nat, Reply)>, since: nat, id: nat, reply: Reply) {
    exists k :: since <= k < |log| && log[k] == (id, reply) && Silent(log, since, k, id)
  }

  ghost predicate RequestInv(s: State, i: nat)
    requires i < |s.requests|
  {
    var r := s.requests[i];
    && (HasNumber(r) ==> r.id < s.shared.nextId)
    && (r.taken.Some? ==> HasRegistered(r))
    && r.since <= |s.log|
    && (HasRegistered(r) && r.taken.Some? ==> FirstSince(s.log, r.since, r.id, r.taken.value) && r.id !in s.shared.pending)
    && (Accountable(r) && r.taken.None? ==>
          Holder(s.shared, r.id) == Some(i) && Silent(s.log, r.since, |s.log|, r.id))
    && (r.phase.Returned? && r.phase.result.Got? ==> r.taken == Some(r.phase.result.reply))
    && (r.phase.Returned? && r.phase.result.TimedOut? ==> r.id !in s.shared.pending)
    && (r.phase.Returned? ==> !r.phase.result.ChannelDropped?)
  }

  ghost predicate UniqueIds(s: State) {
    forall i, j :: 0 <= i < j < |s.requests| && HasNumber(s.requests[i]) && HasNumber(s.requests[j]) ==>
      s.requests[i].id != s.requests[j].id
  }

  ghost predicate Holders(s: State) {
    forall id :: id in s.shared.pending ==>
      var i := s.shared.pending[id];
      i < |s.requests| && s.requests[i].id == id && HasRegistered(s.requests[i]) && s.requests[i].taken.None?
  }

  ghost predicate Inv(s: State) {
    UniqueIds(s) && Holders(s) && forall i :: 0 <= i < |s.requests| ==> RequestInv(s, i)
  }

  /** A step that only moves the i-th request to a new phase. */
  lemma {:induction false} PhaseKeepsInv(s: State, i: nat, phase: Phase)
    requires Inv(s) && i < |s.requests| && HasNumber(s.requests[i]) && !phase.Fresh?
    requires
      var r := s.requests[i];
      var r2 := r.(phase := phase);
      && HasRegistered(r2) == HasRegistered(r) && (Accountable(r2) ==> Accountable(r))
      && (phase.Returned? ==> phase.result.SerializeFailed? || phase.result.NeverRegistered? || phase.result.SendFailed? || phase.result.Cancelled?
                              || (phase.result.Got? && r.taken == Some(phase.result.reply)))
    ensures Inv(With(s, i, s.requests[i].(phase := phase)))
  {
    var s2 := With(s, i, s.requests[i].(phase := phase));
    forall j | 0 <= j < |s2.requests| ensures RequestInv(s2, j) {
      assert RequestInv(s, j);
    }
  }

  lemma {:induction false} NumberKeepsInv(s: State, i: nat)
    requires Inv(s) && i < |s.requests| && s.requests[i].phase.Fresh?
    ensures Inv(With(s.(shared := Numbered(s.shared)), i, s.requests[i].(phase := HasId, id := s.shared.nextId)))
  {
    var s2 := With(s.(shared := Numbered(s.shared)), i, s.requests[i].(phase := HasId, id := s.shared.nextId));
    forall j | 0 <= j < |s2.requests| ensures RequestInv(s2, j) {
      assert RequestInv(s, j);
    }
    forall j | 0 <= j < |s.requests| && HasNumber(s.requests[j]) ensures s.requests[j].id != s.shared.nextId {
      assert RequestInv(s, j);
    }
  }

  lemma {:induction false} RegisterKeepsInv(s: State, i: nat)
    requires Inv(s) && i < |s.requests| && s.requests[i].phase.HasId?
    ensures Inv(With(s.(shared := Registered(s.shared, s.requests[i].id, i)), i,
                     s.requests[i].(phase := Pending, since := |s.log|)))
  {
    var s2 := With(s.(shared := Registered(s.shared, s.requests[i].id, i)), i,
                   s.requests[i].(phase := Pending, since := |s.log|));
    assert RequestInv(s, i);
    forall j | 0 <= j < |s2.requests| ensures RequestInv(s2, j) {
      assert RequestInv(s, j);
    }
  }

  lemma {:induction false} CleanUpKeepsInv(s: State, i: nat)
    requires Inv(s) && i < |s.requests| && s.requests[i].phase.Expired?
    ensures Inv(With(s.(shared := Removed(s.shared, s.requests[i].id)), i, s.requests[i].(phase := Returned(TimedOut))))
  {
    var s2 := With(s.(shared := Removed(s.shared, s.requests[i].id)), i, s.requests[i].(phase := Returned(TimedOut)));
    forall j | 0 <= j < |s2.requests| ensures RequestInv(s2, j) {
      assert RequestInv(s, j);
    }
  }

  lemma {:induction false} RequesterKeepsInv(s: State, s2: State, i: nat)
    requires Inv(s) && i < |s.requests| && Request1(s, s2, i)
    ensures Inv(s2)
  {
    assert RequestInv(s, i);
    var r := s.requests[i];
    if r.phase.Fresh? {
      NumberKeepsInv(s, i);
    } else if r.phase.HasId? && s2.requests[i].phase.Pending? {
      RegisterKeepsInv(s, i);
    } else if r.phase.Expired? && s2.requests[i].phase == Returned(TimedOut) {
      CleanUpKeepsInv(s, i);
    } else {
      PhaseKeepsInv(s, i, s2.requests[i].phase);
    }
  }

  lemma {:induction false} ReaderKeepsInv(s: State, s2: State, id: nat, reply: Reply)
    requires Inv(s) && Read(s, s2, id, reply)
    ensures Inv(s2)
  {
    forall j | 0 <= j < |s2.requests| ensures RequestInv(s2, j) {
      assert RequestInv(s, j);
      var r := s.requests[j];
      if HasRegistered(r) && r.taken.Some? {
        var k :| r.since <= k < |s.log| && s.log[k] == (r.id, r.taken.value) && Silent(s.log, r.since, k, r.id);
        assert s2.log[k] == (r.id, r.taken.value) && Silent(s2.log, r.since, k, r.id);
      } else if Holder(s.shared, id) == Some(j) {
        assert s2.log[|s.log|] == (id, reply) && Silent(s2.log, r.since, |s.log|, id);
      }
    }
  }

  lemma {:induction false} NextKeepsInv(s: State, s2: State)
    requires Inv(s) && Next(s, s2)
    ensures Inv(s2)
  {
    if i :| 0 <= i < |s.requests| && Request1(s, s2, i) {
      RequesterKeepsInv(s, s2, i);
    } else if id: nat, reply: Reply :| Read(s, s2, id, reply) {
      ReaderKeepsInv(s, s2, id, reply);
    } else {
      forall j | 0 <= j < |s2.requests| ensures RequestInv(s2, j) {
        assert j < |s.requests| ==> RequestInv(s, j);
      }
    }
  }

  lemma {:induction false} RunKeepsInv(run: seq<State>, k: nat)
    requires Run(run) && k < |run|
    ensures Inv(run[k])
  {
    forall s, s2 | Inv(s) && Next(s, s2) ensures Inv(s2) {
      NextKeepsInv(s, s2);
    }
    Invariant(run, (s: State, s2: State) => Next(s, s2), (s: State) => Inv(s), 0, k);
  }

  // ---- Over whole runs ---------------------------------------------------------------------

  /** No two requests ever carry the same identifier. */
  lemma {:induction false} IdsAreUnique(run: seq<State>, k: nat, i: nat, j: nat)
    requires Run(run) && k < |run| && i < j < |run[k].requests|
    requires HasNumber(run[k].requests[i]) && HasNumber(run[k].requests[j])
    ensures run[k].requests[i].id != run[k].requests[j].id
  {
    RunKeepsInv(run, k);
  }

  /** A requester that gets a reply gets the first one with its own identifier since it registered. */
  lemma {:induction false} RepliesMatch(run: seq<State>, k: nat, i: nat)
    requires Run(run) && k < |run| && i < |run[k].requests|
    requires run[k].requests[i].phase.Returned? && run[k].requests[i].phase.result.Got?
    ensures
      var r := run[k].requests[i];
      FirstSince(run[k].log, r.since, r.id, r.phase.result.reply)
  {
    RunKeepsInv(run, k);
    assert RequestInv(run[k], i);
  }

  /** "channel dropped" is never reported: a sender leaves the map only to be used, or by the
      requester's own timeout. */
  lemma {:induction false} NoChannelIsDropped(run: seq<State>, k: nat, i: nat)
    requires Run(run) && k < |run| && i < |run[k].requests| && run[k].requests[i].phase.Returned?
    ensures !run[k].requests[i].phase.result.ChannelDropped?
  {
    RunKeepsInv(run, k);
    assert RequestInv(run[k], i);
  }

  /** A returned request leaves its entry behind exactly when it failed to send, or was cancelled after
      it had registered, and no response with its identifier has been read since; after a reply or a
      timeout never. */
  lemma {:induction false} LeaksExactlyWhen(run: seq<State>, k: nat, i: nat)
    requires Run(run) && k < |run| && i < |run[k].requests| && run[k].requests[i].phase.Returned?
    ensures
      var s, r := run[k], run[k].requests[i];
      r.since <= |s.log|
      && (r.id in s.shared.pending
          <==> (r.phase.result.SendFailed? || r.phase.result.Cancelled?) && Silent(s.log, r.since, |s.log|, r.id))
  {
    var s, r := run[k], run[k].requests[i];
    RunKeepsInv(run, k);
    assert RequestInv(s, i);
    if r.id in s.shared.pending {
      var j := s.shared.pending[r.id];
      assert RequestInv(s, j);
    }
  }

  /** Once every request has returned with a reply or a timeout, nothing is pending. */
  lemma {:induction false} AllReturnedNonePending(run: seq<State>, k: nat)
    requires Run(run) && k < |run|
    requires forall i :: 0 <= i < |run[k].requests| ==>
      run[k].requests[i].phase.Returned?
      && (run[k].requests[i].phase.result.Got? || run[k].requests[i].phase.result.TimedOut?)
    ensures run[k].shared.pending == map[]
  {
    RunKeepsInv(run, k);
    forall i | 0 <= i < |run[k].requests|
      ensures run[k].requests[i].taken.Some? || run[k].requests[i].id !in run[k].shared.pending
    {
      assert RequestInv(run[k], i);
    }
  }

  /** A response read after its request has returned reaches no other request; after a reply or a
      timeout it reaches none at all and leaves the pending map as it is. */
  lemma {:induction false} LateReplyReachesNobody(run: seq<State>, k: nat, i: nat, reply: Reply)
    requires Run(run) && k + 1 < |run| && i < |run[k].requests| && run[k].requests[i].phase.Returned?
    requires HasRegistered(run[k].requests[i]) && Read(run[k], run[k + 1], run[k].requests[i].id, reply)
    ensures |run[k + 1].requests| == |run[k].requests|
    ensures forall j :: 0 <= j < |run[k].requests| && j != i ==> run[k + 1].requests[j] == run[k].requests[j]
    ensures run[k + 1].requests[i].phase == run[k].requests[i].phase
    ensures run[k].requests[i].phase.result.Got? || run[k].requests[i].phase.result.TimedOut? ==>
      run[k + 1].requests == run[k].requests && run[k + 1].shared == run[k].shared
  {
    var s, r := run[k], run[k].requests[i];
    RunKeepsInv(run, k);
    LeaksExactlyWhen(run, k, i);
    if r.id in s.shared.pending {
      var j := s.shared.pending[r.id];
      assert s.requests[j].id == r.id && HasNumber(s.requests[j]);
    } else {
      assert s.shared.pending - {r.id} == s.shared.pending;
    }
  }

  lemma {:induction false} NextKeepsResult(s: State, s2: State, i: nat, result: Result)
    requires Inv(s) && Next(s, s2)
    requires i < |s.requests| && s.requests[i].phase == Returned(result)
    ensures i < |s2.requests| && s2.requests[i].phase == Returned(result)
  {
  }

  /** What a request returned stays what it returned. */
  lemma {:induction false} ResultsAreFinal(run: seq<State>, start: nat, end: nat, i: nat, result: Result)
    requires Run(run) && start <= end < |run|
    requires i < |run[start].requests| && run[start].requests[i].phase == Returned(result)
    ensures i < |run[end].requests| && run[end].requests[i].phase == Returned(result)
  {
    var inv := (s: State) => Inv(s) && i < |s.requests| && s.requests[i].phase == Returned(result);
    forall s, s2 | inv(s) && Next(s, s2) ensures inv(s2) {
      NextKeepsInv(s, s2);
      NextKeepsResult(s, s2, i, result);
    }
    RunKeepsInv(run, start);
    Invariant(run, (s: State, s2: State) => Next(s, s2), inv, start, end);
  }
}
