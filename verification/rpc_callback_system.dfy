/**
 * RpcCallbackSystem: the handler registry (method ident -> handler info) and the table of
 * completed operations (call id -> pending operation), with the polling wait that consumes
 * an entry.
 *
 * Time is abstract. A wait is given `budget`, the number of polls that happen before its
 * combined token (caller token or timeout) fires, and `batches`: `batches[j]` are the
 * `CompleteResponse` / `CompleteWithError` calls other parties make while the waiter
 * sleeps after its j-th poll.
 */
module CallbackSystem {
  import opened Wrappers
  import opened Messages
  import opened Errors
  import opened Attributes
  import opened HandlerInfos
  import opened PendingOperations
  import Text

  type Handlers = map<int, RpcHandlerInfo>
  type Operations = map<Guid, RpcPendingOperation>

  /** The fixed delay between two polls, in milliseconds. */
  const PollIntervalMs: nat := 10

  /** The most polls that fit in one second: each delay lasts at least `PollIntervalMs`. */
  const PollsPerSecond: nat := 1000 / PollIntervalMs

  // ---------------------------------------------------------------------------------------
  // Handler registry
  // ---------------------------------------------------------------------------------------

  /** One enumerated callback method: the owning component, the method, its attribute list. */
  datatype Candidate = Candidate(component: ComponentRef, methodDesc: MethodDescription, attributes: seq<Attribute>)

  /** The handler info that registration builds for a candidate. */
  function InfoOf(c: Candidate, now: Time): RpcHandlerInfo
  {
    RpcHandlerInfo(c.component, c.methodDesc, c.attributes, now)
  }

  function IdentOf(c: Candidate): int
  {
    c.methodDesc.ident
  }

  /**
   * The registry that registering `cs` in order builds from an empty one: each candidate is
   * added under its method ident unless that ident is already present (first wins).
   */
  function Registry(cs: seq<Candidate>, now: Time): Handlers
  {
    if cs == [] then map[]
    else
      var m := Registry(cs[..|cs| - 1], now);
      var c := cs[|cs| - 1];
      if IdentOf(c) in m then m else m[IdentOf(c) := InfoOf(c, now)]
  }

  /** The `OnHandlerRegistered` events that registering `cs` fires, in order. */
  function Announced(cs: seq<Candidate>, now: Time): seq<RpcHandlerInfo>
  {
    if cs == [] then []
    else
      var init := cs[..|cs| - 1];
      var c := cs[|cs| - 1];
      if IdentOf(c) in Registry(init, now) then Announced(init, now)
      else Announced(init, now) + [InfoOf(c, now)]
  }

  /** Registering one more candidate: the step `RegisterHandlers` takes per loop iteration. */
  lemma RegistryStep(cs: seq<Candidate>, i: nat, now: Time)
    requires i < |cs|
    ensures var m := Registry(cs[..i], now);
      && Registry(cs[..i + 1], now) == (if IdentOf(cs[i]) in m then m else m[IdentOf(cs[i]) := InfoOf(cs[i], now)])
      && Announced(cs[..i + 1], now) ==
           (if IdentOf(cs[i]) in m then Announced(cs[..i], now) else Announced(cs[..i], now) + [InfoOf(cs[i], now)])
  {
    assert cs[..i + 1][..i] == cs[..i];
  }

  /** The index of the first candidate without a callback attribute, or |cs| if every one has it. */
  function FirstInvalid(cs: seq<Candidate>): (n: nat)
    ensures n <= |cs|
    ensures forall i :: 0 <= i < n ==> FirstCallback(cs[i].attributes).Some?
    ensures n < |cs| ==> FirstCallback(cs[n].attributes).None?
  {
    if cs == [] then 0
    else if FirstCallback(cs[0].attributes).None? then 0
    else
      var n := FirstInvalid(cs[1..]);
      assert forall i :: 1 <= i < |cs| ==> cs[i] == cs[1..][i - 1];
      1 + n
  }

  /** The registry's keys are exactly the distinct idents of the enumerated candidates. */
  lemma {:induction false} RegistryKeys(cs: seq<Candidate>, now: Time)
    ensures Registry(cs, now).Keys == set i | 0 <= i < |cs| :: IdentOf(cs[i])
  {
    if cs != [] {
      var init := cs[..|cs| - 1];
      RegistryKeys(init, now);
      var all := set i | 0 <= i < |cs| :: IdentOf(cs[i]);
      var before := set i | 0 <= i < |init| :: IdentOf(init[i]);
      assert all == before + {IdentOf(cs[|cs| - 1])} by {
        forall k | k in all ensures k in before + {IdentOf(cs[|cs| - 1])} {
          var i :| 0 <= i < |cs| && IdentOf(cs[i]) == k;
          if i < |cs| - 1 { assert IdentOf(init[i]) == k; }
        }
        forall k | k in before ensures k in all {
          var i :| 0 <= i < |init| && IdentOf(init[i]) == k;
          assert IdentOf(cs[i]) == k;
        }
      }
    }
  }

  /**
   * First registration wins: the registry maps the ident of a candidate that no earlier
   * candidate shares to that candidate's handler info; a later duplicate never replaces it.
   */
  lemma {:induction false} RegistryFirstWins(cs: seq<Candidate>, now: Time, i: nat)
    requires i < |cs|
    requires forall j :: 0 <= j < i ==> IdentOf(cs[j]) != IdentOf(cs[i])
    ensures IdentOf(cs[i]) in Registry(cs, now)
    ensures Registry(cs, now)[IdentOf(cs[i])] == InfoOf(cs[i], now)
  {
    var init := cs[..|cs| - 1];
    if i == |cs| - 1 {
      RegistryKeys(init, now);
      assert IdentOf(cs[i]) !in Registry(init, now);
    } else {
      assert forall j :: 0 <= j <= i ==> init[j] == cs[j];
      RegistryFirstWins(init, now, i);
    }
  }

  /**
   * `OnHandlerRegistered` fires once per handler actually added: one event per registry
   * key, each event carrying the registry's entry for its ident, no ident twice. A skipped
   * duplicate therefore never fires it.
   */
  lemma {:induction false} AnnouncedMatchesRegistry(cs: seq<Candidate>, now: Time)
    ensures |Announced(cs, now)| == |Registry(cs, now)|
    ensures forall k :: 0 <= k < |Announced(cs, now)| ==>
              Announced(cs, now)[k].methodDesc.ident in Registry(cs, now) &&
              Registry(cs, now)[Announced(cs, now)[k].methodDesc.ident] == Announced(cs, now)[k]
    ensures forall k, l :: 0 <= k < l < |Announced(cs, now)| ==>
              Announced(cs, now)[k].methodDesc.ident != Announced(cs, now)[l].methodDesc.ident
  {
    if cs != [] {
      var init := cs[..|cs| - 1];
      var c := cs[|cs| - 1];
      AnnouncedMatchesRegistry(init, now);
      var m := Registry(init, now);
      if IdentOf(c) !in m {
        assert m[IdentOf(c) := InfoOf(c, now)].Keys == m.Keys + {IdentOf(c)};
      }
    }
  }

  // ---------------------------------------------------------------------------------------
  // Operations table
  // ---------------------------------------------------------------------------------------

  /** `ConcurrentDictionary.TryAdd`: insert only when the id is absent. */
  function TryAdd(ops: Operations, id: Guid, entry: RpcPendingOperation): (r: Operations)
    ensures r.Keys == ops.Keys + {id}
    ensures forall k :: k in ops ==> r[k] == ops[k]
    ensures id !in ops ==> r[id] == entry
  {
    if id in ops then ops else ops[id := entry]
  }

  /** A call of `CompleteResponse` or of `CompleteWithError` made while some caller waits. */
  datatype Completion =
    | ResponseArrived(response: RpcMessage, result: Option<Value>, methodIdent: int, at: Time)
    | ErrorArrived(id: Guid, error: RpcError, methodIdent: int, at: Time)

  /** The call id a completion is recorded under. */
  function CompletionId(c: Completion): Guid
  {
    match c
    case ResponseArrived(response, _, _, _) => response.id
    case ErrorArrived(id, _, _, _) => id
  }

  /** The entry a completion records. */
  function EntryOf(c: Completion): RpcPendingOperation
  {
    match c
    case ResponseArrived(_, result, methodIdent, at) => ResponseEntry(result, methodIdent, at)
    case ErrorArrived(_, error, methodIdent, at) => ErrorEntry(error, methodIdent, at)
  }

  /** The table after one completion call. */
  function Land(ops: Operations, c: Completion): Operations
  {
    TryAdd(ops, CompletionId(c), EntryOf(c))
  }

  /** The table after a batch of completion calls, in order. */
  function LandAll(ops: Operations, batch: seq<Completion>): Operations
  {
    if batch == [] then ops else Land(LandAll(ops, batch[..|batch| - 1]), batch[|batch| - 1])
  }

  /** The completions that arrive during the delay after poll `j` (none past the schedule). */
  function BatchAt(batches: seq<seq<Completion>>, j: nat): seq<Completion>
  {
    if j < |batches| then batches[j] else []
  }

  /** The table as the waiter sees it at poll `n`, if nothing has been removed. */
  function LandThrough(ops: Operations, batches: seq<seq<Completion>>, n: nat): Operations
  {
    if n == 0 then ops else LandAll(LandThrough(ops, batches, n - 1), BatchAt(batches, n - 1))
  }

  /** Completions never overwrite or remove an entry already in the table. */
  lemma {:induction false} LandAllKeeps(ops: Operations, batch: seq<Completion>)
    ensures ops.Keys <= LandAll(ops, batch).Keys
    ensures forall k :: k in ops ==> LandAll(ops, batch)[k] == ops[k]
  {
    if batch != [] {
      LandAllKeeps(ops, batch[..|batch| - 1]);
    }
  }

  /** A batch none of whose completions is for `id` does not add `id`. */
  lemma {:induction false} LandAllAbsent(ops: Operations, id: Guid, batch: seq<Completion>)
    requires id !in ops
    requires forall c :: c in batch ==> CompletionId(c) != id
    ensures id !in LandAll(ops, batch)
  {
    if batch != [] {
      var init := batch[..|batch| - 1];
      assert forall c :: c in init ==> c in batch;
      LandAllAbsent(ops, id, init);
    }
  }

  /** The first completion of a batch that is for `id` is the one the table keeps. */
  lemma {:induction false} LandAllFirst(ops: Operations, id: Guid, batch: seq<Completion>, k: nat)
    requires id !in ops
    requires k < |batch| && CompletionId(batch[k]) == id
    requires forall c :: c in batch[..k] ==> CompletionId(c) != id
    ensures id in LandAll(ops, batch) && LandAll(ops, batch)[id] == EntryOf(batch[k])
  {
    var init := batch[..|batch| - 1];
    if k == |batch| - 1 {
      assert init == batch[..k];
      LandAllAbsent(ops, id, init);
    } else {
      assert init[..k] == batch[..k];
      LandAllFirst(ops, id, init, k);
    }
  }

  /** Polls before any completion for `id` lands never see `id`. */
  lemma {:induction false} LandThroughAbsent(ops: Operations, id: Guid, batches: seq<seq<Completion>>, n: nat)
    requires id !in ops
    requires forall q: nat, c :: q < n && c in BatchAt(batches, q) ==> CompletionId(c) != id
    ensures id !in LandThrough(ops, batches, n)
  {
    if n > 0 {
      LandThroughAbsent(ops, id, batches, n - 1);
      LandAllAbsent(LandThrough(ops, batches, n - 1), id, BatchAt(batches, n - 1));
    }
  }

  lemma {:induction false} LandThroughKeeps(ops: Operations, batches: seq<seq<Completion>>, n: nat)
    ensures ops.Keys <= LandThrough(ops, batches, n).Keys
    ensures forall k :: k in ops ==> LandThrough(ops, batches, n)[k] == ops[k]
  {
    if n > 0 {
      LandThroughKeeps(ops, batches, n - 1);
      LandAllKeeps(LandThrough(ops, batches, n - 1), BatchAt(batches, n - 1));
    }
  }

  /** How a wait ended. */
  datatype WaitEnd =
    | CancelledAtEntry                                 // the token had fired before the first poll
    | TimedOut                                         // the token fired during a delay
    | Found(entry: RpcPendingOperation, polls: nat)    // found at poll number `polls`

  datatype WaitRun = WaitRun(end: WaitEnd, table: Operations)

  /**
   * The polling loop from poll number `polls` on, with `ops` the current table: poll; if the
   * id is there, remove it and stop; otherwise sleep while the next batch lands.
   */
  function Wait(ops: Operations, id: Guid, batches: seq<seq<Completion>>, budget: nat, polls: nat): WaitRun
    requires polls <= budget
    decreases budget - polls
  {
    if polls == budget then WaitRun(if polls == 0 then CancelledAtEntry else TimedOut, ops)
    else if id in ops then WaitRun(Found(ops[id], polls), ops - {id})
    else Wait(LandAll(ops, BatchAt(batches, polls)), id, batches, budget, polls + 1)
  }

  /** `id` is in the table at poll `p` and at no earlier poll. */
  ghost predicate FirstSeenAt(ops: Operations, id: Guid, batches: seq<seq<Completion>>, p: nat)
  {
    && id in LandThrough(ops, batches, p)
    && forall q: nat :: q < p ==> id !in LandThrough(ops, batches, q)
  }

  lemma {:induction false} WaitFrom(ops: Operations, id: Guid, batches: seq<seq<Completion>>, budget: nat, polls: nat)
    requires polls <= budget
    requires forall q: nat :: q < polls ==> id !in LandThrough(ops, batches, q)
    ensures var w := Wait(LandThrough(ops, batches, polls), id, batches, budget, polls);
      && (w.end.CancelledAtEntry? ==> budget == 0 && w.table == ops)
      && (w.end.TimedOut? ==>
            && budget > 0
            && w.table == LandThrough(ops, batches, budget)
            && forall q: nat :: q < budget ==> id !in LandThrough(ops, batches, q))
      && (w.end.Found? ==>
            && w.end.polls < budget
            && FirstSeenAt(ops, id, batches, w.end.polls)
            && w.end.entry == LandThrough(ops, batches, w.end.polls)[id]
            && w.table == LandThrough(ops, batches, w.end.polls) - {id})
    decreases budget - polls
  {
    var cur := LandThrough(ops, batches, polls);
    if polls < budget && id !in cur {
      assert LandAll(cur, BatchAt(batches, polls)) == LandThrough(ops, batches, polls + 1);
      WaitFrom(ops, id, batches, budget, polls + 1);
    }
  }

  /**
   * What a wait does, for every schedule: it ends at entry exactly when the budget is zero,
   * leaving the table alone; it finds the entry at the first poll at which the id is in the
   * table, and leaves the table minus that entry; otherwise it times out, with the id in the
   * table at no poll, and leaves the table with every completion landed and nothing removed.
   */
  lemma {:induction false} WaitCharacterization(ops: Operations, id: Guid, batches: seq<seq<Completion>>, budget: nat)
    ensures var w := Wait(ops, id, batches, budget, 0);
      && (w.end.CancelledAtEntry? <==> budget == 0)
      && (w.end.CancelledAtEntry? ==> w.table == ops)
      && (w.end.TimedOut? ==>
            && w.table == LandThrough(ops, batches, budget)
            && forall q: nat :: q < budget ==> id !in LandThrough(ops, batches, q))
      && (w.end.Found? ==>
            && w.end.polls < budget
            && FirstSeenAt(ops, id, batches, w.end.polls)
            && w.end.entry == LandThrough(ops, batches, w.end.polls)[id]
            && w.table == LandThrough(ops, batches, w.end.polls) - {id})
  {
    WaitFrom(ops, id, batches, budget, 0);
  }

  /** An entry already in the table when the wait begins is taken on the first poll. */
  lemma WaitTakesWaitingEntry(ops: Operations, id: Guid, batches: seq<seq<Completion>>, budget: nat)
    requires budget > 0 && id in ops
    ensures Wait(ops, id, batches, budget, 0) == WaitRun(Found(ops[id], 0), ops - {id})
  {
  }

  /**
   * The wait removes nothing but the entry it consumes: every other entry present when it
   * began is still there, unchanged, when it ends.
   */
  lemma {:induction false} WaitRemovesOnlyItsOwnEntry(ops: Operations, id: Guid, batches: seq<seq<Completion>>, budget: nat)
    ensures var w := Wait(ops, id, batches, budget, 0);
      forall k :: k in ops && k != id ==> k in w.table && w.table[k] == ops[k]
    ensures !Wait(ops, id, batches, budget, 0).end.Found? ==> ops.Keys <= Wait(ops, id, batches, budget, 0).table.Keys
  {
    var w := Wait(ops, id, batches, budget, 0);
    WaitCharacterization(ops, id, batches, budget);
    match w.end
    case CancelledAtEntry =>
    case TimedOut => LandThroughKeeps(ops, batches, budget);
    case Found(_, p) => LandThroughKeeps(ops, batches, p);
  }

  lemma {:induction false} LandThroughNothing(ops: Operations, n: nat)
    ensures LandThrough(ops, [], n) == ops
  {
    if n > 0 { LandThroughNothing(ops, n - 1); }
  }

  /**
   * An entry is consumed at most once: after a wait has taken it, a second wait on the same
   * id, during which no completion for that id arrives, does not find it.
   */
  lemma {:induction false} ConsumedAtMostOnce(ops: Operations, id: Guid, batches: seq<seq<Completion>>, budget: nat,
                                               batches': seq<seq<Completion>>, budget': nat)
    requires Wait(ops, id, batches, budget, 0).end.Found?
    requires forall q, c :: 0 <= q < |batches'| && c in batches'[q] ==> CompletionId(c) != id
    ensures !Wait(Wait(ops, id, batches, budget, 0).table, id, batches', budget', 0).end.Found?
  {
    var w := Wait(ops, id, batches, budget, 0);
    WaitCharacterization(ops, id, batches, budget);
    assert id !in w.table;
    WaitCharacterization(w.table, id, batches', budget');
    if Wait(w.table, id, batches', budget', 0).end.Found? {
      var p := Wait(w.table, id, batches', budget', 0).end.polls;
      LandThroughAbsent(w.table, id, batches', p);
      assert false;
    }
  }

  /**
   * A completion delivered again after its entry was consumed is not dropped: `TryAdd`
   * finds the id absent and the table holds a new entry that nothing will consume.
   */
  lemma RedeliveryAfterConsumptionReinserts(ops: Operations, id: Guid, batches: seq<seq<Completion>>, budget: nat, c: Completion)
    requires Wait(ops, id, batches, budget, 0).end.Found?
    requires CompletionId(c) == id
    ensures var t := Land(Wait(ops, id, batches, budget, 0).table, c);
      id in t && t[id] == EntryOf(c)
  {
    WaitCharacterization(ops, id, batches, budget);
  }

  /**
   * A wait whose entry first lands as completion `k` of the batch after poll `j`, before
   * the budget runs out, finds exactly that completion's entry at poll `j + 1`.
   */
  lemma {:induction false} WaitFindsFirstArrival(ops: Operations, id: Guid, batches: seq<seq<Completion>>, budget: nat, j: nat, k: nat)
    requires id !in ops
    requires j < |batches| && j + 1 < budget
    requires k < |batches[j]| && CompletionId(batches[j][k]) == id
    requires forall q, c :: 0 <= q < j && c in batches[q] ==> CompletionId(c) != id
    requires forall c :: c in batches[j][..k] ==> CompletionId(c) != id
    ensures Wait(ops, id, batches, budget, 0)
            == WaitRun(Found(EntryOf(batches[j][k]), j + 1), LandThrough(ops, batches, j + 1) - {id})
  {
    forall q: nat | q <= j ensures id !in LandThrough(ops, batches, q) {
      LandThroughAbsent(ops, id, batches, q);
    }
    var before := LandThrough(ops, batches, j);
    LandAllFirst(before, id, batches[j], k);
    assert id in LandThrough(ops, batches, j + 1);
    assert FirstSeenAt(ops, id, batches, j + 1);
    WaitCharacterization(ops, id, batches, budget);
  }

  // ---------------------------------------------------------------------------------------
  // Turning a wait's end into the caller's result
  // ---------------------------------------------------------------------------------------

  /** An exception that escapes a member of the model. */
  datatype Fault =
    | ArgumentOutOfRange           // a negative timeout given to CancellationTokenSource
    | InvalidCast                  // `(TResult)operation.Result` on a result of another type
    | NullReference                // a null dereference
    | Raised(message: string)      // any other exception, by its message

  /** What an awaited call gave: a value (`None` is `default`), or an exception. */
  datatype CallResult = Returned(value: Option<Value>) | Threw(fault: Fault)

  /** An event a wait fires, in the order it fires them. */
  datatype Notice =
    | OperationCompleted(id: Guid, methodIdent: int, pollsWaited: nat)  // OnOperationCompleted
    | OperationFailed(id: Guid, methodIdent: int, error: RpcError)       // OnOperationFailed
    | OperationTimeout(id: Guid)                                          // OnOperationTimeout
    | ErrorSent(id: Guid, error: RpcError, methodIdent: int)             // RpcClient.OnRpcError, to the caller

  /** The number of error replies among `ns`. */
  function ErrorReports(ns: seq<Notice>): nat
  {
    if ns == [] then 0 else (if ns[0].ErrorSent? then 1 else 0) + ErrorReports(ns[1..])
  }

  lemma ErrorReportsOfOne(a: Notice)
    ensures ErrorReports([a]) == (if a.ErrorSent? then 1 else 0)
  {
    assert [a][1..] == [];
  }

  lemma ErrorReportsOfTwo(a: Notice, b: Notice)
    ensures ErrorReports([a, b]) == (if a.ErrorSent? then 1 else 0) + (if b.ErrorSent? then 1 else 0)
  {
    assert [a, b][1..] == [b];
    ErrorReportsOfOne(b);
  }

  /** The text of the `Timeout` error: the call id and the seconds component of the timeout. */
  function TimeoutMessage(id: Guid, seconds: int): string
  {
    "RPC operation " + Text.NatToString(id) + " timed out after " + Text.IntToString(seconds) + "s"
  }

  datatype Settled = Settled(result: CallResult, notices: seq<Notice>)

  /**
   * The caller-visible result of a wait, and the events it fires, in order. A value comes
   * back only from a result entry without error whose value has the awaited type; an error
   * entry and a timeout each give no value and exactly one error reply; an entry found fires
   * `OnOperationCompleted` (before the cast) or `OnOperationFailed`; a wait cancelled at
   * entry does nothing.
   */
  function Settle(end: WaitEnd, id: Guid, timeoutSeconds: nat, expectedType: int): (s: Settled)
    ensures end.CancelledAtEntry? ==> s == Settled(Returned(None), [])
    ensures s.result.Threw? <==>
              end.Found? && end.entry.exception.None? && end.entry.result.Some?
              && end.entry.result.value.typeIdent != expectedType
    ensures s.result.Threw? ==> s.result.fault == InvalidCast
    ensures s.result.Returned? && s.result.value.Some? ==>
              end.Found? && end.entry.exception.None? && s.result.value == end.entry.result
    ensures ErrorReports(s.notices) == (if end.TimedOut? || (end.Found? && end.entry.exception.Some?) then 1 else 0)
    // An entry without error: `OnOperationCompleted` alone, whether or not the cast then fails.
    ensures end.Found? && end.entry.exception.None? ==>
              s.notices == [OperationCompleted(id, end.entry.methodIdent, end.polls)]
    ensures end.Found? && end.entry.exception.None?
            && (end.entry.result.Some? ==> end.entry.result.value.typeIdent == expectedType) ==>
              s.result == Returned(end.entry.result)
    // An error entry: `OnOperationFailed`, then the error reply to the caller.
    ensures end.Found? && end.entry.exception.Some? ==>
              && s.result == Returned(None)
              && s.notices == [OperationFailed(id, end.entry.methodIdent, end.entry.exception.value),
                               ErrorSent(id, end.entry.exception.value, end.entry.methodIdent)]
    // A timeout: `OnOperationTimeout`, then the Timeout error reply to the caller.
    ensures end.TimedOut? ==>
              && s.result == Returned(None)
              && s.notices == [OperationTimeout(id), ErrorSent(id, Timeout(TimeoutMessage(id, timeoutSeconds % 60)), -1)]
  {
    match end
    case CancelledAtEntry =>
      Settled(Returned(None), [])
    case TimedOut =>
      // The source calls `RpcError.Timeout(id, timeout.Seconds)`, a constructor the record
      // does not have; the model builds the `Timeout` record with a message from both.
      var error := Timeout(TimeoutMessage(id, timeoutSeconds % 60));
      // `OnRpcError` is passed the Guid where it expects the message; the reply names the call by id.
      ErrorReportsOfTwo(OperationTimeout(id), ErrorSent(id, error, -1));
      Settled(Returned(None), [OperationTimeout(id), ErrorSent(id, error, -1)])
    case Found(entry, polls) =>
      if entry.exception.Some? then
        // Here too `OnRpcError` is passed the Guid where it expects the message; the reply
        // names the call by id. The source reads `operation.Exception.Value`, a member the
        // nullable record reference `RpcError?` does not have; the model uses the error itself.
        var ns := [OperationFailed(id, entry.methodIdent, entry.exception.value),
                   ErrorSent(id, entry.exception.value, entry.methodIdent)];
        ErrorReportsOfTwo(ns[0], ns[1]);
        Settled(Returned(None), ns)
      else
        var ns := [OperationCompleted(id, entry.methodIdent, polls)];
        ErrorReportsOfOne(ns[0]);
        if entry.result.None? then Settled(Returned(None), ns)
        else if entry.result.value.typeIdent == expectedType then Settled(Returned(entry.result), ns)
        else Settled(Threw(InvalidCast), ns)
  }

  datatype WaitResponse = WaitResponse(result: CallResult, table: Operations, notices: seq<Notice>)

  /** The whole of `WaitForResponse` on a table and a schedule; `WaitSpecOutcome` says what it means. */
  function WaitSpec(ops: Operations, id: Guid, timeoutSeconds: int, budget: nat,
                    batches: seq<seq<Completion>>, expectedType: int): WaitResponse
  {
    if timeoutSeconds < 0 then WaitResponse(Threw(ArgumentOutOfRange), ops, [])
    else
      var w := Wait(ops, id, batches, budget, 0);
      var s := Settle(w.end, id, timeoutSeconds, expectedType);
      WaitResponse(s.result, w.table, s.notices)
  }

  /**
   * What `WaitForResponse` does. A negative timeout throws before anything happens.
   * Otherwise: a value comes back only from the entry first seen at some poll before the
   * budget ran out, and that entry leaves the table; if no poll sees the id, nothing comes
   * back, every completion of the schedule stays landed, and (unless the token had fired
   * before the first poll) one Timeout reply goes to the caller.
   */
  lemma {:induction false} WaitSpecOutcome(ops: Operations, id: Guid, timeoutSeconds: int, budget: nat,
                                            batches: seq<seq<Completion>>, expectedType: int)
    ensures var r := WaitSpec(ops, id, timeoutSeconds, budget, batches, expectedType);
      timeoutSeconds < 0 ==> r == WaitResponse(Threw(ArgumentOutOfRange), ops, [])
    ensures var r := WaitSpec(ops, id, timeoutSeconds, budget, batches, expectedType);
      r.result.Threw? ==> timeoutSeconds < 0 || r.result.fault == InvalidCast
    ensures ErrorReports(WaitSpec(ops, id, timeoutSeconds, budget, batches, expectedType).notices) <= 1
    ensures var r := WaitSpec(ops, id, timeoutSeconds, budget, batches, expectedType);
      r.result.Returned? && r.result.value.Some? ==>
        exists p: nat :: p < budget && FirstSeenAt(ops, id, batches, p)
          && LandThrough(ops, batches, p)[id].exception.None?
          && LandThrough(ops, batches, p)[id].result == r.result.value
    ensures var r := WaitSpec(ops, id, timeoutSeconds, budget, batches, expectedType);
      timeoutSeconds >= 0 && (exists p: nat :: p < budget && id in LandThrough(ops, batches, p)) ==>
        id !in r.table
    ensures var r := WaitSpec(ops, id, timeoutSeconds, budget, batches, expectedType);
      timeoutSeconds >= 0 ==>
        forall p: nat :: p < budget && FirstSeenAt(ops, id, batches, p) ==>
          && r.table == LandThrough(ops, batches, p) - {id}
          && ErrorReports(r.notices) == (if LandThrough(ops, batches, p)[id].exception.Some? then 1 else 0)
    ensures var r := WaitSpec(ops, id, timeoutSeconds, budget, batches, expectedType);
      timeoutSeconds >= 0 && (forall p: nat :: p < budget ==> id !in LandThrough(ops, batches, p)) ==>
        && r.result == Returned(None)
        && r.table == (if budget == 0 then ops else LandThrough(ops, batches, budget))
        && (budget > 0 ==> r.notices == [OperationTimeout(id), ErrorSent(id, Timeout(TimeoutMessage(id, timeoutSeconds % 60)), -1)])
  {
    WaitCharacterization(ops, id, batches, budget);
  }

  // ---------------------------------------------------------------------------------------
  // The system object
  // ---------------------------------------------------------------------------------------

  class RpcCallbackSystem {
    var handlers: Handlers
    var operations: Operations

    /** A new system starts with both maps empty; registration runs when the scene loads. */
    constructor ()
      ensures handlers == map[] && operations == map[]
    {
      handlers := map[];
      operations := map[];
    }

    /** `Dispose` clears both maps. */
    method Dispose()
      modifies this
      ensures handlers == map[] && operations == map[]
    {
      handlers := map[];
      operations := map[];
    }

    /**
     * `RegisterHandlers`: clear the registry, then register the enumerated candidates in
     * order. A candidate without a callback attribute aborts with an exception (returned
     * here as the offending attribute list) and leaves the registry as built so far.
     * `registered` lists the `OnHandlerRegistered` events. The registry built does not
     * depend on the previous one.
     */
    method RegisterHandlers(candidates: seq<Candidate>, now: Time)
      returns (registered: seq<RpcHandlerInfo>, failure: Option<seq<Attribute>>)
      modifies this
      ensures operations == old(operations)
      ensures handlers == Registry(candidates[..FirstInvalid(candidates)], now)
      ensures registered == Announced(candidates[..FirstInvalid(candidates)], now)
      ensures failure.Some? <==> FirstInvalid(candidates) < |candidates|
      ensures failure.Some? ==> failure.value == candidates[FirstInvalid(candidates)].attributes
    {
      handlers := map[];
      registered := [];
      failure := None;
      var i := 0;
      while i < |candidates|
        invariant i <= FirstInvalid(candidates)
        invariant operations == old(operations)
        invariant handlers == Registry(candidates[..i], now)
        invariant registered == Announced(candidates[..i], now)
      {
        var c := candidates[i];
        RegistryStep(candidates, i, now);
        if FirstCallback(c.attributes).None? {
          assert i == FirstInvalid(candidates);
          failure := Some(c.attributes);
          return;
        }
        var info := InfoOf(c, now);
        if IdentOf(c) in handlers {
          // TryAdd failed: a handler with this ident exists; warn and skip.
          i := i + 1;
          continue;
        }
        handlers := handlers[IdentOf(c) := info];
        registered := registered + [info];
        i := i + 1;
      }
      assert candidates[..i] == candidates;
    }

    /** `CompleteResponse`: record a result for the response's id, unless an entry is there. */
    method CompleteResponse(response: RpcMessage, result: Option<Value>, methodIdent: int, now: Time)
      modifies this
      ensures handlers == old(handlers)
      ensures operations == TryAdd(old(operations), response.id, ResponseEntry(result, methodIdent, now))
    {
      var operation := ResponseEntry(result, methodIdent, now);
      if response.id !in operations {
        operations := operations[response.id := operation];
      }
    }

    /** `CompleteWithError`: record an error for the id, unless an entry is there. */
    method CompleteWithError(id: Guid, exception: RpcError, methodIdent: int, now: Time)
      modifies this
      ensures handlers == old(handlers)
      ensures operations == TryAdd(old(operations), id, ErrorEntry(exception, methodIdent, now))
    {
      var operation := ErrorEntry(exception, methodIdent, now);
      if id !in operations {
        operations := operations[id := operation];
      }
    }

    /** One completion call made by another party while a caller waits. */
    method Accept(c: Completion)
      modifies this
      ensures handlers == old(handlers)
      ensures operations == Land(old(operations), c)
    {
      match c
      case ResponseArrived(response, result, methodIdent, at) =>
        CompleteResponse(response, result, methodIdent, at);
      case ErrorArrived(id, error, methodIdent, at) =>
        CompleteWithError(id, error, methodIdent, at);
    }

    /**
     * `WaitForResponse`: poll the table every 10 ms until the entry for `id` appears or the
     * combined token fires. A found entry is removed and turned into the result. Nothing
     * else in the table changes except through the completions of the schedule.
     */
    method WaitForResponse(id: Guid, timeoutSeconds: int, budget: nat,
                           batches: seq<seq<Completion>>, expectedType: int)
      returns (result: CallResult, notices: seq<Notice>)
      requires timeoutSeconds >= 0 ==> budget <= timeoutSeconds * PollsPerSecond
      modifies this
      ensures handlers == old(handlers)
      ensures WaitSpec(old(operations), id, timeoutSeconds, budget, batches, expectedType)
              == WaitResponse(result, operations, notices)
    {
      if timeoutSeconds < 0 {
        // new CancellationTokenSource(timeout) rejects a negative timeout.
        return Threw(ArgumentOutOfRange), [];
      }
      var polls := 0;
      while polls < budget
        invariant polls <= budget
        invariant handlers == old(handlers)
        invariant Wait(operations, id, batches, budget, polls) == Wait(old(operations), id, batches, budget, 0)
      {
        if id in operations {
          var operation := operations[id];
          operations := operations - {id};
          var s := Settle(Found(operation, polls), id, timeoutSeconds, expectedType);
          return s.result, s.notices;
        }
        // Task.Delay(10): the completions of this interval land in the table.
        var batch := BatchAt(batches, polls);
        ghost var before := operations;
        var k := 0;
        while k < |batch|
          invariant k <= |batch|
          invariant handlers == old(handlers)
          invariant operations == LandAll(before, batch[..k])
        {
          assert batch[..k + 1][..k] == batch[..k];
          Accept(batch[k]);
          k := k + 1;
        }
        assert batch[..k] == batch;
        polls := polls + 1;
      }
      var end := if polls == 0 then CancelledAtEntry else TimedOut;
      var s := Settle(end, id, timeoutSeconds, expectedType);
      result, notices := s.result, s.notices;
    }
  }
}
